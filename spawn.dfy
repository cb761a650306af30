/**
 * The spawn policy: on a tick whose coin falls below SpawnChance, and only
 * while fewer than MaxEnemies enemies remain after motion, one new enemy is
 * appended at a random corner position, with a random capital letter and a
 * random integer size in [20, 40).
 */
module SpawnPolicy {
  import opened Entities
  import opened Motion

  const SpawnChance: real := 0.02
  const MaxEnemies: int := 10

  /** A letter enemy as the spawn policy may create it. */
  predicate WellFormedEnemy(e: Enemy)
  {
    'A' <= e.letter <= 'Z' && 20 <= e.size < 40
  }

  /**
   * The enemy built from four draws: the corner is drawn over the area the
   * player's square can occupy, `String.fromCharCode(65 + floor(rl * 26))`
   * gives the letter and `floor(rs * 20) + 20` the size.
   */
  function SpawnedEnemy(rx: real, ry: real, rl: real, rs: real): (e: Enemy)
    requires IsDraw(rx) && IsDraw(ry) && IsDraw(rl) && IsDraw(rs)
    ensures WellFormedEnemy(e)
    ensures 0.0 <= e.x < MaxPlayerX && 0.0 <= e.y < MaxPlayerY
  {
    var k := (rl * 26.0).Floor;
    Enemy(rx * (CanvasWidth - PlayerSize), ry * (CanvasHeight - PlayerSize),
          (65 + k) as char, (rs * 20.0).Floor + 20)
  }

  /**
   * The spawn step on the enemies that survived motion: the list is kept as a
   * prefix, and it grows by exactly one well-formed enemy when the coin is
   * below SpawnChance and fewer than MaxEnemies enemies are present.
   */
  function Spawn(es: seq<Enemy>, coin: real, rx: real, ry: real, rl: real, rs: real): (r: seq<Enemy>)
    requires IsDraw(coin) && IsDraw(rx) && IsDraw(ry) && IsDraw(rl) && IsDraw(rs)
    ensures |es| <= |r| <= |es| + 1
    ensures r[..|es|] == es
    ensures |r| == |es| + 1 <==> coin < SpawnChance && |es| < MaxEnemies
    ensures |r| == |es| + 1 ==> WellFormedEnemy(r[|es|])
  {
    if coin < SpawnChance && |es| < MaxEnemies then es + [SpawnedEnemy(rx, ry, rl, rs)] else es
  }

  /** Spawning never pushes the population above the cap it started under. */
  lemma SpawnRespectsCap(es: seq<Enemy>, coin: real, rx: real, ry: real, rl: real, rs: real)
    requires IsDraw(coin) && IsDraw(rx) && IsDraw(ry) && IsDraw(rl) && IsDraw(rs)
    ensures |es| <= MaxEnemies ==> |Spawn(es, coin, rx, ry, rl, rs)| <= MaxEnemies
    ensures |es| > MaxEnemies ==> Spawn(es, coin, rx, ry, rl, rs) == es
  {
  }

  /**
   * A spawned enemy need not lie inside the arena the enemy step keeps: its
   * corner is drawn over the area of the player's 30-pixel square, so a large
   * enemy spawned near the right edge sticks out of the canvas and, whatever
   * jitter it then draws, the next enemy step drops it.
   */
  lemma {:induction false} SpawnedEnemyMayVanish(rx: real, ry: real)
    requires IsDraw(rx) && IsDraw(ry)
    ensures var e := SpawnedEnemy(0.99, 0.0, 0.0, 0.99);
      !EnemyInArena(e) && MoveEnemies([e], [(rx, ry)]) == []
  {
    var e := SpawnedEnemy(0.99, 0.0, 0.0, 0.99);
    assert e.size == 39 && e.x == 0.99 * 770.0;
    assert !EnemyInArena(Jitter(e, rx, ry));
  }

  /**
   * An enemy that sticks out by less than half of EnemySpeed can jitter back
   * in: a size-31 enemy spawned at x = 769.3 is 0.3 past the edge, and a
   * jitter draw of 0 on x moves it back onto the canvas, where it survives.
   */
  lemma {:induction false} StickingOutMaySurvive()
    ensures var e := SpawnedEnemy(769.3 / 770.0, 0.0, 0.0, 0.55);
      !EnemyInArena(e) && MoveEnemies([e], [(0.0, 0.5)]) == [Jitter(e, 0.0, 0.5)]
  {
    var e := SpawnedEnemy(769.3 / 770.0, 0.0, 0.0, 0.55);
    assert e.size == 31 && e.x == 769.3 && e.y == 0.0;
    var moved := Jitter(e, 0.0, 0.5);
    assert EnemyInArena(moved);
    assert JitterAll([e], [(0.0, 0.5)]) == [moved];
  }
}
