/**
 * The whole game state as one value, the special attack, restart, and one
 * tick of the simulation as an explicit pipeline of steps over that value.
 *
 * The steps run in this order, each one reading the state the previous one
 * produced: move the player, move the bullets, move the enemies and maybe
 * spawn one, resolve bullet hits and player contact, fire, special attack.
 */
module Game {
  import opened Entities
  import opened Motion
  import opened SpawnPolicy
  import opened Collision
  import opened Firing

  // The key that triggers the special attack.
  const SpecialKey: string := " "

  datatype World = World(
    player: Position,
    enemies: seq<Enemy>,
    bullets: seq<Bullet>,
    score: nat,
    gameOver: bool,
    lastSpecialAttack: int,   // wall-clock time of the last special attack, in milliseconds
    specialAttackActive: bool // whether the special attack's flash is showing
  )

  /** The values one tick takes from `Math.random()`, each in [0, 1). */
  datatype Draws = Draws(
    jitter: seq<(real, real)>, // one pair per enemy present at the start of the tick
    spawnCoin: real,
    spawnX: real,
    spawnY: real,
    letter: real,
    size: real
  )

  predicate DrawsFor(d: Draws, enemyCount: int)
  {
    |d.jitter| == enemyCount && JitterDraws(d.jitter) &&
    IsDraw(d.spawnCoin) && IsDraw(d.spawnX) && IsDraw(d.spawnY) && IsDraw(d.letter) && IsDraw(d.size)
  }

  /**
   * The state when the game is first shown: the player at the centre, no
   * enemies or bullets, score 0, the game running, no flash; it satisfies Inv.
   */
  function Initial(): (r: World)
    ensures Inv(r)
    ensures r.enemies == [] && r.bullets == [] && r.score == 0
    ensures !r.gameOver && !r.specialAttackActive
    ensures r.player == Position(CanvasWidth / 2.0, CanvasHeight / 2.0) && r.lastSpecialAttack == 0
  {
    World(Position(CanvasWidth / 2.0, CanvasHeight / 2.0), [], [], 0, false, 0, false)
  }

  /**
   * What every reachable state satisfies: the player square is on the canvas,
   * at most MaxEnemies enemies, each a capital letter of size in [20, 40), and
   * every bullet strictly inside the canvas.
   */
  predicate Inv(w: World)
  {
    && PlayerInArena(w.player)
    && |w.enemies| <= MaxEnemies
    && (forall e :: e in w.enemies ==> WellFormedEnemy(e))
    && (forall b :: b in w.bullets ==> BulletInArena(b))
  }

  // ---- special attack ----

  /** At least SpecialAttackCooldown milliseconds have passed since `last`. */
  predicate CooldownElapsed(last: int, now: int)
  {
    now - last >= SpecialAttackCooldown
  }

  /**
   * The special attack at wall-clock time `now`: once the cooldown has elapsed
   * it clears every enemy, scores one point per enemy cleared, records `now`
   * and shows its flash; during the cooldown it does nothing.
   */
  function SpecialAttack(w: World, now: int): (r: World)
    ensures r.player == w.player && r.bullets == w.bullets && r.gameOver == w.gameOver
    ensures r.score == w.score + (|w.enemies| - |r.enemies|)
    ensures CooldownElapsed(w.lastSpecialAttack, now) ==>
      r.enemies == [] && r.lastSpecialAttack == now && r.specialAttackActive
    ensures !CooldownElapsed(w.lastSpecialAttack, now) ==> r == w
  {
    if CooldownElapsed(w.lastSpecialAttack, now) then
      w.(lastSpecialAttack := now, specialAttackActive := true, enemies := [], score := w.score + |w.enemies|)
    else w
  }

  /** Of two attempts less than the cooldown apart, at most one clears the enemies. */
  lemma SpecialAttackAtMostOncePerCooldown(w: World, t1: int, t2: int)
    requires t1 <= t2 < t1 + SpecialAttackCooldown
    ensures var first := SpecialAttack(w, t1);
      !(CooldownElapsed(w.lastSpecialAttack, t1) && CooldownElapsed(first.lastSpecialAttack, t2))
    ensures CooldownElapsed(w.lastSpecialAttack, t1) ==>
      SpecialAttack(SpecialAttack(w, t1), t2) == SpecialAttack(w, t1)
  {
  }

  /** An attempt exactly one cooldown after a successful one succeeds again. */
  lemma SpecialAttackReadyAfterCooldown(w: World, t1: int)
    requires CooldownElapsed(w.lastSpecialAttack, t1)
    ensures CooldownElapsed(SpecialAttack(w, t1).lastSpecialAttack, t1 + SpecialAttackCooldown)
  {
  }

  /** The effect of the 1000 ms timer the special attack starts: the flash stops showing. */
  function EndSpecialEffect(w: World): (r: World)
    ensures !r.specialAttackActive
    ensures r.(specialAttackActive := w.specialAttackActive) == w
  {
    w.(specialAttackActive := false)
  }

  // ---- restart ----

  /**
   * Restart: the player back at the centre, no enemies or bullets, score 0,
   * game running and the cooldown reset; the flash flag is left as it was.
   */
  function Restart(w: World): (r: World)
    ensures Inv(r)
    ensures r.player == Initial().player && r.enemies == [] && r.bullets == []
    ensures r.score == 0 && !r.gameOver && r.lastSpecialAttack == 0
    ensures r.specialAttackActive == w.specialAttackActive
  {
    w.(player := Position(CanvasWidth / 2.0, CanvasHeight / 2.0), enemies := [], bullets := [],
       score := 0, gameOver := false, lastSpecialAttack := 0)
  }

  /** Restarting from a state whose flash is not showing gives the initial state. */
  lemma RestartReturnsToInitial(w: World)
    requires !w.specialAttackActive
    ensures Restart(w) == Initial()
  {
  }

  // ---- the steps of one tick ----

  function StepPlayer(w: World, keys: set<string>): World
  {
    w.(player := MovePlayer(w.player, keys))
  }

  function StepBullets(w: World): World
  {
    w.(bullets := MoveBullets(w.bullets))
  }

  /** Enemy motion followed by the spawn policy on the enemies that survived it. */
  function StepEnemies(w: World, d: Draws): World
    requires DrawsFor(d, |w.enemies|)
  {
    var moved := MoveEnemies(w.enemies, d.jitter);
    w.(enemies := Spawn(moved, d.spawnCoin, d.spawnX, d.spawnY, d.letter, d.size))
  }

  /**
   * Collision resolution: the enemies no bullet hits survive, the score rises
   * by the number of enemies hit, and the game is over once a survivor
   * overlaps the player.
   */
  function StepCollisions(w: World): (r: World)
    ensures r.enemies == Survivors(w.enemies, w.bullets)
    ensures r.score == w.score + |HitPositions(w.enemies, w.bullets)|
    ensures r.gameOver <==> w.gameOver || exists e :: e in r.enemies && TouchesPlayer(e, w.player)
    ensures r.player == w.player && r.bullets == w.bullets
    ensures r.lastSpecialAttack == w.lastSpecialAttack && r.specialAttackActive == w.specialAttackActive
  {
    var survivors := Survivors(w.enemies, w.bullets);
    KillCount(w.enemies, w.bullets);
    w.(enemies := survivors,
       score := w.score + (|w.enemies| - |survivors|),
       gameOver := w.gameOver || AnyTouchesPlayer(survivors, w.player))
  }

  function StepFire(w: World, keys: set<string>, velocity: (real, real)): World
  {
    w.(bullets := Fire(w.bullets, w.player, keys, velocity))
  }

  /**
   * The special-attack step: the attack goes off exactly when the space key is
   * held and the cooldown has elapsed; otherwise the state is left as it was.
   */
  function StepSpecial(w: World, keys: set<string>, now: int): (r: World)
    ensures r.player == w.player && r.bullets == w.bullets && r.gameOver == w.gameOver
    ensures SpecialKey in keys && CooldownElapsed(w.lastSpecialAttack, now) ==>
      r.enemies == [] && r.score == w.score + |w.enemies| && r.lastSpecialAttack == now && r.specialAttackActive
    ensures !(SpecialKey in keys && CooldownElapsed(w.lastSpecialAttack, now)) ==> r == w
  {
    if SpecialKey in keys then SpecialAttack(w, now) else w
  }

  /**
   * One tick: nothing while the game is over, otherwise the six steps in
   * order. The fire and special-attack steps still run in the tick that ends
   * the game.
   *
   * While the game is over the state stays as it is. Otherwise the player
   * takes the player step, and the bullets are the moved bullets plus, when
   * an arrow key is held, one fired from the centre of the moved player. The
   * score never decreases, and the time of the last special attack changes
   * only to `now`, when the space key is held and the cooldown has elapsed.
   */
  function Tick(w: World, keys: set<string>, d: Draws, velocity: (real, real), now: int): (r: World)
    requires DrawsFor(d, |w.enemies|)
    ensures w.gameOver ==> r == w
    ensures !w.gameOver ==> r.player == MovePlayer(w.player, keys)
    ensures !w.gameOver ==> r.bullets == Fire(MoveBullets(w.bullets), MovePlayer(w.player, keys), keys, velocity)
    ensures r.score >= w.score
    ensures r.lastSpecialAttack == w.lastSpecialAttack ||
      (!w.gameOver && SpecialKey in keys && CooldownElapsed(w.lastSpecialAttack, now) && r.lastSpecialAttack == now)
  {
    if w.gameOver then w
    else
      var w1 := StepBullets(StepPlayer(w, keys));
      var w2 := StepCollisions(StepEnemies(w1, d));
      StepSpecial(StepFire(w2, keys, velocity), keys, now)
  }

  // ---- properties of a tick ----

  /**
   * The special attack is gated per tick: after a tick whose attack goes off
   * at `t1`, a tick at a time `t2` less than the cooldown later leaves the
   * time of the last attack at `t1`, so its attack does not go off.
   */
  lemma TickSpecialAttackGated(w: World, k1: set<string>, d1: Draws, v1: (real, real), t1: int,
                               k2: set<string>, d2: Draws, v2: (real, real), t2: int)
    requires DrawsFor(d1, |w.enemies|)
    requires Tick(w, k1, d1, v1, t1).lastSpecialAttack == t1
    requires DrawsFor(d2, |Tick(w, k1, d1, v1, t1).enemies|)
    requires t1 <= t2 < t1 + SpecialAttackCooldown
    ensures Tick(Tick(w, k1, d1, v1, t1), k2, d2, v2, t2).lastSpecialAttack == t1
  {
  }

  /** A tick keeps every state property of `Inv`. */
  lemma {:induction false} TickPreservesInv(w: World, keys: set<string>, d: Draws, velocity: (real, real), now: int)
    requires DrawsFor(d, |w.enemies|)
    requires Inv(w)
    ensures Inv(Tick(w, keys, d, velocity, now))
  {
    if !w.gameOver {
      var w1 := StepBullets(StepPlayer(w, keys));
      assert w1.enemies == w.enemies;
      var moved := MoveEnemies(w1.enemies, d.jitter);
      forall e | e in moved
        ensures WellFormedEnemy(e)
      {
        MovedEnemyKeepsIdentity(w1.enemies, d.jitter, e);
        var i :| 0 <= i < |w.enemies| && e.letter == w.enemies[i].letter && e.size == w.enemies[i].size;
        assert WellFormedEnemy(w.enemies[i]);
      }
      var w2 := StepEnemies(w1, d);
      var spawned := Spawn(moved, d.spawnCoin, d.spawnX, d.spawnY, d.letter, d.size);
      assert w2.enemies == spawned;
      forall e | e in spawned
        ensures WellFormedEnemy(e)
      {
        var i :| 0 <= i < |spawned| && spawned[i] == e;
        if i < |moved| {
          assert e == spawned[..|moved|][i] == moved[i];
        } else {
          assert i == |moved|;
        }
      }
      var w3 := StepCollisions(w2);
      FireKeepsBulletsInArena(w3.bullets, w3.player, keys, velocity);
    }
  }
}
