/**
 * The motion part of one tick: the player moves by the held WASD keys and is
 * clamped into the arena, bullets advance by their velocity and are dropped
 * once they leave the open arena, and enemies drift by a random jitter and are
 * dropped once their square leaves the closed arena.
 */
module Motion {
  import opened Entities
  import opened Seqs

  // Largest coordinates the player's corner may take.
  const MaxPlayerX: real := CanvasWidth - PlayerSize
  const MaxPlayerY: real := CanvasHeight - PlayerSize

  predicate PlayerInArena(p: Position)
  {
    0.0 <= p.x <= MaxPlayerX && 0.0 <= p.y <= MaxPlayerY
  }

  function Max(a: real, b: real): real { if a >= b then a else b }

  function Min(a: real, b: real): real { if a <= b then a else b }

  /** `Math.max(lo, Math.min(hi, v))`: the point of [lo, hi] nearest to `v`. */
  function Clamp(v: real, lo: real, hi: real): (r: real)
    requires lo <= hi
    ensures lo <= r <= hi
    ensures lo <= v <= hi ==> r == v
    ensures v < lo ==> r == lo
    ensures v > hi ==> r == hi
  {
    Max(lo, Min(hi, v))
  }

  /** Displacement along one axis: `back` held subtracts PlayerSpeed, `forward` held adds it. */
  function AxisStep(keys: set<string>, back: string, forward: string): real
  {
    (if back in keys then -PlayerSpeed else 0.0) + (if forward in keys then PlayerSpeed else 0.0)
  }

  /**
   * The player step: "a"/"d" move left/right, "w"/"s" move up/down, and the
   * result is clamped so that the whole player square stays on the canvas.
   */
  function MovePlayer(p: Position, keys: set<string>): (r: Position)
    ensures PlayerInArena(r)
    // a player already inside the arena moves at most PlayerSpeed per axis
    ensures PlayerInArena(p) ==> -PlayerSpeed <= r.x - p.x <= PlayerSpeed
    ensures PlayerInArena(p) ==> -PlayerSpeed <= r.y - p.y <= PlayerSpeed
    // no key (or both opposite keys) on an axis leaves an in-range coordinate alone
    ensures ("a" in keys) == ("d" in keys) && 0.0 <= p.x <= MaxPlayerX ==> r.x == p.x
    ensures ("w" in keys) == ("s" in keys) && 0.0 <= p.y <= MaxPlayerY ==> r.y == p.y
    // one key on an axis moves strictly that way unless the player is already at that wall
    ensures "d" in keys && "a" !in keys && p.x < MaxPlayerX ==> r.x > p.x
    ensures "a" in keys && "d" !in keys && p.x > 0.0 ==> r.x < p.x
    ensures "s" in keys && "w" !in keys && p.y < MaxPlayerY ==> r.y > p.y
    ensures "w" in keys && "s" !in keys && p.y > 0.0 ==> r.y < p.y
    // a single key moves by exactly PlayerSpeed, stopped at the wall
    ensures "d" in keys && "a" !in keys && 0.0 <= p.x ==> r.x == Min(p.x + PlayerSpeed, MaxPlayerX)
    ensures "a" in keys && "d" !in keys && p.x <= MaxPlayerX ==> r.x == Max(p.x - PlayerSpeed, 0.0)
    ensures "s" in keys && "w" !in keys && 0.0 <= p.y ==> r.y == Min(p.y + PlayerSpeed, MaxPlayerY)
    ensures "w" in keys && "s" !in keys && p.y <= MaxPlayerY ==> r.y == Max(p.y - PlayerSpeed, 0.0)
  {
    Position(Clamp(p.x + AxisStep(keys, "a", "d"), 0.0, MaxPlayerX),
             Clamp(p.y + AxisStep(keys, "w", "s"), 0.0, MaxPlayerY))
  }

  /** Holding no movement key leaves a player inside the arena where it is. */
  lemma IdlePlayerStays(p: Position, keys: set<string>)
    requires PlayerInArena(p)
    requires "a" !in keys && "d" !in keys && "w" !in keys && "s" !in keys
    ensures MovePlayer(p, keys) == p
  {
  }

  // ---- bullets ----

  function Advance(b: Bullet): Bullet
  {
    b.(x := b.x + b.dx, y := b.y + b.dy)
  }

  /** A bullet stays alive while its position is strictly inside the canvas. */
  predicate BulletInArena(b: Bullet)
  {
    0.0 < b.x < CanvasWidth && 0.0 < b.y < CanvasHeight
  }

  /** Every bullet moved by its velocity, in the same order. */
  function AdvanceAll(bs: seq<Bullet>): (r: seq<Bullet>)
    ensures |r| == |bs|
    ensures forall i :: 0 <= i < |bs| ==> r[i] == Advance(bs[i])
  {
    seq(|bs|, i requires 0 <= i < |bs| => Advance(bs[i]))
  }

  /**
   * The bullet step: every bullet advances, and exactly the advanced bullets
   * still strictly inside the canvas survive.
   */
  function MoveBullets(bs: seq<Bullet>): (r: seq<Bullet>)
    ensures |r| <= |bs|
    ensures forall b :: b in r ==> BulletInArena(b)
    ensures forall b :: b in r <==> BulletInArena(b) && exists i :: 0 <= i < |bs| && b == Advance(bs[i])
  {
    Filter(BulletInArena, AdvanceAll(bs))
  }

  /** The surviving bullets keep the relative order they had. */
  lemma MoveBulletsKeepsOrder(bs: seq<Bullet>)
    ensures IsSubsequence(MoveBullets(bs), AdvanceAll(bs))
  {
    FilterIsSubsequence(BulletInArena, AdvanceAll(bs));
  }

  // ---- enemies ----

  /** A uniform draw from [0, 1), the range of `Math.random()`. */
  predicate IsDraw(r: real)
  {
    0.0 <= r < 1.0
  }

  /** One draw per axis for every enemy. */
  predicate JitterDraws(jitter: seq<(real, real)>)
  {
    forall i :: 0 <= i < |jitter| ==> IsDraw(jitter[i].0) && IsDraw(jitter[i].1)
  }

  /** The enemy displaced by `(rx - 0.5) * EnemySpeed` and `(ry - 0.5) * EnemySpeed`. */
  function Jitter(e: Enemy, rx: real, ry: real): Enemy
  {
    e.(x := e.x + (rx - 0.5) * EnemySpeed, y := e.y + (ry - 0.5) * EnemySpeed)
  }

  /** An enemy survives while its whole square is on the canvas (edges included). */
  predicate EnemyInArena(e: Enemy)
  {
    0.0 <= e.x <= CanvasWidth - e.size as real && 0.0 <= e.y <= CanvasHeight - e.size as real
  }

  function JitterAll(es: seq<Enemy>, jitter: seq<(real, real)>): (r: seq<Enemy>)
    requires |jitter| == |es|
    ensures |r| == |es|
    ensures forall i :: 0 <= i < |es| ==> r[i] == Jitter(es[i], jitter[i].0, jitter[i].1)
  {
    seq(|es|, i requires 0 <= i < |es| => Jitter(es[i], jitter[i].0, jitter[i].1))
  }

  /**
   * The enemy step: enemy i moves by the jitter drawn for it, and exactly the
   * moved enemies whose square is still on the canvas survive.
   */
  function MoveEnemies(es: seq<Enemy>, jitter: seq<(real, real)>): (r: seq<Enemy>)
    requires |jitter| == |es|
    ensures |r| <= |es|
    ensures forall e :: e in r ==> EnemyInArena(e)
    ensures forall e :: e in r <==>
      EnemyInArena(e) && exists i :: 0 <= i < |es| && e == Jitter(es[i], jitter[i].0, jitter[i].1)
  {
    Filter(EnemyInArena, JitterAll(es, jitter))
  }

  /** The surviving enemies keep the relative order they had. */
  lemma MoveEnemiesKeepsOrder(es: seq<Enemy>, jitter: seq<(real, real)>)
    requires |jitter| == |es|
    ensures IsSubsequence(MoveEnemies(es, jitter), JitterAll(es, jitter))
  {
    FilterIsSubsequence(EnemyInArena, JitterAll(es, jitter));
  }

  /**
   * A surviving enemy is some input enemy with the same letter and size,
   * displaced by at most half of EnemySpeed on each axis.
   */
  lemma MovedEnemyKeepsIdentity(es: seq<Enemy>, jitter: seq<(real, real)>, e: Enemy)
    requires |jitter| == |es| && JitterDraws(jitter)
    requires e in MoveEnemies(es, jitter)
    ensures exists i :: 0 <= i < |es| && e.letter == es[i].letter && e.size == es[i].size &&
              -0.5 * EnemySpeed <= e.x - es[i].x < 0.5 * EnemySpeed &&
              -0.5 * EnemySpeed <= e.y - es[i].y < 0.5 * EnemySpeed
  {
    var i :| 0 <= i < |es| && e == Jitter(es[i], jitter[i].0, jitter[i].1);
    assert IsDraw(jitter[i].0) && IsDraw(jitter[i].1);
  }
}
