/**
 * Firing: while any arrow key is held, every tick appends one bullet at the
 * centre of the player's square. The bullet's velocity is the held arrow
 * directions summed and scaled to BulletSpeed; that scaling uses a square
 * root and is supplied by the caller as `velocity`.
 */
module Firing {
  import opened Entities
  import opened Motion

  /** At least one of the four arrow keys is held. */
  predicate Shooting(keys: set<string>)
  {
    "ArrowUp" in keys || "ArrowRight" in keys || "ArrowDown" in keys || "ArrowLeft" in keys
  }

  /**
   * The summed arrow directions before scaling: right minus left on x, down
   * minus up on y (the canvas's y axis points down).
   */
  function AimDirection(keys: set<string>): (d: (int, int))
    ensures -1 <= d.0 <= 1 && -1 <= d.1 <= 1
    ensures d.0 == 1 <==> "ArrowRight" in keys && "ArrowLeft" !in keys
    ensures d.0 == -1 <==> "ArrowLeft" in keys && "ArrowRight" !in keys
    ensures d.1 == 1 <==> "ArrowDown" in keys && "ArrowUp" !in keys
    ensures d.1 == -1 <==> "ArrowUp" in keys && "ArrowDown" !in keys
  {
    ((if "ArrowRight" in keys then 1 else 0) - (if "ArrowLeft" in keys then 1 else 0),
     (if "ArrowDown" in keys then 1 else 0) - (if "ArrowUp" in keys then 1 else 0))
  }

  /**
   * `velocity` is the aim direction `d` scaled to length BulletSpeed: it is
   * parallel to `d`, points the same way on each axis and has squared length
   * BulletSpeed * BulletSpeed. This is what `dx / length * BULLET_SPEED` and
   * `dy / length * BULLET_SPEED` compute for a non-zero direction.
   */
  predicate ScaledAim(d: (int, int), velocity: (real, real))
  {
    && velocity.0 * (d.1 as real) == velocity.1 * (d.0 as real)
    && velocity.0 * (d.0 as real) >= 0.0
    && velocity.1 * (d.1 as real) >= 0.0
    && velocity.0 * velocity.0 + velocity.1 * velocity.1 == BulletSpeed * BulletSpeed
  }

  /**
   * With a single arrow direction (one axis of the aim zero, the other not),
   * the only velocity scaled to BulletSpeed along it is BulletSpeed times the
   * aim: the bullet moves 10 pixels a tick straight that way.
   */
  lemma {:induction false} AxisAimIsExact(keys: set<string>, velocity: (real, real))
    requires var d := AimDirection(keys); (d.0 == 0) != (d.1 == 0)
    requires ScaledAim(AimDirection(keys), velocity)
    ensures var d := AimDirection(keys);
      velocity == (BulletSpeed * (d.0 as real), BulletSpeed * (d.1 as real))
  {
    var d := AimDirection(keys);
    var (vx, vy) := velocity;
    if d.0 == 0 {
      assert vx == 0.0 && vy * vy == 100.0;
      if d.1 == 1 { SpeedOnAxis(vy); } else { SpeedOnAxis(-vy); }
    } else {
      assert vy == 0.0 && vx * vx == 100.0;
      if d.0 == 1 { SpeedOnAxis(vx); } else { SpeedOnAxis(-vx); }
    }
  }

  /** The non-negative square root of BulletSpeed * BulletSpeed is BulletSpeed. */
  lemma SpeedOnAxis(v: real)
    requires v >= 0.0 && v * v == BulletSpeed * BulletSpeed
    ensures v == BulletSpeed
  {
    ZeroFactor(v - BulletSpeed, v + BulletSpeed);
  }

  lemma ZeroFactor(x: real, y: real)
    requires x * y == 0.0 && y > 0.0
    ensures x == 0.0
  {
  }

  /**
   * Holding only opposite arrows still fires, although the direction to scale
   * is the zero vector (whose scaling divides zero by zero).
   */
  lemma OpposedArrowsFireWithoutDirection()
    ensures var keys := {"ArrowUp", "ArrowDown"}; Shooting(keys) && AimDirection(keys) == (0, 0)
  {
  }

  /**
   * The fire step: with an arrow key held the bullet list grows by exactly one
   * bullet, at the centre of the player's square and moving by `velocity`;
   * otherwise it is unchanged.
   */
  function Fire(bs: seq<Bullet>, p: Position, keys: set<string>, velocity: (real, real)): (r: seq<Bullet>)
    ensures Shooting(keys) ==> |r| == |bs| + 1 && r[..|bs|] == bs
    ensures Shooting(keys) ==> r[|bs|] == Bullet(p.x + PlayerSize / 2.0, p.y + PlayerSize / 2.0, velocity.0, velocity.1)
    ensures !Shooting(keys) ==> r == bs
  {
    if Shooting(keys) then
      bs + [Bullet(p.x + PlayerSize / 2.0, p.y + PlayerSize / 2.0, velocity.0, velocity.1)]
    else bs
  }

  /** A bullet fired by a player inside the arena starts strictly inside the canvas. */
  lemma FireKeepsBulletsInArena(bs: seq<Bullet>, p: Position, keys: set<string>, velocity: (real, real))
    requires PlayerInArena(p)
    requires forall b :: b in bs ==> BulletInArena(b)
    ensures forall b :: b in Fire(bs, p, keys, velocity) ==> BulletInArena(b)
  {
  }
}
