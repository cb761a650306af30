/**
 * The collision step: an enemy that overlaps any bullet is removed (once,
 * however many bullets hit it) and scores one point; afterwards the game is
 * over when a surviving enemy overlaps the player.
 */
module Collision {
  import opened Entities
  import opened Seqs

  /** The bullet's BulletSize square strictly overlaps the enemy's square. */
  predicate BulletHits(b: Bullet, e: Enemy)
  {
    BoxesOverlap(b.x, b.y, BulletSize, e.x, e.y, e.size as real)
  }

  /** `bullets.some(...)`: whether any bullet in `bs` hits `e`. */
  function HitByBullet(bs: seq<Bullet>, e: Enemy): (hit: bool)
    ensures hit <==> exists i :: 0 <= i < |bs| && BulletHits(bs[i], e)
  {
    if bs == [] then false
    else if BulletHits(bs[0], e) then true
    else
      var rest := HitByBullet(bs[1..], e);
      assert forall i :: 1 <= i < |bs| ==> bs[i] == bs[1..][i - 1];
      rest
  }

  /** The filter predicate of the collision step: no bullet of `bs` hits the enemy. */
  function NotHit(bs: seq<Bullet>): Enemy -> bool
  {
    e => !HitByBullet(bs, e)
  }

  /** The enemies that no bullet hits, in their original order. */
  function Survivors(es: seq<Enemy>, bs: seq<Bullet>): (r: seq<Enemy>)
    ensures |r| <= |es|
    ensures forall e :: e in r <==> e in es && !HitByBullet(bs, e)
  {
    Filter(NotHit(bs), es)
  }

  /** The positions of `es` holding an enemy that some bullet hits. */
  ghost function HitPositions(es: seq<Enemy>, bs: seq<Bullet>): set<int>
  {
    set i | 0 <= i < |es| && HitByBullet(bs, es[i])
  }

  /**
   * The collision step removes exactly one list entry per enemy that is hit,
   * however many bullets hit it, so the points it scores, the length it
   * removes, equal the number of hit enemies.
   */
  lemma KillCount(es: seq<Enemy>, bs: seq<Bullet>)
    ensures |es| - |Survivors(es, bs)| == |HitPositions(es, bs)|
  {
    FilterDropCount(NotHit(bs), es);
    assert DroppedPositions(NotHit(bs), es) == HitPositions(es, bs);
  }

  /**
   * The collision filter as the game runs it, one enemy at a time: an enemy
   * that a bullet hits is dropped and adds a point, any other is kept. The
   * kept enemies are the survivors, and the points are the number of enemies
   * hit, whatever the number of bullets that hit each.
   */
  method ResolveHits(es: seq<Enemy>, bs: seq<Bullet>) returns (kept: seq<Enemy>, points: nat)
    ensures kept == Survivors(es, bs)
    ensures points == |HitPositions(es, bs)|
  {
    kept, points := [], 0;
    var i := 0;
    while i < |es|
      invariant 0 <= i <= |es|
      invariant kept == Filter(NotHit(bs), es[..i])
      invariant points == i - |kept|
    {
      assert es[..i + 1] == es[..i] + [es[i]];
      FilterSnoc(NotHit(bs), es[..i], es[i]);
      if HitByBullet(bs, es[i]) {
        points := points + 1;
      } else {
        kept := kept + [es[i]];
      }
      i := i + 1;
    }
    assert es[..i] == es;
    KillCount(es, bs);
  }

  /** The surviving enemies keep the relative order they had. */
  lemma SurvivorsKeepOrder(es: seq<Enemy>, bs: seq<Bullet>)
    ensures IsSubsequence(Survivors(es, bs), es)
  {
    FilterIsSubsequence(NotHit(bs), es);
  }

  /** The enemy's square strictly overlaps the player's PlayerSize square at `p`. */
  predicate TouchesPlayer(e: Enemy, p: Position)
  {
    BoxesOverlap(e.x, e.y, e.size as real, p.x, p.y, PlayerSize)
  }

  /** `enemies.some(...)`: whether any enemy in `es` overlaps the player. */
  function AnyTouchesPlayer(es: seq<Enemy>, p: Position): (touched: bool)
    ensures touched <==> exists e :: e in es && TouchesPlayer(e, p)
  {
    if es == [] then false
    else if TouchesPlayer(es[0], p) then true
    else
      var rest := AnyTouchesPlayer(es[1..], p);
      assert forall e :: e in es ==> e == es[0] || e in es[1..];
      rest
  }

  /** A bullet at (100, 100) hits a size-20 enemy at (98, 98): it is removed, scoring one point. */
  lemma OverlappingBulletRemovesEnemy()
    ensures var bs, es := [Bullet(100.0, 100.0, 0.0, 0.0)], [Enemy(98.0, 98.0, 'A', 20)];
      Survivors(es, bs) == [] && |es| - |Survivors(es, bs)| == 1
  {
    var bs, es := [Bullet(100.0, 100.0, 0.0, 0.0)], [Enemy(98.0, 98.0, 'A', 20)];
    assert BulletHits(bs[0], es[0]);
    assert Survivors(es, bs) == [];
  }

  /** A bullet at (100, 100) misses a size-20 enemy at (200, 200): nothing is removed. */
  lemma DistantBulletMisses()
    ensures var bs, es := [Bullet(100.0, 100.0, 0.0, 0.0)], [Enemy(200.0, 200.0, 'A', 20)];
      Survivors(es, bs) == es
  {
    var bs, es := [Bullet(100.0, 100.0, 0.0, 0.0)], [Enemy(200.0, 200.0, 'A', 20)];
    assert !HitByBullet(bs, es[0]);
    assert Survivors(es, bs) == Filter(NotHit(bs), [] + [es[0]]);
  }
}
