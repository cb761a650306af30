/**
 * The game component's mutable state and the code that updates it in place:
 * the tick run by the interval timer, the special attack, and restart. Each
 * method is specified by the function of module Game that describes its
 * effect on the whole state, so the properties proved there carry over.
 */
module Simulation {
  import opened Entities
  import opened Motion
  import opened SpawnPolicy
  import opened Collision
  import opened Firing
  import opened Game

  class Shooter {
    var player: Position
    var enemies: seq<Enemy>
    var bullets: seq<Bullet>
    var score: nat
    var gameOver: bool
    var lastSpecialAttack: int
    var specialAttackActive: bool

    /** The component's state as a value. */
    function State(): World
      reads this
    {
      World(player, enemies, bullets, score, gameOver, lastSpecialAttack, specialAttackActive)
    }

    /** The state the component starts in, which satisfies `Inv`. */
    constructor ()
      ensures State() == Initial()
      ensures Inv(State())
    {
      player := Position(CanvasWidth / 2.0, CanvasHeight / 2.0);
      enemies := [];
      bullets := [];
      score := 0;
      gameOver := false;
      lastSpecialAttack := 0;
      specialAttackActive := false;
    }

    /** The special attack, gated by the cooldown. */
    method PerformSpecialAttack(now: int)
      modifies this
      ensures State() == SpecialAttack(old(State()), now)
    {
      if now - lastSpecialAttack >= SpecialAttackCooldown {
        lastSpecialAttack := now;
        specialAttackActive := true;
        score := score + |enemies|;
        enemies := [];
      }
    }

    /** The timer callback that hides the special attack's flash. */
    method EndSpecialEffect()
      modifies this
      ensures State() == Game.EndSpecialEffect(old(State()))
    {
      specialAttackActive := false;
    }

    /** Restart after a game over; the flash flag is not touched. */
    method Restart()
      modifies this
      ensures State() == Game.Restart(old(State()))
      ensures Inv(State())
    {
      player := Position(CanvasWidth / 2.0, CanvasHeight / 2.0);
      enemies := [];
      bullets := [];
      score := 0;
      gameOver := false;
      lastSpecialAttack := 0;
    }

    /**
     * The collision step: hit enemies are dropped and scored, then the game is
     * over if a kept enemy overlaps the player.
     */
    method CheckCollisions()
      modifies this
      ensures State() == StepCollisions(old(State()))
    {
      var kept, points := ResolveHits(enemies, bullets);
      score := score + points;
      enemies := kept;
      if AnyTouchesPlayer(enemies, player) {
        gameOver := true;
      }
    }

    /**
     * The motion steps of a tick: the player, then the bullets, then the
     * enemies, and the spawn policy appending at most one enemy in place.
     */
    method MoveEntities(keys: set<string>, d: Draws)
      requires DrawsFor(d, |enemies|)
      modifies this
      ensures State() == StepEnemies(StepBullets(StepPlayer(old(State()), keys)), d)
    {
      player := MovePlayer(player, keys);
      bullets := MoveBullets(bullets);
      enemies := MoveEnemies(enemies, d.jitter);
      if d.spawnCoin < SpawnChance && |enemies| < MaxEnemies {
        enemies := enemies + [SpawnedEnemy(d.spawnX, d.spawnY, d.letter, d.size)];
      }
    }

    /** The fire step: one bullet at the player's centre while an arrow key is held. */
    method FireBullet(keys: set<string>, velocity: (real, real))
      modifies this
      ensures State() == StepFire(old(State()), keys, velocity)
    {
      ghost var fired := Fire(bullets, player, keys, velocity);
      if Shooting(keys) {
        bullets := bullets + [Bullet(player.x + PlayerSize / 2.0, player.y + PlayerSize / 2.0, velocity.0, velocity.1)];
        assert bullets == fired;
      } else {
        assert bullets == fired;
      }
    }

    /**
     * One tick of the interval timer with the held keys, the tick's random
     * draws, the scaled bullet velocity and the wall-clock time.
     */
    method Tick(keys: set<string>, d: Draws, velocity: (real, real), now: int)
      requires DrawsFor(d, |enemies|)
      modifies this
      ensures State() == Game.Tick(old(State()), keys, d, velocity, now)
    {
      if gameOver {
        return;
      }
      MoveEntities(keys, d);
      CheckCollisions();
      FireBullet(keys, velocity);
      if SpecialKey in keys {
        PerformSpecialAttack(now);
      }
    }
  }
}
