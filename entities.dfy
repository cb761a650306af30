/**
 * The constants and the three kinds of entity of the alphabet shooter:
 * the player's position, the letter enemies and the bullets, together with
 * the strict box-overlap test that every collision uses.
 */
module Entities {

  // Arena and entity dimensions, in canvas pixels.
  const CanvasWidth: real := 800.0
  const CanvasHeight: real := 600.0
  const PlayerSize: real := 30.0
  const BulletSize: real := 5.0

  // Distances covered per tick.
  const PlayerSpeed: real := 5.0
  const EnemySpeed: real := 1.0
  // Length of a fired bullet's velocity; the normalisation that uses it is not modelled.
  const BulletSpeed: real := 10.0

  // Minimum wall-clock distance, in milliseconds, between two special attacks.
  const SpecialAttackCooldown: int := 5000

  /** The player's top-left corner; the player is a PlayerSize square. */
  datatype Position = Position(x: real, y: real)

  /** A letter enemy: top-left corner, the glyph it shows, and the side of its square. */
  datatype Enemy = Enemy(x: real, y: real, letter: char, size: int)

  /** A bullet: its position and the displacement it makes every tick. */
  datatype Bullet = Bullet(x: real, y: real, dx: real, dy: real)

  /**
   * Strict axis-aligned overlap of the square with corner (aX, aY) and side
   * aSize and the square with corner (bX, bY) and side bSize: squares that only
   * touch along an edge do not overlap.
   */
  predicate BoxesOverlap(aX: real, aY: real, aSize: real, bX: real, bY: real, bSize: real)
  {
    aX < bX + bSize && aX + aSize > bX && aY < bY + bSize && aY + aSize > bY
  }
}
