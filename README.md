# Alphabet Shooter — simulation core in Dafny

Alphabet Shooter is a small browser arcade game: the player, a letter "Z",
moves with the WASD keys, fires bullets with the arrow keys, and destroys
drifting capital-letter enemies. A hit scores a point. The space key
triggers a special attack that clears every enemy, at most once per five
seconds. The game ends when an enemy touches the player, and a restart
button starts a new game.

This project models the game's simulation core, which lives in
`components/alphabet-shooter.tsx`: the state the component keeps, one
60 Hz tick of the game loop, the special attack and restart.

- `seqs.dfy` (module `Seqs`): the list `filter` every step uses, proved to
  keep exactly the elements that pass, in order, and to drop one element per
  failing position.
- `entities.dfy` (module `Entities`): the constants, the `Position`, `Enemy`
  and `Bullet` records, and the strict box-overlap test.
- `motion.dfy` (module `Motion`): the player step (move by the held keys,
  then clamp to the canvas), the bullet step (advance, then drop bullets that
  leave the open canvas) and the enemy step (jitter, then drop enemies whose
  square leaves the closed canvas).
- `spawn.dfy` (module `SpawnPolicy`): the per-tick spawn of at most one enemy
  under the population cap of 10.
- `collision.dfy` (module `Collision`): removal of the enemies that a bullet
  hits, and the enemy–player contact test.
- `firing.dfy` (module `Firing`): the bullet appended while an arrow key is
  held.
- `game.dfy` (module `Game`): the whole state as a value (`World`), the
  special attack, restart, one tick as a function `Tick` that composes the
  steps, the state invariant `Inv` and the lemmas about a tick.
- `simulation.dfy` (module `Simulation`): the class `Shooter`, whose fields
  are the component's state variables and whose methods update them in place
  step by step. Each method is proved to have the effect of the matching
  function in `Game`.

One tick is modelled as one explicit ordered pipeline over a single state.
Each step reads the state the previous step left:

1. move the player;
2. move the bullets;
3. move the enemies, then maybe spawn one;
4. remove the enemies hit by a bullet and score them, then set game over if a
   surviving enemy touches the player;
5. fire;
6. run the special attack if the space key is held.

The component runs the same steps as React state updates inside one interval
callback, and some of them read the values captured when the component last
rendered. The collision test (line 124) reads the bullets from before this
tick's move. The contact test (line 139) reads the player from before this
tick's move. The special attack (line 66) scores the enemy count from the
last render. The fire step (lines 163-164) places the new bullet at the
player as it was at the last render, before this tick's move. The model
follows the step order instead: collisions use this tick's moved bullets,
contact uses the moved player, the fire step fires from the moved player, and
the special attack scores the enemies left after collisions. That way nothing
is scored twice. For example, a player at (100, 100) holding "d" and
"ArrowRight" fires from (115, 115) in the component and from (120, 115) in the
model.

The tick that sets game over still runs its fire and special-attack steps,
as the component's callback does after `clearInterval`. Every later tick leaves
the state unchanged.

`Math.random()` draws are parameters of a tick (the `Draws` record), each in
[0, 1). `Date.now()` is the integer parameter `now`, in milliseconds. The
held keys are a `set<string>` given to each tick. Positions are `real`.

A spawned enemy's corner is drawn over the area the player's 30-pixel square
can take (lines 111-112), not the area its own square fits in. So an enemy of
size up to 39 can appear sticking out of the right or bottom edge. An enemy
that sticks out by more than half a pixel (half of ENEMY_SPEED) is removed by
the next enemy step whatever jitter it draws: `SpawnPolicy.SpawnedEnemyMayVanish`
shows this for a size-39 enemy at x = 762.3. One that sticks out by less may
jitter back in: `SpawnPolicy.StickingOutMaySurvive` shows a size-31 enemy at
x = 769.3 that a jitter draw of 0 brings back onto the canvas. This is what
the code does; the model keeps it.

## Model

| member | source | states |
|---|---|---|
| `Seqs.Filter` | components/alphabet-shooter.tsx:93-96 | `filter` keeps an element exactly when it is in the input and passes the predicate, and never lengthens the list |
| `Seqs.FilterIsSubsequence` | components/alphabet-shooter.tsx:93-96 | `filter` keeps its survivors in their original relative order: the result is a subsequence of the input |
| `Seqs.FilterDropCount` | components/alphabet-shooter.tsx:123-136 | the length `filter` removes equals the number of positions whose element fails the predicate |
| `Motion.Clamp` | components/alphabet-shooter.tsx:83-84 | `Math.max(lo, Math.min(hi, v))` is the point of [lo, hi] nearest to v: v itself inside, lo below, hi above |
| `Motion.MovePlayer` | components/alphabet-shooter.tsx:75-86 | after the player step `0 <= x <= 770` and `0 <= y <= 570` whatever keys are held; an in-arena player moves at most 5 per axis; an axis with no key (or both keys) keeps an in-range coordinate; a single key moves strictly that way unless the player is at that wall, by exactly 5 (PLAYER_SPEED) stopped at the wall: "d" gives `min(x + 5, 770)`, "a" `max(x - 5, 0)`, "s" `min(y + 5, 570)`, "w" `max(y - 5, 0)` |
| `Motion.IdlePlayerStays` | components/alphabet-shooter.tsx:75-86 | with no WASD key held an in-arena player does not move |
| `Motion.MoveBullets` | components/alphabet-shooter.tsx:89-96 | every surviving bullet is strictly inside the canvas, and a bullet survives exactly when it is some input bullet shifted by its own (dx, dy) and strictly inside the canvas |
| `Motion.MoveBulletsKeepsOrder` | components/alphabet-shooter.tsx:89-96 | the surviving bullets are a subsequence of the shifted list |
| `Motion.MoveEnemies` | components/alphabet-shooter.tsx:99-107 | every surviving enemy satisfies `0 <= x <= 800 - size` and `0 <= y <= 600 - size`, and an enemy survives exactly when it is some input enemy displaced by its own jitter and inside those bounds |
| `Motion.MoveEnemiesKeepsOrder` | components/alphabet-shooter.tsx:99-107 | the surviving enemies are a subsequence of the jittered list |
| `Motion.MovedEnemyKeepsIdentity` | components/alphabet-shooter.tsx:100-107 | with draws in [0, 1) a surviving enemy has the letter and size of some input enemy and lies within half of ENEMY_SPEED of it on each axis |
| `SpawnPolicy.SpawnedEnemy` | components/alphabet-shooter.tsx:110-115 | a spawned enemy has a letter in 'A'..'Z', an integer size in [20, 40), and a corner in [0, 770) × [0, 570) |
| `SpawnPolicy.Spawn` | components/alphabet-shooter.tsx:109-116 | spawning keeps the moved enemies as a prefix, appends at most one enemy, appends one exactly when the coin is below 0.02 and fewer than 10 enemies are present, and the appended enemy is well formed |
| `SpawnPolicy.SpawnRespectsCap` | components/alphabet-shooter.tsx:109-116 | a population of at most 10 stays at most 10 after spawning; a larger one is left unchanged |
| `SpawnPolicy.SpawnedEnemyMayVanish` | components/alphabet-shooter.tsx:104-114 | an enemy can be spawned partly outside the canvas: a size-39 enemy at x = 762.3 sticks out by more than half a pixel, and the next enemy step then drops it whatever jitter it draws |
| `SpawnPolicy.StickingOutMaySurvive` | components/alphabet-shooter.tsx:104-114 | a spawned enemy sticking out by less than half a pixel (size 31 at x = 769.3) can jitter back onto the canvas and survive the next enemy step |
| `Collision.HitByBullet` | components/alphabet-shooter.tsx:124-129 | `bullets.some(...)` is true exactly when some bullet's 5-pixel square strictly overlaps the enemy's square |
| `Collision.Survivors` | components/alphabet-shooter.tsx:123-136 | the collision filter keeps exactly the enemies that no bullet hits, and never lengthens the list |
| `Collision.KillCount` | components/alphabet-shooter.tsx:123-136 | the number of enemies removed, which is the number of points scored, equals the number of enemies hit; an enemy hit by several bullets is removed once and counted once |
| `Collision.ResolveHits` | components/alphabet-shooter.tsx:123-136 | the filter run one enemy at a time, adding a point per dropped enemy, keeps exactly the survivors and scores exactly the number of enemies hit |
| `Collision.SurvivorsKeepOrder` | components/alphabet-shooter.tsx:123-136 | the enemies that survive the collision step keep their relative order |
| `Collision.AnyTouchesPlayer` | components/alphabet-shooter.tsx:138-143 | `enemies.some(...)` is true exactly when some enemy's square strictly overlaps the player's 30-pixel square |
| `Collision.OverlappingBulletRemovesEnemy` | components/alphabet-shooter.tsx:124-133 | a bullet at (100, 100) removes a size-20 enemy at (98, 98) and scores one point |
| `Collision.DistantBulletMisses` | components/alphabet-shooter.tsx:124-135 | a bullet at (100, 100) leaves a size-20 enemy at (200, 200) in place |
| `Firing.AimDirection` | components/alphabet-shooter.tsx:152-160 | the unscaled direction is right minus left and down minus up, each component in {-1, 0, 1} |
| `Firing.AxisAimIsExact` | components/alphabet-shooter.tsx:158-166 | with a single arrow direction, the only velocity parallel to the aim, pointing its way and of length 10 is 10 times the aim, as `dx / length * BULLET_SPEED` gives when the length is 1 |
| `Firing.OpposedArrowsFireWithoutDirection` | components/alphabet-shooter.tsx:158-166 | holding only ArrowUp and ArrowDown still fires, with the zero vector as the direction to scale |
| `Firing.Fire` | components/alphabet-shooter.tsx:158-168 | with an arrow key held exactly one bullet is appended, at (player.x + 15, player.y + 15), after the unchanged old list; with none held the list is unchanged |
| `Firing.FireKeepsBulletsInArena` | components/alphabet-shooter.tsx:162-164 | a bullet fired by an in-arena player starts strictly inside the canvas, so firing keeps every bullet inside it |
| `Game.SpecialAttack` | components/alphabet-shooter.tsx:57-68 | once `now - last >= 5000` the attack empties the enemies, adds the previous enemy count to the score, records `now` and sets the flash flag; before that it changes nothing; player, bullets and game-over never change |
| `Game.SpecialAttackAtMostOncePerCooldown` | components/alphabet-shooter.tsx:57-68 | of two attempts less than 5000 ms apart at most one clears the enemies, and after a successful one the second changes nothing |
| `Game.SpecialAttackReadyAfterCooldown` | components/alphabet-shooter.tsx:59-60 | an attempt exactly 5000 ms after a successful one passes the cooldown check |
| `Game.EndSpecialEffect` | components/alphabet-shooter.tsx:62 | the timer callback clears the flash flag and changes nothing else |
| `Game.Restart` | components/alphabet-shooter.tsx:220-227 | restart puts the player at (400, 300), empties enemies and bullets, sets score 0, game-over false and the last attack time 0, leaves the flash flag as it was, and yields a state satisfying `Inv` |
| `Game.Initial` | components/alphabet-shooter.tsx:32-39 | the `useState` initial values: the player at (400, 300), no enemies or bullets, last attack time 0, score 0, game running, no flash; the state satisfies `Inv` |
| `Game.RestartReturnsToInitial` | components/alphabet-shooter.tsx:220-227 | restarting from any state whose flash is not showing gives exactly the initial state |
| `Game.StepCollisions` | components/alphabet-shooter.tsx:122-149 | the collision step keeps exactly the unhit enemies, raises the score by the number of enemies hit, and sets game over exactly when a surviving enemy touches the player; nothing else changes |
| `Game.StepSpecial` | components/alphabet-shooter.tsx:171-173 | the special attack goes off exactly when the space key is held and the cooldown has elapsed, emptying the enemies, scoring them and recording `now`; otherwise the state is unchanged; player, bullets and game over never change |
| `Game.Tick` | components/alphabet-shooter.tsx:70-174 | while game over is set a tick changes nothing; otherwise it runs the six steps in pipeline order, so the player takes the player step and the bullets are the moved bullets plus, while an arrow key is held, one fired from the moved player; the score never decreases; the last attack time changes only to `now`, with the space key held and the cooldown elapsed |
| `Game.TickSpecialAttackGated` | components/alphabet-shooter.tsx:59-60 | after a tick whose special attack goes off at t1, a tick at any t2 in [t1, t1 + 5000) leaves the last attack time at t1, so its attack does not go off |
| `Game.TickPreservesInv` | components/alphabet-shooter.tsx:73-174 | a tick keeps the invariant: player in the arena, at most 10 enemies each a capital letter of size in [20, 40), every bullet strictly inside the canvas |
| `Simulation.Shooter.constructor` | components/alphabet-shooter.tsx:32-39 | the component starts with the player at the centre, no enemies or bullets, score 0, game running, last attack at time 0 and no flash |
| `Simulation.Shooter.PerformSpecialAttack` | components/alphabet-shooter.tsx:57-68 | the in-place special attack has the effect of `Game.SpecialAttack` |
| `Simulation.Shooter.EndSpecialEffect` | components/alphabet-shooter.tsx:62 | the in-place timer callback has the effect of `Game.EndSpecialEffect` |
| `Simulation.Shooter.Restart` | components/alphabet-shooter.tsx:220-227 | the in-place restart has the effect of `Game.Restart` and establishes `Inv` |
| `Simulation.Shooter.MoveEntities` | components/alphabet-shooter.tsx:74-119 | the in-place player, bullet and enemy steps, with spawning by appending, have the effect of those three steps of `Game.Tick` |
| `Simulation.Shooter.CheckCollisions` | components/alphabet-shooter.tsx:121-149 | the in-place collision step, which drops and scores hit enemies and then sets game over on contact, has the effect of `Game.StepCollisions` |
| `Simulation.Shooter.FireBullet` | components/alphabet-shooter.tsx:151-168 | the in-place fire step has the effect of `Firing.Fire` on the bullet list |
| `Simulation.Shooter.Tick` | components/alphabet-shooter.tsx:70-174 | one in-place tick has the effect of `Game.Tick` |

## Left out

- Keyboard listener registration and removal (lines 41-55): DOM plumbing. Its result is the set of held keys given to each tick.
- Canvas rendering (lines 179-218) and the JSX, fonts and buttons (lines 229-263): user interface.
- `setInterval`, `clearInterval` and `setTimeout` scheduling (lines 62, 73, 145, 176): timers. The model runs one tick per call, and `EndSpecialEffect` is the timeout's callback, run whenever the caller chooses.
- `Math.random()` and `Date.now()`: foreign nondeterminism, passed in as the `Draws` record (each draw in [0, 1)) and the integer `now`.
- The bullet velocity normalisation with `Math.sqrt` (lines 161-166): floating point. The scaled velocity is an opaque parameter of the tick. In particular the model does not capture that holding only opposite arrows gives a NaN velocity.
- Firing.Fire: does not state that the velocity has length 10 (BULLET_SPEED), because the velocity is a parameter. `Firing.ScaledAim` states what the scaling computes for a non-zero aim, and `Firing.AxisAimIsExact` proves the single-direction case exact. `Fire` and `Game.Tick` still take any velocity, so the tick does not tie the bullet's velocity to `AimDirection`.
- React's batching of state updates and its stale closures (dependency list at line 177): replaced by the explicit ordered pipeline described above. The model does not capture the stale reads at lines 124, 139 and 66. It also does not capture that the fire step (lines 163-164) uses the player from before the move: the model fires from the moved player.
- Floating-point arithmetic in general: positions are exact rationals (`real`), so rounding in the component's `number` arithmetic is not modelled.
