# Tower defense: the simulation core of `game.js`

This project models the game state of a small browser tower-defense game and
proves properties of it in Dafny. The state is:

- the global `gameState` record: gold, lives, wave, game over;
- the `enemies` array of `Enemy` objects;
- the `towers` array of `Turret` objects;
- the `projectiles` array of laser records.

Every operation of the game changes this state:

- one frame of `drawGame`: turrets, the backward enemy loop, the backward laser loop, the loss check;
- the click handler that buys a turret;
- the spawner and difficulty intervals;
- the revive continuation of the rewarded advert.

The model has three modules:

- `Rules` (rules.dfy) states each operation as a function on values:
  - `EnemyState`, `TurretState`, `Projectile` and `World` are datatypes;
  - `EnemyUpdate`, `TurretUpdate`, `Shoot`, `Tick`, `Place`, `Spawn`,
    `RaiseWave` and `Revive` each map the old state to the new one.
- `Laws` (laws.dfy) proves what those functions guarantee across calls:
  - a state invariant that every operation keeps;
  - the order of the survivors and the life accounting of the enemy loop;
  - the exact lifetime of a laser;
  - the 35-update reload delay of a turret;
  - kill rewards paid exactly once per kill.
- `Engine` (engine.dfy) is the imperative program itself:
  - classes `Enemy`, `Turret` and `Game` whose methods update fields in place;
  - the backward loops that splice inactive enemies and expired lasers out of their lists;
  - the targeting scan that stops at the first enemy in range.

  Each method is proved to leave the state described by its `Rules` function.
  The state is read through `State()` on an object or `Snapshot()` on the game.

Geometry avoids square roots:

- `Math.sqrt(dx*dx + dy*dy) < r` is modelled exactly, as `0 < r && dx*dx + dy*dy < r*r` (`Rules.Within`).
- The normalised movement step `x += (dx / dist) * ENEMY_SPEED` is a function of type `Mover` that the caller supplies. No property depends on what it computes.

Facts about `game.js` that the model keeps as they are:

- A turret shoots the first active enemy in list order that is in range (game.js:125-135).
- Health is not clamped at zero and can go negative (`Laws.OverkillIsNotClamped`).
- There is one kind of enemy and one kind of turret. Turrets have no ammunition and cannot be upgraded or sold. A shot hits only its target. Enemies spawn on a fixed interval for as long as the game is on.

## Model

| member | source | states |
|---|---|---|
| `Rules.NewEnemy` | game.js:65-71 | a new enemy is active at the first waypoint with path index 0, and health = maxHealth = 100 + 15 × wave |
| `Rules.EnemyUpdate` | game.js:74-94 | an inactive enemy is unchanged; an active one with no next waypoint becomes inactive, and that happens exactly when `active` changes; otherwise the path index grows by exactly one when within 0.01 of the waypoint, or the position moves by the step while the index stays; health and maxHealth never change |
| `Rules.Initial` | game.js:35-44 | the game starts with 120 gold, 10 lives, wave 1, not over, and nothing listed |
| `Rules.Escapees` | game.js:77-81 | the number of enemies that leave the path is at most the number listed, and is zero exactly when none is active at the end of the path |
| `Rules.Advance` | game.js:238-243 | the enemy loop leaves no more enemies than it found, and every one left is active |
| `Rules.NewTurret` | game.js:114-119 | a new turret stands at the clicked point, ready to fire (cooldown 0), with range 0.25 |
| `Rules.CoolDown` | game.js:122 | a positive cooldown drops by exactly one and any other stays; position and range are kept; a non-negative cooldown stays non-negative |
| `Rules.FirstTarget` | game.js:125-135 | the index found is in range, and no enemy before it is targetable; no index is found exactly when no enemy is active and in range |
| `Rules.SameAimSameTarget` | game.js:122-126 | the target choice depends only on position and range, not on the cooldown |
| `Rules.Shoot` | game.js:140-155 | a shot sets the cooldown to 35, takes exactly 40 health from the target and changes no other enemy; it appends one laser of life 8 from the turret to the target; it pays 10 gold and deactivates the target exactly when health drops to 0 or below |
| `Rules.TurretUpdate` | game.js:121-138 | position and range are kept; without a shot, the field is unchanged and a positive cooldown drops by one; a shot happens exactly when the cooldown was at most 1 and some active enemy is in range, and it is `Shoot` at the first such enemy |
| `Rules.Fire` | game.js:124-137 | without a shot, turret and field are unchanged; a shot happens exactly when the cooldown is over and some enemy is targetable; it is `Shoot` at the first target |
| `Rules.TowersPhase` | game.js:236 | the turret loop keeps the number of turrets and enemies and never lowers the gold; the lasers listed before it stay, unchanged and in order, ahead of the lasers it appends, each of which has life 8 |
| `Rules.Expire` | game.js:248-256 | the laser loop leaves no more lasers than it found, and every one left has positive life |
| `Rules.TowersStep` | game.js:236 | the turret loop keeps lives, wave and game over, the number of turrets and of enemies, and never lowers the gold |
| `Rules.EnemiesStep` | game.js:238-243 | the enemy loop never raises lives or the number of enemies; every enemy left is active; only the enemy list and lives change |
| `Rules.LasersStep` | game.js:248-256 | the laser loop leaves no more lasers than it found, each with positive life; only the laser list changes |
| `Rules.LossCheck` | game.js:264-267 | the game is over afterwards exactly when it was over or no life is left; nothing else changes |
| `Rules.Tick` | game.js:216-271 | a frame is a no-op once the game is over; otherwise the game ends exactly when no life is left; the wave and the number of turrets are kept; gold never falls and lives never rise; every enemy listed after the frame is active, and every laser has positive life |
| `Rules.Place` | game.js:182-197 | when the game is on and gold ≥ 50, exactly one turret is appended and exactly 50 gold is debited; otherwise nothing changes; gold never becomes negative |
| `Rules.Spawn` | game.js:277-279 | when the game is on, exactly one enemy of the current wave is appended and the others are kept; when it is over, nothing changes; nothing but the enemy list ever changes |
| `Rules.RaiseWave` | game.js:282-284 | the wave grows by one only when the game is on; nothing else changes |
| `Rules.Revive` | game.js:200-213 | success sets lives to 5, adds 150 gold and clears game over; failure changes nothing; enemies, turrets, lasers and wave are untouched either way |
| `Laws.InitialIsConsistent` | game.js:35-44 | the starting state satisfies the game invariant `Consistent` |
| `Laws.TurretUpdateKeepsOk` | game.js:121-155 | a turret update keeps the cooldown within 0..35 and the range fixed; it keeps the gold non-negative, every enemy sound, and laser lives within 1..8 |
| `Laws.TowersPhaseKeepsOk` | game.js:236 | the turret loop keeps the same facts for every turret |
| `Laws.AdvanceKeepsHealthy` | game.js:238-243 | after the enemy loop every listed enemy is active, has positive health not above its maximum, and has a path index on the path |
| `Laws.ExpireBelow` | game.js:248-256 | if every laser's life is at most m before the laser loop, every life left is below m |
| `Laws.TickKeepsConsistent` | game.js:216-271 | a frame keeps the game invariant |
| `Laws.PlaceKeepsConsistent` | game.js:182-197 | buying a turret keeps the game invariant |
| `Laws.SpawnKeepsConsistent` | game.js:277-279 | spawning keeps the game invariant |
| `Laws.RaiseWaveKeepsConsistent` | game.js:282-284 | the difficulty timer keeps the game invariant |
| `Laws.ReviveKeepsConsistent` | game.js:200-213 | reviving keeps the game invariant |
| `Laws.AdvanceAppend` | game.js:238-243 | the enemy loop acts on each enemy separately, so the survivors keep their relative order |
| `Laws.EscapeesAreRemoved` | game.js:238-243 | every enemy that costs a life is removed: the loop on the whole list equals the loop on the enemies before it followed by the loop on those after it; so the survivors plus the lives lost never exceed the enemies listed |
| `Laws.EscapeeRemovedAt` | game.js:238-243 | an enemy at index i that leaves the path is dropped: the loop on the whole list equals the loop on the enemies before i followed by the loop on those after it |
| `Laws.ExpireAppend` | game.js:248-256 | the laser loop acts on each laser separately and keeps their order |
| `Laws.LaserLifetime` | game.js:248-256 | after n laser loops a laser of life L is still listed, with life L − n, exactly when n < L; with `Laws.TickLasers`, a laser shot with life 8 is listed at the end of its own frame and of the next 6, and is gone after the 8th, so it is drawn in 8 frames |
| `Laws.TickLasers` | game.js:216-256 | in a frame that is not over, the lasers listed before it go through the laser loop as they were, followed by the lasers the frame's turret loop appends, each pushed with life 8; the turret loop changes no existing laser |
| `Laws.Reloading` | game.js:121-124 | while reloading, each update takes exactly one off the cooldown, whatever the field |
| `Laws.IdleWhileReloading` | game.js:121-124 | a turret fires at nothing while its cooldown is above 1 |
| `Laws.ReloadAfterShot` | game.js:140-141 | after a shot the next 34 updates fire at nothing, and the 35th finds the turret ready |
| `Laws.TurretRewards` | game.js:151-154 | one turret update never reactivates an enemy, and pays 10 gold per enemy it deactivates |
| `Laws.TowersPhaseRewards` | game.js:236 | over the whole turret loop, gold grows by exactly 10 per enemy made inactive, and no enemy is paid for twice |
| `Laws.TickAccounting` | game.js:236-243 | over a frame, gold grows by 10 per kill and lives fall by one per enemy that leaves the path |
| `Laws.OverkillIsNotClamped` | game.js:142-153 | a shot at an enemy with less than 40 health leaves its health negative, deactivates it and pays 10 gold |
| `Engine.Enemy.constructor` | game.js:65-72 | the new object's state is `NewEnemy` of the game's wave |
| `Engine.Enemy.Update` | game.js:74-94 | the object's new state is `EnemyUpdate` of its old state; the game loses exactly one life when the enemy escapes |
| `Engine.Turret.constructor` | game.js:114-119 | the new object's state is `NewTurret` at the clicked point |
| `Engine.Turret.Update` | game.js:121-138 | the turret and the field it acts on become exactly `TurretUpdate` of their old values |
| `Engine.Turret.Fire` | game.js:124-137 | the `cooldown <= 0` branch of the update, as `Rules.Fire` |
| `Engine.Turret.Aim` | game.js:125-135 | the scan returns `FirstTarget` of the turret over the current enemies, a valid index when there is one |
| `Engine.Turret.Shoot` | game.js:140-155 | the turret and the field become exactly `Rules.Shoot` at the shot enemy's index |
| `Engine.Game.constructor` | game.js:35-44 | the new game is `Initial()`: 120 gold, 10 lives, wave 1, nothing listed |
| `Engine.Game.Place` | game.js:182-197 | the click handler leaves `Rules.Place` of the old state |
| `Engine.Game.WatchAdToRevive` | game.js:200-213 | the advert continuation leaves `Rules.Revive` of the old state and the outcome |
| `Engine.Game.Spawn` | game.js:277-279 | the spawner leaves `Rules.Spawn` of the old state |
| `Engine.Game.RaiseWave` | game.js:282-284 | the difficulty timer leaves `Rules.RaiseWave` of the old state |
| `Engine.Game.Tick` | game.js:216-271 | a frame leaves `Rules.Tick` of the old state, and no object is listed twice |
| `Engine.Game.UpdateTowers` | game.js:236 | the turret loop leaves the turret step of the old state |
| `Engine.Game.SweepTowers` | game.js:236 | turret by turret, the turrets and the field become `TowersPhase` of their old values |
| `Engine.Game.UpdateEnemies` | game.js:238-243 | the enemy loop leaves the enemy step of the old state |
| `Engine.Game.SweepEnemies` | game.js:238-243 | the backward loop leaves `Advance` of the old enemies, minus one life per escapee |
| `Engine.Game.SweepStep` | game.js:239-242 | one turn of the backward loop extends the handled suffix by one enemy |
| `Engine.Game.UpdateEnemyAt` | game.js:239-242 | updating enemy i and splicing it out when inactive leaves the prefix before i alone; from i on, it leaves `Advance` of that one enemy followed by the untouched rest |
| `Engine.Game.UpdateProjectiles` | game.js:248-256 | the laser loop leaves the laser step of the old state |
| `Engine.Game.SweepLasers` | game.js:248-256 | the backward decrement-and-splice loop computes `Expire` of the lasers |
| `Engine.Game.CheckLoss` | game.js:264-267 | the game is marked over exactly when no life is left |

## Left out

- Canvas drawing: every `draw()` method, the path and laser strokes of `drawGame`, and `resize`. They only produce output.
- DOM and HUD updates: the gold, lives and wave text, the red gold flash with its `setTimeout`, the game-over modal and the alert. These are outside the game state.
- The AdsGram SDK and `AdController.show()`: they are a foreign asynchronous service. The advert's outcome is the `granted` parameter of `WatchAdToRevive`.
- The `drawGame()` call after a successful revive: it restarts the frame loop, and is modelled as the caller's next `Tick`.
- `requestAnimationFrame`, and the 1500 ms and 12000 ms `setInterval` periods: they are clock and scheduling semantics. Each tick, spawn and wave step is a method the caller invokes.
- Interleaving of frames: a revive while frames are still running would start a second frame loop. The model has no concurrency.
- Floating-point rounding of `Math.sqrt` and of the normalised step: coordinates are `real`, and the step is the caller's `Mover`.
- `Engine.Game.UpdateProjectiles`: the laser records are immutable datatype values in a sequence, not shared objects. In-place mutation of a laser record, and any aliasing of it, is therefore not modelled. No other code holds these records.
