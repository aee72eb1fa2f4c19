# jMonkey vibe game — a verified model of the game logic

This project models the rules of a small jMonkeyEngine action RPG: an
overworld laid out from weighted random tiles; a dungeon of random
non-overlapping rooms joined by L-shaped corridors; a player whose four
stats feed derived combat values and who levels up on experience; enemies of
four kinds that walk toward the player; projectiles with a lifetime that hit
at most once; a combat manager that runs one frame of projectiles,
collisions and dead-enemy removal; quests and a random quest generator; NPC
conversations with a language model, a bounded per-NPC history and a
fallback line; a gamepad layer with deadzones, edge-triggered button flags
and a D-pad hat; and the four screens (dialog, health bar, level-up, game
over) whose cursor, text and callbacks carry game logic.

Each Java class that updates its own fields is a Dafny `class` with those
fields. Its methods state their new state as a pure step function of the old
one, e.g. `Snapshot() == Frame(old(Snapshot()), tpf)`. The properties the
game relies on are proved as lemmas about those step functions. Loops stay
loops: the collision pass, the dead-enemy filter, enemy attacks, the dungeon
placement and carving loops, the overworld loops, the prompt builder and the
dialog slots are `while`/`for` loops with invariants. Each one is proved
equal to a closed-form function.

These things become parameters:
- random draws: explicit numbers below the bound `nextInt` is given, or a
  sequence of `nextFloat` results;
- `Vector3f.normalize`: a function argument;
- the language model: a function returning `None` where it throws;
- `Enemy.tryAttackPlayer`: a function argument;
- the number of joysticks.

Floats are reals. Java's `/` and `%` on `int`, `(int)` casts and
`Math.round` are written out in `Common`. Distances are compared through
squares, and `Common.DistanceTestAgrees` links that to the engine's
square-root test.

Points where the code is narrower than a reader might expect:
- The combat manager refuses to fire while its own fixed 0.15 s cooldown
  runs. The player's dexterity-based `getFireCooldown` is not consulted
  there.
- `spawnEnemy` places the enemy exactly where it is asked. There is no
  search for a walkable cell.
- `Enemy.update` moves straight toward the player. There is no wall sliding.
- Enemy attacks are whatever `tryAttackPlayer` returns. That method is not
  part of this model, so range and attack cooldown are not modelled.
- Enemies appear only through `CombatManager.spawnEnemy`.
- The quest builders' comments give reward ranges one above what
  `nextInt(n) + base` can produce (e.g. "50-100" where 99 is the maximum).
  The model uses the code's ranges. `QuestGen.EveryRewardReachable` shows
  that every value in them is reachable.

Two behaviours of the code are modelled as written and exhibited by lemmas:
- The game-over screen reads A and then B in one `update`. A frame with both
  pressed confirms twice (`GameOverScreen.AAndBTogetherCallTwice`).
- The gamepad's first-match name tests send "Back" and "Start" to A, and a
  bumper or "Button 10" to B (`Gamepad.NamesShadowedByEarlierTests`).

## Model

| member | source | states |
|---|---|---|
| Common.DistanceTestAgrees | src/main/java/com/jmonkeyvibe/game/entities/Projectile.java:67-76 | for any candidate distance s >= 0 whose square is the squared distance, `s <= radius` holds exactly when the square-free radius test does |
| Common.Damaged | src/main/java/com/jmonkeyvibe/game/entities/Enemy.java:66-68 | `max(0, health - damage)` is never negative, and is exactly health - damage unless that is negative, when it is zero |
| Common.DamagedByBounds | src/main/java/com/jmonkeyvibe/game/entities/Player.java:108-110 | a run of non-negative hits leaves max(0, health - total): health never rises nor drops below zero, and is gone once the hits add up to the starting health |
| Common.DeadStaysDead | src/main/java/com/jmonkeyvibe/game/entities/Enemy.java:66-72 | a target at zero health stays at zero under any further non-negative hits |
| Common.JavaDiv | src/main/java/com/jmonkeyvibe/game/world/WorldGenerator.java:32-33 | Java's int division by a positive divisor rounds toward zero: the floor quotient for a non-negative dividend, minus the quotient of its magnitude for a negative one |
| Common.JavaRem | src/main/java/com/jmonkeyvibe/game/ui/GameOverUI.java:321-324 | Java's remainder completes the truncating quotient to the dividend, takes the dividend's sign, and is smaller than the divisor in magnitude |
| Common.Truncate | src/main/java/com/jmonkeyvibe/game/ui/HealthBarUI.java:121 | a `(int)` cast drops the fraction toward zero: the result is within one of the value, toward zero |
| Common.Round | src/main/java/com/jmonkeyvibe/game/world/DungeonGenerator.java:109-110 | `Math.round` gives the integer within half of the value, with halves going up |
| Common.SelectByMembership | src/main/java/com/jmonkeyvibe/game/combat/CombatManager.java:82-89 | an element survives an `Iterator.remove` filter exactly when some flagged position holds it |
| Common.SelectByDistinct | src/main/java/com/jmonkeyvibe/game/combat/CombatManager.java:82-89 | filtering a list without duplicate objects leaves one without duplicates |
| Common.SelectByPositions | src/main/java/com/jmonkeyvibe/game/combat/CombatManager.java:82-89 | the filter keeps the same positions whatever the list holds: its k-th element is the list's element at the k-th flagged position |
| Text.IntToStringRoundTrip | src/main/java/com/jmonkeyvibe/game/ui/HealthBarUI.java:121 | the text `Integer.toString` gives for a number reads back as that number |
| Screens.Opened | src/main/java/com/jmonkeyvibe/game/ui/GameOverUI.java:181-203 | after show the screen is visible |
| Screens.Closed | src/main/java/com/jmonkeyvibe/game/ui/GameOverUI.java:208-214 | after hide the screen is not visible |
| Screens.OpenClose | src/main/java/com/jmonkeyvibe/game/ui/LevelUpUI.java:190-259 | showing and hiding keep attach and detach calls alternating; a second show or hide makes no engine call; each makes at most one |
| Overworld.TileBands | src/main/java/com/jmonkeyvibe/game/world/WorldGenerator.java:59-70 | a draw in [0, 1) gives exactly the tile type whose band holds it; the bands tile [0, 1) with odds 0.6/0.2/0.1/0.1; a larger draw never gives an earlier type |
| Overworld.SpanRoundsToEven | src/main/java/com/jmonkeyvibe/game/world/WorldGenerator.java:32-33 | the loop `-n/2 .. n/2` visits n values for even n, n - 1 for odd n, none for negative n, and is symmetric about zero |
| Overworld.TilesInRectangle | src/main/java/com/jmonkeyvibe/game/world/WorldGenerator.java:29-37 | the overworld has one tile per cell of the centred rectangle, and every tile lies inside it |
| Overworld.OneTilePerCell | src/main/java/com/jmonkeyvibe/game/world/WorldGenerator.java:29-37 | each cell of the rectangle carries exactly one tile, at the index its column and row give, typed by that index's draw |
| Overworld.GenerateOverworld | src/main/java/com/jmonkeyvibe/game/world/WorldGenerator.java:29-37 | the nested loops produce exactly the tile list those lemmas describe, x in the outer loop |
| Dungeon.IntersectsIffNear | src/main/java/com/jmonkeyvibe/game/world/DungeonGenerator.java:217-222 | two non-empty rooms intersect exactly when some cell of one is at most one step, diagonals included, from some cell of the other: touching rooms count |
| Dungeon.IntersectsSymmetric | src/main/java/com/jmonkeyvibe/game/world/DungeonGenerator.java:217-222 | intersection does not depend on the order of the two rooms |
| Dungeon.CenterInside | src/main/java/com/jmonkeyvibe/game/world/DungeonGenerator.java:208-215 | the integer centre of a non-empty room is one of its cells |
| Dungeon.CreateRandomRoom | src/main/java/com/jmonkeyvibe/game/world/DungeonGenerator.java:122-129 | a room from valid draws is 4 to 10 cells on each side and lies in the map, ending at least two cells before its far edges |
| Dungeon.EveryWellPlacedRoomIsDrawn | src/main/java/com/jmonkeyvibe/game/world/DungeonGenerator.java:122-129 | every room meeting those bounds comes from some valid draw |
| Dungeon.Candidates | src/main/java/com/jmonkeyvibe/game/world/DungeonGenerator.java:47-48 | the placement loop draws one well-placed candidate per attempt |
| Dungeon.AcceptedProperties | src/main/java/com/jmonkeyvibe/game/world/DungeonGenerator.java:47-68 | the loop keeps no more rooms than it drew, keeps only candidates, and no two kept rooms intersect |
| Dungeon.FirstCandidateAccepted | src/main/java/com/jmonkeyvibe/game/world/DungeonGenerator.java:47-61 | the first candidate is always kept |
| Dungeon.FloorAtIff | src/main/java/com/jmonkeyvibe/game/world/DungeonGenerator.java:47-68 | a cell is floor exactly when some kept room or some corridor between consecutive rooms covers it |
| Dungeon.FloorAtGrows | src/main/java/com/jmonkeyvibe/game/world/DungeonGenerator.java:131-159 | carving never turns floor back into wall |
| Dungeon.CorridorWalkValid | src/main/java/com/jmonkeyvibe/game/world/DungeonGenerator.java:141-159 | the corridor is a 4-connected walk from one centre to the other over corridor cells, first along the row, then along the column |
| Dungeon.LinkConnects | src/main/java/com/jmonkeyvibe/game/world/DungeonGenerator.java:63-66 | the corridor carved when a room is kept joins its centre to that of the room kept before it by a floor path |
| Dungeon.ConnectedToFirst | src/main/java/com/jmonkeyvibe/game/world/DungeonGenerator.java:47-68 | every room centre is floor-connected to the first room's centre |
| Dungeon.CentersConnected | src/main/java/com/jmonkeyvibe/game/world/DungeonGenerator.java:47-68 | any two room centres are joined by a 4-connected path of in-bounds floor cells |
| Dungeon.AcceptedWellPlaced | src/main/java/com/jmonkeyvibe/game/world/DungeonGenerator.java:47-68 | every kept room meets the size and margin bounds |
| Dungeon.GeneratedLayout | src/main/java/com/jmonkeyvibe/game/world/DungeonGenerator.java:39-88 | a generated dungeon has between 1 and 15 rooms, no two intersecting, with every pair of centres joined by a floor path |
| Dungeon.CarveRoom | src/main/java/com/jmonkeyvibe/game/world/DungeonGenerator.java:131-139 | exactly the in-grid cells of the room become floor; every other cell keeps its value |
| Dungeon.CarveCorridor | src/main/java/com/jmonkeyvibe/game/world/DungeonGenerator.java:141-159 | exactly the in-grid cells of the L-shaped corridor become floor; every other cell keeps its value |
| Dungeon.Overlaps | src/main/java/com/jmonkeyvibe/game/world/DungeonGenerator.java:50-57 | the inner loop answers true exactly when the candidate intersects some kept room |
| Dungeon.DungeonGenerator.constructor | src/main/java/com/jmonkeyvibe/game/world/DungeonGenerator.java:30-33 | a new generator has no collision grid yet |
| Dungeon.DungeonGenerator.IsWalkable | src/main/java/com/jmonkeyvibe/game/world/DungeonGenerator.java:104-120 | with no grid every point is walkable; otherwise a walkable point rounds to an in-grid cell, and points outside the grid are walls |
| Dungeon.DungeonGenerator.WalkableByCell | src/main/java/com/jmonkeyvibe/game/world/DungeonGenerator.java:104-120 | every point of the half-open unit square around a cell gets that cell's answer |
| Dungeon.DungeonGenerator.GenerateDungeon | src/main/java/com/jmonkeyvibe/game/world/DungeonGenerator.java:39-88 | the grid holds floor exactly on the carved rooms and corridors and becomes the collision grid, so a cell is walkable exactly when it is floor |
| Enemies.TypesGrowInOrder | src/main/java/com/jmonkeyvibe/game/entities/Enemy.java:93-118 | later enemy types have strictly more health, damage and size |
| Enemies.SpeedIsNotOrdered | src/main/java/com/jmonkeyvibe/game/entities/Enemy.java:93-118 | speed does not follow that order: the goblin comes before the orc and is faster |
| Enemies.Spawned | src/main/java/com/jmonkeyvibe/game/entities/Enemy.java:27-57 | a new enemy has its type's full health, speed and damage at the given position, within the health invariant |
| Enemies.Moved | src/main/java/com/jmonkeyvibe/game/entities/Enemy.java:59-64 | a step moves the enemy by speed times tpf along the normalised direction to the player, and changes nothing else |
| Enemies.Hit | src/main/java/com/jmonkeyvibe/game/entities/Enemy.java:66-68 | taking damage lowers the health by the damage, clamped at zero, and changes nothing else |
| Enemies.HitKeepsHealthy | src/main/java/com/jmonkeyvibe/game/entities/Enemy.java:66-68 | a hit keeps health within zero and the type's maximum |
| Enemies.MoveKeepsHealthy | src/main/java/com/jmonkeyvibe/game/entities/Enemy.java:59-64 | a step keeps that invariant |
| Enemies.HitAllClamps | src/main/java/com/jmonkeyvibe/game/entities/Enemy.java:66-72 | a run of non-negative hits leaves the clamped total difference; a dead enemy stays dead |
| Enemies.KilledByTotalDamage | src/main/java/com/jmonkeyvibe/game/entities/Enemy.java:66-72 | a fresh enemy dies exactly when the hits add up to its type's health |
| Enemies.Enemy.constructor | src/main/java/com/jmonkeyvibe/game/entities/Enemy.java:27-57 | the object's state is the spawned state |
| Enemies.Enemy.Update | src/main/java/com/jmonkeyvibe/game/entities/Enemy.java:59-64 | the new state is the moved state |
| Enemies.Enemy.TakeDamage | src/main/java/com/jmonkeyvibe/game/entities/Enemy.java:66-68 | the new state is the hit state |
| Enemies.Enemy.IsAlive | src/main/java/com/jmonkeyvibe/game/entities/Enemy.java:70-72 | alive exactly when the health is positive |
| Enemies.Enemy.GetPosition | src/main/java/com/jmonkeyvibe/game/entities/Enemy.java:78-80 | the stored position, as a value copy |
| Enemies.Enemy.GetDamage | src/main/java/com/jmonkeyvibe/game/entities/Enemy.java:82-84 | the type's damage |
| Projectiles.Launch | src/main/java/com/jmonkeyvibe/game/entities/Projectile.java:28-51 | a new projectile is active at a copy of the start position, with velocity the normalised direction times 15, no time flown, and the given damage |
| Projectiles.Advance | src/main/java/com/jmonkeyvibe/game/entities/Projectile.java:53-65 | an inactive projectile is unchanged; an active one moves by velocity times tpf, ages by tpf, and stays active exactly while its age is below its lifetime; velocity, damage and lifetime never change |
| Projectiles.Collision | src/main/java/com/jmonkeyvibe/game/entities/Projectile.java:67-76 | a collision hits exactly when the projectile is active and within the radius of the target, and a hit switches it off |
| Projectiles.Deactivated | src/main/java/com/jmonkeyvibe/game/entities/Projectile.java:82-84 | deactivating switches the projectile off and keeps its position, age and damage |
| Projectiles.StepNeverReactivates | src/main/java/com/jmonkeyvibe/game/entities/Projectile.java:53-84 | no event turns an inactive projectile back on |
| Projectiles.AtMostOneHit | src/main/java/com/jmonkeyvibe/game/entities/Projectile.java:67-76 | an inactive projectile never hits, and over any sequence of events a projectile registers at most one hit |
| Projectiles.StepKeepsFresh | src/main/java/com/jmonkeyvibe/game/entities/Projectile.java:53-65 | every event keeps the invariant that an active projectile has lifetime left |
| Projectiles.ExpiresAfterLifetime | src/main/java/com/jmonkeyvibe/game/entities/Projectile.java:53-65 | a projectile that is only ticked is inactive once its frame times add up to its remaining lifetime |
| Projectiles.InactiveStaysInactive | src/main/java/com/jmonkeyvibe/game/entities/Projectile.java:53-65 | ticks leave an inactive projectile unchanged |
| Projectiles.Projectile.constructor | src/main/java/com/jmonkeyvibe/game/entities/Projectile.java:28-51 | the object's state is the launched state |
| Projectiles.Projectile.Update | src/main/java/com/jmonkeyvibe/game/entities/Projectile.java:53-65 | the new state is the advanced state |
| Projectiles.Projectile.CheckCollision | src/main/java/com/jmonkeyvibe/game/entities/Projectile.java:67-76 | the answer and the new state are those of the collision function |
| Projectiles.Projectile.IsActive | src/main/java/com/jmonkeyvibe/game/entities/Projectile.java:78-80 | the active flag |
| Projectiles.Projectile.Deactivate | src/main/java/com/jmonkeyvibe/game/entities/Projectile.java:82-84 | the new state is the deactivated state |
| Projectiles.Projectile.GetDamage | src/main/java/com/jmonkeyvibe/game/entities/Projectile.java:90-92 | the damage given at launch |
| Projectiles.Projectile.GetPosition | src/main/java/com/jmonkeyvibe/game/entities/Projectile.java:94-96 | the stored position, as a value copy |
| Players.FireCooldownBounds | src/main/java/com/jmonkeyvibe/game/entities/Player.java:228-232 | the fire cooldown stays between 0.045 s and the base 0.15 s, shrinks as dexterity grows, and bottoms out from dexterity 8 |
| Players.DerivedStatsGrowth | src/main/java/com/jmonkeyvibe/game/entities/Player.java:203-239 | each stat point adds 20 max health, 0.5 speed, 15% damage multiplier and 1.5 base damage |
| Players.NewPlayer | src/main/java/com/jmonkeyvibe/game/entities/Player.java:41-80 | a new player is level 1 with 100 of 100 health, 0 of 100 experience, all stats 1, and satisfies the player invariant |
| Players.AfterDamage | src/main/java/com/jmonkeyvibe/game/entities/Player.java:108-110 | damage lowers health, clamped at zero, and changes nothing else |
| Players.AfterHeal | src/main/java/com/jmonkeyvibe/game/entities/Player.java:112-114 | healing raises health, capped at max health, and changes nothing else |
| Players.WithExperience | src/main/java/com/jmonkeyvibe/game/entities/Player.java:138-146 | adding experience adds exactly those points and reports a level-up exactly when the threshold is reached |
| Players.LeveledUp | src/main/java/com/jmonkeyvibe/game/entities/Player.java:152-183 | a level-up pays the threshold, raises the level, sets the next threshold to 100 per level, and raises only the chosen stat; vitality also recomputes max health and refills health |
| Players.LevelUpKeepsValid | src/main/java/com/jmonkeyvibe/game/entities/Player.java:152-183 | a level-up keeps the player invariant and keeps health within max health |
| Players.ExperienceConserved | src/main/java/com/jmonkeyvibe/game/entities/Player.java:138-183 | levelling up loses no experience (banked points plus paid thresholds are unchanged), and adding experience adds exactly that many |
| Players.HealthStaysInRange | src/main/java/com/jmonkeyvibe/game/entities/Player.java:108-114 | with non-negative hits and heals in any order, health stays within [0, max health] |
| Players.NewPlayerLethalDamage | src/main/java/com/jmonkeyvibe/game/entities/Player.java:108-118 | a fresh player dies to 100 damage and survives anything less |
| Players.Player.constructor | src/main/java/com/jmonkeyvibe/game/entities/Player.java:41-80 | the object's state is the new-player state |
| Players.Player.SetPosition | src/main/java/com/jmonkeyvibe/game/entities/Player.java:82-85 | only the position changes |
| Players.Player.GetPosition | src/main/java/com/jmonkeyvibe/game/entities/Player.java:87-89 | the stored position |
| Players.Player.Move | src/main/java/com/jmonkeyvibe/game/entities/Player.java:91-94 | the position moves by the delta and nothing else changes |
| Players.Player.GetHealth | src/main/java/com/jmonkeyvibe/game/entities/Player.java:100-102 | the current health |
| Players.Player.GetMaxHealth | src/main/java/com/jmonkeyvibe/game/entities/Player.java:104-106 | the maximum health |
| Players.Player.TakeDamage | src/main/java/com/jmonkeyvibe/game/entities/Player.java:108-110 | the new state is the damaged state |
| Players.Player.Heal | src/main/java/com/jmonkeyvibe/game/entities/Player.java:112-114 | the new state is the healed state |
| Players.Player.IsAlive | src/main/java/com/jmonkeyvibe/game/entities/Player.java:116-118 | alive exactly when health is positive |
| Players.Player.AddExperience | src/main/java/com/jmonkeyvibe/game/entities/Player.java:138-146 | the new state and the answer are those of the experience function |
| Players.Player.LevelUp | src/main/java/com/jmonkeyvibe/game/entities/Player.java:152-183 | the new state is the levelled-up state |
| Players.Player.GetMoveSpeed | src/main/java/com/jmonkeyvibe/game/entities/Player.java:212-214 | 7 plus 0.5 per agility point beyond the first |
| Players.Player.GetDamageMultiplier | src/main/java/com/jmonkeyvibe/game/entities/Player.java:220-222 | 1 plus 0.15 per strength point beyond the first |
| Players.Player.GetFireCooldown | src/main/java/com/jmonkeyvibe/game/entities/Player.java:228-232 | the dexterity-scaled cooldown with its 30% floor |
| Players.Player.GetBaseDamage | src/main/java/com/jmonkeyvibe/game/entities/Player.java:237-239 | 10 plus 1.5 per strength point beyond the first |
| Combat.HitEnemy | src/main/java/com/jmonkeyvibe/game/combat/CombatManager.java:61-79 | one enemy against every projectile in turn keeps the projectile count and changes only the enemy's health |
| Combat.CollisionPass | src/main/java/com/jmonkeyvibe/game/combat/CombatManager.java:61-79 | the nested collision loops keep both list lengths |
| Combat.FirstInReach | src/main/java/com/jmonkeyvibe/game/combat/CombatManager.java:61-79 | the first enemy in list order within 0.5 of the projectile, or the list length when there is none |
| Combat.HitEnemyClosedForm | src/main/java/com/jmonkeyvibe/game/combat/CombatManager.java:61-79 | one enemy's loop uses up exactly the active projectiles in reach and takes their damages in order |
| Combat.CollisionPassClosedForm | src/main/java/com/jmonkeyvibe/game/combat/CombatManager.java:61-79 | each active projectile is used up by the first enemy in reach, dead or alive, and each enemy takes exactly the damages of the projectiles it used up |
| Combat.LandsOnAtMostOne | src/main/java/com/jmonkeyvibe/game/combat/CombatManager.java:61-79 | a projectile lands on at most one enemy, and only an active one lands at all |
| Combat.DeadEnemyStillAbsorbs | src/main/java/com/jmonkeyvibe/game/combat/CombatManager.java:61-89 | an enemy killed earlier in the frame stays at zero health and still uses up every projectile that reaches it first, because dead enemies are removed only after the pass |
| Combat.FrameProperties | src/main/java/com/jmonkeyvibe/game/combat/CombatManager.java:39-90 | after a frame every enemy left is alive, neither list grew, and the cooldown dropped by tpf exactly when it was positive |
| Combat.SurvivorsAreActive | src/main/java/com/jmonkeyvibe/game/combat/CombatManager.java:46-56 | the projectiles entering the collision pass are exactly those still active after their own update |
| Combat.CooldownHolds | src/main/java/com/jmonkeyvibe/game/combat/CombatManager.java:41-43 | frames shorter in total than the remaining cooldown leave it positive, so firing is still refused |
| Combat.Positives | src/main/java/com/jmonkeyvibe/game/combat/CombatManager.java:102-120 | only positive attack results reach the player, none negative, no more than there are enemies |
| Combat.AttackTotalClamps | src/main/java/com/jmonkeyvibe/game/combat/CombatManager.java:102-120 | the returned total is non-negative, and the player's health after the attacks is one clamp of that total |
| Combat.AttackResults | src/main/java/com/jmonkeyvibe/game/combat/CombatManager.java:102-120 | one attack result per enemy, in list order |
| Combat.Advanced | src/main/java/com/jmonkeyvibe/game/combat/CombatManager.java:46-56 | every projectile is advanced, in place in the list |
| Combat.HitEnemyWith | src/main/java/com/jmonkeyvibe/game/combat/CombatManager.java:61-79 | the inner loop leaves the enemy and the projectiles in the states the closed-form function gives |
| Combat.HitEnemyAt | src/main/java/com/jmonkeyvibe/game/combat/CombatManager.java:61-79 | enemy i's inner loop changes enemy i and the projectiles only |
| Combat.CollideNext | src/main/java/com/jmonkeyvibe/game/combat/CombatManager.java:61-79 | one round of the outer collision loop extends the pass over the earlier enemies by enemy i; the later enemies are untouched |
| Combat.UpdateEach | src/main/java/com/jmonkeyvibe/game/combat/CombatManager.java:46-56 | the iterator loop updates every projectile and keeps exactly the still-active ones, in order |
| Combat.EnemyStatesSelect | src/main/java/com/jmonkeyvibe/game/combat/CombatManager.java:82-89 | filtering the enemy objects and then reading their states is the same as filtering their states |
| Combat.ProjStatesSelect | src/main/java/com/jmonkeyvibe/game/combat/CombatManager.java:46-56 | filtering the projectile objects and then reading their states is the same as filtering their states |
| Combat.CombatManager.constructor | src/main/java/com/jmonkeyvibe/game/combat/CombatManager.java:31-37 | no enemies, no projectiles, cooldown zero |
| Combat.CombatManager.AdvanceProjectiles | src/main/java/com/jmonkeyvibe/game/combat/CombatManager.java:46-56 | the list keeps exactly the projectiles still active after their update, in order, and nothing else changes |
| Combat.CombatManager.ResolveCollisions | src/main/java/com/jmonkeyvibe/game/combat/CombatManager.java:61-79 | the enemies and projectiles end in the states the closed-form collision pass gives |
| Combat.CombatManager.RemoveDead | src/main/java/com/jmonkeyvibe/game/combat/CombatManager.java:82-89 | exactly the living enemies stay, in order |
| Combat.CombatManager.Update | src/main/java/com/jmonkeyvibe/game/combat/CombatManager.java:39-90 | one frame of the manager is the value-level frame function, whose properties the frame lemmas give |
| Combat.CombatManager.UpdateEnemies | src/main/java/com/jmonkeyvibe/game/combat/CombatManager.java:92-96 | every enemy takes one step toward the player |
| Combat.CombatManager.ProcessEnemyAttacks | src/main/java/com/jmonkeyvibe/game/combat/CombatManager.java:102-120 | the total is the sum of the positive attack results, and each of them damages the player in enemy order |
| Combat.CombatManager.SpawnEnemy | src/main/java/com/jmonkeyvibe/game/combat/CombatManager.java:122-126 | one new enemy of the type is appended at the requested position; the rest is unchanged |
| Combat.CombatManager.FireProjectile | src/main/java/com/jmonkeyvibe/game/combat/CombatManager.java:128-143 | refused while the cooldown is positive; otherwise one new projectile is appended and the cooldown restarts at 0.15 |
| Combat.CombatManager.GetEnemies | src/main/java/com/jmonkeyvibe/game/combat/CombatManager.java:149-151 | the manager's enemy list |
| Combat.CombatManager.Clear | src/main/java/com/jmonkeyvibe/game/combat/CombatManager.java:153-162 | both lists are emptied; the cooldown is kept |
| Quests.NewQuest | src/main/java/com/jmonkeyvibe/game/quest/Quest.java:19-25 | a new quest has the given id, no progress, a count of one, is neither completed nor active, and has no text yet |
| Quests.Incremented | src/main/java/com/jmonkeyvibe/game/quest/Quest.java:77-82 | an increment adds one to the progress and completes the quest once the count is reached; nothing else changes |
| Quests.IncrementsComplete | src/main/java/com/jmonkeyvibe/game/quest/Quest.java:77-82 | after k increments the progress is k higher, and the quest is complete exactly when it already was or the progress reached the count |
| Quests.OneStepCompletesNewQuest | src/main/java/com/jmonkeyvibe/game/quest/Quest.java:19-25 | one increment completes a new quest |
| Quests.CountIsReachedExactly | src/main/java/com/jmonkeyvibe/game/quest/Quest.java:77-82 | a quest for k is still open after k - 1 increments and done after k |
| Quests.Describe | src/main/java/com/jmonkeyvibe/game/quest/Quest.java:109-112 | the text opens with the bracketed type and ends with the reward sentence |
| Quests.DescribeKeepsReward | src/main/java/com/jmonkeyvibe/game/quest/Quest.java:109-112 | the reward reads back from the end of the text, whatever the other fields hold |
| Quests.Quest.constructor | src/main/java/com/jmonkeyvibe/game/quest/Quest.java:19-25 | the object's state is the new-quest state |
| Quests.Quest.IncrementProgress | src/main/java/com/jmonkeyvibe/game/quest/Quest.java:77-82 | the new state is the incremented state |
| Quests.Quest.GetId | src/main/java/com/jmonkeyvibe/game/quest/Quest.java:29-31 | the id |
| Quests.Quest.GetTitle | src/main/java/com/jmonkeyvibe/game/quest/Quest.java:33-35 | the title |
| Quests.Quest.SetTitle | src/main/java/com/jmonkeyvibe/game/quest/Quest.java:37-39 | only the title changes |
| Quests.Quest.GetDescription | src/main/java/com/jmonkeyvibe/game/quest/Quest.java:41-43 | the description |
| Quests.Quest.SetDescription | src/main/java/com/jmonkeyvibe/game/quest/Quest.java:45-47 | only the description changes |
| Quests.Quest.GetKind | src/main/java/com/jmonkeyvibe/game/quest/Quest.java:49-51 | the type name |
| Quests.Quest.SetKind | src/main/java/com/jmonkeyvibe/game/quest/Quest.java:53-55 | only the type name changes |
| Quests.Quest.GetObjective | src/main/java/com/jmonkeyvibe/game/quest/Quest.java:57-59 | the objective |
| Quests.Quest.SetObjective | src/main/java/com/jmonkeyvibe/game/quest/Quest.java:61-63 | only the objective changes |
| Quests.Quest.GetCount | src/main/java/com/jmonkeyvibe/game/quest/Quest.java:65-67 | the target count |
| Quests.Quest.SetCount | src/main/java/com/jmonkeyvibe/game/quest/Quest.java:69-71 | only the count changes |
| Quests.Quest.GetProgress | src/main/java/com/jmonkeyvibe/game/quest/Quest.java:73-75 | the progress |
| Quests.Quest.GetReward | src/main/java/com/jmonkeyvibe/game/quest/Quest.java:84-86 | the reward |
| Quests.Quest.SetReward | src/main/java/com/jmonkeyvibe/game/quest/Quest.java:88-90 | only the reward changes |
| Quests.Quest.IsCompleted | src/main/java/com/jmonkeyvibe/game/quest/Quest.java:92-94 | the completed flag |
| Quests.Quest.SetCompleted | src/main/java/com/jmonkeyvibe/game/quest/Quest.java:96-98 | only the completed flag changes |
| Quests.Quest.IsActive | src/main/java/com/jmonkeyvibe/game/quest/Quest.java:100-102 | the active flag |
| Quests.Quest.SetActive | src/main/java/com/jmonkeyvibe/game/quest/Quest.java:104-106 | only the active flag changes |
| Quests.Quest.ToString | src/main/java/com/jmonkeyvibe/game/quest/Quest.java:109-112 | the rendered text of the current state |
| QuestGen.FetchQuest | src/main/java/com/jmonkeyvibe/game/quest/QuestGenerator.java:49-61 | a fetch quest names the drawn item and location, has that item as objective, and pays 50 to 99 |
| QuestGen.KillQuest | src/main/java/com/jmonkeyvibe/game/quest/QuestGenerator.java:63-76 | a kill quest names the drawn enemy, asks for 1 to 5 of them, and pays 75 to 149 |
| QuestGen.EscortQuest | src/main/java/com/jmonkeyvibe/game/quest/QuestGenerator.java:78-89 | an escort quest names the drawn location and pays 40 to 99 |
| QuestGen.ExploreQuest | src/main/java/com/jmonkeyvibe/game/quest/QuestGenerator.java:91-102 | an explore quest names the drawn location and pays 30 to 79 |
| QuestGen.TalkQuest | src/main/java/com/jmonkeyvibe/game/quest/QuestGenerator.java:104-116 | a talk quest names the drawn NPC and pays 20 to 59 |
| QuestGen.TypeNamesItsBuilder | src/main/java/com/jmonkeyvibe/game/quest/QuestGenerator.java:36-47 | every drawn type name has its own builder, so the fallback branch never runs |
| QuestGen.GeneratedQuest | src/main/java/com/jmonkeyvibe/game/quest/QuestGenerator.java:36-116 | a generated quest has the drawn type, an objective from that type's word list, the type's title prefix and reward range, a count of 1 to 5 for kill quests and 1 otherwise, and is otherwise new |
| QuestGen.EveryRewardReachable | src/main/java/com/jmonkeyvibe/game/quest/QuestGenerator.java:58-113 | every reward in a type's range comes from some valid draw |
| Conversation.SystemPrompt | src/main/java/com/jmonkeyvibe/game/ai/NPCConversationManager.java:75-86 | the system prompt opens by telling the model it is the named NPC |
| Conversation.FallbackDialogue | src/main/java/com/jmonkeyvibe/game/ai/NPCConversationManager.java:111-118 | the fallback line opens by greeting the player and naming the NPC |
| Conversation.JoinLinesAppend | src/main/java/com/jmonkeyvibe/game/ai/NPCConversationManager.java:91-106 | joining history lines distributes over concatenation |
| Conversation.LineInJoin | src/main/java/com/jmonkeyvibe/game/ai/NPCConversationManager.java:91-106 | every history line appears in the context, followed by a newline, after the earlier lines |
| Conversation.ContextShape | src/main/java/com/jmonkeyvibe/game/ai/NPCConversationManager.java:91-106 | with no history the context is just the player line and the instruction; otherwise it opens with the header; it always ends with the new player line and the instruction |
| Conversation.BuildConversationContext | src/main/java/com/jmonkeyvibe/game/ai/NPCConversationManager.java:91-106 | the StringBuilder loop produces exactly that context |
| Conversation.Trimmed | src/main/java/com/jmonkeyvibe/game/ai/NPCConversationManager.java:60-62 | trimming keeps the newest lines, at most twenty of them |
| Conversation.ConversedUpdates | src/main/java/com/jmonkeyvibe/game/ai/NPCConversationManager.java:35-70 | the NPC gets an entry either way; a reply appends the player line and the NPC line and trims to twenty; no other NPC's history changes |
| Conversation.ExchangeShape | src/main/java/com/jmonkeyvibe/game/ai/NPCConversationManager.java:56-57 | the two appended lines are a player line and a line in the NPC's name |
| Conversation.ExchangeKeepsWellFormed | src/main/java/com/jmonkeyvibe/game/ai/NPCConversationManager.java:56-62 | after an exchange and the trim, a history still alternates player and NPC lines, has an even length, and has at most twenty lines |
| Conversation.ConversedKeepsWellFormed | src/main/java/com/jmonkeyvibe/game/ai/NPCConversationManager.java:35-70 | every call keeps every NPC's history in that shape |
| Conversation.ClearingKeepsWellFormed | src/main/java/com/jmonkeyvibe/game/ai/NPCConversationManager.java:123-132 | removing one NPC's history, or all of them, keeps every remaining history in that shape |
| Conversation.ClearHistoryAsWritten | src/main/java/com/jmonkeyvibe/game/ai/NPCConversationManager.java:123-125 | clearHistory as written throws when the history map is null |
| Conversation.ClearAllHistoryAsWritten | src/main/java/com/jmonkeyvibe/game/ai/NPCConversationManager.java:130-132 | clearAllHistory as written throws when the history map is null |
| Conversation.ClearAfterFailedStartThrows | src/main/java/com/jmonkeyvibe/game/ai/NPCConversationManager.java:20-30 | a manager whose model failed to load throws on either clear call |
| Conversation.ClearedHistory | src/main/java/com/jmonkeyvibe/game/ai/NPCConversationManager.java:123-125 | the intended clear removes exactly that NPC's entry, keeps every other NPC's lines, and leaves a missing map missing |
| Conversation.ClearedAll | src/main/java/com/jmonkeyvibe/game/ai/NPCConversationManager.java:130-132 | the intended clear-all leaves an empty map, and leaves a missing map missing |
| Conversation.ClearedAgreesWhereWrittenReturns | src/main/java/com/jmonkeyvibe/game/ai/NPCConversationManager.java:123-132 | the intended clears never throw and agree with the written ones wherever those return |
| Conversation.ConversationManager.constructor | src/main/java/com/jmonkeyvibe/game/ai/NPCConversationManager.java:20-30 | when the model factory succeeds there is a model and an empty history map; when it throws there is neither |
| Conversation.ConversationManager.StartConversation | src/main/java/com/jmonkeyvibe/game/ai/NPCConversationManager.java:35-70 | without a model the fallback line and no change; with one the prompt is built from the NPC's history, the history is updated as ConversedUpdates states, and the reply is the model's answer or the fallback when it throws |
| Conversation.ConversationManager.RecordExchange | src/main/java/com/jmonkeyvibe/game/ai/NPCConversationManager.java:51-69 | after the model answers, the exchange joins the NPC's history, trimmed to the newest twenty lines, and the answer is returned; after it throws, the history is kept and the fallback returned |
| Conversation.ConversationManager.ClearHistory | src/main/java/com/jmonkeyvibe/game/ai/NPCConversationManager.java:123-125 | the history becomes the intended clear of that NPC |
| Conversation.ConversationManager.ClearAllHistory | src/main/java/com/jmonkeyvibe/game/ai/NPCConversationManager.java:130-132 | the history becomes the intended clear-all |
| Conversation.ConversationManager.IsAIAvailable | src/main/java/com/jmonkeyvibe/game/ai/NPCConversationManager.java:137-139 | true exactly when the model was created |
| Gamepad.InitialPad | src/main/java/com/jmonkeyvibe/game/input/GamepadManager.java:29-74 | a new manager has no button held, no flag raised, and no controller connected |
| Gamepad.DeadzoneProperties | src/main/java/com/jmonkeyvibe/game/input/GamepadManager.java:250-257 | the deadzone mapping is odd, is zero exactly on the closed 0.15 deadzone, maps [-1, 1] into itself with the ends fixed, and never grows a value |
| Gamepad.DeadzoneMonotone | src/main/java/com/jmonkeyvibe/game/input/GamepadManager.java:250-257 | outside the deadzone the sign is kept and the output grows with the input |
| Gamepad.SetTo | src/main/java/com/jmonkeyvibe/game/input/GamepadManager.java:314-378 | the button's pressed state becomes the event's and no other button's changes |
| Gamepad.ButtonEventTouchesOne | src/main/java/com/jmonkeyvibe/game/input/GamepadManager.java:314-378 | a button event changes only the button it names; sticks, triggers and the connection flag stay |
| Gamepad.ButtonEventRisingEdge | src/main/java/com/jmonkeyvibe/game/input/GamepadManager.java:314-378 | a tracked button's flag is raised exactly on a press while released, and no button event lowers a flag |
| Gamepad.NamesShadowedByEarlierTests | src/main/java/com/jmonkeyvibe/game/input/GamepadManager.java:333-345 | the first-match name chain sends "Back" and "Start" to A and a bumper or "Button 10" to B |
| Gamepad.TriggerValue | src/main/java/com/jmonkeyvibe/game/input/GamepadManager.java:285-293 | a trigger's -1..1 axis maps into 0..1, above one half exactly when the axis is positive |
| Gamepad.PovBands | src/main/java/com/jmonkeyvibe/game/input/GamepadManager.java:383-409 | the hat value selects up, down, left, right or nothing by bands, each boundary going to the earlier test |
| Gamepad.PovHoldsAtMostOne | src/main/java/com/jmonkeyvibe/game/input/GamepadManager.java:383-409 | after a hat event at most one D-pad direction is held, the selected one; its flag rises if it was not held; other buttons are untouched |
| Gamepad.AxisEventSemantics | src/main/java/com/jmonkeyvibe/game/input/GamepadManager.java:262-311 | Y axes are stored negated; the right trigger's flag rises only when it crosses one half while not last seen pressed; no axis event lowers a flag |
| Gamepad.SecondReadIsFalse | src/main/java/com/jmonkeyvibe/game/input/GamepadManager.java:153-241 | reading a flag again with no event in between gives false, and a read changes no other flag |
| Gamepad.FlagPersistsUntilRead | src/main/java/com/jmonkeyvibe/game/input/GamepadManager.java:153-241 | a raised flag survives every button and axis event until it is read |
| Gamepad.GamepadManager.constructor | src/main/java/com/jmonkeyvibe/game/input/GamepadManager.java:73-74 | the object's state is the initial pad state |
| Gamepad.GamepadManager.Initialize | src/main/java/com/jmonkeyvibe/game/input/GamepadManager.java:79-102 | the controller counts as connected once a joystick is reported; nothing else changes |
| Gamepad.GamepadManager.OnJoyButtonEvent | src/main/java/com/jmonkeyvibe/game/input/GamepadManager.java:314-378 | the new state is the button-event state |
| Gamepad.GamepadManager.HandlePovAxis | src/main/java/com/jmonkeyvibe/game/input/GamepadManager.java:383-409 | the new state is the hat-event state |
| Gamepad.GamepadManager.OnJoyAxisEvent | src/main/java/com/jmonkeyvibe/game/input/GamepadManager.java:262-311 | the new state is the axis-event state |
| Gamepad.GamepadManager.IsJustPressed | src/main/java/com/jmonkeyvibe/game/input/GamepadManager.java:153-241 | answers the button's flag and lowers it |
| Gamepad.GamepadManager.IsRightTriggerJustPressed | src/main/java/com/jmonkeyvibe/game/input/GamepadManager.java:137-141 | answers the trigger flag and lowers it |
| Gamepad.GamepadManager.IsAButtonPressed | src/main/java/com/jmonkeyvibe/game/input/GamepadManager.java:146-148 | true exactly while A is held |
| Gamepad.GamepadManager.IsRightTriggerPressed | src/main/java/com/jmonkeyvibe/game/input/GamepadManager.java:130-132 | true exactly when the right trigger is past one half |
| Gamepad.GamepadManager.GetLeftStick | src/main/java/com/jmonkeyvibe/game/input/GamepadManager.java:115-117 | the left stick with the deadzone applied to each axis |
| Gamepad.GamepadManager.GetRightStick | src/main/java/com/jmonkeyvibe/game/input/GamepadManager.java:123-125 | the right stick with the deadzone applied to each axis |
| Gamepad.GamepadManager.IsControllerConnected | src/main/java/com/jmonkeyvibe/game/input/GamepadManager.java:243-245 | the connection flag |
| DialogScreen.SlotShowsChoice | src/main/java/com/jmonkeyvibe/game/ui/DialogUI.java:204-211 | a slot is empty exactly when there is no choice for it; otherwise it starts with its number and the choice reads back after the "n. " label |
| DialogScreen.SlotsOf | src/main/java/com/jmonkeyvibe/game/ui/DialogUI.java:204-211 | there are always three slots |
| DialogScreen.OnlyThreeShown | src/main/java/com/jmonkeyvibe/game/ui/DialogUI.java:204-211 | choices after the third are never displayed |
| DialogScreen.Shown | src/main/java/com/jmonkeyvibe/game/ui/DialogUI.java:193-219 | showing makes the box visible with the given text and choices, the cursor on the first |
| DialogScreen.AppendsConcatenate | src/main/java/com/jmonkeyvibe/game/ui/DialogUI.java:248-251 | after appending chunks the buffer is the old buffer followed by their concatenation, the display shows the buffer, and nothing else changes |
| DialogScreen.StreamedReply | src/main/java/com/jmonkeyvibe/game/ui/DialogUI.java:221-251 | a streamed reply shows exactly the concatenated chunks |
| DialogScreen.CustomLineRoundTrip | src/main/java/com/jmonkeyvibe/game/ui/DialogUI.java:279-281 | the typed text reads back from between the "> " prompt and the "_" cursor |
| DialogScreen.SelectionProperties | src/main/java/com/jmonkeyvibe/game/ui/DialogUI.java:298-320 | every operation keeps the cursor on a choice when there is one; selecting a listed index makes it the selected choice; other indices change nothing; there is a selected choice exactly when the list is not empty |
| DialogScreen.FillSlots | src/main/java/com/jmonkeyvibe/game/ui/DialogUI.java:204-211 | the loop fills the three slots with exactly the slot texts |
| DialogScreen.DialogUI.constructor | src/main/java/com/jmonkeyvibe/game/ui/DialogUI.java:51-60 | hidden, empty, no choices, the input line showing "> ", the choice prompt shown |
| DialogScreen.DialogUI.Show | src/main/java/com/jmonkeyvibe/game/ui/DialogUI.java:193-219 | the new view is the shown view, with the slots filled |
| DialogScreen.DialogUI.StartStreamingDialog | src/main/java/com/jmonkeyvibe/game/ui/DialogUI.java:221-246 | the new view is the shown view with empty text |
| DialogScreen.DialogUI.AppendStreamedText | src/main/java/com/jmonkeyvibe/game/ui/DialogUI.java:248-251 | the chunk joins the buffer and the display shows the whole buffer |
| DialogScreen.DialogUI.SetCustomInputVisible | src/main/java/com/jmonkeyvibe/game/ui/DialogUI.java:253-277 | the typing flag follows the argument, and a fresh "> " line appears when typing starts |
| DialogScreen.DialogUI.UpdateCustomInputText | src/main/java/com/jmonkeyvibe/game/ui/DialogUI.java:279-281 | only the custom line changes, to the typed text between prompt and cursor |
| DialogScreen.DialogUI.Hide | src/main/java/com/jmonkeyvibe/game/ui/DialogUI.java:283-288 | only the visibility changes |
| DialogScreen.DialogUI.IsVisible | src/main/java/com/jmonkeyvibe/game/ui/DialogUI.java:290-292 | the visibility |
| DialogScreen.DialogUI.IsTypingCustomInput | src/main/java/com/jmonkeyvibe/game/ui/DialogUI.java:294-296 | the typing flag |
| DialogScreen.DialogUI.SelectChoice | src/main/java/com/jmonkeyvibe/game/ui/DialogUI.java:298-303 | the cursor moves only to an index naming a choice |
| DialogScreen.DialogUI.HighlightChoice | src/main/java/com/jmonkeyvibe/game/ui/DialogUI.java:308-313 | the same cursor rule, for the gamepad |
| DialogScreen.DialogUI.GetSelectedChoice | src/main/java/com/jmonkeyvibe/game/ui/DialogUI.java:315-320 | the choice under the cursor, one of the listed choices, or none |
| DialogScreen.DialogUI.GetSelectedChoiceIndex | src/main/java/com/jmonkeyvibe/game/ui/DialogUI.java:322-324 | the cursor |
| DialogScreen.DialogUI.GetChoiceCount | src/main/java/com/jmonkeyvibe/game/ui/DialogUI.java:329-331 | the number of choices, including any beyond the three slots |
| DialogScreen.DialogUI.ShowCustomInputPrompt | src/main/java/com/jmonkeyvibe/game/ui/DialogUI.java:348-350 | only the prompt changes, to the typing instructions |
| DialogScreen.DialogUI.ShowChoicePrompt | src/main/java/com/jmonkeyvibe/game/ui/DialogUI.java:352-354 | only the prompt changes, to the choice instructions |
| DialogScreen.DialogUI.GetCurrentDialogText | src/main/java/com/jmonkeyvibe/game/ui/DialogUI.java:356-358 | the text accumulated in the buffer |
| HealthBar.PercentBounds | src/main/java/com/jmonkeyvibe/game/ui/HealthBarUI.java:100 | the fill fraction lies in [0, 1]; between zero and a positive maximum it is their exact ratio; above the maximum it is full; at or below zero it is empty |
| HealthBar.PercentMonotone | src/main/java/com/jmonkeyvibe/game/ui/HealthBarUI.java:100 | with a fixed positive maximum, more health never shows a shorter bar |
| HealthBar.WidthProperties | src/main/java/com/jmonkeyvibe/game/ui/HealthBarUI.java:103-107 | the fill lies between the 0.1 sliver and the full 196, is proportional above the sliver, and grows with the fraction |
| HealthBar.BandProperties | src/main/java/com/jmonkeyvibe/game/ui/HealthBarUI.java:110-118 | green exactly above 0.6, red exactly at or below 0.3, yellow between; never less severe as health drops |
| HealthBar.HealthTextReadsBack | src/main/java/com/jmonkeyvibe/game/ui/HealthBarUI.java:121 | the label reads back: the number before " / " is the current health cast to int, the one after it the maximum |
| HealthBar.StepsKeepValid | src/main/java/com/jmonkeyvibe/game/ui/HealthBarUI.java:99-140 | updating, showing and hiding keep the width and colour in step with the fraction; an update does not depend on the previous bar |
| HealthBar.HealthBarUI.constructor | src/main/java/com/jmonkeyvibe/game/ui/HealthBarUI.java:35-77 | a full green bar labelled "100 / 100", not yet attached |
| HealthBar.HealthBarUI.Update | src/main/java/com/jmonkeyvibe/game/ui/HealthBarUI.java:99-122 | the new bar is the updated view, so the bar lemmas hold of it |
| HealthBar.HealthBarUI.Show | src/main/java/com/jmonkeyvibe/game/ui/HealthBarUI.java:127-131 | only the scene changes, attached once |
| HealthBar.HealthBarUI.Hide | src/main/java/com/jmonkeyvibe/game/ui/HealthBarUI.java:136-140 | only the scene changes, detached once |
| LevelUpScreen.PreviewsMatchLevelUp | src/main/java/com/jmonkeyvibe/game/ui/LevelUpUI.java:219-248 | each preview's "after" value is what levelUp with that stat produces, and its "before" value is the current one |
| LevelUpScreen.Shown | src/main/java/com/jmonkeyvibe/game/ui/LevelUpUI.java:190-214 | showing puts the cursor on strength, announces the level the player will reach, and holds the previews |
| LevelUpScreen.CursorWraps | src/main/java/com/jmonkeyvibe/game/ui/LevelUpUI.java:372-375 | a unit step wraps around the four options, and up undoes down |
| LevelUpScreen.Confirmed | src/main/java/com/jmonkeyvibe/game/ui/LevelUpUI.java:397-408 | a confirm closes the screen and, with a listener, tells it the selected stat number |
| LevelUpScreen.KeySelectsStat | src/main/java/com/jmonkeyvibe/game/ui/LevelUpUI.java:338-370 | key k levels stat k, the listener hears k, and the screen closes |
| LevelUpScreen.ReleaseIgnored | src/main/java/com/jmonkeyvibe/game/ui/LevelUpUI.java:338-370 | a key release changes nothing |
| LevelUpScreen.UpDownCancel | src/main/java/com/jmonkeyvibe/game/ui/LevelUpUI.java:285-302 | D-pad up and down in the same frame cancel out |
| LevelUpScreen.StepsKeepValid | src/main/java/com/jmonkeyvibe/game/ui/LevelUpUI.java:190-408 | every step keeps the cursor on one of the four options and the scene consistent, and only a confirm levels the player, with a stat in 1..4 |
| LevelUpScreen.ActionKeepsValid | src/main/java/com/jmonkeyvibe/game/ui/LevelUpUI.java:338-370 | a key action keeps the cursor on one of the four options, and levels the player only with a stat in 1..4, closing the screen |
| LevelUpScreen.PadKeepsValid | src/main/java/com/jmonkeyvibe/game/ui/LevelUpUI.java:285-302 | a gamepad update keeps the cursor on one of the four options and levels the player exactly when A was pressed |
| LevelUpScreen.LevelUpUI.constructor | src/main/java/com/jmonkeyvibe/game/ui/LevelUpUI.java:59-65 | hidden, cursor on strength, level line "You are now Level 2", no listener, no gamepad |
| LevelUpScreen.LevelUpUI.SetListener | src/main/java/com/jmonkeyvibe/game/ui/LevelUpUI.java:271-273 | only the listener is set |
| LevelUpScreen.LevelUpUI.SetGamepadManager | src/main/java/com/jmonkeyvibe/game/ui/LevelUpUI.java:278-280 | only the gamepad is set |
| LevelUpScreen.LevelUpUI.Show | src/main/java/com/jmonkeyvibe/game/ui/LevelUpUI.java:190-214 | the new view is the shown view for that player |
| LevelUpScreen.LevelUpUI.Hide | src/main/java/com/jmonkeyvibe/game/ui/LevelUpUI.java:253-259 | only the visibility changes |
| LevelUpScreen.LevelUpUI.IsVisible | src/main/java/com/jmonkeyvibe/game/ui/LevelUpUI.java:264-266 | the visibility |
| LevelUpScreen.LevelUpUI.MoveSelection | src/main/java/com/jmonkeyvibe/game/ui/LevelUpUI.java:372-375 | the cursor moves with wrap-around and nothing else changes |
| LevelUpScreen.LevelUpUI.ConfirmSelection | src/main/java/com/jmonkeyvibe/game/ui/LevelUpUI.java:397-408 | the player levels the selected stat, the listener is told, and the screen closes |
| LevelUpScreen.LevelUpUI.OnAction | src/main/java/com/jmonkeyvibe/game/ui/LevelUpUI.java:338-370 | the screen and the player follow the key-action outcome |
| LevelUpScreen.LevelUpUI.Update | src/main/java/com/jmonkeyvibe/game/ui/LevelUpUI.java:285-302 | nothing happens while hidden or without a gamepad; otherwise up, down and A are read once each, cleared, and acted on in that order |
| GameOverScreen.Shown | src/main/java/com/jmonkeyvibe/game/ui/GameOverUI.java:181-203 | showing records and displays the wave reached, puts the cursor on "Try Again", and makes the screen visible |
| GameOverScreen.CursorToggles | src/main/java/com/jmonkeyvibe/game/ui/GameOverUI.java:321-324 | with two options a unit step either way toggles the cursor |
| GameOverScreen.ConfirmFiresOne | src/main/java/com/jmonkeyvibe/game/ui/GameOverUI.java:350-359 | a confirm makes exactly one callback, for the selected option, when a listener is set, none otherwise, and closes the screen |
| GameOverScreen.KeysPickOptions | src/main/java/com/jmonkeyvibe/game/ui/GameOverUI.java:295-319 | key 1 tries again and key 2 exits, whatever the cursor was on |
| GameOverScreen.BExits | src/main/java/com/jmonkeyvibe/game/ui/GameOverUI.java:240-263 | B alone exits to the overworld and closes the screen |
| GameOverScreen.AAndBTogetherCallTwice | src/main/java/com/jmonkeyvibe/game/ui/GameOverUI.java:240-263 | A and B in one frame make two callbacks, because B is read after A has already closed the screen |
| GameOverScreen.StepsKeepValid | src/main/java/com/jmonkeyvibe/game/ui/GameOverUI.java:181-359 | every step keeps the cursor on one of the two options and the scene consistent |
| GameOverScreen.GameOverUI.constructor | src/main/java/com/jmonkeyvibe/game/ui/GameOverUI.java:50-56 | hidden, cursor on "Try Again", wave line "You reached Wave 1", no listener, no gamepad |
| GameOverScreen.GameOverUI.SetListener | src/main/java/com/jmonkeyvibe/game/ui/GameOverUI.java:226-228 | only the listener is set |
| GameOverScreen.GameOverUI.SetGamepadManager | src/main/java/com/jmonkeyvibe/game/ui/GameOverUI.java:233-235 | only the gamepad is set |
| GameOverScreen.GameOverUI.Show | src/main/java/com/jmonkeyvibe/game/ui/GameOverUI.java:181-203 | the new view is the shown view for that wave |
| GameOverScreen.GameOverUI.Hide | src/main/java/com/jmonkeyvibe/game/ui/GameOverUI.java:208-214 | only the visibility changes |
| GameOverScreen.GameOverUI.IsVisible | src/main/java/com/jmonkeyvibe/game/ui/GameOverUI.java:219-221 | the visibility |
| GameOverScreen.GameOverUI.MoveSelection | src/main/java/com/jmonkeyvibe/game/ui/GameOverUI.java:321-324 | the cursor toggles and nothing else changes |
| GameOverScreen.GameOverUI.ConfirmSelection | src/main/java/com/jmonkeyvibe/game/ui/GameOverUI.java:350-359 | the new view is the confirmed view |
| GameOverScreen.GameOverUI.OnAction | src/main/java/com/jmonkeyvibe/game/ui/GameOverUI.java:295-319 | the new view is the key-action view |
| GameOverScreen.GameOverUI.PollMove | src/main/java/com/jmonkeyvibe/game/ui/GameOverUI.java:246-251 | reads and clears one D-pad flag and moves the cursor exactly when it was set |
| GameOverScreen.GameOverUI.PollConfirm | src/main/java/com/jmonkeyvibe/game/ui/GameOverUI.java:253-262 | reads and clears the A or B flag and confirms exactly when it was set, B selecting the exit first |
| GameOverScreen.GameOverUI.Update | src/main/java/com/jmonkeyvibe/game/ui/GameOverUI.java:240-263 | nothing happens while hidden or without a gamepad; otherwise up, down, A and B are read once each, cleared, and acted on in that order |

## Left out

- Rendering, materials, lights, cameras, fonts, textures and audio: these do not affect the game's rules. This covers all node building in the modelled classes (`getSpatial`, `updateChoiceHighlight`, `updateSelectionHighlight`, `cleanup`, label layout).
- The engine's listener plumbing (key mappings, `onAnalog`, the raw-input callbacks other than joystick axes and buttons, `GamepadManager.setListener` and the listener's `onAxisChanged`/`onButtonChanged` calls): these are callbacks into code that is not part of this model.
- Random numbers: every `nextInt`/`nextFloat`/UUID is a parameter, so the model proves properties for every possible draw and says nothing about the distribution.
- Floating point: floats are real numbers, so rounding, NaN and infinities are not modelled, and neither is the fact that constants such as `0.6f` are not exact.
- `Vector3f.normalize` and `distance`: normalize is a parameter; distance is replaced by a squared comparison shown equivalent for any exact square root.
- 32-bit `int` overflow: integers are unbounded; experience, levels, rewards and coordinates stay far from the limits in play.
- Unicode: lower-casing handles ASCII letters only.
- The `%.0f` and `%.1f` text of the level-up previews: the model keeps the numbers, not their formatted text.
- HealthBar.Ratio: a zero maximum gives 1 for positive health and 0 otherwise. Java gives an infinity (which clamps the same way) and, for 0/0, NaN, which makes the width 0.1 and the colour red. The model shows the same width and colour but stores 0 as the fraction.
- DialogScreen.DialogUI.Show: the choice list is a value, so the aliasing case where `show` is passed its own `currentChoices` list (which clears it before copying) is not modelled.
- Dungeon.DungeonGenerator.GenerateDungeon: requires fifteen room draws that `nextInt` can return for the map, which needs a map large enough to fit a room; on a smaller map `nextInt` throws, and that case is not modelled.
- Enemy.tryAttackPlayer is not part of this model: its results are a parameter of ProcessEnemyAttacks.
- The AI model factory (AIModelFactory.java) is not part of this model: its success or failure is a constructor parameter of the conversation manager.
- Setters receiving `null` strings: a quest's text fields are `Option` values, set only to present strings.
- The game states, the NPC entity, the intro story, audio and `Main` are not part of this model.

## Findings

| source | as written | input that shows it | evidently intended | confidence | as-written member | corrected member |
|---|---|---|---|---|---|---|
| src/main/java/com/jmonkeyvibe/game/ai/NPCConversationManager.java:123-132 | `clearHistory` and `clearAllHistory` dereference the history map, which the constructor leaves null when the model factory throws | a manager built while the factory throws, then `clearHistory("Elder")` or `clearAllHistory()` | clearing with no model has nothing to clear and returns normally, as the rest of the class guards the unavailable model | not executed | Conversation.ClearHistoryAsWritten (shown by Conversation.ClearAfterFailedStartThrows) | Conversation.ClearedHistory (with Conversation.ClearedAll and Conversation.ClearedAgreesWhereWrittenReturns) |
