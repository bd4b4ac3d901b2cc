# Survivor: a Dafny model of the game core

This project models the core of *survivor*, a top-down shooter written in Go on
top of raylib. It covers four parts of the game:

- **The broad-phase collision grid** (`collision.go`). Bodies are bucketed into
  the cells of a grid with a one-cell border. Each pass scans the central cells
  against their 3×3 neighbourhood and records colliding pairs. It then asks the
  first body of each pair to rearrange itself against the second. Passes repeat
  until a scan records nothing or the iteration budget runs out.
- **The player's weapon state** (`player.go`). This covers the magazine, the
  reserve, the reload timer, shooting with its pistol fallback, damage, and the
  pickups that `main.go` applies to the player.
- **The grenade**, a one-shot timer (`grenade.go`). It is placed, explodes once,
  damages every enemy within 150 units, and is destroyed after the explosion has
  been shown for half a second.
- **The game rules of the main loop** (`main.go`). These are the compaction of
  destroyed world items, the per-level scaling formulas, the loot timeout, and
  the level progression (completion, transition, spawning).

The `Collides` interface becomes the closed datatype `Bodies.Body`, with one
variant per implementing type. The shown code gives enemies neither a collision
test nor a reaction, so both are parameters: `Bodies.EnemyRules`. Positions are
pairs of reals. Go's `int(x)` conversion is `Geometry.Truncate`, which truncates
toward zero. raylib's distance tests are stated on squared distances.

Objects that the Go code updates in place are Dafny classes:

- `Collision.CollisionSpace` keeps its grid in an `array2<seq<nat>>`.
- `Players.Player` and `Grenades.Grenade` hold the fields of their Go structs.
- The level-system locals of `main()` are `Game.LevelFlow`.

The body list handed to `RearrangeBodies` is an `array<Body>`, and so is the
enemy list handed to `Grenade.Update`. Each class method is proved against pure
specification functions, and the lemmas next to those functions state what the
game promises:

- `Scan`, `Relaxed` and `Passes` specify the collision scan and the relaxation.
- `StartReload`, `FinishReload`, `Fire` and `Equip` specify the player's weapon.
- `Tick` and `Blast` specify the grenade.
- `Survivors`, `Advance` and `Spawn` specify the main-loop rules.

Rules that live inline in `main()` are lifted into members of their own:

- the weapon pickup (`Players.Player.PickUpWeapon`, specified by `Players.Equip`);
- the ammo pickup and the grenade pickup (`Players.Player.PickUpAmmo` and
  `Players.Player.PickUpGrenades`);
- the loot timeout (`Game.Expired`);
- the level-completion and spawn rules (`Game.LevelFlow`).

The scan's central cells are rows `1..Rows-1` and columns `1..Cols-1`, as the
code writes them. The last interior row and column (`Rows` and `Cols`) therefore
only ever appear as neighbours (`Collision.RimBodiesAreOnlyNeighbours`). As a
consequence, two bodies that both sit in bucket row `Rows`, or both in bucket
column `Cols`, are never tested against each other, however much they overlap
(`Collision.RimPairsNeverRecorded`). The collision model follows the code; the
corrected scan is under "## Findings".

The weapon pickup loop in `main.go` does not check whether the loot is already
destroyed, unlike the ammo and grenade pickups. `Players.Player.PickUpWeapon`
keeps that difference: it only asks whether the player touches the loot.

## Model

| member | source | states |
|---|---|---|
| Geometry.Truncate | player.go:368 | Go's float-to-int conversion drops the fraction toward zero: the result lies within one of `x`, on the side of zero |
| Enemies.DealDamage | enemy.go:42-44 | health drops by exactly the damage and no other field (in particular `destroyed`) changes |
| Loot.LootColor | loot.go:28-40 | Blue exactly for MITRA, Purple exactly for SHOTGUN, Gold exactly for MINIGUN, Green for every other weapon |
| Loot.NewWeaponLoot | loot.go:26-48 | new weapon loot keeps weapon, position and creation time, is not destroyed and gets the colour of its weapon |
| Loot.NewAmmoLoot | loot.go:50-56 | a new ammo crate keeps amount, position and creation time and is not destroyed |
| GrenadePickups.NewGrenadePickup | grenadepickup.go:19-27 | a new grenade pickup grants 2 grenades over a 60-unit square, is not destroyed and keeps position and creation time |
| Bodies.Rearrange | collision.go:7 | rearranging keeps the list length, and a non-enemy first body changes nothing |
| Bodies.CheckCollision | player.go:374-384 | the `Collides.CheckCollision` dispatch: the player tests its circle of radius `playerSize·0.7` against enemies only; weapon loot, ammo crates, grenade pickups and grenades never collide (loot.go:77-79, grenadepickup.go:63-65, grenade.go:105-107); an enemy asks the `EnemyRules` parameter. PlayerCollidesOnlyWithEnemies and PassiveBodiesAreInert state its cases |
| Bodies.RearrangeOnlyMoves | collision.go:7 | rearranging one pair leaves every other body as it was and changes only positions, never a variant or another field |
| Bodies.PlayerCollidesOnlyWithEnemies | player.go:374-384 | the player collides exactly with the enemies whose circle overlaps its own (radius playerSize·0.7) |
| Bodies.PassiveBodiesAreInert | loot.go:77-82 | loot, ammo, grenade pickups and grenades never collide, and asking any non-enemy body to rearrange changes nothing (also loot.go:103-109, grenadepickup.go:63-70, grenade.go:105-112, player.go:386-388) |
| Collision.CellCoord | collision.go:48-66 | a grid coordinate always lands in the interior `1..count`, never on the border |
| Collision.CellCoordLocates | collision.go:48-66 | a negative position maps to cell 1, one at or beyond `count·cellSize` to cell `count`, and any other to the cell whose span contains it; nothing wraps |
| Collision.CellCoordBeyond | collision.go:54-55 | a position at or past the grid's far edge is clamped into the last interior cell |
| Collision.CellCoordWithin | collision.go:48-49 | a position inside the grid lands in the cell whose span `[(g-1)·size, g·size)` contains it |
| Collision.CellOf | collision.go:45-66 | the (row, column) bucket of a body: CellCoord of its y and x coordinates, so always an interior cell |
| Collision.Where | collision.go:44-49 | the cell of every body, one per body |
| Collision.WhereIsCellOf | collision.go:44-66 | the i-th entry of the cell list is the cell of the i-th body |
| Collision.BucketUpTo | collision.go:44-69 | the indices among the first n bodies placed in cell (y, x), in placement order; BucketUpToMembers and BucketUpToIncreasing state its meaning |
| Collision.Bucket | collision.go:35-70 | what cell (y, x) holds after UpdateCells: the bucket built from every body of the list; EachBodyInItsOwnBucket and BorderStaysEmpty state its meaning |
| Collision.BucketUpToBelow | collision.go:44-69 | a bucket built from the first n bodies holds only indices below n |
| Collision.BucketUpToMembers | collision.go:44-69 | index i is in a bucket exactly when i is one of the bodies placed so far and its cell is that bucket |
| Collision.BucketUpToIncreasing | collision.go:44-69 | indices in a bucket are strictly increasing, because bodies are appended in list order |
| Collision.EachBodyInItsOwnBucket | collision.go:44-69 | a body's index is in a bucket exactly when that bucket is its cell, so it appears in exactly one bucket |
| Collision.BucketInListOrder | collision.go:44-69 | every bucket after UpdateCells lists its bodies in increasing index order |
| Collision.BorderStaysEmpty | collision.go:51-66 | every bucket outside rows `1..Rows` and columns `1..Cols` stays empty |
| Collision.RowLoadStep | collision.go:69 | placing one more body adds one to exactly the row that holds its cell |
| Collision.GridLoadStep | collision.go:69 | placing one more body adds one to the grid's total occupancy when its cell is on the grid |
| Collision.RowLoadEmpty | collision.go:36-41 | a grid with no bodies placed has no occupancy in any row |
| Collision.GridLoadEmpty | collision.go:36-41 | a grid with no bodies placed has total occupancy zero |
| Collision.GridLoadCounts | collision.go:44-70 | when every cell lies on the grid, the total occupancy equals the number of bodies placed |
| Collision.TotalOccupancy | collision.go:35-71 | after UpdateCells the buckets hold exactly `len(bodies)` indices in total |
| Collision.Layout | collision.go:15-21 | the bucket grid has `Rows+2` rows of `Cols+2` buckets |
| Collision.LayoutIndexed | collision.go:44-69 | every bucket holds only indices of the body list |
| Collision.LayoutIsSorted | collision.go:44-69 | every body's cell is on the grid, and a bucket holds an index exactly when that body's cell is the bucket |
| Collision.Hit | collision.go:104-111 | a recordable hit: two distinct bodies of the list, the first reporting a collision with the second |
| Collision.PairsWith | collision.go:104-114 | the inner loop: the central body against each body of a neighbour bucket, skipping itself; PairsWithMembers states its meaning |
| Collision.CrossPairs | collision.go:101-115 | every body of the central bucket against the neighbour bucket; CrossPairsMembers states its meaning |
| Collision.CellPairs | collision.go:90-115 | one neighbour cell, skipped when it lies outside the padded grid; CellPairsMembers states its meaning |
| Collision.NeighbourRow | collision.go:89-116 | one row of neighbour cells of a central cell; NeighbourRowMembers states its meaning |
| Collision.Neighbourhood | collision.go:88-117 | the 3×3 neighbourhood of a central cell; NeighbourhoodMembers states its meaning |
| Collision.ScanRow | collision.go:81-118 | the central cells of one row; ScanRowMembers states its meaning |
| Collision.ScanRows | collision.go:80-119 | the central rows, each over a bound on the columns; ScanRowsMembers states its meaning |
| Collision.Scan | collision.go:80-119 | every pair recorded by one scan refers to two bodies of the list |
| Collision.ScanRowsPairsIn | collision.go:80-119 | the row-by-row scan only records pairs of list indices |
| Collision.PairsWithMembers | collision.go:104-113 | a pair is recorded for a central body exactly when the neighbour differs from it, is in the neighbour bucket and CheckCollision holds |
| Collision.PairsWithStep | collision.go:104-113 | one more neighbour adds exactly the pair with that neighbour, when it is a hit |
| Collision.CrossPairsMembers | collision.go:101-115 | a pair is recorded for two buckets exactly when its first body is in the central bucket, its second in the neighbour bucket, and it is a hit |
| Collision.CellPairsMembers | collision.go:88-116 | the pairs of one central cell against one neighbour cell are exactly its hits between bodies of those two cells |
| Collision.NeighbourRowMembers | collision.go:89-116 | one neighbour row adds exactly the hits whose second body lies in the scanned columns of that row |
| Collision.NeighbourhoodMembers | collision.go:88-117 | a central cell adds exactly the hits from its bodies to bodies in its 3×3 neighbourhood |
| Collision.ScanRowMembers | collision.go:81-118 | one row of central cells adds exactly the hits whose first body sits in that row's scanned columns |
| Collision.ScanRowsMembers | collision.go:80-119 | the scanned rows add exactly the hits whose first body sits in a scanned central cell |
| Collision.ScanRecordsExactlyNeighbourHits | collision.go:80-119 | a pair is recorded exactly when the two bodies differ and CheckCollision holds, the first body's cell is central (rows `1..Rows-1`, columns `1..Cols-1`) and the second body's cell is in its 3×3 neighbourhood |
| Collision.Recordable | collision.go:80-113 | what a scan records: a hit whose first body sits in a central cell (rows `1..Rows-1`, columns `1..Cols-1`) and whose second body sits in the 3×3 neighbourhood of that cell |
| Collision.RimBodiesAreOnlyNeighbours | collision.go:80-81 | a body in bucket row `Rows` or column `Cols` is never the first body of a recorded pair |
| Collision.RimPairsNeverRecorded | collision.go:80-81 | two bodies both in bucket row `Rows`, or both in bucket column `Cols`, are never tested against each other in either order |
| Collision.RimCollisionMissed | collision.go:80-81 | two colliding bodies in the same cell of bucket row `Rows` are not recorded by the scan as written, and are recorded by the corrected scan |
| Collision.FullScan | collision.go:80-119 | the scan with the central bounds corrected to rows `1..Rows` and columns `1..Cols` |
| Collision.FullScanRecordsEveryNeighbourHit | collision.go:80-119 | the corrected scan records exactly the hits between bodies in neighbouring cells, anywhere on the grid |
| Collision.EmptyCellPairsVanish | collision.go:84-86 | an empty central cell records nothing |
| Collision.EmptyNeighbourRow | collision.go:84-86 | an empty central cell adds nothing for any neighbour row |
| Collision.NoNeighboursNoPairs | collision.go:97-99 | an empty neighbour bucket records nothing |
| Collision.ApplyAll | collision.go:123-125 | rearranging every recorded pair in order keeps the body count |
| Collision.ApplyAllOnlyMoves | collision.go:123-125 | rearranging all recorded pairs changes only positions |
| Collision.Relaxed | collision.go:73-127 | the relaxation keeps the body count |
| Collision.Passes | collision.go:74-78 | the refresh callback runs no time when `maxIters ≤ 0` and between 1 and `maxIters` times otherwise |
| Collision.RelaxStep | collision.go:74-125 | a pass with budget left stops after a scan that records no pair, and otherwise rearranges what it recorded and goes on with one pass less |
| Collision.Finish | collision.go:74-126 | finishing the loop from any state keeps the body count and never lowers the pass count |
| Collision.FinishIsRelaxed | collision.go:74-125 | running the loop from its start state (flag set, no pass yet) until it stops gives the relaxed bodies and counts the passes |
| Collision.RelaxedOnlyMoves | collision.go:73-127 | RearrangeBodies changes only the positions of bodies |
| Collision.QuietBodiesStayPut | collision.go:74-125 | if no body collides with another body of the list (a body is never tested against itself), no scan records anything, nothing moves and the callback runs exactly once when `maxIters ≥ 1` |
| Collision.NoEnemiesNoMotion | collision.go:74-125 | a world without enemies (loot, pickups, grenades and the player) never moves and is scanned exactly once |
| Collision.CollisionSpace.constructor | collision.go:23-33 | the grid has `Rows+2` rows of `Cols+2` empty buckets, with cell sizes from integer division |
| Collision.CollisionSpace.UpdateCells | collision.go:35-71 | after the clear-and-place loops, every bucket holds exactly the bucket the specification assigns: nothing of the old contents survives |
| Collision.CollisionSpace.CellIndex | collision.go:45-66 | the per-body computation gives the body's cell (truncate, clamp, shift past the border) |
| Collision.CollisionSpace.ScanPairs | collision.go:80-119 | the nested scan loops build exactly the specified list of pairs, in recording order |
| Collision.CollisionSpace.ScanRowCells | collision.go:81-118 | the loop over one row of central cells extends the list as the row specification says |
| Collision.CollisionSpace.ScanCell | collision.go:82-117 | the loop over a central cell's neighbourhood extends the list as specified, skipping empty cells |
| Collision.CollisionSpace.ScanNeighbourRow | collision.go:89-116 | the loop over one neighbour row extends the list as specified |
| Collision.CollisionSpace.RearrangeAll | collision.go:123-125 | the array of bodies ends as the specification's in-order rearrangement of the recorded pairs |
| Collision.CollisionSpace.Pass | collision.go:76-125 | one pass refreshes, scans and rearranges, and reports whether any pair was recorded |
| Collision.CollisionSpace.RearrangeBodies | collision.go:73-127 | the bodies end as the bounded relaxation leaves them, and the refresh callback runs exactly `Passes` times |
| Collision.CrossScan | collision.go:101-115 | the two innermost loops append exactly the specified hits of a central bucket against a neighbour bucket |
| Players.StartReload | player.go:391-417 | Reload is refused exactly when reloading, with a full magazine, or with an ammo weapon and an empty reserve, and then changes nothing; a non-ammo weapon is refilled at once without reloading; an ammo weapon starts the timer with the counts untouched |
| Players.FinishReload | player.go:226-249 | completion happens only when the reload time has passed and clears the reloading flag; an ammo weapon conserves magazine + reserve and gets `min(size, magazine + reserve)`; a non-ammo weapon becomes full |
| Players.ReloadDue | player.go:226-228 | a reload completes once it is running and the time has reached its start plus the weapon's reload time |
| Players.Fire | player.go:330-361 | no projectile while reloading; the pistol fallback happens exactly when an ammo weapon has an empty magazine and reserve, and then swaps in a full PISTOL, fires its projectile and keeps the reserve and the reload fields; an ammo weapon with an empty magazine but rounds in reserve fires nothing; otherwise nProj projectiles leave, an ammo weapon's magazine drops by one per call and every other field is kept, and a non-ammo weapon's state never changes |
| Players.Equip | main.go:672-689 | the picked-up weapon replaces the old one and cancels reloading; an ammo weapon loads `min(reserve, size)` taken from the reserve, a non-ammo weapon starts full with the reserve unchanged |
| Players.StepsKeepStock | player.go:226-249 | reload, completion, shooting and weapon pickup keep the magazine between 0 and its size and the reserve non-negative (also player.go:330-361, 391-417, main.go:672-689) |
| Players.ReloadCycle | player.go:391-417 | a reload started and completed after the reload time fills the magazine as far as the reserve allows and loses no round (also player.go:226-249) |
| Players.ReloadBlocksFire | player.go:332-334 | before the reload time has passed, completion changes nothing and shooting fires nothing (also player.go:226-227) |
| Players.PullsSpendOneRoundEach | player.go:337-358 | k trigger pulls on a magazine holding at least k rounds fire `k·nProj` projectiles and spend exactly k rounds |
| Players.Player.constructor | player.go:89-107 | a new player has full hit points, stands at (500, 500) and holds a full PISTOL, 10000 reserve rounds and 3 grenades, without reloading |
| Players.Player.TakeDamage | player.go:367-372 | hit points drop by the truncated damage and are clamped at 0; the class invariant (counts in range, hit points not negative) is kept |
| Players.Player.Reload | player.go:391-417 | the field updates and the result are those of StartReload; hit points, position, grenades and notices are unchanged; the class invariant (counts in range, hit points not negative) is kept |
| Players.Player.UpdateWithoutMovement | player.go:219-252 | a pressed reload key tries Reload, then a due reload completes, as FinishReload says; the class invariant (counts in range, hit points not negative) is kept |
| Players.Player.Shoot | player.go:330-361 | the loop builds exactly the Fire count of projectiles, each from the player's position with the weapon's damage; the weapon state becomes Fire's, and the fallback sets the out-of-ammo notice; the class invariant (counts in range, hit points not negative) is kept |
| Players.Player.PickUpWeapon | main.go:672-695 | touching weapon loot equips it as Equip says, marks the loot destroyed and sets the pickup notice; the class invariant is kept whenever the weapon's magazine size is not negative |
| Players.Player.PickUpAmmo | main.go:711-719 | a crate that is not yet destroyed and is touched adds exactly its amount to the reserve and is marked destroyed; a destroyed crate is ignored; the class invariant is kept whenever the amount is not negative |
| Players.Player.PickUpGrenades | main.go:856-862 | a grenade pickup that is not yet destroyed and is touched adds its grenades and is marked destroyed; the class invariant (counts in range, hit points not negative) is kept |
| Grenades.Hit | grenade.go:48-50 | one enemy within distance 150 of the centre takes the grenade's 200 damage, any other is left as it is |
| Grenades.Blast | grenade.go:47-55 | the enemy list after the damage loop; BlastPointwise and BlastEffect state its meaning |
| Grenades.BlastPointwise | grenade.go:47-55 | the blast treats every enemy on its own and keeps the list's order and length |
| Grenades.BlastEffect | grenade.go:47-55 | every enemy within distance 150 loses exactly 200 health; enemies farther away are unchanged, and no enemy's destroyed flag or other field changes (also enemy.go:42-44) |
| Grenades.ApplyBlast | grenade.go:47-55 | the in-place damage loop leaves the enemy array equal to the blast of its old contents |
| Grenades.Placed | grenade.go:27-36 | a new grenade has not exploded, is not destroyed and is due at placement time + 2 |
| Grenades.Tick | grenade.go:39-65 | the first update at or after the fuse time sets the grenade off and resets the deadline to that time + 0.5; destruction happens only when already exploded and strictly after the deadline |
| Grenades.ExplodesOnce | grenade.go:43-44 | after the detonating update, no later update detonates again |
| Grenades.Irreversible | grenade.go:43-64 | an exploded grenade stays exploded and a destroyed one stays destroyed |
| Grenades.NotDestroyedOnDetonation | grenade.go:58-64 | the update that sets the grenade off never destroys it |
| Grenades.Lifecycle | grenade.go:27-65 | updates before the fuse time change nothing; the first one at or after it explodes the grenade without destroying it; an update more than 0.5 later destroys it |
| Grenades.Grenade.constructor | grenade.go:27-36 | NewGrenade stores position and time and starts the timer as Placed says |
| Grenades.Grenade.Update | grenade.go:39-65 | Update records the time, advances the timer as Tick says, and applies the blast to the enemy array in place on the detonating update only |
| Game.RemoveIndex | main.go:98-100 | the list loses exactly its element at the index; elements before it keep their places and later ones shift down by one |
| Game.Survivors | main.go:102-113 | the list UpdateWorldItems returns; SurvivorsMembers, SurvivorsAppend and SurvivorsShrink state its meaning |
| Game.SurvivorsMembers | main.go:102-113 | an item is kept exactly when it was in the list and is not destroyed |
| Game.SurvivorsAppend | main.go:102-113 | compaction works piece by piece, so the relative order of the kept items is preserved |
| Game.SurvivorsShrink | main.go:102-113 | compaction never lengthens a list, and leaves it unchanged exactly when nothing is destroyed |
| Game.SurvivorsAllLive | main.go:102-113 | a list with no destroyed item is kept as it is |
| Game.SurvivorsIdempotent | main.go:102-113 | compacting a compacted list changes nothing |
| Game.Marked | main.go:103-108 | the `toRemove` list that the backward loop collects; MarkedMembers and MarkedDescending state its meaning |
| Game.MarkedMembers | main.go:104-108 | the collected removal indices are exactly the indices of destroyed items |
| Game.MarkedDescending | main.go:104-108 | the collected removal indices are strictly decreasing, so no removal shifts an index still to be removed |
| Game.MarkedHead | main.go:104-108 | the first collected index is the highest destroyed one, and everything between it and the bound is kept |
| Game.MarkedNone | main.go:104-108 | no collected index means nothing destroyed |
| Game.RemoveStep | main.go:109-111 | removing the next collected index extends the compacted tail by one position down |
| Game.UpdateWorldItems | main.go:102-113 | the result is exactly the non-destroyed items in their original order |
| Game.EnemiesForLevel | main.go:123-127 | level l has 5·l enemies |
| Game.EnemyHealthForLevel | main.go:130-134 | enemy health is 80 + 20·l |
| Game.EnemyDamageForLevel | main.go:137-141 | enemy damage is 5 + 5·l |
| Game.LevelScaling | main.go:123-141 | each level adds 5 enemies, 20 health and 5 damage; level 1 has 5 enemies of health 100 and damage 10 |
| Game.SpawnDelayForLevel | main.go:251-262 | the spawn delay is `1 - 0.1·(l-1)` while that is at least 0.3, and exactly 0.3 below it, so it is never under the floor |
| Game.SpawnDelayShrinks | main.go:251-262 | the spawn delay is 1 at level 1, never grows with the level, and is 0.3 from level 8 on |
| Game.Expired | main.go:663-668 | loot is marked destroyed exactly when it already was or is more than 10 seconds old, and a destroyed item stays destroyed (also main.go:703-708, 849-854) |
| Game.StrikeAsWritten | main.go:902-918 | a projectile hit deals its damage, and an enemy at zero health or below is marked destroyed and taken off the in-play counter, even one an earlier hit already destroyed |
| Game.DeadEnemyCountedTwice | main.go:902-918 | two hits on one enemy in a frame, the first fatal, take that enemy off the in-play counter twice |
| Game.Strike | main.go:813-817 | the corrected kill rule: the counter drops exactly when the hit finishes an enemy that was not yet destroyed |
| Game.StrikeAll | main.go:902-918 | several hits striking one enemy in turn under the corrected kill rule |
| Game.EachKillCountedOnce | main.go:902-918 | under the corrected rule, any number of hits on one enemy lower the counter by one exactly when they kill it, and a destroyed enemy stays destroyed |
| Game.Start | main.go:339-349 | the game starts at level 1 with 5 enemies to spawn, none in play and no transition |
| Game.LevelOver | main.go:590 | a level is over when the enemy list is empty, none is left to spawn and no transition is running |
| Game.Advance | main.go:589-611 | completion happens exactly when no enemy is listed, none remains and no transition runs; it then goes up one level, resets the remaining count to the new level's count and starts the transition, which ends on the first frame more than 2 seconds later |
| Game.SpawnDue | main.go:756 | a spawn is due when no transition is running, enemies are left to spawn, fewer than 199 are in play and the spawn delay has passed since the last spawn |
| Game.Spawn | main.go:756-797 | a due spawn moves exactly one enemy from the remaining count into play; otherwise nothing changes |
| Game.StepsStaySound | main.go:589-611 | completion, spawning and kills keep the level at least 1, the remaining count non-negative, at most 199 enemies in play, and the level's own spawn delay (also main.go:756, 813-817) |
| Game.TransitionBlocksSpawning | main.go:756 | right after completion no spawn is due, and the transition lasts exactly while at most 2 seconds have passed (also main.go:590-611) |
| Game.SpawnsNeverExceedLevel | main.go:756-797 | any sequence of spawn attempts keeps the remaining count non-negative and conserves remaining + in play |
| Game.LevelFlow.constructor | main.go:339-349 | the level variables start as Start says |
| Game.LevelFlow.CheckLevel | main.go:589-611 | one frame's completion and transition checks update the variables as Advance says and record the level reached |
| Game.LevelFlow.SpawnEnemy | main.go:756-797 | the spawn guard decides as SpawnDue says, the variables change as Spawn says, and a spawned enemy gets the level's health and damage |
| Game.LevelFlow.EnemyKilled | main.go:813-817 | a killed enemy leaves play |

## Left out

- Rendering, textures, the HUD, the Blood and ImpactEffect visuals (including the blood fading when a level transition ends) and sound are not modelled: they have no state the rules read.
- Window setup, keyboard and mouse polling and `rl.GetTime` are not modelled. Key presses, clock readings and the raylib circle-rectangle pickup test are parameters (`reloadPressed`, `currentTime`, `touching`).
- `rl.GetRandomValue` is not modelled. This covers the spawn position search (a loop that retries random points until one is free, and may never end), loot and pickup spawning, and the ammo amount.
- Floating point is not modelled: positions, times and damage are reals, and float32/float64 rounding is ignored. So `1.0 - 7·0.1` is exactly 0.3 here.
- Integer overflow of Go's `int` is not modelled; counts are unbounded integers.
- Enemy movement, projectile motion (projectile.go) and `player.LookAt` are not modelled: they are float vector numerics.
- Enemy collision and separation are not modelled: enemy.go defines no `CheckCollision` or `Rearrange`, so `EnemyRules` is a parameter.
- The enemy–projectile circle test, the player–enemy contact damage and the grenade-kill loop are not modelled. The projectile kill rule is modelled for one enemy (`Game.StrikeAsWritten`, corrected as `Game.Strike`, see "## Findings"). `Game.LevelFlow.EnemyKilled` is the common effect of a kill on the counters.
- Game.Sound: it does not include `inPlay >= 0`. As written, the projectile loop can take an already destroyed enemy off the counter again (see "## Findings"). The counter can then fall below the number of live enemies, and even below zero, so more than 199 enemies can be alive at once.
- `player.Update` (keyboard-driven movement, superseded by `UpdateWithoutMovement`) is not modelled.
- Players.Player.Shoot: the projectile direction (mouse position plus random noise) is not modelled; a projectile is its origin and damage only.
- The shooting-delay gate of the main loop and grenade placement (key E, one-second cooldown) are not modelled. They are main-loop input handling around the modelled `Shoot` and `NewGrenade`.
- Aliasing is not modelled. Go keeps references to loot, pickups and enemies in several lists at once (`worldItems`, `worldBodies`, `enemyList`, ...). Here a pickup returns the updated loot value, and the body and enemy lists are separate arrays of values.
- Game.UpdateWorldItems: Go's `append(s[:i], s[i+1:]...)` also overwrites the caller's backing array; the model works on sequences and captures only the returned list.
- Collision.CollisionSpace.constructor: it requires `cols ≤ pw` and `rows ≤ ph`, so that cells have a positive size. With a zero cell size Go divides a float by zero and converts an infinite value to `int`, and that behaviour is not modelled.
- Collision.CollisionSpace.RearrangeBodies: the refresh callback is fixed to `UpdateCells` on the same body list, which is what main.go:871-873 passes; other callbacks are not modelled.
- Accessors that only return a stored field (`Position`, `Destroyed`) are field reads of the datatypes. `Bodies.Position` returns the stored position of every variant.

## Findings

| source | as written | input that shows it | evidently intended | confidence | as-written member | corrected member |
|---|---|---|---|---|---|---|
| collision.go:80-81 | the central cells run over `y < cs.Rows` and `x < cs.Cols`, so bucket row `Rows` and column `Cols` are never central | two overlapping enemies in the same cell of bucket row `Rows` (the bottom strip of the play area): the pair is never recorded, so they are never pushed apart | `y <= cs.Rows` and `x <= cs.Cols`: every interior cell is central, since the one-cell border already keeps every neighbour inside the grid | medium, not executed | Collision.RimCollisionMissed | Collision.FullScanRecordsEveryNeighbourHit |
| main.go:907-909 | a projectile hit that leaves an enemy at zero health or below decrements `enemiesInPlay` without checking whether the enemy is already destroyed | a shotgun volley whose five projectiles hit one enemy in the same frame, the first one fatal: the counter drops by five for one kill | decrement only when `!e.destroyed`, as the grenade-kill loop does at main.go:814 | high, not executed | Game.DeadEnemyCountedTwice | Game.EachKillCountedOnce |
