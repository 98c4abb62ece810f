# CIS580-Invaders: the simulation core in Dafny

This project models the deterministic simulation inside `main.js` of the
browser shooter CIS580-Invaders and proves properties of it. The modelled parts are:

- the enemy spawn scheduler (`EnemyScheduler`);
- the two fixed-capacity bullet pools, built by `init`, and the
  first-free-slot scan with which the player and the enemies fire;
- the bullet (`Bullet`, `init`, `logic`): integration, the widened-world
  bounds test, and the hit test against the enemies or the player;
- the player's movement, with its clamp to the world and velocity
  reflection;
- the patrol enemy's zig-zag;
- the keyboard state (`advanceInput`, `parseInputKey`);
- the pass over the enemy list in `logic`, which splices out inactive enemies.

Modules:

- `Geometry` (geometry.dfy): boxes, the half-extent overlap test, and one
  axis of the clamp.
- `Controls` (controls.dfy): the `input` object as a class holding a map
  from action to key level, the key table, `Advance` and `ParseKey`.
- `Entities` (entities.dfy): the `Bullet`, `Enemy` and `Player` classes, the
  pools as `array<Bullet>`, and the shared firing scan `Fire`. Each class's
  `Logic` method is proved against pure step functions (`Launched`,
  `FirstHit`, `FirstInactive`, `PatrolStep`, `PlayerMove`). Lemmas state
  what those functions promise.
- `Spawning` (spawning.dfy): the `EnemyScheduler` class. Its step is the
  function `Tick`, and `Run` covers a sequence of frames.
- `EnemySweep` (sweep.dfy): the enemy-list pass as written, and the
  corrected pass (see Findings).

Positions, velocities and times are `real`. The canvas size is the `World`
parameter. `Math.pow(friction, elapsed)` becomes a parameter `damp`, and
`Math.random()` becomes a parameter `r` with `0 <= r < 1`. The global
`input`, `enemies`, `player` and bullet arrays are passed to the methods
that use them.

## Model

| member | source | states |
|---|---|---|
| Geometry.ClampAxis | main.js:376-391 | a coordinate outside [lo, hi] is put on lo or hi and its velocity reversed; inside, both are kept; when lo <= hi the result is within [lo, hi] |
| Geometry.ClampIsNearest | main.js:376-391 | when [lo, hi] is not empty, the clamped coordinate is no farther from the moved one than any point of [lo, hi] |
| Geometry.OverlapIsIntersection | main.js:285-288 | the centre-distance hit test is exactly intersection of the two closed rectangles, and is symmetric |
| Geometry.Overlap | main.js:285-288 | the hit test of Bullet.logic (also main.js:297-298): centre distances within the summed half-extents on both axes, which is exactly the two closed rectangles meeting |
| Geometry.OverlapExample | main.js:285-288 | an enemy of size 20 at (100, 100) and a bullet of size 8 at (105, 103) collide; the bullet at (120, 100) misses |
| Controls.Promoted | main.js:51-57 | every level 1 becomes 2, all other levels and the set of fields are kept |
| Controls.PromotedIdempotent | main.js:51-57 | after one promotion no field is at 1, so promoting twice equals promoting once |
| Controls.Input.constructor | main.js:13-21 | every one of the seven fields starts at 0 |
| Controls.Input.Advance | main.js:51-57 | on an input holding its seven fields, the loop over the fields leaves exactly the promoted levels and keeps the seven fields |
| Controls.Input.ParseKey | main.js:408-440 | returns true exactly for w/W/a/A/s/S/d/D/f/F/space/Shift, writing value into the one mapped field; any other key returns false and changes nothing; the seven fields are kept |
| Entities.Launched | main.js:245-256 | a launched bullet is active, 8 by 8, at the given position and scale, with vx 0 and vy -0.5 for the player (up) or 0.5 for enemies (down), whatever the shooter's velocity |
| Entities.FirstHit | main.js:283-293 | the index of the first box that overlaps the bullet, with no overlap before it, or the length when none overlaps |
| Entities.FirstHitUnique | main.js:283-293 | any index that is an overlap (or the end) with no overlap before it is FirstHit, so the scan's stopping point is determined |
| Entities.FirstInactiveUnique | main.js:162-172 | any index that is an inactive slot (or the end) with only active slots before it is FirstInactive |
| Entities.FirstInactive | main.js:162-172 | the index of the first inactive slot, with every slot before it active, or the length when all are active |
| Entities.Bullet.constructor | main.js:232-243 | a new slot is inactive, with the given owner, zero geometry and empty colours |
| Entities.Bullet.Init | main.js:245-256 | the slot's whole state becomes Launched for its owner; the owner is a constant and never changes |
| Entities.Bullet.Logic | main.js:270-303 | the position advances by velocity times elapsed; outside the widened world the bullet is inactive; a player bullet knocks out exactly the first overlapping enemy and then goes inactive itself, and every other enemy keeps its state; an enemy bullet goes inactive when it overlaps the player, and the player is untouched |
| Entities.Bullet.MoveAndLeaveWorld | main.js:271-281 | the position advances by velocity times elapsed, and the bullet stays active only if it was active and its centre is inside the world widened by its own width and height |
| Entities.Bullet.HitPlayer | main.js:294-302 | an enemy bullet stays active only if it does not overlap the player; the player is not touched |
| Entities.Bullet.HitFirstEnemy | main.js:283-293 | the scan stops at FirstHit; that enemy and the bullet go inactive, no other enemy changes |
| Entities.Fire | main.js:335-348 | the slot launched is FirstInactive of the pool; it is launched only when one exists; every other slot keeps its state |
| Entities.NewPool | main.js:41-46 | a fresh pool of n distinct inactive bullets of one owner |
| Entities.InitPools | main.js:41-46 | start-up builds 60 inactive player bullets and 1000 inactive enemy bullets (numOfPlayerBullets, numOfEnemyBullets), each pool without repeats and no bullet in both |
| Entities.PatrolStepRules | main.js:176-214 | before the move vx is forced to +maxVx or -maxVx by the parity of attackState and vy is damped; past the left wall x becomes the margin and past the right wall the width less the margin, and either wall negates vx, adds 1 to attackState and sets vy to maxVy, while between the walls nothing changes; above one height over the top y is set to -height and vy negated; below one height under the bottom the enemy goes inactive, and otherwise y and vy are kept |
| Entities.PatrolStep | main.js:176-214 | the patrol frame as the composition Bounce(Turn(Drift)) of the three blocks of the source; it advances attackState by at most one and never revives an inactive enemy; PatrolStepRules and PatrolStepInvariants state the rest |
| Entities.PatrolStepInvariants | main.js:176-214 | after every step vx agrees with the parity of attackState, x lies between the walls when the enemy fits, y never rises above one height over the top, and an inactive enemy never comes back |
| Entities.Enemy.constructor | main.js:126-145 | a new enemy is active in patrol state 0 with a full fire timer and vy = maxVy, half a height above the top, at x = r * (W - width) + width / 2, which lies between the side walls when the world is at least one enemy wide |
| Entities.Enemy.Logic | main.js:156-214 | the fire timer counts down; when it runs out the first free enemy slot is launched white/red from the enemy's lower edge and the timer resets; a full pool leaves the pool and the counted-down timer as they are; the patrol state becomes PatrolStep |
| Entities.Enemy.FireWhenDue | main.js:157-173 | the countdown and the shot of Enemy.logic: timer reset only when a slot was launched |
| Entities.Enemy.PatrolMove | main.js:176-214 | the patrol state after the move is PatrolStep of the state before |
| Entities.Enemy.DriftBy | main.js:179-190 | vy is damped, vx is forced by the parity of attackState, and the enemy moves by the new velocity |
| Entities.Enemy.TurnAtSideWalls | main.js:192-207 | past a side wall x is clamped, vx negated, attackState advanced by one and vy reset to maxVy; otherwise nothing changes |
| Entities.Enemy.BounceOffTopAndBottom | main.js:209-214 | above one height over the top y is clamped and vy negated; below one height under the bottom the enemy goes inactive |
| Entities.SteerApproaches | main.js:355-367 | a single held direction key shrinks the distance of the velocity to its target speed by the factor 1 - acceleration * elapsed; opposite keys together cancel |
| Entities.PlayerStaysInWorld | main.js:373-391 | whatever the motion before the wall checks, when the player fits (twice the half-size margin at most the world's extent) its centre ends inside the world shrunk by the margin; a velocity component is negated exactly when that axis was clamped, and position and velocity are kept otherwise |
| Entities.PlayerMove | main.js:351-391 | the player frame as the wall clamp of Glide (friction, steering, the move); the clamp reverses velocity components without changing the speed; PlayerStaysInWorld and SteerApproaches state the rest |
| Entities.Player.constructor | main.js:305-320 | the player starts at the given position, at rest, ready to fire |
| Entities.Player.Logic | main.js:331-392 | while space is down and the timer has run out, the first free player slot is launched yellow/orange from the top edge and the timer resets to fireRate; the motion becomes PlayerMove of the old motion under the held keys |
| Entities.Player.FireWhenDue | main.js:332-348 | the countdown and the shot of Player.logic: timer reset only when a slot was launched |
| Entities.Player.Move | main.js:351-391 | friction, steering, the move and the wall clamp give exactly PlayerMove |
| Entities.Player.ApplyFriction | main.js:351-353 | both velocity components are multiplied by the damping factor |
| Entities.Player.SteerBy | main.js:355-367 | each velocity component becomes Steer of the old one under its two direction keys |
| Entities.Player.MoveBy | main.js:369-371 | the position advances by velocity times elapsed |
| Entities.Player.KeepInWorld | main.js:373-391 | the four wall checks give exactly the per-axis clamp |
| Spawning.Tick | main.js:117-124 | a spawn happens exactly when the accumulated time passes the interval; the interval then drops by 10 and accumulator plus new interval equal the time seen; otherwise only the accumulator grows |
| Spawning.TickCarriesOverOneStep | main.js:117-124 | since the shortened interval is taken off, the carried-over time is the overshoot plus 10, so it exceeds 10 |
| Spawning.Run | main.js:117-124 | over a run of frames at most one enemy spawns per frame, and the interval has dropped by 10 per spawn |
| Spawning.RunConservesTime | main.js:117-124 | the accumulator plus the intervals taken off for the spawns equals the starting accumulator plus the total frame time |
| Spawning.RunSpawnsEveryFrameOnceIntervalNegative | main.js:117-124 | once the interval is below zero, with non-negative frame times, an enemy spawns on every frame |
| Spawning.EnemyScheduler.constructor | main.js:112-115 | the scheduler starts at 0 with an interval of 1000 |
| Spawning.EnemyScheduler.Logic | main.js:117-124 | the fields and the spawn decision follow Tick; a spawn appends exactly one fresh active enemy in patrol state 0, at rest horizontally with vy = maxVy and a full fire timer, half a height above the top at x = r * (W - width) + width / 2, and keeps the list before it; no spawn leaves the list alone |
| EnemySweep.ForEachWithSplice | main.js:71-76 | the index loop as written produces SpliceWalk: the list left behind and the enemies whose logic ran |
| EnemySweep.SpliceWalk | main.js:71-76 | the forEach-with-splice pass as written, over the original length: the list only shrinks and each index is visited at most once; its behaviour is stated by the SpliceWalk lemmas below |
| EnemySweep.SpliceWalkSkipsOnlyAfterASplice | main.js:71-76 | from any point of the pass as written, the enemy at the current index is visited, and every later enemy that is never visited sits just behind one that was visited while inactive and spliced out |
| EnemySweep.SpliceWalkRemovesTheVisitedDead | main.js:71-76 | on a list without repeats, the pass as written adds nothing to the list, and an enemy stays in it exactly when the pass did not visit it while it was inactive |
| EnemySweep.SpliceWalkVisitsForward | main.js:71-76 | on a list without repeats the pass as written visits only enemies of the list, and none before the index it starts from |
| EnemySweep.SpliceWalkMissesTheSlidIn | main.js:71-76 | on a list without repeats, an enemy just behind one the pass visited while inactive is never visited: the splice slides it into the index already passed |
| EnemySweep.SpliceWalkOutcome | main.js:71-76 | over enemies 0 .. n-1: the list left holds exactly those not visited while inactive, enemy 0 is visited, and an enemy e > 0 is missed exactly when enemy e-1 was visited while inactive |
| EnemySweep.SpliceWalkAllAlive | main.js:71-76 | with no inactive enemy the pass removes nothing and visits every enemy once, in order |
| EnemySweep.SpliceSkipsTheNextEnemy | main.js:71-76 | with [inactive, active] the pass as written visits only the removed enemy and skips the active one |
| EnemySweep.LiveIsTheActiveEnemies | main.js:71-76 | the list the corrected pass leaves holds exactly the active enemies, each once, in list order |
| EnemySweep.Live | main.js:71-76 | the intended result of the pass: the active enemies in list order, at most n of them; LiveIsTheActiveEnemies states its contents |
| EnemySweep.Compact | main.js:71-76 | the corrected pass leaves exactly the active enemies, in order, and runs the logic of exactly those |
| EnemySweep.LiveAllAlive | main.js:71-76 | with every enemy active, the active enemies are the whole list |
| EnemySweep.SpliceWalkAgreesWhenAllAlive | main.js:71-76 | with every enemy active, the pass as written and the corrected pass agree |

## Left out

- Rendering, the canvas and DOM set-up, resizing, cursor and text measuring are not modelled; they are presentation only.
- `requestAnimationFrame`, `frameLoop` and the keydown/keyup listeners are not modelled. The listeners only call `parseInputKey` with 1 or 0, which `ParseKey` models.
- `Math.pow(friction, elapsed)` is the parameter `damp`, and `Math.random()` is the parameter `r`. Floating-point rounding is not modelled; arithmetic is exact over the reals.
- Entities.Enemy.PatrolMove: the source first multiplies vx by the friction factor, but the next statement overwrites vx with ±maxVx, so that product is not modelled. The resulting state is the same.
- The free-roam enemy branch (`attackMode !== 0`) is not modelled, nor is the `attackMode` field. The field is always 0, so the branch is unreachable.
- `polarDistanceAndAngle` and `polarToRect` are not modelled; they are unused by the simulation and rely on sqrt, atan2, cos and sin.
- `logic` and `frameLoop` as a whole frame are not modelled; each step they call is modelled on its own. The enemy-list pass is modelled on enemy positions rather than on Enemy objects, with each enemy's active flag fixed when the pass reaches it. Bullets run before the pass, and an enemy's own logic can only clear its own flag after it has been visited.
- Entities.Bullet.constructor: the source never initialises `shadowColor` of a fresh slot (it stays undefined until `init`); the model uses the empty string.
- Entities.Bullet.Logic: it is modelled for any bullet; the frame loop only calls it on active bullets.
- Score, lives and restarting do not exist in the source (the hit sites only carry comments), so they are not modelled.
- A wall hit sets the patrol enemy's vy to maxVy; it does not draw a new random speed. The model follows the code.

## Findings

| source | as written | input that shows it | evidently intended | confidence | as-written member | corrected member |
|---|---|---|---|---|---|---|
| main.js:71-76 | inside `enemies.forEach`, an inactive enemy is spliced out at its index, and the enemy that slides into that index is never visited this frame; the removed enemy's `logic` still runs, so it keeps moving and firing for one more frame | enemies [e0 inactive, e1 active]: the pass runs e0's logic only, and e1 gets no logic call that frame | remove every inactive enemy and run the logic of every active one exactly once | medium: not executed | EnemySweep.SpliceSkipsTheNextEnemy | EnemySweep.Compact |
