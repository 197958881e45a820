# Endless lane runner: simulation core

This project models the simulation of a three-lane endless runner
(`Project.py`), without its OpenGL rendering. The player's car drives in one
of lanes 0, 1 and 2. Lane 1 is at lateral coordinate 0, and each step up in
lane index moves 120 units towards -X. Cubes, cars and barriers are spawned
800 units ahead and approach the player. Every frame, while the game is not
over, the idle callback advances the player by `speed * 60 * dt`
(`TickDistance`). It then runs the obstacle update (which does nothing once
the game is over). The update moves every obstacle back by the same
distance, then rebuilds the obstacle list in one front-to-back pass that
checks each entry in turn:

- an obstacle 150 or more units behind the player is dropped;
- a cube that overlaps the player's pickup box is consumed for 10 points;
- the first car or barrier that overlaps the player ends the game. It is
  kept as the last entry of the list and the pass stops there, so every
  later entry is dropped, cubes included, uncollected;
- any other obstacle is kept, in its order.

If the game goes on, the spawn timer runs. When the timer reaches the spawn
interval, one obstacle is spawned and the interval shrinks with session time
(`max(0.4, 1.2 - 0.02 * elapsed)`). The keys A/D and the arrow keys change
the lane by one within the road. W sets the boost speed 3.0 and S the base
speed 1.2.

Modules, one per part of the program:

- `Geometry` (geometry.dfy): `LaneX` and the strict AABB test `HasCollided`.
- `Obstacles` (obstacles.dfy): the obstacle record, `Moved` (the move
  loop's result) and the two collision rules `Collects` and `Crashes`.
  `Resolve` is the front-to-back specification of the rebuild loop.
  `SweepObstacles` is the loop itself, proved against it. `FirstCrash`,
  `Survivors` and `Collected` give an independent description of the rebuilt
  list and the score it earns.
- `Input` (input.dfy): steering and speed keys.
- `Spawning` (spawning.dfy): the spawn interval.
- `Game` (game.dfy): class `Sim` holding the module globals of the program
  (`player_lane`, `player_z`, `player_speed`, `score`, `game_over`,
  `obstacles`, `spawn_timer`, `spawn_interval`). Its methods are the
  key listeners, `spawn_obstacle`, `update_obstacles` and `idle`.

Numbers are Dafny `real` (exact), lanes are `int`. Randomness and the clock
are parameters: the spawned lane and kind (`spawnLane`, `spawnKind`), the
frame time `dt` and the session time `elapsed`.

## Model

| member | source | states |
|---|---|---|
| Geometry.LaneX | Project.py:51-54 | lane 1 is the only lane at X = 0; lower indices lie at positive X, higher at negative X |
| Geometry.LaneStep | Project.py:51-54 | one step up in lane index moves the lane by -120 |
| Geometry.LaneSeparation | Project.py:51-54 | a higher lane index gives a smaller X; two different lanes are at least 120 apart |
| Geometry.HasCollided | Project.py:80-87 | the boxes collide iff the centre distance on each axis is strictly below the sum of the half-extents |
| Geometry.HasCollidedSymmetric | Project.py:80-87 | swapping the two boxes gives the same answer |
| Geometry.TouchingBoxesDoNotCollide | Project.py:80-87 | boxes whose edges meet on either axis do not collide (all comparisons strict) |
| Geometry.HasCollidedIffCommonPoint | Project.py:80-87 | for boxes of positive size, they collide iff some point lies strictly inside both |
| Obstacles.TickDistance | Project.py:547-548 | the frame distance `speed * 60 * dt` is zero exactly when the speed or the frame time is zero, and positive for a positive speed and frame |
| Obstacles.Moved | Project.py:418-420 | the move loop's result: same length, every obstacle keeps its lane and kind and its z is reduced by d |
| Obstacles.GapClosesTwice | Project.py:547-548 | after the player advances by d and obstacles move back by d, the gap to each obstacle shrinks by 2d |
| Obstacles.Retired | Project.py:430-431 | an obstacle is dropped iff it is 150 or more units behind the player; a dropped obstacle is behind the player |
| Obstacles.RetiredStaysRetired | Project.py:430-431 | an obstacle once retired stays retired after a frame in which it moves back by d and the player advances by d >= 0 |
| Obstacles.Collects | Project.py:436-440 | a cube is collected iff it is in the player's lane and less than 38 units from the player (pickup box 15x30 vs cube 8x8) |
| Obstacles.Crashes | Project.py:422-446 | a car or barrier is fatal iff it is in the player's lane and less than 80 units away (25x40 vs 25x40); a fatal obstacle is never retired |
| Obstacles.Resolve | Project.py:428-450 | the rebuilt list is no longer than the old one; the score gained is not negative |
| Obstacles.ResolveCrashIsLast | Project.py:441-446 | the sweep ends on a crash iff the last kept entry is a fatal obstacle |
| Obstacles.ResolveKept | Project.py:429-448 | every kept entry comes from the swept list, lies ahead of the retirement line (z > player_z - 150) and is not a collected cube |
| Obstacles.SweepPasses | Project.py:430-440 | a retired entry is skipped with no score; an overlapping cube is skipped for exactly 10 points |
| Obstacles.SweepKeeps | Project.py:448 | any other non-fatal entry is appended to the new list; the score and crash flag are unchanged |
| Obstacles.SweepStops | Project.py:441-446 | the first fatal entry is kept alone, sets the crash flag and ends the sweep |
| Obstacles.SweepObstacles | Project.py:428-450 | the rebuild loop (with `continue` and `break`) returns exactly the list, score gain and crash flag of `Resolve` |
| Obstacles.FirstCrash | Project.py:441-446 | the index of the first fatal obstacle: every earlier entry is not fatal, and the entry at the index is (or the index is the length) |
| Obstacles.Survivors | Project.py:429-448 | an obstacle is among the survivors iff it is in the list and neither retired nor a collected cube |
| Obstacles.Collected | Project.py:436-440 | the count of collected cubes is zero iff no entry is a collected, unretired cube |
| Obstacles.ResolveMeaning | Project.py:428-450 | the sweep crashes iff there is a fatal obstacle; the new list is the survivors before the first fatal obstacle, in order, followed by that obstacle; everything after it is dropped; the score gained is 10 times the cubes collected before it |
| Obstacles.ResolveIsSubsequence | Project.py:428-450 | the new list is an order-preserving subsequence of the swept list; after a crash its last entry is the one at the first fatal position |
| Obstacles.TickKeepsOrder | Project.py:418-450 | over a tick, the new list is an order-preserving subsequence of the old list, each entry with z reduced by d and otherwise unchanged |
| Input.KeySteer | Project.py:506-511 | A or a requests a move left and D or d a move right, and no other character key steers |
| Input.SpecialSteer | Project.py:524-529 | the left arrow requests a move left and the right arrow a move right; no other special key steers |
| Input.Steered | Project.py:506-511 | the lane stays in [0, 2]; it moves by exactly one in the requested direction; it stays put only without a request, or for left at lane 0 or right at lane 2 |
| Input.KeySpeed | Project.py:513-516 | W/w sets the boost speed, S/s the base speed, any other key keeps the speed |
| Spawning.NextSpawnInterval | Project.py:408-409 | the new interval is max(0.4, 1.2 - 0.02 * elapsed): never below 0.4, and at most 1.2 when elapsed >= 0 |
| Spawning.SpawnIntervalRamp | Project.py:409 | the interval never grows with session time and sits at the floor from 40 seconds on |
| Game.Sim.constructor | Project.py:26-41 | the start state: lane 1, z = 0, base speed, score 0, not over, no obstacles, timer 0, interval 1.2 |
| Game.Sim.KeyboardListener | Project.py:504-516 | the lane after A/D and the speed after W/S, keeping the class invariant |
| Game.Sim.SpecialKeyListener | Project.py:522-529 | the lane after the left and right arrow keys, keeping the class invariant |
| Game.Sim.SpawnObstacle | Project.py:397-409 | exactly one obstacle of the chosen lane and kind is appended at player_z + 800, earlier entries untouched; the interval is set from the session time |
| Game.Sim.MoveObstacles | Project.py:418-420 | the move loop: every obstacle's z is reduced by the shift in place |
| Game.Sim.RebuildObstacles | Project.py:428-450 | the globals take the sweep's outcome: new list, score plus the gain, game-over flag |
| Game.Sim.UpdateObstacles | Project.py:412-458 | once game over, nothing changes; otherwise the list is swept after the move, the score only grows, a crash stops spawning, and the timer either resets with one spawn or accumulates dt |
| Game.Sim.RunSpawnTimer | Project.py:455-458 | the timer grows by dt; when it reaches the interval it is reset to 0 and exactly one obstacle is spawned, otherwise the list and interval are unchanged |
| Game.Sim.Idle | Project.py:541-551 | player_z advances by speed*60*dt only while not game over, then the obstacle update runs with the same dt; over such a frame the gap from the player to every obstacle closes by twice that distance |

## Left out

- Rendering: all drawing functions, the camera, the lighting and window setup, and `glutPostRedisplay`. They only emit geometry and make no decisions.
- `main`, the ESC key (`glutLeaveMainLoop`) and the right-click camera toggle. They are process plumbing or affect only rendering.
- `time.time()` and `random.*`: the frame time `dt`, the session time `elapsed` and the spawned lane and kind are parameters. The weighting of `random.choice` (cubes twice as likely as cars or barriers) is not modelled; any kind may be passed.
- Game.Sim.SpawnObstacle: requires the chosen lane in [0, 2]. That is the range `random.randint(0, NUM_LANES - 1)` produces.
- Floating-point rounding: positions and times are exact reals.
- Game.Sim.RebuildObstacles: the loop works on local copies of the list, the score and the game-over flag, and writes them back when it ends. The program updates the globals inside the loop, but nothing reads them before the loop ends, so the outcome is the same.
- Obstacles are values in a sequence. In the program they are dictionaries updated in place, but only the list holds them, so there is no aliasing to model.
- Features this program does not have: shields, power-ups, projectiles and auto-fire, pause and restart, the crash flash, smoothed lateral movement, a speed ramp, distance-based score and minimum spawn spacing. The model follows the code. For example, the speed is only ever 1.2 or 3.0, and spawning never checks spacing.
