// The simulation state of the runner and the operations that change it
// frame by frame: key input, the obstacle sweep with spawning, and the
// idle callback that advances the player.

module Game {
  import opened Geometry
  import opened Obstacles
  import opened Input
  import opened Spawning

  class Sim {
    var playerLane: int
    var playerZ: real
    var playerSpeed: real
    var score: int
    var gameOver: bool
    var obstacles: seq<Obstacle>
    var spawnTimer: real
    var spawnInterval: real

    /** The player and every obstacle are on the road, the speed is one of
        the two configured values, the score is not negative, and the spawn
        interval is never below its floor. */
    ghost predicate Valid()
      reads this
    {
      && 0 <= playerLane < NUM_LANES
      && (playerSpeed == BASE_SPEED || playerSpeed == BOOST_SPEED)
      && score >= 0
      && spawnInterval >= SPAWN_INTERVAL_FLOOR
      && OnRoad(obstacles)
    }

    /** The state at start-up: centre lane, at the origin, base speed, no
        score, no obstacles. */
    constructor ()
      ensures Valid()
      ensures playerLane == 1 && playerZ == 0.0 && playerSpeed == BASE_SPEED
      ensures score == 0 && !gameOver && obstacles == []
      ensures spawnTimer == 0.0 && spawnInterval == SPAWN_INTERVAL_START
    {
      playerLane := 1;
      playerZ := 0.0;
      playerSpeed := BASE_SPEED;
      score := 0;
      gameOver := false;
      obstacles := [];
      spawnTimer := 0.0;
      spawnInterval := SPAWN_INTERVAL_START;
    }

    /** A character key: A/D steer, W/S set the speed. Input is taken even
        after the game is over. */
    method KeyboardListener(key: char)
      requires Valid()
      modifies this`playerLane, this`playerSpeed
      ensures Valid()
      ensures playerLane == Steered(old(playerLane), KeySteer(key))
      ensures playerSpeed == KeySpeed(old(playerSpeed), key)
    {
      if key == 'a' || key == 'A' {
        if playerLane > 0 {
          playerLane := playerLane - 1;
        }
      }
      if key == 'd' || key == 'D' {
        if playerLane < NUM_LANES - 1 {
          playerLane := playerLane + 1;
        }
      }
      if key == 'w' || key == 'W' {
        playerSpeed := BOOST_SPEED;
      }
      if key == 's' || key == 'S' {
        playerSpeed := BASE_SPEED;
      }
    }

    /** An arrow key steers; other special keys do nothing. */
    method SpecialKeyListener(key: SpecialKey)
      requires Valid()
      modifies this`playerLane
      ensures Valid()
      ensures playerLane == Steered(old(playerLane), SpecialSteer(key))
    {
      if key == LeftArrow {
        if playerLane > 0 {
          playerLane := playerLane - 1;
        }
      } else if key == RightArrow {
        if playerLane < NUM_LANES - 1 {
          playerLane := playerLane + 1;
        }
      }
    }

    /** Appends one obstacle of the chosen lane and kind ahead of the player
        and shortens the spawn interval for the session time `elapsed`. */
    method SpawnObstacle(lane: int, kind: Kind, elapsed: real)
      requires Valid()
      requires 0 <= lane < NUM_LANES
      modifies this`obstacles, this`spawnInterval
      ensures Valid()
      ensures obstacles == old(obstacles) + [Obstacle(lane, playerZ + SPAWN_AHEAD, kind)]
      ensures spawnInterval == NextSpawnInterval(elapsed)
    {
      obstacles := obstacles + [Obstacle(lane, playerZ + SPAWN_AHEAD, kind)];
      spawnInterval := NextSpawnInterval(elapsed);
    }

    /** One tick of the obstacles, `dt` seconds long. Nothing happens once
        the game is over. Otherwise every obstacle moves back, the list is
        swept (retiring, collecting, stopping at a fatal hit), and if no hit
        was fatal the spawn timer runs and, when it reaches the interval,
        one obstacle of lane `spawnLane` and kind `spawnKind` is spawned. */
    method UpdateObstacles(dt: real, spawnLane: int, spawnKind: Kind, elapsed: real)
      requires Valid()
      requires 0 <= spawnLane < NUM_LANES
      modifies this`obstacles, this`score, this`gameOver, this`spawnTimer, this`spawnInterval
      ensures Valid()
      ensures score >= old(score)
      ensures old(gameOver) ==>
        && gameOver && obstacles == old(obstacles) && score == old(score)
        && spawnTimer == old(spawnTimer) && spawnInterval == old(spawnInterval)
      ensures !old(gameOver) ==>
        var sweep := Resolve(Moved(old(obstacles), TickDistance(playerSpeed, dt)), playerLane, playerZ);
        && score == old(score) + sweep.gained
        && gameOver == sweep.crashed
        && if sweep.crashed then
             && obstacles == sweep.kept
             && spawnTimer == old(spawnTimer) && spawnInterval == old(spawnInterval)
           else if old(spawnTimer) + dt >= old(spawnInterval) then
             && obstacles == sweep.kept + [Obstacle(spawnLane, playerZ + SPAWN_AHEAD, spawnKind)]
             && spawnTimer == 0.0 && spawnInterval == NextSpawnInterval(elapsed)
           else
             && obstacles == sweep.kept
             && spawnTimer == old(spawnTimer) + dt && spawnInterval == old(spawnInterval)
    {
      if gameOver {
        return;
      }

      var shift := TickDistance(playerSpeed, dt);
      ghost var sweep := Resolve(Moved(obstacles, shift), playerLane, playerZ);
      MoveObstacles(shift);
      RebuildObstacles();
      assert sweep == Resolve(Moved(old(obstacles), TickDistance(playerSpeed, dt)), playerLane, playerZ);

      if gameOver {
        return;
      }

      RunSpawnTimer(dt, spawnLane, spawnKind, elapsed);
    }

    /** The spawn timer at the end of a tick that did not end the game: it
        runs by `dt`, and once it reaches the interval it is reset and one
        obstacle is spawned. */
    method RunSpawnTimer(dt: real, spawnLane: int, spawnKind: Kind, elapsed: real)
      requires Valid()
      requires 0 <= spawnLane < NUM_LANES
      modifies this`obstacles, this`spawnTimer, this`spawnInterval
      ensures Valid()
      ensures if old(spawnTimer) + dt >= old(spawnInterval) then
          && obstacles == old(obstacles) + [Obstacle(spawnLane, playerZ + SPAWN_AHEAD, spawnKind)]
          && spawnTimer == 0.0 && spawnInterval == NextSpawnInterval(elapsed)
        else
          && obstacles == old(obstacles)
          && spawnTimer == old(spawnTimer) + dt && spawnInterval == old(spawnInterval)
    {
      spawnTimer := spawnTimer + dt;
      if spawnTimer >= spawnInterval {
        spawnTimer := 0.0;
        SpawnObstacle(spawnLane, spawnKind, elapsed);
      }
    }

    /** The first loop of a tick: every obstacle moves back by `shift`. */
    method MoveObstacles(shift: real)
      requires Valid()
      modifies this`obstacles
      ensures Valid()
      ensures obstacles == Moved(old(obstacles), shift)
    {
      ghost var before := obstacles;
      for i := 0 to |obstacles|
        invariant |obstacles| == |before|
        invariant forall k :: 0 <= k < i ==> obstacles[k] == before[k].(z := before[k].z - shift)
        invariant forall k :: i <= k < |obstacles| ==> obstacles[k] == before[k]
      {
        obstacles := obstacles[i := obstacles[i].(z := obstacles[i].z - shift)];
      }
      MovedOnRoad(before, shift);
    }

    /** The second loop of a tick, applied to the globals: the list, the
        score and the game-over flag take the outcome of the sweep. */
    method RebuildObstacles()
      requires Valid() && !gameOver
      modifies this`obstacles, this`score, this`gameOver
      ensures Valid()
      ensures var sweep := Resolve(old(obstacles), playerLane, playerZ);
        && obstacles == sweep.kept
        && score == old(score) + sweep.gained
        && gameOver == sweep.crashed
    {
      var kept, gained, crashed := SweepObstacles(obstacles, playerLane, playerZ);
      ResolveOnRoad(obstacles, playerLane, playerZ);
      obstacles, score, gameOver := kept, score + gained, crashed;
    }

    /** The idle callback for a frame `dt` seconds after the previous one:
        while the game is not over the player advances by the same distance
        the obstacles then move back, and the obstacles are updated. */
    method Idle(dt: real, spawnLane: int, spawnKind: Kind, elapsed: real)
      requires Valid()
      requires 0 <= spawnLane < NUM_LANES
      modifies this`playerZ, this`obstacles, this`score, this`gameOver, this`spawnTimer, this`spawnInterval
      ensures Valid()
      ensures old(gameOver) ==>
        && gameOver && playerZ == old(playerZ) && obstacles == old(obstacles) && score == old(score)
        && spawnTimer == old(spawnTimer) && spawnInterval == old(spawnInterval)
      ensures !old(gameOver) ==>
        var d := TickDistance(playerSpeed, dt);
        var sweep := Resolve(Moved(old(obstacles), d), playerLane, playerZ);
        && playerZ == old(playerZ) + d
        && (forall i :: 0 <= i < |old(obstacles)| ==>
              Moved(old(obstacles), d)[i].z - playerZ == (old(obstacles)[i].z - old(playerZ)) - 2.0 * d)
        && score == old(score) + sweep.gained
        && gameOver == sweep.crashed
        && if sweep.crashed then
             && obstacles == sweep.kept
             && spawnTimer == old(spawnTimer) && spawnInterval == old(spawnInterval)
           else if old(spawnTimer) + dt >= old(spawnInterval) then
             && obstacles == sweep.kept + [Obstacle(spawnLane, playerZ + SPAWN_AHEAD, spawnKind)]
             && spawnTimer == 0.0 && spawnInterval == NextSpawnInterval(elapsed)
           else
             && obstacles == sweep.kept
             && spawnTimer == old(spawnTimer) + dt && spawnInterval == old(spawnInterval)
    {
      if !gameOver {
        playerZ := playerZ + TickDistance(playerSpeed, dt);
      }
      UpdateObstacles(dt, spawnLane, spawnKind, elapsed);
    }
  }
}
