// When the spawner fires, where the new obstacle goes, and how the spawn
// interval shrinks as the session goes on.

module Spawning {

  /** New obstacles appear this far ahead of the player. */
  const SPAWN_AHEAD: real := 800.0
  /** The interval at the start of a session, and its floor. */
  const SPAWN_INTERVAL_START: real := 1.2
  const SPAWN_INTERVAL_FLOOR: real := 0.4
  /** Seconds taken off the interval per second of session time. */
  const SPAWN_RAMP: real := 0.02

  /** The interval set after a spawn, `elapsed` seconds into the session:
      the ramped value, but never below the floor. */
  function NextSpawnInterval(elapsed: real): (r: real)
    ensures r >= SPAWN_INTERVAL_FLOOR
    ensures r >= SPAWN_INTERVAL_START - elapsed * SPAWN_RAMP
    ensures r == SPAWN_INTERVAL_FLOOR || r == SPAWN_INTERVAL_START - elapsed * SPAWN_RAMP
    ensures 0.0 <= elapsed ==> r <= SPAWN_INTERVAL_START
  {
    var ramped := SPAWN_INTERVAL_START - elapsed * SPAWN_RAMP;
    if SPAWN_INTERVAL_FLOOR < ramped then ramped else SPAWN_INTERVAL_FLOOR
  }

  /** Later in the session the interval is never longer, and from 40
      seconds on it sits at the floor. */
  lemma SpawnIntervalRamp(e1: real, e2: real)
    requires e1 <= e2
    ensures NextSpawnInterval(e2) <= NextSpawnInterval(e1)
    ensures e1 >= 40.0 ==> NextSpawnInterval(e1) == SPAWN_INTERVAL_FLOOR
  {
  }
}
