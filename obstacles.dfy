// Obstacles on the road and the per-tick sweep over them: moving them
// towards the player, retiring those left behind, collecting cubes and
// stopping at the first fatal hit.

module Obstacles {
  import opened Geometry

  datatype Kind = Cube | Car | Barrier

  /** One entry of the obstacle list: its lane, its longitudinal position
      and its kind. */
  datatype Obstacle = Obstacle(lane: int, z: real, kind: Kind)

  /** Factor that scales speed per frame into speed per second. */
  const TICK_SCALE: real := 60.0
  /** Obstacles this far behind the player, or further, are retired. */
  const RETIRE_MARGIN: real := 150.0
  /** Score for each collected cube. */
  const CUBE_REWARD: int := 10

  /** Player box against cars and barriers, and their own box. */
  const PLAYER_HALF_WIDTH: real := 25.0
  const PLAYER_HALF_LENGTH: real := 40.0
  const HAZARD_HALF_WIDTH: real := 25.0
  const HAZARD_HALF_LENGTH: real := 40.0
  /** The smaller player box used for cubes, and the cube's own box. */
  const PICKUP_HALF_WIDTH: real := 15.0
  const PICKUP_HALF_LENGTH: real := 30.0
  const CUBE_HALF_SIZE: real := 8.0

  /** Distance covered in a frame of `dt` seconds at `speed`: none exactly
      when the frame is empty or the speed is zero, forward for a positive
      speed and frame. */
  function TickDistance(speed: real, dt: real): (d: real)
    ensures d == 0.0 <==> speed == 0.0 || dt == 0.0
    ensures speed > 0.0 && dt > 0.0 ==> d > 0.0
  {
    speed * TICK_SCALE * dt
  }

  /** Every obstacle moved back by `d`; nothing else about it changes. */
  function Moved(obs: seq<Obstacle>, d: real): (moved: seq<Obstacle>)
    ensures |moved| == |obs|
    ensures forall i :: 0 <= i < |obs| ==>
      moved[i].lane == obs[i].lane && moved[i].kind == obs[i].kind && moved[i].z == obs[i].z - d
  {
    seq(|obs|, i requires 0 <= i < |obs| => obs[i].(z := obs[i].z - d))
  }

  /** In one tick the player advances by `d` and every obstacle moves back
      by `d`, so the gap between them closes by twice `d`. */
  lemma GapClosesTwice(obs: seq<Obstacle>, d: real, pz: real, i: int)
    requires 0 <= i < |obs|
    ensures Moved(obs, d)[i].z - (pz + d) == (obs[i].z - pz) - 2.0 * d
  {
  }

  /** Every obstacle is in one of the lanes of the road. */
  predicate OnRoad(obs: seq<Obstacle>) {
    forall i :: 0 <= i < |obs| ==> 0 <= obs[i].lane < NUM_LANES
  }

  lemma MovedOnRoad(obs: seq<Obstacle>, d: real)
    requires OnRoad(obs)
    ensures OnRoad(Moved(obs, d))
  {
  }

  /** An obstacle 150 or more units behind the player is dropped. */
  function Retired(o: Obstacle, pz: real): (gone: bool)
    ensures gone <==> pz - o.z >= RETIRE_MARGIN
    ensures gone ==> o.z < pz
  {
    o.z <= pz - RETIRE_MARGIN
  }

  /** Once retired, an obstacle stays retired over any later frame: it
      moves back by the distance the player advances. */
  lemma RetiredStaysRetired(o: Obstacle, pz: real, d: real)
    requires d >= 0.0
    requires Retired(o, pz)
    ensures Retired(o.(z := o.z - d), pz + d)
  {
  }

  /** A cube overlapping the pickup box of a player in lane `lane` at `pz`:
      only a cube in the player's own lane less than 38 units away. */
  function Collects(o: Obstacle, lane: int, pz: real): (hit: bool)
    ensures hit <==> o.kind == Cube && o.lane == lane && pz - 38.0 < o.z < pz + 38.0
  {
    LaneSeparation(lane, o.lane);
    o.kind == Cube &&
    HasCollided(LaneX(lane), pz, PICKUP_HALF_WIDTH, PICKUP_HALF_LENGTH,
                LaneX(o.lane), o.z, CUBE_HALF_SIZE, CUBE_HALF_SIZE)
  }

  /** A car or barrier overlapping the player box: only one in the player's
      own lane less than 80 units away. Such an obstacle is never retired. */
  function Crashes(o: Obstacle, lane: int, pz: real): (hit: bool)
    ensures hit <==> o.kind != Cube && o.lane == lane && pz - 80.0 < o.z < pz + 80.0
    ensures hit ==> !Retired(o, pz)
  {
    LaneSeparation(lane, o.lane);
    o.kind != Cube &&
    HasCollided(LaneX(lane), pz, PLAYER_HALF_WIDTH, PLAYER_HALF_LENGTH,
                LaneX(o.lane), o.z, HAZARD_HALF_WIDTH, HAZARD_HALF_LENGTH)
  }

  /** Outcome of one sweep: the rebuilt list, the score it earns and
      whether it ended on a fatal hit. */
  datatype Sweep = Sweep(kept: seq<Obstacle>, gained: int, crashed: bool)

  /** The rebuild of the obstacle list, front to back: retired obstacles
      are skipped, overlapping cubes are consumed for a reward, and the
      first overlapping car or barrier is kept as the last entry and ends
      the sweep. */
  function Resolve(obs: seq<Obstacle>, lane: int, pz: real): (r: Sweep)
    ensures |r.kept| <= |obs|
    ensures r.gained >= 0
    decreases |obs|
  {
    if obs == [] then Sweep([], 0, false)
    else
      var o := obs[0];
      var rest := Resolve(obs[1..], lane, pz);
      if Retired(o, pz) then rest
      else if o.kind == Cube then
        if Collects(o, lane, pz) then rest.(gained := rest.gained + CUBE_REWARD)
        else rest.(kept := [o] + rest.kept)
      else if Crashes(o, lane, pz) then Sweep([o], 0, true)
      else rest.(kept := [o] + rest.kept)
  }

  /** The sweep ends on a fatal hit exactly when the last entry it keeps
      is a fatal obstacle. */
  lemma {:induction false} ResolveCrashIsLast(obs: seq<Obstacle>, lane: int, pz: real)
    ensures var r := Resolve(obs, lane, pz);
      r.crashed <==> r.kept != [] && Crashes(r.kept[|r.kept| - 1], lane, pz)
    decreases |obs|
  {
    if obs != [] {
      ResolveCrashIsLast(obs[1..], lane, pz);
    }
  }

  /** Every entry of the rebuilt list comes from the swept list, lies ahead
      of the retirement line and is not a collected cube. */
  lemma {:induction false} ResolveKept(obs: seq<Obstacle>, lane: int, pz: real)
    ensures forall o :: o in Resolve(obs, lane, pz).kept ==>
              o in obs && o.z > pz - RETIRE_MARGIN && !Collects(o, lane, pz)
    decreases |obs|
  {
    if obs != [] {
      ResolveKept(obs[1..], lane, pz);
    }
  }

  lemma ResolveOnRoad(obs: seq<Obstacle>, lane: int, pz: real)
    requires OnRoad(obs)
    ensures OnRoad(Resolve(obs, lane, pz).kept)
  {
    var kept := Resolve(obs, lane, pz).kept;
    ResolveKept(obs, lane, pz);
    forall i | 0 <= i < |kept| ensures 0 <= kept[i].lane < NUM_LANES {
      assert kept[i] in obs;
    }
  }

  // One step of the sweep of `obs[i..]`, case by case, in the order the
  // rebuild loop tests them.

  /** A retired entry is skipped; a collected cube is skipped for a reward. */
  lemma SweepPasses(obs: seq<Obstacle>, i: int, lane: int, pz: real)
    requires 0 <= i < |obs|
    requires Retired(obs[i], pz) || Collects(obs[i], lane, pz)
    ensures var r, rest := Resolve(obs[i..], lane, pz), Resolve(obs[i + 1..], lane, pz);
      && r.kept == rest.kept && r.crashed == rest.crashed
      && r.gained == rest.gained + (if Retired(obs[i], pz) then 0 else CUBE_REWARD)
  {
    assert obs[i..][0] == obs[i] && obs[i..][1..] == obs[i + 1..];
  }

  /** Any other entry that is not a fatal hit is kept, in front. */
  lemma SweepKeeps(obs: seq<Obstacle>, i: int, lane: int, pz: real)
    requires 0 <= i < |obs|
    requires !Retired(obs[i], pz) && !Collects(obs[i], lane, pz) && !Crashes(obs[i], lane, pz)
    ensures var r, rest := Resolve(obs[i..], lane, pz), Resolve(obs[i + 1..], lane, pz);
      r.kept == [obs[i]] + rest.kept && r.crashed == rest.crashed && r.gained == rest.gained
  {
    assert obs[i..][0] == obs[i] && obs[i..][1..] == obs[i + 1..];
  }

  /** A fatal hit ends the sweep with that entry alone. */
  lemma SweepStops(obs: seq<Obstacle>, i: int, lane: int, pz: real)
    requires 0 <= i < |obs|
    requires Crashes(obs[i], lane, pz)
    ensures Resolve(obs[i..], lane, pz) == Sweep([obs[i]], 0, true)
  {
    assert obs[i..][0] == obs[i];
  }

  /** The rebuild loop of a tick: the list is rebuilt against the box of a
      player in lane `lane` at `pz`, dropping retired obstacles, consuming
      overlapping cubes for the reward and stopping after the first
      overlapping car or barrier. */
  method SweepObstacles(obs: seq<Obstacle>, lane: int, pz: real)
    returns (kept: seq<Obstacle>, gained: int, crashed: bool)
    ensures Sweep(kept, gained, crashed) == Resolve(obs, lane, pz)
  {
    // player box
    var px := LaneX(lane);

    kept, gained, crashed := [], 0, false;
    for i := 0 to |obs|
      invariant !crashed
      invariant Resolve(obs, lane, pz).kept == kept + Resolve(obs[i..], lane, pz).kept
      invariant Resolve(obs, lane, pz).gained == gained + Resolve(obs[i..], lane, pz).gained
      invariant Resolve(obs, lane, pz).crashed == Resolve(obs[i..], lane, pz).crashed
    {
      var o := obs[i];
      ghost var rest := Resolve(obs[i + 1..], lane, pz);
      if o.z <= pz - RETIRE_MARGIN {
        SweepPasses(obs, i, lane, pz);
        continue;
      }

      var ox := LaneX(o.lane);
      var oz := o.z;

      if o.kind == Cube {
        // the smaller pickup box keeps cubes from being collected from afar
        if HasCollided(px, pz, PICKUP_HALF_WIDTH, PICKUP_HALF_LENGTH, ox, oz, CUBE_HALF_SIZE, CUBE_HALF_SIZE) {
          SweepPasses(obs, i, lane, pz);
          gained := gained + CUBE_REWARD;
          continue;
        }
      } else {
        if HasCollided(px, pz, PLAYER_HALF_WIDTH, PLAYER_HALF_LENGTH, ox, oz, HAZARD_HALF_WIDTH, HAZARD_HALF_LENGTH) {
          SweepStops(obs, i, lane, pz);
          crashed := true;
          kept := kept + [o];
          break;
        }
      }

      SweepKeeps(obs, i, lane, pz);
      ConcatAssoc(kept, [o], rest.kept);
      kept := kept + [o];
    }
    assert obs[|obs|..] == [];
  }

  // ----- An independent description of the sweep -----

  /** Index of the first car or barrier overlapping the player, or |obs|. */
  function FirstCrash(obs: seq<Obstacle>, lane: int, pz: real): (n: nat)
    ensures n <= |obs|
    ensures forall i :: 0 <= i < n ==> !Crashes(obs[i], lane, pz)
    ensures n < |obs| ==> Crashes(obs[n], lane, pz)
  {
    if obs == [] || Crashes(obs[0], lane, pz) then 0
    else 1 + FirstCrash(obs[1..], lane, pz)
  }

  /** An obstacle that is neither retired nor collected stays on the road. */
  predicate Survives(o: Obstacle, lane: int, pz: real) {
    !Retired(o, pz) && !Collects(o, lane, pz)
  }

  /** The entries of `obs` that stay on the road, in order. */
  function Survivors(obs: seq<Obstacle>, lane: int, pz: real): (s: seq<Obstacle>)
    ensures |s| <= |obs|
    ensures forall o :: o in s <==> o in obs && Survives(o, lane, pz)
  {
    if obs == [] then []
    else (if Survives(obs[0], lane, pz) then [obs[0]] else [])
         + Survivors(obs[1..], lane, pz)
  }

  /** Number of entries of `obs` collected as cubes. */
  function Collected(obs: seq<Obstacle>, lane: int, pz: real): (n: nat)
    ensures n <= |obs|
    ensures n == 0 <==> forall o :: o in obs ==> !(Collects(o, lane, pz) && !Retired(o, pz))
  {
    if obs == [] then 0
    else (if Collects(obs[0], lane, pz) && !Retired(obs[0], pz) then 1 else 0)
         + Collected(obs[1..], lane, pz)
  }

  /** The sweep processes exactly the entries before the first fatal hit:
      it keeps the survivors among them, in order, followed by the fatal
      obstacle if there is one, and earns one reward per collected cube
      among them. Everything after the fatal hit is dropped. */
  lemma ResolveMeaning(obs: seq<Obstacle>, lane: int, pz: real)
    ensures var n := FirstCrash(obs, lane, pz);
            var r := Resolve(obs, lane, pz);
            && r.crashed == (n < |obs|)
            && r.kept == Survivors(obs[..n], lane, pz) + (if n < |obs| then [obs[n]] else [])
            && r.gained == CUBE_REWARD * Collected(obs[..n], lane, pz)
  {
    SweepMeaningHolds(obs, lane, pz);
  }

  lemma {:induction false} SweepMeaningHolds(obs: seq<Obstacle>, lane: int, pz: real)
    ensures SweepMeaning(obs, lane, pz)
    decreases |obs|
  {
    if obs == [] || Crashes(obs[0], lane, pz) {
      assert obs[..0] == [];
    } else {
      SweepMeaningHolds(obs[1..], lane, pz);
      SweepMeaningStep(obs, lane, pz);
    }
  }

  /** What ResolveMeaning states about `obs`. */
  predicate SweepMeaning(obs: seq<Obstacle>, lane: int, pz: real) {
    var n := FirstCrash(obs, lane, pz);
    var r := Resolve(obs, lane, pz);
    && r.crashed == (n < |obs|)
    && r.kept == Survivors(obs[..n], lane, pz) + (if n < |obs| then [obs[n]] else [])
    && r.gained == CUBE_REWARD * Collected(obs[..n], lane, pz)
  }

  lemma SweepMeaningStep(obs: seq<Obstacle>, lane: int, pz: real)
    requires obs != [] && !Crashes(obs[0], lane, pz)
    requires SweepMeaning(obs[1..], lane, pz)
    ensures SweepMeaning(obs, lane, pz)
  {
    var o, t := obs[0], obs[1..];
    var n', n := FirstCrash(t, lane, pz), FirstCrash(obs, lane, pz);
    var r, rest := Resolve(obs, lane, pz), Resolve(t, lane, pz);
    assert n == n' + 1 && (n < |obs| <==> n' < |t|);
    assert obs[..n] == [o] + t[..n'];
    var tail := if n < |obs| then [obs[n]] else [];
    assert tail == if n' < |t| then [t[n']] else [];
    assert && r.crashed == rest.crashed
                 && r.kept == (if Survives(o, lane, pz) then [o] else []) + rest.kept
                 && r.gained == rest.gained
                      + (if Collects(o, lane, pz) && !Retired(o, pz) then CUBE_REWARD else 0)
    by {
      ResolveStep(obs, lane, pz);
    }
    assert r.gained == CUBE_REWARD * Collected(obs[..n], lane, pz) by {
      PrefixStep(o, t[..n'], lane, pz);
    }
    assert r.kept == Survivors(obs[..n], lane, pz) + tail by {
      PrefixStep(o, t[..n'], lane, pz);
      var head := if Survives(o, lane, pz) then [o] else [];
      var mid := Survivors(t[..n'], lane, pz);
      assert rest.kept == mid + tail;
      ConcatAssoc(head, mid, tail);
    }
  }

  lemma ConcatAssoc(a: seq<Obstacle>, b: seq<Obstacle>, c: seq<Obstacle>)
    ensures a + (b + c) == (a + b) + c
  {
  }

  /** Survivors and Collected of a list with a given first entry. */
  lemma PrefixStep(o: Obstacle, t: seq<Obstacle>, lane: int, pz: real)
    ensures Survivors([o] + t, lane, pz)
         == (if Survives(o, lane, pz) then [o] else []) + Survivors(t, lane, pz)
    ensures Collected([o] + t, lane, pz)
         == (if Collects(o, lane, pz) && !Retired(o, pz) then 1 else 0) + Collected(t, lane, pz)
  {
    assert ([o] + t)[1..] == t;
  }

  /** One step of the sweep past an entry that is not a fatal hit. */
  lemma ResolveStep(obs: seq<Obstacle>, lane: int, pz: real)
    requires obs != [] && !Crashes(obs[0], lane, pz)
    ensures var r := Resolve(obs, lane, pz);
            var rest := Resolve(obs[1..], lane, pz);
            && r.crashed == rest.crashed
            && r.kept == (if Survives(obs[0], lane, pz) then [obs[0]] else []) + rest.kept
            && r.gained == rest.gained
                 + (if Collects(obs[0], lane, pz) && !Retired(obs[0], pz) then CUBE_REWARD else 0)
  {
  }

  /** `a` is `b` with some entries removed: `idx` says, for each entry of
      `a`, the strictly increasing position it came from in `b`. */
  predicate Embedding(a: seq<Obstacle>, b: seq<Obstacle>, idx: seq<int>) {
    && |idx| == |a|
    && (forall k :: 0 <= k < |idx| ==> 0 <= idx[k] < |b| && a[k] == b[idx[k]])
    && (forall k, l :: 0 <= k < l < |idx| ==> idx[k] < idx[l])
  }

  function Shift(idx: seq<int>): (r: seq<int>)
    ensures |r| == |idx| && forall k :: 0 <= k < |idx| ==> r[k] == idx[k] + 1
  {
    seq(|idx|, k requires 0 <= k < |idx| => idx[k] + 1)
  }

  lemma EmbeddingSkip(a: seq<Obstacle>, b: seq<Obstacle>, idx: seq<int>)
    requires b != [] && Embedding(a, b[1..], idx)
    ensures Embedding(a, b, Shift(idx))
  {
  }

  lemma EmbeddingTake(a: seq<Obstacle>, b: seq<Obstacle>, idx: seq<int>)
    requires b != [] && Embedding(a, b[1..], idx)
    ensures Embedding([b[0]] + a, b, [0] + Shift(idx))
  {
    var idx' := [0] + Shift(idx);
    forall k, l | 0 <= k < l < |idx'| ensures idx'[k] < idx'[l] {
      if k > 0 {
        assert idx'[k] == idx[k - 1] + 1 && idx'[l] == idx[l - 1] + 1;
      }
    }
  }

  /** `idx` shows the rebuilt list to be an order-preserving subsequence of
      the swept list, ending, after a fatal hit, at the first fatal position. */
  predicate KeptInOrder(obs: seq<Obstacle>, lane: int, pz: real, idx: seq<int>) {
    var r := Resolve(obs, lane, pz);
    Embedding(r.kept, obs, idx) &&
    (r.crashed ==> idx != [] && idx[|idx| - 1] == FirstCrash(obs, lane, pz))
  }

  /** The rebuilt list is an order-preserving subsequence of the swept list;
      after a fatal hit its last entry is the one at the first fatal
      position, so every later entry is gone. */
  lemma {:induction false} ResolveIsSubsequence(obs: seq<Obstacle>, lane: int, pz: real)
    ensures exists idx :: KeptInOrder(obs, lane, pz, idx)
    decreases |obs|
  {
    if obs == [] {
      assert KeptInOrder(obs, lane, pz, []);
    } else if Crashes(obs[0], lane, pz) {
      assert KeptInOrder(obs, lane, pz, [0]);
    } else {
      ResolveIsSubsequence(obs[1..], lane, pz);
      var idx :| KeptInOrder(obs[1..], lane, pz, idx);
      KeptInOrderStep(obs, lane, pz, idx);
    }
  }

  lemma KeptInOrderStep(obs: seq<Obstacle>, lane: int, pz: real, idx: seq<int>)
    requires obs != [] && !Crashes(obs[0], lane, pz)
    requires KeptInOrder(obs[1..], lane, pz, idx)
    ensures KeptInOrder(obs, lane, pz, if Survives(obs[0], lane, pz) then [0] + Shift(idx) else Shift(idx))
  {
    if Survives(obs[0], lane, pz) {
      KeptInOrderTake(obs, lane, pz, idx);
    } else {
      KeptInOrderSkip(obs, lane, pz, idx);
    }
  }

  lemma KeptInOrderTake(obs: seq<Obstacle>, lane: int, pz: real, idx: seq<int>)
    requires obs != [] && !Crashes(obs[0], lane, pz) && Survives(obs[0], lane, pz)
    requires KeptInOrder(obs[1..], lane, pz, idx)
    ensures KeptInOrder(obs, lane, pz, [0] + Shift(idx))
  {
    var rest := Resolve(obs[1..], lane, pz);
    ResolveStep(obs, lane, pz);
    assert FirstCrash(obs, lane, pz) == FirstCrash(obs[1..], lane, pz) + 1;
    EmbeddingTake(rest.kept, obs, idx);
  }

  lemma KeptInOrderSkip(obs: seq<Obstacle>, lane: int, pz: real, idx: seq<int>)
    requires obs != [] && !Crashes(obs[0], lane, pz) && !Survives(obs[0], lane, pz)
    requires KeptInOrder(obs[1..], lane, pz, idx)
    ensures KeptInOrder(obs, lane, pz, Shift(idx))
  {
    var rest := Resolve(obs[1..], lane, pz);
    ResolveStep(obs, lane, pz);
    assert FirstCrash(obs, lane, pz) == FirstCrash(obs[1..], lane, pz) + 1;
    EmbeddingSkip(rest.kept, obs, idx);
  }

  /** Over a whole tick: the new list is an order-preserving subsequence of
      the list before the tick, each entry moved back by `d` and otherwise
      unchanged. */
  lemma TickKeepsOrder(obs: seq<Obstacle>, d: real, lane: int, pz: real)
    ensures var kept := Resolve(Moved(obs, d), lane, pz).kept;
            exists idx :: Embedding(kept, Moved(obs, d), idx) &&
              forall k :: 0 <= k < |idx| ==> kept[k] == obs[idx[k]].(z := obs[idx[k]].z - d)
  {
    var moved := Moved(obs, d);
    var kept := Resolve(moved, lane, pz).kept;
    ResolveIsSubsequence(moved, lane, pz);
    var idx :| KeptInOrder(moved, lane, pz, idx);
    assert forall k :: 0 <= k < |idx| ==> kept[k] == obs[idx[k]].(z := obs[idx[k]].z - d);
  }
}
