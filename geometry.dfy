// Lane geometry and the axis-aligned overlap test of the runner, in the
// lateral (X) / longitudinal (Z) plane.

module Geometry {

  /** Lateral distance between the centres of two neighbouring lanes. */
  const LANE_OFFSET: real := 120.0
  /** Lanes are numbered 0, 1, 2; lane 1 is the centre of the road. */
  const NUM_LANES: int := 3

  function Abs(x: real): real {
    if x < 0.0 then -x else x
  }

  /** Lateral coordinate of lane `idx`. The lanes are mirrored, so a lower
      index lies at a larger X (visually left with the camera behind the car). */
  function LaneX(idx: int): (x: real)
    ensures x == 0.0 <==> idx == 1
    ensures idx < 1 ==> x > 0.0
    ensures idx > 1 ==> x < 0.0
  {
    0.0 - (idx - 1) as real * LANE_OFFSET
  }

  /** One step up in lane index moves the lane one offset towards -X. */
  lemma LaneStep(idx: int)
    ensures LaneX(idx + 1) == LaneX(idx) - LANE_OFFSET
  {
  }

  /** Two different lanes are at least one lane offset apart, and the
      lane with the higher index has the smaller coordinate. */
  lemma LaneSeparation(i: int, j: int)
    ensures i < j ==> LaneX(j) <= LaneX(i) - LANE_OFFSET
    ensures i != j ==> Abs(LaneX(i) - LaneX(j)) >= LANE_OFFSET
  {
    assert LaneX(i) - LaneX(j) == (j - i) as real * LANE_OFFSET;
    if i < j {
      assert (j - i) as real >= 1.0;
    } else if j < i {
      assert (i - j) as real >= 1.0;
    }
  }

  /** Overlap of two boxes given by centre (x, z) and half-extents (w, h).
      All four comparisons are strict, so boxes that only touch do not
      collide. */
  function HasCollided(x1: real, z1: real, w1: real, h1: real,
                       x2: real, z2: real, w2: real, h2: real): (hit: bool)
    ensures hit <==> Abs(x1 - x2) < w1 + w2 && Abs(z1 - z2) < h1 + h2
  {
    x1 - w1 < x2 + w2 &&
    x1 + w1 > x2 - w2 &&
    z1 - h1 < z2 + h2 &&
    z1 + h1 > z2 - h2
  }

  /** The test does not depend on which box is given first. */
  lemma HasCollidedSymmetric(x1: real, z1: real, w1: real, h1: real,
                             x2: real, z2: real, w2: real, h2: real)
    ensures HasCollided(x1, z1, w1, h1, x2, z2, w2, h2)
         == HasCollided(x2, z2, w2, h2, x1, z1, w1, h1)
  {
  }

  /** Boxes whose edges meet on either axis do not collide. */
  lemma TouchingBoxesDoNotCollide(x1: real, z1: real, w1: real, h1: real,
                                  x2: real, z2: real, w2: real, h2: real)
    requires x1 + w1 == x2 - w2 || x2 + w2 == x1 - w1
          || z1 + h1 == z2 - h2 || z2 + h2 == z1 - h1
    ensures !HasCollided(x1, z1, w1, h1, x2, z2, w2, h2)
  {
  }

  /** The point (px, pz) lies strictly inside the box. */
  predicate StrictlyInside(px: real, pz: real, x: real, z: real, w: real, h: real) {
    x - w < px < x + w && z - h < pz < z + h
  }

  function Max(a: real, b: real): real { if a < b then b else a }
  function Min(a: real, b: real): real { if a < b then a else b }

  /** For boxes of positive size, the test holds exactly when some point
      lies strictly inside both boxes. */
  lemma HasCollidedIffCommonPoint(x1: real, z1: real, w1: real, h1: real,
                                  x2: real, z2: real, w2: real, h2: real)
    requires w1 > 0.0 && h1 > 0.0 && w2 > 0.0 && h2 > 0.0
    ensures HasCollided(x1, z1, w1, h1, x2, z2, w2, h2) <==>
            exists px: real, pz: real ::
              StrictlyInside(px, pz, x1, z1, w1, h1) && StrictlyInside(px, pz, x2, z2, w2, h2)
  {
    if HasCollided(x1, z1, w1, h1, x2, z2, w2, h2) {
      var px := (Max(x1 - w1, x2 - w2) + Min(x1 + w1, x2 + w2)) / 2.0;
      var pz := (Max(z1 - h1, z2 - h2) + Min(z1 + h1, z2 + h2)) / 2.0;
      assert StrictlyInside(px, pz, x1, z1, w1, h1) && StrictlyInside(px, pz, x2, z2, w2, h2);
    } else {
      forall px: real, pz: real | StrictlyInside(px, pz, x1, z1, w1, h1)
        ensures !StrictlyInside(px, pz, x2, z2, w2, h2)
      {
      }
    }
  }
}
