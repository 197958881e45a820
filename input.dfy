// Player input: lane changes from the letter keys and the arrow keys, and
// the speed keys.

module Input {
  import opened Geometry

  const BASE_SPEED: real := 1.2
  const BOOST_SPEED: real := 3.0

  /** A request to move one lane down or up in index, or none. */
  datatype Steer = SteerLeft | SteerRight | Straight

  /** The special (non-character) keys the runner tells apart. */
  datatype SpecialKey = LeftArrow | RightArrow | OtherSpecial

  /** A and D, in either case, steer; every other key does not. */
  function KeySteer(key: char): (s: Steer)
    ensures s == SteerLeft <==> key in "aA"
    ensures s == SteerRight <==> key in "dD"
  {
    if key == 'a' || key == 'A' then SteerLeft
    else if key == 'd' || key == 'D' then SteerRight
    else Straight
  }

  /** The left and right arrows steer; every other special key does not. */
  function SpecialSteer(key: SpecialKey): (s: Steer)
    ensures s == SteerLeft <==> key == LeftArrow
    ensures s == SteerRight <==> key == RightArrow
  {
    match key
    case LeftArrow => SteerLeft
    case RightArrow => SteerRight
    case OtherSpecial => Straight
  }

  /** The lane after a steering request. The lane stays on the road, moves
      by exactly one in the requested direction, and is left as it is only
      when there is no request or the request would leave the road. */
  function Steered(lane: int, s: Steer): (r: int)
    ensures 0 <= lane < NUM_LANES ==> 0 <= r < NUM_LANES
    ensures r == lane <==>
      s == Straight || (s == SteerLeft && lane <= 0) || (s == SteerRight && lane >= NUM_LANES - 1)
    ensures r != lane ==> r == (if s == SteerLeft then lane - 1 else lane + 1)
  {
    match s
    case SteerLeft => if lane > 0 then lane - 1 else lane
    case SteerRight => if lane < NUM_LANES - 1 then lane + 1 else lane
    case Straight => lane
  }

  /** The speed after a key: W boosts, S returns to the base speed, and
      every other key keeps the speed, so the speed only ever takes the
      two configured values. */
  function KeySpeed(speed: real, key: char): (r: real)
    ensures r == speed || r == BASE_SPEED || r == BOOST_SPEED
    ensures (key == 'w' || key == 'W') ==> r == BOOST_SPEED
    ensures (key == 's' || key == 'S') ==> r == BASE_SPEED
    ensures key !in "wWsS" ==> r == speed
  {
    if key == 'w' || key == 'W' then BOOST_SPEED
    else if key == 's' || key == 'S' then BASE_SPEED
    else speed
  }
}
