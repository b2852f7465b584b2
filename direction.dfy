/**
 * Compass and relative directions (src/direction.rs, src/direction/cardinal.rs,
 * src/direction/relative.rs).
 */
module Direction {

  datatype Cardinal = North | East | South | West

  datatype Relative = Forward | Right | Backward | Left

  /** CARD_DIR_ARR: the cardinal directions in ordinal order. */
  const CardDirArr: seq<Cardinal> := [North, East, South, West]

  /** REL_DIR_ARR: the relative directions in ordinal order. */
  const RelDirArr: seq<Relative> := [Forward, Right, Backward, Left]

  /** `reverse` for cardinal directions. */
  function Reverse(d: Cardinal): (r: Cardinal)
    ensures r != d
    ensures Ordinal(r) == (Ordinal(d) + 2) % 4
  {
    match d
    case North => South
    case South => North
    case East => West
    case West => East
  }

  /** `reverse` for relative directions. */
  function ReverseRelative(d: Relative): (r: Relative)
    ensures r != d
    ensures Turn(r) == (Turn(d) + 2) % 4
  {
    match d
    case Forward => Backward
    case Backward => Forward
    case Right => Left
    case Left => Right
  }

  /** Reversing twice gives the direction back. */
  lemma ReverseInvolution(d: Cardinal)
    ensures Reverse(Reverse(d)) == d
  {
  }

  /** Reversing a relative direction twice gives it back. */
  lemma ReverseRelativeInvolution(r: Relative)
    ensures ReverseRelative(ReverseRelative(r)) == r
  {
  }

  /** `usize::from(CardinalDirection)`: the slot index of a direction. */
  function Ordinal(d: Cardinal): (n: nat)
    ensures n < 4
    ensures CardDirArr[n] == d
  {
    match d
    case North => 0
    case East => 1
    case South => 2
    case West => 3
  }

  /** The amount `from_relative` adds to the ordinal for each relative turn. */
  function Turn(r: Relative): (n: nat)
    ensures n < 4 && RelDirArr[n] == r
  {
    match r
    case Forward => 0
    case Right => 1
    case Backward => 2
    case Left => 3
  }

  /** `CardinalDirection::from_relative`: add the turn and wrap from 4..6 back to 0..2. */
  function FromRelative(d: Cardinal, r: Relative): (c: Cardinal)
    ensures Ordinal(c) == (Ordinal(d) + Turn(r)) % 4
  {
    var ord := Ordinal(d) + Turn(r);
    if ord >= 4 then CardDirArr[ord - 4] else CardDirArr[ord]
  }

  /** The ordinal determines the direction. */
  lemma OrdinalInjective(a: Cardinal, b: Cardinal)
    requires Ordinal(a) == Ordinal(b)
    ensures a == b
  {
    assert CardDirArr[Ordinal(a)] == a;
  }

  /** Facing forward keeps the heading. */
  lemma ForwardKeepsHeading(d: Cardinal)
    ensures FromRelative(d, Forward) == d
  {
    OrdinalInjective(FromRelative(d, Forward), d);
  }

  /** Turning around is the cardinal reverse. */
  lemma BackwardIsReverse(d: Cardinal)
    ensures FromRelative(d, Backward) == Reverse(d)
  {
    OrdinalInjective(FromRelative(d, Backward), Reverse(d));
  }

  /** A right turn followed by a left turn (or the other way round) restores the heading. */
  lemma RightThenLeft(d: Cardinal)
    ensures FromRelative(FromRelative(d, Right), Left) == d
    ensures FromRelative(FromRelative(d, Left), Right) == d
  {
    OrdinalInjective(FromRelative(FromRelative(d, Right), Left), d);
    OrdinalInjective(FromRelative(FromRelative(d, Left), Right), d);
  }

  /** Turning relative to a heading agrees with turning the relative direction itself:
      reversing the relative turn reverses the resulting heading. */
  lemma ReverseCommutesWithTurn(d: Cardinal, r: Relative)
    ensures FromRelative(d, ReverseRelative(r)) == Reverse(FromRelative(d, r))
  {
    OrdinalInjective(FromRelative(d, ReverseRelative(r)), Reverse(FromRelative(d, r)));
  }
}
