/** The river-crossing puzzle itself: world states, boarding compositions,
    the arithmetic of one crossing and the bank-safety rule. */
module Puzzle {

  datatype Option<T> = None | Some(value: T)

  /** Three missionaries and three cannibals take part. */
  const PEOPLE_PER_TYPE: int := 3

  /** A world state as the game tuple `(m, c, b)`: the missionaries and the
      cannibals still on the start bank, and the boat bit, 1 when the boat
      lies at the start bank and 0 when it lies at the far bank. */
  datatype State = State(m: int, c: int, b: int)

  /** The state every game begins in: everybody and the boat at the start bank. */
  const Start: State := State(3, 3, 1)

  /** The winning state: everybody and the boat at the far bank. */
  const Goal: State := State(0, 0, 0)

  /** Composition tag of a boarding group: "m", "c", "2m", "2c" and "mc". */
  datatype Tag = M | C | TwoM | TwoC | MC

  /** Missionaries aboard for a composition. */
  function Missionaries(t: Tag): (n: nat)
    ensures n <= 2
  {
    match t
    case M => 1
    case C => 0
    case TwoM => 2
    case TwoC => 0
    case MC => 1
  }

  /** Cannibals aboard for a composition. */
  function Cannibals(t: Tag): (n: nat)
    ensures n <= 2
  {
    match t
    case M => 0
    case C => 1
    case TwoM => 0
    case TwoC => 2
    case MC => 1
  }

  /** Every composition puts one or two people in the boat. */
  lemma TagHeadcount(t: Tag)
    ensures 1 <= Missionaries(t) + Cannibals(t) <= 2
  {
  }

  /** Counts are within 0..3 and the boat bit is 0 or 1. */
  predicate InRange(s: State) {
    0 <= s.m <= PEOPLE_PER_TYPE && 0 <= s.c <= PEOPLE_PER_TYPE && (s.b == 0 || s.b == 1)
  }

  /** Missionaries and cannibals on the far bank, derived from the start bank. */
  function FarMissionaries(s: State): int { PEOPLE_PER_TYPE - s.m }
  function FarCannibals(s: State): int { PEOPLE_PER_TYPE - s.c }

  /** A bank is safe unless it holds some missionaries, outnumbered by cannibals. */
  predicate BankSafe(missionaries: int, cannibals: int) {
    missionaries == 0 || cannibals <= missionaries
  }

  /** Both banks are safe. */
  predicate Safe(s: State) {
    BankSafe(s.m, s.c) && BankSafe(FarMissionaries(s), FarCannibals(s))
  }

  /** The bank-safety rule in the words of the puzzle: a state is lost exactly
      when on some bank 0 < missionaries < cannibals. */
  lemma UnsafeMeansOutnumbered(s: State)
    requires InRange(s)
    ensures !Safe(s) <==>
      (0 < s.m < s.c) || (0 < FarMissionaries(s) < FarCannibals(s))
  {
  }

  /** The composition can board at the bank where the boat lies. */
  predicate Available(s: State, t: Tag) {
    if s.b == 1 then Missionaries(t) <= s.m && Cannibals(t) <= s.c
    else Missionaries(t) <= FarMissionaries(s) && Cannibals(t) <= FarCannibals(s)
  }

  /** `dm` missionaries and `dc` cannibals cross with the boat, away from the
      bank where it lies. */
  function Cross(s: State, dm: int, dc: int): State {
    if s.b == 1 then State(s.m - dm, s.c - dc, 0)
    else State(s.m + dm, s.c + dc, 1)
  }

  /** One crossing: the composition leaves the boat's bank for the other bank,
      and the boat bit flips. Nobody appears or disappears. */
  function Next(s: State, t: Tag): (r: State)
    ensures s.b == 0 || s.b == 1 ==> r.b == 1 - s.b
    ensures s.b == 1 ==> r.m == s.m - Missionaries(t) && r.c == s.c - Cannibals(t)
    ensures s.b != 1 ==>
      FarMissionaries(r) == FarMissionaries(s) - Missionaries(t) &&
      FarCannibals(r) == FarCannibals(s) - Cannibals(t)
  {
    Cross(s, Missionaries(t), Cannibals(t))
  }

  /** An available crossing keeps every count within 0..3. */
  lemma NextInRange(s: State, t: Tag)
    requires InRange(s) && Available(s, t)
    ensures InRange(Next(s, t))
  {
  }

  /** Taking the same composition straight back undoes a crossing, and it is
      always available to do so. */
  lemma NextRoundTrip(s: State, t: Tag)
    requires InRange(s) && Available(s, t)
    ensures Available(Next(s, t), t)
    ensures Next(Next(s, t), t) == s
  {
  }
}
