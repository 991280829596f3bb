/** Small shared vocabulary. */
module Common {
  datatype Option<+T> = None | Some(value: T)

  /** Instants and durations, in nanoseconds. */
  type Time = int

  const SECOND: Time := 1_000_000_000
  const MINUTE: Time := 60 * SECOND

  /** A non-empty set of integers has a member, in the form a choice needs. */
  lemma SomeMember(s: set<int>)
    requires s != {}
    ensures exists x: int :: x in s
  {
    if !exists x: int :: x in s { assert false; }
  }
}
