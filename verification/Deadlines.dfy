/** Checks of an optional absolute deadline against a clock, reading by reading. */
module Deadlines {
  import opened Prelude

  /** The last of the clock readings from `start` to `end` found the deadline gone. */
  ghost predicate LastLate(clock: nat -> int, start: nat, end: nat, deadline: Option<int>) {
    deadline.Some? && start < end && clock(end - 1) >= deadline.value
  }

  ghost predicate RestInTime(clock: nat -> int, start: nat, end: nat, deadline: Option<int>) {
    start <= end && forall i: nat :: start <= i < end - 1 ==> deadline.None? || clock(i) < deadline.value
  }

  /** Checks in time followed by more checks. */
  lemma MoreChecks(clock: nat -> int, a: nat, b: nat, c: nat, deadline: Option<int>)
    requires RestInTime(clock, a, b, deadline) && !LastLate(clock, a, b, deadline)
    requires RestInTime(clock, b, c, deadline)
    ensures RestInTime(clock, a, c, deadline)
    ensures LastLate(clock, a, c, deadline) == LastLate(clock, b, c, deadline)
  {
  }
}
