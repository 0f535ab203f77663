/**
 Numbering of requests: the writer gives the requests it takes consecutive IDs of its
 side, up to the 64-bit boundary.
 */
module Numbering {
  import opened Prelude
  import opened Wire
  import opened Session

  /** The next ID is the one after those allocated so far, if it fits 64 bits. */
  predicate Counted(s: State) {
    s.core.Open? ==> s.core.nextId == UpTo64(IdAt(s.side, |s.hist.taken|))
  }

  /** Only the writer's taking of a message touches the numbering. */
  predicate SameNumbers(s: State, t: State) {
    && t.side == s.side && t.hist.taken == s.hist.taken
    && (t.core.Open? ==> s.core.Open? && t.core.nextId == s.core.nextId)
  }

  lemma CallersNumber(s: State, step: Step)
    requires step.Request? || step.Reply? || step.BeginAuto? || step.FinishAuto? || step.Deliver? || step.Recv?
    ensures SameNumbers(s, Do(s, step))
  {
  }

  lemma WorkersNumber(s: State, step: Step)
    requires step.Transmit? || step.Unroute? || step.RecordWrite? || step.WriteFailed? || step.Expire?
    ensures SameNumbers(s, Do(s, step))
  {
  }

  lemma OthersNumber(s: State, step: Step)
    requires step.Close? || step.SetLimits? || step.SetAutoreply? || step.Decode? || step.ReadResult?
             || step.DropPromise? || step.DropGarbage?
    ensures SameNumbers(s, Do(s, step))
  {
  }

  lemma TakeNumbers(s: State, now: int)
    requires Counted(s)
    ensures Counted(TakeState(s, now)) && TakeState(s, now).side == s.side
  {
    AllocatedIds(s.side, |s.hist.taken|);
  }

  lemma {:induction false} EveryRun(side: Side, run: seq<Step>)
    ensures Counted(Run(Init(side), run)) && Run(Init(side), run).side == side
    decreases |run|
  {
    if run != [] {
      var s, step := Run(Init(side), run[..|run| - 1]), run[|run| - 1];
      EveryRun(side, run[..|run| - 1]);
      if step.Take? {
        TakeNumbers(s, step.now);
      } else if step.Transmit? || step.Unroute? || step.RecordWrite? || step.WriteFailed? || step.Expire? {
        WorkersNumber(s, step);
      } else if step.Request? || step.Reply? || step.BeginAuto? || step.FinishAuto? || step.Deliver? || step.Recv? {
        CallersNumber(s, step);
      } else {
        OthersNumber(s, step);
      }
    }
  }
}
