/**
 Shutdown of a byte stream: any number of threads closing it and making adapter
 calls. A step is one critical section of the coordinator's lock, the run of the
 shutdown action, or the return of an adapter call. A thread parked on the
 condition variable moves only after a notification, so a lost wakeup would show.
 */
module Shutdown {
  import opened Prelude

  datatype Phase = Open | Closing | Closed

  datatype PC =
    | Idle
    | Knocking              // about to look at the phase in `close`
    | Parked                // waits for another closer
    | Took                  // took the action, has not started it
    | Acting                // inside the action
    | Acted                 // about to look at the active count
    | Draining              // waits for the admitted calls
    | Returned              // `close` returned
    | Entering              // about to ask for admission
    | Inside                // inside an adapter call
    | Refused               // was not admitted

  /** `started` and `ended` count runs of the action; `leader` is the thread that took it. */
  datatype State = State(
    phase: Phase, active: int, action: bool,
    started: nat, ended: nat, leader: Option<nat>,
    pcs: map<nat, PC>)

  datatype Step =
    | Close(thread: nat)
    | Call(thread: nat)
    | Go(thread: nat)
    | Spurious(thread: nat)   // the condition variable wakes a thread for nothing

  const INIT := State(Open, 0, true, 0, 0, None, map[])

  function Pc(s: State, t: nat): PC {
    if t in s.pcs then s.pcs[t] else Idle
  }

  function At(s: State, t: nat, pc: PC): State {
    s.(pcs := s.pcs[t := pc])
  }

  /** Every parked thread looks again. */
  function NotifyAll(pcs: map<nat, PC>): map<nat, PC> {
    map t | t in pcs :: Woken(pcs[t])
  }

  function Woken(pc: PC): PC {
    match pc case Parked => Knocking case Draining => Acted case _ => pc
  }

  predicate Done(pc: PC) { pc.Idle? || pc.Returned? || pc.Refused? }

  function Do(s: State, step: Step): State {
    var t := step.thread;
    match step
    case Close(_) => if Done(Pc(s, t)) then At(s, t, Knocking) else s
    case Call(_) => if Done(Pc(s, t)) then At(s, t, Entering) else s
    case Spurious(_) => At(s, t, Woken(Pc(s, t)))
    case Go(_) =>
      match Pc(s, t)
      case Knocking =>
        (match s.phase
         case Closed => At(s, t, Returned)
         case Closing => At(s, t, Parked)
         case Open => At(s, t, Took).(phase := Closing, action := false, leader := Some(t)))
      case Took => At(s, t, Acting).(started := s.started + 1)
      case Acting => At(s, t, Acted).(ended := s.ended + 1)
      case Acted =>
        if s.active != 0 then At(s, t, Draining)
        else s.(phase := Closed, leader := None, pcs := NotifyAll(s.pcs[t := Returned]))
      case Entering => if s.phase.Open? then At(s, t, Inside).(active := s.active + 1) else At(s, t, Refused)
      case Inside =>
        var r := At(s, t, Idle).(active := s.active - 1);
        if r.active == 0 then r.(pcs := NotifyAll(r.pcs)) else r
      case _ => s
  }

  function Run(s: State, steps: seq<Step>): State {
    if steps == [] then s else Do(Run(s, steps[..|steps| - 1]), steps[|steps| - 1])
  }

  // ---------------------------------------------------------------------------
  // Invariant

  /** Threads inside an adapter call. */
  function Admitted(pcs: map<nat, PC>): set<nat> {
    set t | t in pcs && pcs[t].Inside?
  }

  /** The thread responsible for shutdown is at one of these. */
  predicate Leads(pc: PC) { pc.Took? || pc.Acting? || pc.Acted? || pc.Draining? }

  /** What holds of a thread at `pc`: one leader, no early return, no missed wakeup. */
  predicate ThreadOk(s: State, t: nat, pc: PC) {
    && (Leads(pc) <==> s.leader == Some(t))
    && (Leads(pc) ==> && s.started == (if pc.Took? then 0 else 1)
                      && s.ended == (if pc.Took? || pc.Acting? then 0 else 1))
    && (pc.Returned? ==> s.phase.Closed?)
    && (pc.Parked? ==> s.phase.Closing?)
    && (pc.Draining? ==> s.active != 0)
  }

  /** Each phase by what the action and the admitted calls have done. */
  ghost predicate PhaseOk(s: State) {
    && s.active == |Admitted(s.pcs)|
    && (s.action <==> s.phase.Open?) && (s.leader.Some? <==> s.phase.Closing?)
    && (s.phase.Open? ==> s.started == 0 && s.ended == 0)
    && (s.phase.Closed? ==> s.started == 1 && s.ended == 1 && s.active == 0)
  }

  ghost predicate Inv(s: State) {
    PhaseOk(s) && forall t: nat :: ThreadOk(s, t, Pc(s, t))
  }

  lemma AdmittedMoves(pcs: map<nat, PC>, t: nat, to: PC)
    ensures |Admitted(pcs[t := to])| ==
            |Admitted(pcs)| - (if t in pcs && pcs[t].Inside? then 1 else 0) + if to.Inside? then 1 else 0
  {
    var a, b := Admitted(pcs), Admitted(pcs[t := to]);
    assert a - {t} == b - {t};
    assert |a| == |a - {t}| + if t in a then 1 else 0;
    assert |b| == |b - {t}| + if t in b then 1 else 0;
  }

  lemma WakingAdmitsNobody(pcs: map<nat, PC>)
    ensures Admitted(NotifyAll(pcs)) == Admitted(pcs)
  {
  }

  /** Where every thread is after a step. */
  lemma OthersStay(s: State, step: Step, u: nat)
    requires u != step.thread
    ensures Pc(Do(s, step), u) == Pc(s, u) || Pc(Do(s, step), u) == Woken(Pc(s, u))
    ensures Pc(s, step.thread).Acted? && s.active == 0 && step.Go? ==> Pc(Do(s, step), u) == Woken(Pc(s, u))
    ensures Pc(s, step.thread).Inside? && s.active == 1 && step.Go? ==> Pc(Do(s, step), u) == Woken(Pc(s, u))
  {
  }

  lemma StepPhase(s: State, step: Step)
    requires Inv(s)
    ensures PhaseOk(Do(s, step))
  {
    var t := step.thread;
    assert ThreadOk(s, t, Pc(s, t));
    var to := Pc(Do(s, step), t);
    AdmittedMoves(s.pcs, t, to);
    WakingAdmitsNobody(s.pcs[t := to]);
    assert t in Admitted(s.pcs) ==> s.active > 0;
  }

  lemma StepThread(s: State, step: Step, u: nat)
    requires Inv(s)
    ensures ThreadOk(Do(s, step), u, Pc(Do(s, step), u))
  {
    var t := step.thread;
    assert ThreadOk(s, t, Pc(s, t)) && ThreadOk(s, u, Pc(s, u));
    if u != t {
      OthersStay(s, step, u);
    }
  }

  lemma StepKeeps(s: State, step: Step)
    requires Inv(s)
    ensures Inv(Do(s, step))
  {
    StepPhase(s, step);
    forall u: nat ensures ThreadOk(Do(s, step), u, Pc(Do(s, step), u)) {
      StepThread(s, step, u);
    }
  }

  lemma {:induction false} RunKeeps(s: State, steps: seq<Step>)
    requires Inv(s)
    ensures Inv(Run(s, steps))
  {
    if steps != [] {
      RunKeeps(s, steps[..|steps| - 1]);
      StepKeeps(Run(s, steps[..|steps| - 1]), steps[|steps| - 1]);
    }
  }

  /**
   In every run the action starts at most once, the active count is the number of
   threads inside an adapter call, and no closer waits for something that has
   already happened.
   */
  lemma EveryRun(steps: seq<Step>)
    ensures var s := Run(INIT, steps);
            && s.active == |Admitted(s.pcs)| && s.ended <= s.started <= 1
            && (s.started == 1 ==> !s.phase.Open?)
            && forall t: nat :: (Pc(s, t).Parked? ==> s.phase.Closing?) && (Pc(s, t).Draining? ==> s.active > 0)
  {
    RunKeeps(INIT, steps);
    var s := Run(INIT, steps);
    if s.leader.Some? {
      assert ThreadOk(s, s.leader.value, Pc(s, s.leader.value));
    }
    assert forall t: nat :: ThreadOk(s, t, Pc(s, t));
  }

  /** Once closing has begun, a step admits no one. */
  lemma NoLateStep(s: State, step: Step)
    requires Inv(s) && !s.phase.Open?
    ensures !Do(s, step).phase.Open? && Admitted(Do(s, step).pcs) <= Admitted(s.pcs)
    ensures s.phase.Closed? ==> Do(s, step).phase.Closed?
  {
    var t, r := step.thread, Do(s, step);
    assert ThreadOk(s, t, Pc(s, t));
    forall u | u in Admitted(r.pcs) ensures u in Admitted(s.pcs) {
      if u != t {
        OthersStay(s, step, u);
      }
    }
  }

  /** No admission after closing begins. */
  lemma {:induction false} NoLateAdmission(s: State, steps: seq<Step>)
    requires Inv(s) && !s.phase.Open?
    ensures !Run(s, steps).phase.Open? && Admitted(Run(s, steps).pcs) <= Admitted(s.pcs)
    ensures s.phase.Closed? ==> Run(s, steps).phase.Closed?
  {
    if steps != [] {
      NoLateAdmission(s, steps[..|steps| - 1]);
      RunKeeps(s, steps[..|steps| - 1]);
      NoLateStep(Run(s, steps[..|steps| - 1]), steps[|steps| - 1]);
    }
  }

  /**
   Shutdown: once any `close` has returned, the action has run exactly once and
   returned, no adapter call is in progress, and none ever is again.
   */
  lemma ReturnedMeansClosed(before: seq<Step>, t: nat, after: seq<Step>)
    requires Pc(Run(INIT, before), t).Returned?
    ensures var r := Run(Run(INIT, before), after);
            r.phase.Closed? && r.started == 1 && r.ended == 1 && r.active == 0 && Admitted(r.pcs) == {}
  {
    var s := Run(INIT, before);
    RunKeeps(INIT, before);
    assert ThreadOk(s, t, Pc(s, t));
    NoLateAdmission(s, after);
    RunKeeps(s, after);
  }

  /**
   No closer is stranded: a waiting one has a leader, who can go on or waits for
   an adapter call still in progress.
   */
  lemma NobodyStranded(steps: seq<Step>, t: nat) returns (u: nat)
    requires var pc := Pc(Run(INIT, steps), t); pc.Parked? || pc.Draining?
    ensures var s := Run(INIT, steps); Pc(Do(s, Go(u)), u) != Pc(s, u)
    ensures var pc := Pc(Run(INIT, steps), u); pc.Inside? || pc.Took? || pc.Acting? || pc.Acted?
  {
    var s := Run(INIT, steps);
    RunKeeps(INIT, steps);
    assert ThreadOk(s, t, Pc(s, t));
    u := s.leader.value;
    assert ThreadOk(s, u, Pc(s, u));
    if Pc(s, u).Draining? {
      assert Admitted(s.pcs) != {};
      u :| u in Admitted(s.pcs);
    }
  }

  // ---------------------------------------------------------------------------
  // What the calls achieve

  /** An adapter call is admitted if and only if closing has not begun, and counted while it lasts. */
  lemma AdmittedWhenOpen(steps: seq<Step>, t: nat)
    requires Done(Pc(Run(INIT, steps), t))
    ensures var s := Run(INIT, steps); var r := Do(Do(s, Call(t)), Go(t));
            && (Pc(r, t) == if s.phase.Open? then Inside else Refused)
            && r.active == (if s.phase.Open? then s.active + 1 else s.active) && r.phase == s.phase
  {
    RunKeeps(INIT, steps);
  }

  /** An adapter call that returns is counted no more, and wakes whoever waits for the last one. */
  lemma ReturnIsCounted(steps: seq<Step>, t: nat)
    requires Pc(Run(INIT, steps), t).Inside?
    ensures var s := Run(INIT, steps); var r := Do(s, Go(t));
            && Pc(r, t) == Idle && r.active == s.active - 1 && r.phase == s.phase
            && (r.active == 0 ==> forall u: nat :: Pc(r, u) != Draining)
  {
    RunKeeps(INIT, steps);
    var s := Run(INIT, steps);
    assert ThreadOk(s, t, Pc(s, t));
    StepKeeps(s, Go(t));
    assert forall u: nat :: ThreadOk(Do(s, Go(t)), u, Pc(Do(s, Go(t)), u));
  }

  /** With no adapter call in progress, the first closer that runs alone runs the action, closes and returns. */
  lemma CloseCompletes(steps: seq<Step>, t: nat)
    requires var s := Run(INIT, steps); s.phase.Open? && s.active == 0 && Done(Pc(s, t))
    ensures var s := Run(INIT, steps);
            var r := Do(Do(Do(Do(Do(s, Close(t)), Go(t)), Go(t)), Go(t)), Go(t));
            && Pc(r, t) == Returned && r.phase.Closed? && r.started == s.started + 1 && r.ended == s.ended + 1
            && r.leader.None?
  {
    var s := Run(INIT, steps);
    var a := Do(s, Close(t));
    assert Pc(a, t) == Knocking;
    var b := Do(a, Go(t));
    assert Pc(b, t) == Took && b.phase.Closing?;
    var c := Do(b, Go(t));
    assert Pc(c, t) == Acting;
    var d := Do(c, Go(t));
    assert Pc(d, t) == Acted && d.active == 0;
    assert Do(d, Go(t)).pcs == NotifyAll(d.pcs[t := Returned]);
  }

  /** Once closed, a closer returns at once. */
  lemma ClosedReturns(steps: seq<Step>, t: nat)
    requires Run(INIT, steps).phase.Closed? && Done(Pc(Run(INIT, steps), t))
    ensures Pc(Do(Do(Run(INIT, steps), Close(t)), Go(t)), t) == Returned
  {
  }
}
