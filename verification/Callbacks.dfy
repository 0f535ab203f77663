/**
 Completion callback of one promise. Its owner registers the callback, waits and
 drops the promise; another thread settles it. Both work under the promise's
 notification lock, and a step is one action between two points where the other
 thread can act.
 */
module Callbacks {
  import opened Prelude

  datatype Who = Owner | Settler

  /** Where the owner of the promise is. */
  datatype OwnerPC =
    | Holding
    | WantRegister
    | Registering           // has the notification lock
    | RunsNow               // found the promise settled, runs the callback itself
    | Waiting
    | WantDrop
    | Dropping              // has the notification lock
    | DropsHook             // took the callback, drops it outside the lock
    | DropsReceiver
    | Gone

  /** Where the settling thread is. */
  datatype SettlerPC =
    | Unsettled
    | Locked                // has the notification lock
    | Published             // has put the result in the channel, still locked
    | Carries(callback: bool)
    | Finished

  datatype Channel = Empty | Full | Taken

  /** Which lock section came first; a history variable. */
  datatype First = Neither | SettledFirst | DroppedFirst

  /**
   `hook` says that a callback waits for settlement. `runs` counts executions,
   `discards` callbacks dropped without one.
   */
  datatype State = State(
    owner: OwnerPC, settler: SettlerPC, lock: Option<Who>,
    channel: Channel, connected: bool, delivered: bool,
    done: bool, hook: bool, registered: bool, taken: bool,
    runs: nat, discards: nat, first: First)

  const INIT := State(Holding, Unsettled, None, Empty, true, false, false, false, false, false, 0, 0, Neither)

  datatype Step = Register | Wait | Drop | OwnerGoes | SettlerGoes

  /** The owner goes on, or waits for the lock or the result. */
  function OwnerNext(s: State): State {
    match s.owner
    case WantRegister => if s.lock.Some? then s else s.(owner := Registering, lock := Some(Owner))
    case Registering =>
      if s.done then s.(owner := RunsNow, lock := None) else s.(owner := Holding, lock := None, hook := true)
    case RunsNow => s.(owner := Holding, runs := s.runs + 1)
    case Waiting => if s.channel.Full? then s.(owner := WantDrop, channel := Taken) else s
    case WantDrop => if s.lock.Some? then s else s.(owner := Dropping, lock := Some(Owner))
    case Dropping =>
      s.(owner := DropsHook, lock := None, hook := false, taken := s.hook,
         first := if s.first.Neither? then DroppedFirst else s.first)
    case DropsHook => s.(owner := DropsReceiver, taken := false, discards := s.discards + if s.taken then 1 else 0)
    case DropsReceiver => s.(owner := Gone, connected := false)
    case _ => s
  }

  function SettlerNext(s: State): State {
    match s.settler
    case Unsettled =>
      if s.lock.Some? then s
      else
        s.(settler := Locked, lock := Some(Settler), first := if s.first.Neither? then SettledFirst else s.first)
    case Locked =>
      s.(settler := Published, delivered := s.connected, channel := if s.connected then Full else s.channel)
    case Published =>
      s.(settler := Carries(s.hook), hook := false, done := s.done || s.delivered, lock := None)
    case Carries(callback) => s.(settler := Finished, runs := s.runs + if callback then 1 else 0)
    case Finished => s
  }

  function Do(s: State, step: Step): State {
    match step
    case Register =>
      if s.owner.Holding? && !s.registered then s.(owner := WantRegister, registered := true) else s
    case Wait => if s.owner.Holding? then s.(owner := Waiting) else s
    case Drop => if s.owner.Holding? then s.(owner := WantDrop) else s
    case OwnerGoes => OwnerNext(s)
    case SettlerGoes => SettlerNext(s)
  }

  function Run(s: State, steps: seq<Step>): State {
    if steps == [] then s else Do(Run(s, steps[..|steps| - 1]), steps[|steps| - 1])
  }

  // ---------------------------------------------------------------------------
  // Invariant

  /** The callback's whereabouts: with the owner before and after the lock, in the hook, or with the settler. */
  function Unsent(s: State): nat {
    if s.owner.WantRegister? || s.owner.Registering? then 1 else 0
  }

  function Due(s: State): nat {
    (if s.owner.RunsNow? then 1 else 0) + if s.settler.Carries? && s.settler.callback then 1 else 0
  }

  predicate Leaving(pc: OwnerPC) { pc.DropsHook? || pc.DropsReceiver? || pc.Gone? }

  /** The callback is in exactly one place. */
  predicate Conserved(s: State) {
    Unsent(s) + Due(s) + (if s.hook then 1 else 0) + (if s.taken then 1 else 0) + s.runs + s.discards ==
    if s.registered then 1 else 0
  }

  /** The lock and who went first. */
  predicate Ordered(s: State) {
    && (s.lock == Some(Owner) <==> s.owner.Registering? || s.owner.Dropping?)
    && (s.lock == Some(Settler) <==> s.settler.Locked? || s.settler.Published?)
    && (s.first.Neither? <==> s.settler.Unsettled? && !Leaving(s.owner))
    && (s.first.DroppedFirst? ==> Leaving(s.owner))
    && (s.first.SettledFirst? ==> !s.settler.Unsettled?)
    && (s.connected <==> !s.owner.Gone?)
    && (s.taken ==> s.owner.DropsHook?)
  }

  /** What settlement has published, by its progress. */
  predicate Publication(s: State) {
    && (s.settler.Unsettled? || s.settler.Locked? ==> s.channel.Empty? && !s.delivered && !s.done)
    && (s.settler.Published? ==> !s.done && (s.delivered || Leaving(s.owner)))
    && (s.settler.Carries? || s.settler.Finished? ==>
          && s.done == s.delivered && !s.hook
          && (s.first.SettledFirst? ==> s.delivered))
    && (s.settler.Locked? && s.first.SettledFirst? ==> !Leaving(s.owner))
    && (s.settler.Published? && s.first.SettledFirst? ==> s.delivered && !Leaving(s.owner))
    && (!s.channel.Empty? <==> s.delivered)
    && (s.channel.Taken? ==> s.first.SettledFirst? && (s.owner.WantDrop? || s.owner.Dropping? || Leaving(s.owner)))
  }

  /** A callback is dropped unrun exactly when the promise began to drop first. */
  predicate Fate(s: State) {
    && (s.first.DroppedFirst? ==> Due(s) == 0 && s.runs == 0 && !s.hook && Unsent(s) == 0)
    && (!s.first.DroppedFirst? ==> s.discards == 0 && !s.taken)
    && (s.first.Neither? ==> Due(s) == 0 && s.runs == 0)
  }

  predicate Inv(s: State) {
    Conserved(s) && Ordered(s) && Publication(s) && Fate(s)
  }

  predicate MayRegister(pc: OwnerPC) { pc.WantRegister? || pc.Registering? || pc.RunsNow? }

  lemma RegisteringKeeps(s: State)
    requires Inv(s) && MayRegister(s.owner)
    ensures Inv(OwnerNext(s))
  {
  }

  lemma WaitingKeeps(s: State)
    requires Inv(s) && (s.owner.Waiting? || s.owner.WantDrop?)
    ensures Inv(OwnerNext(s))
  {
  }

  lemma DroppingKeeps(s: State)
    requires Inv(s) && (s.owner.Dropping? || s.owner.DropsHook? || s.owner.DropsReceiver?)
    ensures Inv(OwnerNext(s))
  {
  }

  lemma OwnerKeeps(s: State)
    requires Inv(s)
    ensures Inv(OwnerNext(s))
  {
    if MayRegister(s.owner) {
      RegisteringKeeps(s);
    } else if s.owner.Waiting? || s.owner.WantDrop? {
      WaitingKeeps(s);
    } else if s.owner.Dropping? || s.owner.DropsHook? || s.owner.DropsReceiver? {
      DroppingKeeps(s);
    } else {
      assert OwnerNext(s) == s;
    }
  }

  lemma SettlerKeeps(s: State)
    requires Inv(s)
    ensures Inv(SettlerNext(s))
  {
  }

  lemma StepKeeps(s: State, step: Step)
    requires Inv(s)
    ensures Inv(Do(s, step))
  {
    match step
    case OwnerGoes => OwnerKeeps(s);
    case SettlerGoes => SettlerKeeps(s);
    case _ => CallKeeps(s, step);
  }

  lemma CallKeeps(s: State, step: Step)
    requires Inv(s) && !step.OwnerGoes? && !step.SettlerGoes?
    ensures Inv(Do(s, step))
  {
  }

  lemma {:induction false} RunKeeps(s: State, steps: seq<Step>)
    requires Inv(s)
    ensures Inv(Run(s, steps))
  {
    if steps != [] {
      RunKeeps(s, steps[..|steps| - 1]);
      StepKeeps(Run(s, steps[..|steps| - 1]), steps[|steps| - 1]);
    }
  }

  lemma OwnerKeepsFirst(s: State)
    requires !s.first.Neither?
    ensures OwnerNext(s).first == s.first
  {
  }

  lemma SettlerKeepsFirst(s: State)
    requires !s.first.Neither?
    ensures SettlerNext(s).first == s.first
  {
  }

  lemma StepKeepsFirst(s: State, step: Step)
    requires !s.first.Neither?
    ensures Do(s, step).first == s.first
  {
    OwnerKeepsFirst(s);
    SettlerKeepsFirst(s);
  }

  lemma StepKeepsTaken(s: State, step: Step)
    requires Inv(s) && s.channel.Taken?
    ensures Do(s, step).channel.Taken? && (s.registered ==> Do(s, step).registered)
  {
  }

  /** Which lock section came first never changes. */
  lemma {:induction false} FirstStands(s: State, steps: seq<Step>)
    requires !s.first.Neither?
    ensures Run(s, steps).first == s.first
  {
    if steps != [] {
      FirstStands(s, steps[..|steps| - 1]);
      StepKeepsFirst(Run(s, steps[..|steps| - 1]), steps[|steps| - 1]);
    }
  }

  /** Neither a registration nor the taking of the result is undone. */
  lemma {:induction false} TakenStands(s: State, steps: seq<Step>)
    requires Inv(s) && s.channel.Taken?
    ensures Run(s, steps).channel.Taken? && (s.registered ==> Run(s, steps).registered)
  {
    if steps != [] {
      TakenStands(s, steps[..|steps| - 1]);
      RunKeeps(s, steps[..|steps| - 1]);
      StepKeepsTaken(Run(s, steps[..|steps| - 1]), steps[|steps| - 1]);
    }
  }

  /**
   A callback never runs twice, and never at all without a registration, before
   settlement or when the promise began to drop before settlement.
   */
  lemma NeverOtherwise(steps: seq<Step>)
    ensures var s := Run(INIT, steps);
            s.runs <= 1 && (s.runs == 1 ==> s.registered && s.first.SettledFirst? && s.discards == 0)
  {
    RunKeeps(INIT, steps);
  }

  /**
   Exactly once: whenever neither thread is in the middle of a call and the promise
   is settled, a registered callback has run if and only if settlement came before
   the promise began to drop, whether it was registered before or after settlement.
   */
  lemma RunsExactlyOnce(steps: seq<Step>)
    requires var s := Run(INIT, steps); s.settler.Finished? && (s.owner.Holding? || s.owner.Gone?)
    ensures var s := Run(INIT, steps);
            && s.runs == (if s.registered && s.first.SettledFirst? then 1 else 0)
            && s.discards == (if s.registered && s.first.DroppedFirst? then 1 else 0)
  {
    RunKeeps(INIT, steps);
  }

  /**
   A waiter that got its result cannot cancel a callback: from then on settlement
   counts as first, however the waiter's drop and the settling thread interleave.
   */
  lemma WaiterCannotCancel(before: seq<Step>, after: seq<Step>)
    requires var s := Run(INIT, before); s.channel.Taken?
    ensures var s := Run(INIT, before); var r := Run(s, after);
            && r.first.SettledFirst? && r.discards == 0
            && (s.registered && r.settler.Finished? ==> r.runs == 1)
  {
    RunKeeps(INIT, before);
    var s := Run(INIT, before);
    FirstStands(s, after);
    RunKeeps(s, after);
    TakenStands(s, after);
  }

  /**
   The result gets there: in every run, once settlement has published, a promise that
   is still waited on or held has it in its channel unless it was taken, and a waiter
   takes it with its next step.
   */
  lemma ResultArrives(steps: seq<Step>)
    requires var s := Run(INIT, steps);
             && (s.settler.Published? || s.settler.Carries? || s.settler.Finished?)
             && (s.owner.Holding? || s.owner.Waiting?)
    ensures var s := Run(INIT, steps);
            && s.channel.Full? && s.delivered
            && (s.owner.Waiting? ==> Do(s, OwnerGoes).owner.WantDrop? && Do(s, OwnerGoes).channel.Taken?)
  {
    RunKeeps(INIT, steps);
  }

  /** Settlement that runs alone publishes and then runs a callback that was waiting, if nobody has the lock. */
  lemma SettlementCompletes(steps: seq<Step>)
    requires var s := Run(INIT, steps); s.settler.Unsettled? && s.lock.None? && s.connected
    ensures var s := Run(INIT, steps);
            var r := Do(Do(Do(Do(s, SettlerGoes), SettlerGoes), SettlerGoes), SettlerGoes);
            && r.settler.Finished? && r.channel.Full? && r.lock.None? && !r.hook
            && r.runs == s.runs + if s.hook then 1 else 0
  {
    RunKeeps(INIT, steps);
  }
}
