/**
 The threads that sleep on a session's condition variable: unless a wakeup is still
 on its way, the deadline worker does not sleep past a pending deadline, the writer
 not while a message is queued, and the receiver not while a request is.
 */
module Timers {
  import opened Prelude
  import opened Wire
  import opened Session
  import Promises

  datatype Worker = Running | Parked(wake: Option<int>) | Exited

  /**
   A session, its deadline worker, whether its writer and its receiver sleep, the
   wakeups callers still owe, and the clock.
   */
  datatype Timed = Timed(session: State, worker: Worker, writerAsleep: bool, receiverAsleep: bool, owed: nat, now: int)

  datatype Sleeper = OnDeadline | OnQueue | OnInbox

  datatype TimedStep =
    | Tick(elapsed: nat)
    | Act(step: Step)                             // a critical section, at the current time
    | Notify                                      // an owed `notify_all` happens
    | Spurious(who: Sleeper)                      // the condition variable wakes for nothing
    | Due                                         // the wait reaches its deadline
    | Pass(callbacks: bool, wake: Option<int>)    // one turn of the worker's loop
    | WriterIdles(callbacks: bool)                // the writer expires and finds nothing to send
    | ReceiverIdles                               // the receiver finds no request

  function Start(side: Side, now: int): Timed {
    Timed(Init(side), Running, false, false, 0, now)
  }

  /** The step as it happens now: every deadline check reads the clock. */
  function At(step: Step, now: int): Step {
    match step
    case Request(body, deadline, _) => Request(body, deadline, now)
    case Reply(id, body, deadline, _) => Reply(id, body, deadline, now)
    case FinishAuto(id, _) => FinishAuto(id, now)
    case Deliver(e, _) => Deliver(e, now)
    case Take(_) => Take(now)
    case RecordWrite(_) => RecordWrite(now)
    case WriteFailed(_) => WriteFailed(now)
    case Expire(_) => Expire(now)
    case Close(reason, _) => Close(reason, now)
    case SetLimits(requests, bytes, _) => SetLimits(requests, bytes, now)
    case _ => step
  }

  function Operations(s: State): map<nat, Operation> {
    if s.core.Open? then s.core.operations else map[]
  }

  function Queue(s: State): seq<Outgoing> {
    if s.core.Open? then s.core.outgoing else []
  }

  function Inbox(s: State): seq<Envelope> {
    if s.core.Open? then s.core.incoming else []
  }

  /** The earliest pending deadline, if there is one. */
  ghost predicate Earliest(operations: map<nat, Operation>, wake: Option<int>) {
    && (wake.None? <==> operations == map[])
    && (wake.Some? ==> exists k :: k in operations && operations[k].deadline == wake.value)
    && (forall k :: k in operations ==> wake.Some? && wake.value <= operations[k].deadline)
  }

  ghost function Next(t: Timed, x: TimedStep): Timed {
    match x
    case Tick(elapsed) => t.(now := t.now + elapsed)
    case Act(step) =>
      if (step.Take? && t.writerAsleep) || (step.Recv? && t.receiverAsleep) then t
      else
        t.(session := Do(t.session, At(step, t.now)),
           owed := if Wakes(t.session, At(step, t.now)) then t.owed + 1 else t.owed)
    case Notify =>
      if t.owed == 0 then t
      else Woken(t).(owed := t.owed - 1)
    case Spurious(who) =>
      (match who
       case OnDeadline => t.(worker := Woken(t).worker)
       case OnQueue => t.(writerAsleep := false)
       case OnInbox => t.(receiverAsleep := false))
    case Due =>
      if t.worker.Parked? && t.worker.wake.Some? && t.now >= t.worker.wake.value
      then t.(worker := Running) else t
    case Pass(callbacks, wake) =>
      if t.worker != Running then t
      else
        var s := ExpireState(t.session, t.now);
        if s.core.Shut? then t.(session := s, worker := Exited)
        else if callbacks && s != t.session then t.(session := s)
        else if Earliest(s.core.operations, wake) then t.(session := s, worker := Parked(wake))
        else t
    case WriterIdles(callbacks) =>
      var s := ExpireState(t.session, t.now);
      if t.writerAsleep then t
      else if s.core.Shut? || (callbacks && s != t.session) || Queue(s) != [] then t.(session := s)
      else t.(session := s, writerAsleep := true)
    case ReceiverIdles => if t.session.core.Open? && Inbox(t.session) == [] then t.(receiverAsleep := true) else t
  }

  /** Everyone asleep looks again. */
  function Woken(t: Timed): Timed {
    t.(worker := if t.worker.Parked? then Running else t.worker, writerAsleep := false, receiverAsleep := false)
  }

  ghost function Exec(t: Timed, steps: seq<TimedStep>): Timed
    decreases |steps|
  {
    if steps == [] then t else Next(Exec(t, steps[..|steps| - 1]), steps[|steps| - 1])
  }

  /** A worker asleep with no wakeup owed watches every pending deadline. */
  ghost predicate Watched(t: Timed) {
    && (t.worker.Parked? && t.owed == 0 ==>
          forall k :: k in Operations(t.session) ==>
            t.worker.wake.Some? && t.worker.wake.value <= Operations(t.session)[k].deadline)
    && (t.worker == Exited ==> t.session.core.Shut?)
  }

  /** Whoever else sleeps with no wakeup owed has nothing to do in an open session. */
  ghost predicate NothingMissed(t: Timed) {
    && (t.writerAsleep && t.owed == 0 ==> t.session.core.Open? && Queue(t.session) == [])
    && (t.receiverAsleep && t.owed == 0 ==> t.session.core.Open? && Inbox(t.session) == [])
  }

  /** Every operation of `t` was already one of `s`, and no empty queue was filled. */
  ghost predicate NoneAdded(s: State, t: State) {
    && (Queue(s) == [] ==> Queue(t) == []) && (Inbox(s) == [] ==> Inbox(t) == [])
    && (s.core.Open? ==> t.core.Open?)
    && forall k :: k in Operations(t) ==> k in Operations(s) && Operations(t)[k] == Operations(s)[k]
  }

  /** Every section that adds work or closes the session is one that wakes the sleepers. */
  lemma OnlyQueuingAdds(s: State, step: Step)
    ensures Wakes(s, step) || NoneAdded(s, Do(s, step))
  {
    match step
    case Request(body, deadline, now) => if s.core.Open? { EnqueueAdds(s, Ask(body), deadline, now); }
    case Reply(id, body, deadline, now) =>
      if s.core.Open? {
        EnqueueAdds(s.(threads := s.threads.(responders := s.threads.responders - {id})),
                    Answer(id, body), deadline, now);
      }
    case FinishAuto(id, now) =>
      if s.core.Open? && id in s.threads.auto {
        var a, t := s.threads.auto[id], s.threads.(auto := s.threads.auto - {id});
        EnqueueAdds(s.(threads := t.(gone := t.gone + {s.hist.issued})), Answer(id, a.body), a.deadline, now);
      }
    case Deliver(e, now) => DeliverAdds(s, e, now);
    case Take(now) => TakeAdds(s, now);
    case Expire(now) => ExpireAdds(s, now);
    case _ => OthersAdd(s, step);
  }

  lemma EnqueueAdds(s: State, content: Content, deadline: int, now: int)
    requires s.core.Open?
    ensures now < deadline || NoneAdded(s, Enqueue(s, content, deadline, now))
  {
  }

  lemma DeliverAdds(s: State, e: Envelope, now: int)
    ensures Verdict(s, e, now).None? || NoneAdded(s, DeliverState(s, e, now))
  {
  }

  lemma ExpireAdds(s: State, now: int)
    ensures NoneAdded(s, ExpireState(s, now))
  {
  }

  lemma TakeAdds(s: State, now: int)
    ensures NoneAdded(s, TakeState(s, now))
  {
    ExpireAdds(s, now);
  }

  lemma OthersAdd(s: State, step: Step)
    requires !step.Request? && !step.Reply? && !step.FinishAuto? && !step.Deliver? && !step.Take? && !step.Expire?
    ensures Wakes(s, step) || NoneAdded(s, Do(s, step))
  {
  }

  ghost predicate Inv(t: Timed) {
    Watched(t) && NothingMissed(t) && Promises.Inv(t.session)
  }

  /** A section that adds nothing keeps everyone's sleep justified, and so does an owed wakeup. */
  lemma SectionKeeps(t: Timed, s: State, wakes: bool)
    requires Watched(t) && NothingMissed(t) && (wakes || NoneAdded(t.session, s))
    requires t.session.core.Shut? ==> s.core.Shut?
    ensures var u := t.(session := s, owed := if wakes then t.owed + 1 else t.owed);
            Watched(u) && NothingMissed(u)
  {
  }

  lemma ActKeeps(t: Timed, step: Step)
    requires Inv(t)
    ensures Inv(Next(t, Act(step)))
  {
    OnlyQueuingAdds(t.session, At(step, t.now));
    Promises.StepKeeps(t.session, At(step, t.now));
    ShutStays(t.session, At(step, t.now));
    SectionKeeps(t, Do(t.session, At(step, t.now)), Wakes(t.session, At(step, t.now)));
  }

  /** Expiry by a thread about to sleep. */
  lemma ExpiryKeeps(t: Timed)
    requires Inv(t)
    ensures Inv(t.(session := ExpireState(t.session, t.now)))
  {
    Promises.ExpireKeeps(t.session, t.now);
    ExpireAdds(t.session, t.now);
  }

  lemma NextKeeps(t: Timed, x: TimedStep)
    requires Inv(t)
    ensures Inv(Next(t, x))
  {
    match x
    case Act(step) => ActKeeps(t, step);
    case Pass(_, _) => ExpiryKeeps(t);
    case WriterIdles(_) => ExpiryKeeps(t);
    case _ =>
  }

  lemma ShutStays(s: State, step: Step)
    ensures s.core.Shut? ==> Do(s, step).core.Shut?
  {
  }

  lemma {:induction false} EveryRun(side: Side, now: int, steps: seq<TimedStep>)
    ensures Inv(Exec(Start(side, now), steps))
    decreases |steps|
  {
    if steps == [] {
      Promises.EveryRun(side, []);
    } else {
      EveryRun(side, now, steps[..|steps| - 1]);
      NextKeeps(Exec(Start(side, now), steps[..|steps| - 1]), steps[|steps| - 1]);
    }
  }

  /**
   No lost timer: in every run, while the worker sleeps before its wake time and
   nobody owes it a wakeup, no pending operation has reached its deadline.
   */
  lemma NoLostTimer(side: Side, now: int, steps: seq<TimedStep>)
    ensures var t := Exec(Start(side, now), steps);
            t.worker.Parked? && t.owed == 0 && (t.worker.wake.Some? ==> t.now < t.worker.wake.value) ==>
              forall k :: k in Operations(t.session) ==> t.now < Operations(t.session)[k].deadline
  {
    EveryRun(side, now, steps);
  }

  /**
   No lost message: in every run, while the writer or the receiver sleeps and nobody
   owes a wakeup, the session is open and there is nothing to send or to receive.
   */
  lemma NoLostMessage(side: Side, now: int, steps: seq<TimedStep>)
    ensures var t := Exec(Start(side, now), steps);
            && (t.writerAsleep && t.owed == 0 ==> t.session.core.Open? && Queue(t.session) == [])
            && (t.receiverAsleep && t.owed == 0 ==> t.session.core.Open? && Inbox(t.session) == [])
  {
    EveryRun(side, now, steps);
  }

  function Notifies(n: nat): seq<TimedStep> {
    if n == 0 then [] else Notifies(n - 1) + [Notify]
  }

  /** Delivering the owed wakeups changes nothing but the worker's readiness. */
  lemma {:induction false} DeliverOwed(t: Timed, n: nat)
    requires n <= t.owed
    ensures var u := Exec(t, Notifies(n));
            && u.session == t.session && u.now == t.now && u.owed == t.owed - n
            && u.worker == (if n > 0 && t.worker.Parked? then Running else t.worker)
            && (n > 0 ==> !u.writerAsleep && !u.receiverAsleep)
  {
    if n > 0 {
      DeliverOwed(t, n - 1);
      ExecMore(t, Notifies(n - 1), Notify);
      OneWakeup(Exec(t, Notifies(n - 1)));
    }
  }

  lemma ExecMore(t: Timed, steps: seq<TimedStep>, x: TimedStep)
    ensures Exec(t, steps + [x]) == Next(Exec(t, steps), x)
  {
    assert (steps + [x])[..|steps|] == steps;
  }

  lemma OneWakeup(t: Timed)
    requires t.owed > 0
    ensures var u := Next(t, Notify);
            && u.session == t.session && u.now == t.now && u.owed == t.owed - 1
            && u.worker == (if t.worker.Parked? then Running else t.worker)
            && !u.writerAsleep && !u.receiverAsleep
  {
  }

  /** An awake worker settles everything due in one turn. */
  lemma PassSettles(t: Timed, wake: Option<int>)
    requires t.worker == Running && t.session.core.Open? && Promises.Inv(t.session)
    requires Earliest(Kept(t.session.core.operations, t.now), wake)
    ensures var u := Next(t, Pass(false, wake));
            forall k :: k in t.session.core.operations && t.now >= t.session.core.operations[k].deadline ==>
              k in u.session.hist.results && u.session.hist.results[k].result == Failed(Timeout)
  {
  }

  /** A set of deadlines has an earliest one. */
  lemma {:induction false} EarliestExists(operations: map<nat, Operation>) returns (wake: Option<int>)
    ensures Earliest(operations, wake)
    decreases |operations|
  {
    if operations == map[] {
      return None;
    }
    var k :| k in operations;
    var rest := operations - {k};
    assert rest.Keys == operations.Keys - {k};
    assert |rest| < |operations| by {
      assert |rest| == |rest.Keys| && |operations| == |operations.Keys|;
    }
    var later := EarliestExists(rest);
    var mine := operations[k].deadline;
    wake := if later.Some? && later.value < mine then later else Some(mine);
    assert forall j :: j in operations ==> j == k || j in rest;
    assert forall j :: j in rest ==> rest[j] == operations[j];
  }

  /**
   Every deadline is met: from every reachable state, delivering the wakeups still
   owed and letting the worker take its turn settles, as timeouts, all operations
   whose deadline has come.
   */
  lemma DeadlinesAreMet(side: Side, now: int, steps: seq<TimedStep>) returns (wake: Option<int>)
    requires Exec(Start(side, now), steps).session.core.Open?
    ensures var t := Exec(Start(side, now), steps);
            && Earliest(Kept(t.session.core.operations, t.now), wake)
            && var u := Next(Next(Exec(t, Notifies(t.owed)), Due), Pass(false, wake));
               forall k :: k in t.session.core.operations && t.now >= t.session.core.operations[k].deadline ==>
                 k in u.session.hist.results && u.session.hist.results[k].result == Failed(Timeout)
  {
    EveryRun(side, now, steps);
    var t := Exec(Start(side, now), steps);
    wake := EarliestExists(Kept(t.session.core.operations, t.now));
    DeliverOwed(t, t.owed);
    WakeAndPass(t, Exec(t, Notifies(t.owed)), wake);
  }

  lemma WakeAndPass(t: Timed, u: Timed, wake: Option<int>)
    requires Watched(t) && Promises.Inv(t.session) && t.session.core.Open?
    requires Earliest(Kept(t.session.core.operations, t.now), wake)
    requires u.session == t.session && u.now == t.now && u.owed == 0
    requires u.worker == if t.owed > 0 && t.worker.Parked? then Running else t.worker
    ensures var v := Next(Next(u, Due), Pass(false, wake));
            forall k :: k in t.session.core.operations && t.now >= t.session.core.operations[k].deadline ==>
              k in v.session.hist.results && v.session.hist.results[k].result == Failed(Timeout)
  {
    var w := Next(u, Due);
    assert w.session == t.session && w.now == t.now;
    if w.worker == Running {
      PassSettles(w, wake);
    } else {
      forall k | k in t.session.core.operations
        ensures t.now < t.session.core.operations[k].deadline
      {
        assert k in Operations(t.session);
      }
    }
  }
}
