/**
 Promise conservation and timeout precedence, over every run of a session.
 */
module Promises {
  import opened Prelude
  import opened Wire
  import opened Session

  /** The first `n` promise numbers. */
  function Below(n: nat): (r: set<nat>)
    ensures forall k: nat :: k in r <==> k < n
  {
    if n == 0 then {} else Below(n - 1) + {n - 1}
  }

  function Pending(s: State): set<nat> {
    if s.core.Open? then s.core.operations.Keys else {}
  }

  /** Issued promises are either settled or pending, and never both. */
  ghost predicate Conserved(s: State) {
    && s.hist.results.Keys !! Pending(s)
    && s.hist.results.Keys + Pending(s) == Below(s.hist.issued)
  }

  /** A result is a timeout exactly when it was settled at or after its deadline. */
  ghost predicate Timely(s: State) {
    forall k :: k in s.hist.results ==>
      var r := s.hist.results[k];
      r.result == Failed(Timeout) <==> r.at >= r.deadline
  }

  ghost predicate DistinctKeys(q: seq<Outgoing>) {
    forall i, j :: 0 <= i < j < |q| ==> q[i].key != q[j].key
  }

  ghost predicate Absent(q: seq<Outgoing>, key: nat) {
    forall i :: 0 <= i < |q| ==> q[i].key != key
  }

  /** The operation under `key`, if still pending, waits for the right kind of result. */
  ghost predicate Suits(operations: map<nat, Operation>, key: nat, ask: bool) {
    key in operations ==> operations[key].response == ask
  }

  /** Every queued message has its operation; taken messages are queued no more. */
  ghost predicate Queued(s: State) {
    var hand := s.threads.hand;
    && (!hand.Empty? ==> hand.message.key < s.hist.issued)
    && (s.core.Open? ==>
          && DistinctKeys(s.core.outgoing)
          && (forall i :: 0 <= i < |s.core.outgoing| ==>
                && s.core.outgoing[i].key in s.core.operations
                && Suits(s.core.operations, s.core.outgoing[i].key, s.core.outgoing[i].content.Ask?))
          && (!hand.Empty? ==>
                && Absent(s.core.outgoing, hand.message.key)
                && Suits(s.core.operations, hand.message.key, hand.message.content.Ask?))
          && (forall id :: id in s.core.outstanding ==>
                && s.core.outstanding[id] < s.hist.issued
                && Absent(s.core.outgoing, s.core.outstanding[id])
                && Suits(s.core.operations, s.core.outstanding[id], true)))
  }

  ghost predicate Inv(s: State) {
    Conserved(s) && Timely(s) && Queued(s)
  }

  /** What filtering the queue keeps. */
  lemma {:induction false} RetainedKeeps(q: seq<Outgoing>, pending: set<nat>)
    ensures forall m :: m in Retained(q, pending) ==> m in q && m.key in pending
    ensures forall m :: m in q && m.key in pending ==> m in Retained(q, pending)
    ensures DistinctKeys(q) ==> DistinctKeys(Retained(q, pending))
    ensures forall key :: Absent(q, key) ==> Absent(Retained(q, pending), key)
  {
    if q != [] {
      RetainedKeeps(q[1..], pending);
      assert q == [q[0]] + q[1..];
      var rest := Retained(q[1..], pending);
      if DistinctKeys(q) {
        assert forall i :: 0 <= i < |rest| ==> rest[i] in q[1..];
      }
      forall key | Absent(q, key)
        ensures Absent(Retained(q, pending), key)
      {
        assert Absent(q[1..], key);
      }
    }
  }

  lemma ExpireQueue(s: State, now: int)
    requires Queued(s) && s.core.Open?
    ensures Queued(ExpireState(s, now))
  {
    var t := ExpireState(s, now);
    var kept := Kept(s.core.operations, now);
    RetainedKeeps(s.core.outgoing, kept.Keys);
    forall i | 0 <= i < |t.core.outgoing|
      ensures t.core.outgoing[i].key in t.core.operations
      ensures Suits(t.core.operations, t.core.outgoing[i].key, t.core.outgoing[i].content.Ask?)
    {
      assert t.core.outgoing[i] in s.core.outgoing;
    }
  }

  lemma ExpireKeeps(s: State, now: int)
    requires Inv(s)
    ensures Inv(ExpireState(s, now))
  {
    if s.core.Open? {
      ExpireQueue(s, now);
      assert s.core.operations.Keys ==
             Kept(s.core.operations, now).Keys + Lapsed(s.core.operations, now).Keys;
    }
  }

  lemma CloseKeeps(s: State, reason: Error, now: int)
    requires Inv(s) && reason != Timeout
    ensures Inv(CloseState(s, reason, now))
  {
    if s.core.Open? {
      assert Failures(s.core.operations, reason, now).Keys == s.core.operations.Keys;
    }
  }

  /** One more promise, settled at once or pending. */
  lemma OneMorePromise(settled: set<nat>, pending: set<nat>, n: nat)
    requires settled !! pending && settled + pending == Below(n)
    ensures n !in settled && n !in pending
    ensures (settled + {n}) !! pending && settled + {n} + pending == Below(n + 1)
    ensures settled !! (pending + {n}) && settled + (pending + {n}) == Below(n + 1)
  {
    assert n !in Below(n) && Below(n + 1) == Below(n) + {n};
  }

  lemma EnqueueConserves(s: State, content: Content, deadline: int, now: int)
    requires Conserved(s) && Timely(s) && s.core.Open?
    ensures var t := Enqueue(s, content, deadline, now); Conserved(t) && Timely(t)
  {
    var t := Enqueue(s, content, deadline, now);
    OneMorePromise(s.hist.results.Keys, s.core.operations.Keys, s.hist.issued);
    if now >= deadline {
      assert t.hist.results.Keys == s.hist.results.Keys + {s.hist.issued};
    } else {
      assert t.core.operations.Keys == s.core.operations.Keys + {s.hist.issued};
    }
  }

  /** A message joins the queue together with its operation. */
  lemma QueueGrows(s: State, t: State, key: nat, content: Content, deadline: int)
    requires Queued(s) && s.core.Open? && t.core.Open? && key == s.hist.issued && t.hist.issued == key + 1
    requires t.threads == s.threads && t.core.outstanding == s.core.outstanding && key !in s.core.operations
    requires t.core.outgoing == s.core.outgoing + [Outgoing(key, content)]
    requires t.core.operations == s.core.operations[key := Operation(deadline, content.Ask?)]
    ensures Queued(t)
  {
    assert forall i :: 0 <= i < |s.core.outgoing| ==>
        s.core.outgoing[i].key in s.core.operations && s.core.outgoing[i].key != key;
  }

  lemma EnqueueQueues(s: State, content: Content, deadline: int, now: int)
    requires Conserved(s) && Queued(s) && s.core.Open?
    ensures Queued(Enqueue(s, content, deadline, now))
  {
    OneMorePromise(s.hist.results.Keys, s.core.operations.Keys, s.hist.issued);
    if now < deadline {
      QueueGrows(s, Enqueue(s, content, deadline, now), s.hist.issued, content, deadline);
    }
  }

  lemma EnqueueKeeps(s: State, content: Content, deadline: int, now: int)
    requires Inv(s) && s.core.Open?
    ensures Inv(Enqueue(s, content, deadline, now))
  {
    EnqueueConserves(s, content, deadline, now);
    EnqueueQueues(s, content, deadline, now);
  }

  lemma SettleKeeps(s: State, key: nat, r: Settlement)
    requires Inv(s) && s.core.Open? && key in s.core.operations
    requires Absent(s.core.outgoing, key)
    requires r.result == Failed(Timeout) <==> r.at >= r.deadline
    ensures Inv(Settle(s, key, r))
  {
    var t := Settle(s, key, r);
    assert t.core.operations.Keys == s.core.operations.Keys - {key};
    assert t.hist.results.Keys == s.hist.results.Keys + {key};
  }

  /** Taking the head of the queue, for any change of the other fields. */
  lemma TakeHead(e: State, t: State)
    requires Inv(e) && e.core.Open? && e.core.outgoing != [] && e.threads.hand == Empty
    requires t.core.Open? && t.core.outgoing == e.core.outgoing[1..]
    requires t.core.operations == e.core.operations
    requires t.hist.issued == e.hist.issued && t.hist.results == e.hist.results
    requires !t.threads.hand.Empty? && t.threads.hand.message == e.core.outgoing[0]
    requires forall id :: id in t.core.outstanding ==>
               (id in e.core.outstanding && t.core.outstanding[id] == e.core.outstanding[id])
               || (t.core.outstanding[id] == e.core.outgoing[0].key && e.core.outgoing[0].content.Ask?)
    ensures Inv(t)
  {
    var m := e.core.outgoing[0];
    assert m.key in e.core.operations;
    assert m.key in Below(e.hist.issued);
    assert forall i :: 0 <= i < |t.core.outgoing| ==> t.core.outgoing[i] == e.core.outgoing[i + 1];
    assert Absent(t.core.outgoing, m.key);
  }

  lemma TakeKeeps(s: State, now: int)
    requires Inv(s)
    ensures Inv(TakeState(s, now))
  {
    ExpireKeeps(s, now);
    var e := ExpireState(s, now);
    if e.core.Open? && e.core.outgoing != [] && e.threads.hand == Empty
       && !(e.core.outgoing[0].content.Ask? && e.core.nextId.None?) {
      TakeHead(e, TakeState(s, now));
    }
  }

  lemma CompleteKeeps(s: State, key: nat, e: Envelope, now: int)
    requires Inv(s) && s.core.Open? && key in s.core.operations && Absent(s.core.outgoing, key)
    ensures Inv(CompleteResponse(s, key, e, now))
  {
    var deadline := s.core.operations[key].deadline;
    if now >= deadline {
      SettleKeeps(s, key, Failure(Timeout, now, deadline));
    } else if !Fits(s, e.length) {
      SettleKeeps(s, key, Settlement(Failed(ByteLimit(s.core.maxBytes)), now, deadline));
    } else {
      SettleKeeps(s, key, Settlement(Answered(e), now, deadline));
    }
  }

  lemma DeliverKeeps(s: State, e: Envelope, now: int)
    requires Inv(s)
    ensures Inv(DeliverState(s, e, now))
  {
    if s.core.Open? && KindOf(e.id, Own(s.side)) == IncomingResponse && e.id in s.core.outstanding {
      var key := s.core.outstanding[e.id];
      var h := s.(hist := s.hist.(heard := s.hist.heard + {e.id}));
      var t := h.(core := s.core.(outstanding := s.core.outstanding - {e.id}));
      assert Inv(t);
      if key in s.core.operations {
        CompleteKeeps(t, key, e, now);
      }
    }
  }

  lemma RecordKeeps(s: State, now: int)
    requires Inv(s)
    ensures Inv(RecordWriteState(s, now))
  {
    var h := s.threads.hand;
    if (h.Sent? || h.Unsent?) && s.core.Open? && h.message.key in s.core.operations {
      var t := s.(threads := s.threads.(hand := Empty));
      assert Inv(t);
      var op := s.core.operations[h.message.key];
      if now >= op.deadline || h.Unsent? {
        SettleKeeps(t, h.message.key, Failure(if h.Unsent? then Refused else Timeout, now, op.deadline));
      } else if !op.response {
        SettleKeeps(t, h.message.key, Settlement(Written, now, op.deadline));
      }
    }
  }

  lemma QuietKeeps(s: State, t: State)
    requires Inv(s) && Calm(s, t)
    ensures Inv(t)
  {
  }

  lemma SetLimitsKeeps(s: State, requests: nat, bytes: nat, now: int)
    requires Inv(s)
    ensures Inv(SetLimitsState(s, requests, bytes, now))
  {
    if s.core.Open? {
      var t := s.(core := s.core.(maxRequests := requests, maxBytes := bytes));
      QuietKeeps(s, t);
      if |s.core.reserved| > requests {
        CloseKeeps(t, RequestLimit(requests), now);
      } else if s.retained > bytes {
        CloseKeeps(t, ByteLimit(bytes), now);
      }
    }
  }

  lemma WriteFailedKeeps(s: State, now: int)
    requires Inv(s)
    ensures Inv(WriteFailedState(s, now))
  {
    CloseKeeps(s, Transport, now);
    QuietKeeps(CloseState(s, Transport, now),
               CloseState(s, Transport, now).(threads := CloseState(s, Transport, now).threads.(hand := Empty)));
  }

  /** Queuing an answer, whoever held the obligation. */
  lemma AnswerKeeps(s: State, threads: Threads, id: nat, body: Body, deadline: int, now: int)
    requires Inv(s) && s.core.Open? && threads.hand == s.threads.hand
    ensures Inv(Enqueue(s.(threads := threads), Answer(id, body), deadline, now))
  {
    QuietKeeps(s, s.(threads := threads));
    EnqueueKeeps(s.(threads := threads), Answer(id, body), deadline, now);
  }

  predicate Quiet(step: Step) {
    step.BeginAuto? || step.Transmit? || step.Unroute? || step.SetAutoreply? || step.Recv?
    || step.Decode? || step.ReadResult? || step.DropPromise? || step.DropGarbage?
  }

  /** Nothing about operations, results and the queue has changed. */
  ghost predicate Calm(s: State, t: State) {
    && t.hist.issued == s.hist.issued && t.hist.results == s.hist.results
    && t.core.Open? == s.core.Open?
    && (!t.threads.hand.Empty? ==>
          !s.threads.hand.Empty? && t.threads.hand.message == s.threads.hand.message)
    && (s.core.Open? ==>
          && t.core.operations == s.core.operations && t.core.outgoing == s.core.outgoing
          && (forall id :: id in t.core.outstanding ==>
                id in s.core.outstanding && t.core.outstanding[id] == s.core.outstanding[id]))
  }

  lemma HandCalm(s: State, step: Step)
    requires step.BeginAuto? || step.Transmit? || step.Unroute? || step.Recv?
    ensures Calm(s, Do(s, step))
  {
  }

  lemma QuietCalm(s: State, step: Step)
    requires Quiet(step)
    ensures Calm(s, Do(s, step))
  {
    if step.BeginAuto? || step.Transmit? || step.Unroute? || step.Recv? {
      HandCalm(s, step);
    }
  }

  lemma FinishAutoKeeps(s: State, id: nat, now: int)
    requires Inv(s)
    ensures Inv(FinishAutoState(s, id, now))
  {
    if id in s.threads.auto {
      var a, t := s.threads.auto[id], s.threads.(auto := s.threads.auto - {id});
      if s.core.Open? {
        AnswerKeeps(s, t.(gone := t.gone + {s.hist.issued}), id, a.body, a.deadline, now);
      } else {
        QuietKeeps(s, s.(threads := t));
      }
    }
  }

  lemma CallerKeeps(s: State, step: Step)
    requires Inv(s) && (step.Request? || step.Reply? || step.FinishAuto? || step.SetLimits?)
    ensures Inv(Do(s, step))
  {
    match step
    case Request(body, deadline, now) =>
      if s.core.Open? { EnqueueKeeps(s, Ask(body), deadline, now); }
    case Reply(id, body, deadline, now) =>
      if s.core.Open? {
        AnswerKeeps(s, s.threads.(responders := s.threads.responders - {id}), id, body, deadline, now);
      }
    case FinishAuto(id, now) => FinishAutoKeeps(s, id, now);
    case SetLimits(requests, bytes, now) => SetLimitsKeeps(s, requests, bytes, now);
  }

  lemma WorkerKeeps(s: State, step: Step)
    requires Inv(s) && (step.Deliver? || step.Take? || step.RecordWrite? || step.WriteFailed?
                        || step.Expire? || step.Close?)
    ensures Inv(Do(s, step))
  {
    match step
    case Deliver(e, now) => DeliverKeeps(s, e, now);
    case Take(now) => TakeKeeps(s, now);
    case RecordWrite(now) => RecordKeeps(s, now);
    case WriteFailed(now) => WriteFailedKeeps(s, now);
    case Expire(now) => ExpireKeeps(s, now);
    case Close(reason, now) => if reason != Timeout { CloseKeeps(s, reason, now); }
  }

  /** Every step keeps the promises conserved, timely and queued. */
  lemma StepKeeps(s: State, step: Step)
    requires Inv(s)
    ensures Inv(Do(s, step))
  {
    if Quiet(step) {
      QuietCalm(s, step);
      QuietKeeps(s, Do(s, step));
    } else if step.Request? || step.Reply? || step.FinishAuto? || step.SetLimits? {
      CallerKeeps(s, step);
    } else {
      WorkerKeeps(s, step);
    }
  }

  /**
   Promise conservation and timeout precedence: in every run, each issued promise
   is pending or settled and not both, a closed session has settled all of them,
   and a promise fails with a timeout if and only if its deadline had come.
   */
  lemma {:induction false} EveryRun(side: Side, steps: seq<Step>)
    ensures Inv(Run(Init(side), steps))
    decreases |steps|
  {
    if steps == [] {
      assert Below(0) == {};
    } else {
      EveryRun(side, steps[..|steps| - 1]);
      StepKeeps(Run(Init(side), steps[..|steps| - 1]), steps[|steps| - 1]);
    }
  }

  ghost predicate Extends(a: map<nat, Settlement>, b: map<nat, Settlement>) {
    forall k :: k in a ==> k in b && b[k] == a[k]
  }

  lemma ExpireExtends(s: State, now: int)
    requires Conserved(s)
    ensures Extends(s.hist.results, ExpireState(s, now).hist.results)
  {
    assert s.core.Open? ==> Lapsed(s.core.operations, now).Keys <= Pending(s);
  }

  lemma CloseExtends(s: State, reason: Error, now: int)
    requires Conserved(s)
    ensures Extends(s.hist.results, CloseState(s, reason, now).hist.results)
  {
  }

  lemma EnqueueExtends(s: State, content: Content, deadline: int, now: int)
    requires Conserved(s) && s.core.Open?
    ensures Extends(s.hist.results, Enqueue(s, content, deadline, now).hist.results)
  {
    assert s.hist.issued !in Below(s.hist.issued);
  }

  lemma CompleteExtends(s: State, key: nat, e: Envelope, now: int)
    requires s.core.Open? && key in s.core.operations && key !in s.hist.results
    ensures Extends(s.hist.results, CompleteResponse(s, key, e, now).hist.results)
  {
  }

  lemma DeliverExtends(s: State, e: Envelope, now: int)
    requires Conserved(s)
    ensures Extends(s.hist.results, DeliverState(s, e, now).hist.results)
  {
    if s.core.Open? && e.id in s.core.outstanding && s.core.outstanding[e.id] in s.core.operations {
      var h := s.(hist := s.hist.(heard := s.hist.heard + {e.id}));
      CompleteExtends(h.(core := s.core.(outstanding := s.core.outstanding - {e.id})),
                      s.core.outstanding[e.id], e, now);
    }
  }

  lemma CallerFinal(s: State, step: Step)
    requires Conserved(s) && (step.Request? || step.Reply? || step.FinishAuto?)
    ensures Extends(s.hist.results, Do(s, step).hist.results)
  {
    match step
    case Request(body, deadline, now) =>
      if s.core.Open? { EnqueueExtends(s, Ask(body), deadline, now); }
    case Reply(id, body, deadline, now) =>
      if s.core.Open? {
        EnqueueExtends(s.(threads := s.threads.(responders := s.threads.responders - {id})),
                       Answer(id, body), deadline, now);
      }
    case FinishAuto(id, now) =>
      if s.core.Open? && id in s.threads.auto {
        var a := s.threads.auto[id];
        var t := s.threads.(auto := s.threads.auto - {id});
        EnqueueExtends(s.(threads := t.(gone := t.gone + {s.hist.issued})), Answer(id, a.body), a.deadline, now);
      }
  }

  lemma EndingFinal(s: State, step: Step)
    requires Conserved(s) && (step.Close? || step.WriteFailed? || step.SetLimits?)
    ensures Extends(s.hist.results, Do(s, step).hist.results)
  {
    match step
    case Close(reason, now) => CloseExtends(s, reason, now);
    case WriteFailed(now) => CloseExtends(s, Transport, now);
    case SetLimits(requests, bytes, now) =>
      if s.core.Open? {
        var t := s.(core := s.core.(maxRequests := requests, maxBytes := bytes));
        CloseExtends(t, RequestLimit(requests), now);
        CloseExtends(t, ByteLimit(bytes), now);
      }
  }

  /** A published result is never replaced or withdrawn. */
  lemma StepFinal(s: State, step: Step)
    requires Conserved(s)
    ensures Extends(s.hist.results, Do(s, step).hist.results)
  {
    if step.Request? || step.Reply? || step.FinishAuto? {
      CallerFinal(s, step);
    } else if step.Close? || step.WriteFailed? || step.SetLimits? {
      EndingFinal(s, step);
    } else if step.Deliver? {
      DeliverExtends(s, step.envelope, step.now);
    } else if step.Take? || step.Expire? {
      ExpireExtends(s, step.now);
    } else {
      OtherFinal(s, step);
    }
  }

  lemma OtherFinal(s: State, step: Step)
    requires Conserved(s) && !step.Request? && !step.Reply? && !step.FinishAuto? && !step.Close?
    requires !step.WriteFailed? && !step.SetLimits? && !step.Deliver? && !step.Take? && !step.Expire?
    ensures Extends(s.hist.results, Do(s, step).hist.results)
  {
    if !step.RecordWrite? {
      SameResults(s, step);
    }
  }

  lemma SameResults(s: State, step: Step)
    requires step.BeginAuto? || step.Transmit? || step.Unroute? || step.SetAutoreply? || step.Recv? || step.Decode?
             || step.ReadResult? || step.DropPromise? || step.DropGarbage?
    ensures Do(s, step).hist.results == s.hist.results
  {
  }

  /** One more step of a run never takes a result back. */
  lemma RunStepFinal(side: Side, steps: seq<Step>, x: Step)
    ensures Extends(Run(Init(side), steps).hist.results, Run(Init(side), steps + [x]).hist.results)
  {
    EveryRun(side, steps);
    assert (steps + [x])[..|steps|] == steps;
    StepFinal(Run(Init(side), steps), x);
  }

  /** Whatever happens later, the first settlement of a promise stands. */
  lemma {:induction false} FirstSettlementStands(side: Side, steps: seq<Step>, more: seq<Step>)
    ensures Extends(Run(Init(side), steps).hist.results, Run(Init(side), steps + more).hist.results)
    decreases |more|
  {
    if more == [] {
      assert steps + more == steps;
    } else {
      var next := steps + [more[0]];
      RunStepFinal(side, steps, more[0]);
      FirstSettlementStands(side, next, more[1..]);
      HeadMoves(steps, more);
      ExtendsTwice(Run(Init(side), steps).hist.results, Run(Init(side), next).hist.results,
                   Run(Init(side), next + more[1..]).hist.results);
    }
  }

  lemma HeadMoves(steps: seq<Step>, more: seq<Step>)
    requires more != []
    ensures steps + more == steps + [more[0]] + more[1..]
  {
  }

  lemma ExtendsTwice(a: map<nat, Settlement>, b: map<nat, Settlement>, c: map<nat, Settlement>)
    requires Extends(a, b) && Extends(b, c)
    ensures Extends(a, c)
  {
  }

  /**
   Closing settles every pending promise at once: with a timeout where its
   deadline has come, and otherwise with the closing reason.
   */
  lemma CloseSettlesAll(s: State, reason: Error, now: int)
    requires Inv(s) && s.core.Open? && reason != Timeout
    ensures var t := Do(s, Close(reason, now));
            && t.core == Shut(reason)
            && t.hist.results.Keys == Below(s.hist.issued)
            && (forall k :: k in s.core.operations ==>
                  t.hist.results[k].result ==
                    Failed(if now >= s.core.operations[k].deadline then Timeout else reason))
  {
    CloseKeeps(s, reason, now);
    assert Failures(s.core.operations, reason, now).Keys == s.core.operations.Keys;
  }

  /** The first closing reason is permanent, and so is every result it left. */
  lemma ClosedForGood(s: State, step: Step)
    requires s.core.Shut?
    ensures Do(s, step).core == s.core
    ensures Do(s, step).hist.results == s.hist.results
    ensures Do(s, step).hist.issued == s.hist.issued
  {
  }
}
