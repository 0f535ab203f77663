/**
 What becomes of the messages of a session: a request ends with an answer and a reply
 with its write, never the other way round, and the writer takes them in the order in
 which their promises were issued.
 */
module Outcomes {
  import opened Prelude
  import opened Wire
  import opened Session
  import Promises

  /** A promise waits for, and gets, the kind of result that its message calls for. */
  ghost predicate Kinds(s: State) {
    && (forall k :: k in s.hist.asked ==> k < s.hist.issued)
    && (forall k :: k in s.hist.results && s.hist.results[k].result.Answered? ==> k in s.hist.asked)
    && (forall k :: k in s.hist.results && s.hist.results[k].result.Written? ==> k !in s.hist.asked)
    && (s.core.Open? ==>
          forall k :: k in s.core.operations ==> (s.core.operations[k].response <==> k in s.hist.asked))
  }

  ghost predicate Ascending(q: seq<Outgoing>) {
    forall i, j :: 0 <= i < j < |q| ==> q[i].key < q[j].key
  }

  /** Messages were taken in order of issue, and those queued come after all of them. */
  ghost predicate InOrder(s: State) {
    && (forall i, j :: 0 <= i < j < |s.hist.order| ==> s.hist.order[i] < s.hist.order[j])
    && (s.core.Open? ==>
          && Ascending(s.core.outgoing)
          && (forall i :: 0 <= i < |s.core.outgoing| ==> s.core.outgoing[i].key < s.hist.issued)
          && (forall i, j :: 0 <= i < |s.hist.order| && 0 <= j < |s.core.outgoing| ==>
                s.hist.order[i] < s.core.outgoing[j].key))
    && (forall i :: 0 <= i < |s.hist.order| ==> s.hist.order[i] < s.hist.issued)
  }

  ghost predicate Inv(s: State) {
    Promises.Inv(s) && Kinds(s) && InOrder(s)
  }

  // ---------------------------------------------------------------------------
  // Steps

  /** Nothing was issued, settled or moved. */
  predicate SameLedger(s: State, t: State) {
    && t.hist.issued == s.hist.issued && t.hist.asked == s.hist.asked && t.hist.order == s.hist.order
    && t.hist.results == s.hist.results
    && (t.core.Open? ==> s.core.Open? && t.core.operations == s.core.operations && t.core.outgoing == s.core.outgoing)
  }

  lemma SameLedgerKeeps(s: State, t: State)
    requires Kinds(s) && InOrder(s) && SameLedger(s, t)
    ensures Kinds(t) && InOrder(t)
  {
  }

  lemma HandLedger(s: State, step: Step)
    requires step.BeginAuto? || step.Transmit? || step.Unroute? || step.Recv?
    ensures SameLedger(s, Do(s, step))
  {
  }

  lemma ReleaseLedger(s: State, step: Step)
    requires step.ReadResult? || step.DropPromise?
    ensures SameLedger(s, Do(s, step))
  {
  }

  lemma QuietLedger(s: State, step: Step)
    requires step.SetAutoreply? || step.Decode? || step.ReadResult? || step.DropPromise? || step.DropGarbage?
    ensures SameLedger(s, Do(s, step))
  {
    if step.ReadResult? || step.DropPromise? {
      ReleaseLedger(s, step);
    }
  }

  /** Some pending operations were settled with failures, and their messages dropped. */
  ghost predicate OnlyFails(s: State, t: State) {
    && t.hist.issued == s.hist.issued && t.hist.asked == s.hist.asked && t.hist.order == s.hist.order
    && (forall k :: k in t.hist.results ==>
          t.hist.results[k].result.Failed? || (k in s.hist.results && t.hist.results[k] == s.hist.results[k]))
    && (t.core.Open? ==>
          && s.core.Open?
          && (forall k :: k in t.core.operations ==>
                k in s.core.operations && t.core.operations[k] == s.core.operations[k])
          && (Ascending(s.core.outgoing) ==> Ascending(t.core.outgoing))
          && (forall m :: m in t.core.outgoing ==> m in s.core.outgoing))
  }

  lemma OnlyFailsKeeps(s: State, t: State)
    requires Kinds(s) && InOrder(s) && OnlyFails(s, t)
    ensures Kinds(t) && InOrder(t)
  {
    if t.core.Open? {
      forall i | 0 <= i < |t.core.outgoing|
        ensures exists j :: 0 <= j < |s.core.outgoing| && s.core.outgoing[j] == t.core.outgoing[i]
      {
        assert t.core.outgoing[i] in s.core.outgoing;
      }
    }
  }

  lemma {:induction false} RetainedAscends(q: seq<Outgoing>, pending: set<nat>)
    requires Ascending(q)
    ensures Ascending(Retained(q, pending)) && forall m :: m in Retained(q, pending) ==> m in q
  {
    if q != [] {
      var rest := Retained(q[1..], pending);
      RetainedAscends(q[1..], pending);
      assert forall i :: 0 <= i < |rest| ==> rest[i] in q[1..];
      assert forall m :: m in q[1..] ==> q[0].key < m.key;
    }
  }

  lemma ExpireFails(s: State, now: int)
    requires s.core.Open? ==> Ascending(s.core.outgoing)
    ensures OnlyFails(s, ExpireState(s, now))
  {
    if s.core.Open? {
      RetainedAscends(s.core.outgoing, Kept(s.core.operations, now).Keys);
    }
  }

  lemma CloseFails(s: State, reason: Error, now: int)
    ensures OnlyFails(s, CloseState(s, reason, now))
  {
  }

  lemma EndingFails(s: State, step: Step)
    requires step.Close? || step.WriteFailed? || step.SetLimits?
    ensures OnlyFails(s, Do(s, step))
  {
    match step
    case Close(reason, now) => CloseFails(s, reason, now);
    case WriteFailed(now) => CloseFails(s, Transport, now);
    case SetLimits(requests, bytes, now) =>
      if s.core.Open? {
        var t := s.(core := s.core.(maxRequests := requests, maxBytes := bytes));
        CloseFails(t, RequestLimit(requests), now);
        CloseFails(t, ByteLimit(bytes), now);
      }
  }

  lemma EnqueueKinds(s: State, content: Content, deadline: int, now: int)
    requires Kinds(s) && s.core.Open? && s.hist.issued !in s.hist.results && s.hist.issued !in s.core.operations
    ensures Kinds(Enqueue(s, content, deadline, now))
  {
  }

  lemma EnqueueOrder(s: State, content: Content, deadline: int, now: int)
    requires InOrder(s) && s.core.Open?
    ensures InOrder(Enqueue(s, content, deadline, now))
  {
    var t := Enqueue(s, content, deadline, now);
    if now < deadline {
      QueueAscends(s.core.outgoing, Outgoing(s.hist.issued, content));
      assert forall i :: 0 <= i < |s.core.outgoing| ==> t.core.outgoing[i] == s.core.outgoing[i];
    }
  }

  lemma QueueAscends(q: seq<Outgoing>, m: Outgoing)
    requires Ascending(q) && forall i :: 0 <= i < |q| ==> q[i].key < m.key
    ensures Ascending(q + [m])
  {
  }

  lemma EnqueueKeeps(s: State, content: Content, deadline: int, now: int)
    requires Inv(s) && s.core.Open?
    ensures var t := Enqueue(s, content, deadline, now); Kinds(t) && InOrder(t)
  {
    Promises.OneMorePromise(s.hist.results.Keys, s.core.operations.Keys, s.hist.issued);
    EnqueueKinds(s, content, deadline, now);
    EnqueueOrder(s, content, deadline, now);
  }

  lemma CallerKeeps(s: State, step: Step)
    requires Inv(s) && (step.Request? || step.Reply? || step.FinishAuto?)
    ensures Kinds(Do(s, step)) && InOrder(Do(s, step))
  {
    if s.core.Open? {
      match step
      case Request(body, deadline, now) => EnqueueKeeps(s, Ask(body), deadline, now);
      case Reply(id, body, deadline, now) =>
        var u := s.(threads := s.threads.(responders := s.threads.responders - {id}));
        assert Promises.Calm(s, u);
        Promises.QuietKeeps(s, u);
        EnqueueKeeps(u, Answer(id, body), deadline, now);
      case FinishAuto(id, now) =>
        if id in s.threads.auto {
          var a, t := s.threads.auto[id], s.threads.(auto := s.threads.auto - {id});
          var u := s.(threads := t.(gone := t.gone + {s.hist.issued}));
          assert Promises.Calm(s, u);
          Promises.QuietKeeps(s, u);
          EnqueueKeeps(u, Answer(id, a.body), a.deadline, now);
        }
    }
  }

  /** The writer takes the oldest message. */
  lemma TakeKeeps(s: State, now: int)
    requires Kinds(s) && InOrder(s)
    ensures Kinds(TakeState(s, now)) && InOrder(TakeState(s, now))
  {
    var e := ExpireState(s, now);
    ExpireFails(s, now);
    OnlyFailsKeeps(s, e);
    TakeShape(s, now);
    TakeHeadKeeps(e, TakeState(s, now));
  }

  /** The writer's section is expiry, and then at most the head of the queue is taken. */
  predicate HeadMoved(e: State, t: State) {
    t == e || (&& e.core.Open? && t.core.Open? && e.core.outgoing != []
               && t.core.outgoing == e.core.outgoing[1..] && t.core.operations == e.core.operations
               && t.hist.issued == e.hist.issued && t.hist.asked == e.hist.asked
               && t.hist.results == e.hist.results
               && t.hist.order == e.hist.order + [e.core.outgoing[0].key])
  }

  lemma TakeShape(s: State, now: int)
    ensures HeadMoved(ExpireState(s, now), TakeState(s, now))
  {
  }

  lemma TakeHeadKeeps(e: State, t: State)
    requires Kinds(e) && InOrder(e) && HeadMoved(e, t)
    ensures Kinds(t) && InOrder(t)
  {
    if t != e {
      assert forall i :: 0 <= i < |t.core.outgoing| ==> t.core.outgoing[i] == e.core.outgoing[i + 1];
    }
  }

  /** One operation was settled with a result of its kind. */
  lemma SettleKeeps(s: State, t: State, key: nat, r: Settlement)
    requires Kinds(s) && InOrder(s) && s.core.Open? && t.core.Open? && key in s.core.operations
    requires t.hist.issued == s.hist.issued && t.hist.asked == s.hist.asked && t.hist.order == s.hist.order
    requires t.hist.results == s.hist.results[key := r] && t.core.outgoing == s.core.outgoing
    requires t.core.operations == s.core.operations - {key}
    requires (r.result.Answered? ==> s.core.operations[key].response)
             && (r.result.Written? ==> !s.core.operations[key].response)
    ensures Kinds(t) && InOrder(t)
  {
  }

  lemma RecordKeeps(s: State, now: int)
    requires Kinds(s) && InOrder(s)
    ensures Kinds(RecordWriteState(s, now)) && InOrder(RecordWriteState(s, now))
  {
    var t, h := RecordWriteState(s, now), s.threads.hand;
    if (h.Sent? || h.Unsent?) && s.core.Open? && h.message.key in s.core.operations
       && (now >= s.core.operations[h.message.key].deadline || h.Unsent?
           || !s.core.operations[h.message.key].response) {
      SettleKeeps(s, t, h.message.key, t.hist.results[h.message.key]);
    } else {
      assert SameLedger(s, t);
      SameLedgerKeeps(s, t);
    }
  }

  lemma DeliverKeeps(s: State, e: Envelope, now: int)
    requires Inv(s)
    ensures Kinds(DeliverState(s, e, now)) && InOrder(DeliverState(s, e, now))
  {
    var t := DeliverState(s, e, now);
    if s.core.Open? && KindOf(e.id, Own(s.side)) == IncomingResponse && e.id in s.core.outstanding
       && s.core.outstanding[e.id] in s.core.operations {
      var key := s.core.outstanding[e.id];
      DeliverSettles(s, e, now);
      SettleKeeps(s, t, key, t.hist.results[key]);
    } else {
      DeliverSame(s, e, now);
      SameLedgerKeeps(s, t);
    }
  }

  lemma DeliverSame(s: State, e: Envelope, now: int)
    requires s.core.Shut? || KindOf(e.id, Own(s.side)) == IncomingRequest || e.id !in s.core.outstanding
             || s.core.outstanding[e.id] !in s.core.operations
    ensures SameLedger(s, DeliverState(s, e, now))
  {
  }

  /** An answer that meets its operation settles it. */
  lemma DeliverSettles(s: State, e: Envelope, now: int)
    requires s.core.Open? && KindOf(e.id, Own(s.side)) == IncomingResponse && e.id in s.core.outstanding
    requires s.core.outstanding[e.id] in s.core.operations
    ensures var t, key := DeliverState(s, e, now), s.core.outstanding[e.id];
            && t.core.Open? && t.hist.issued == s.hist.issued && t.hist.asked == s.hist.asked
            && t.hist.order == s.hist.order && t.core.outgoing == s.core.outgoing
            && t.core.operations == s.core.operations - {key} && key in t.hist.results
            && t.hist.results == s.hist.results[key := t.hist.results[key]]
            && !t.hist.results[key].result.Written?
  {
  }

  lemma StepKeeps(s: State, step: Step)
    requires Inv(s)
    ensures Inv(Do(s, step))
  {
    Promises.StepKeeps(s, step);
    if step.Request? || step.Reply? || step.FinishAuto? {
      CallerKeeps(s, step);
    } else if step.Close? || step.WriteFailed? || step.SetLimits? {
      EndingFails(s, step);
      OnlyFailsKeeps(s, Do(s, step));
    } else if step.Deliver? {
      DeliverKeeps(s, step.envelope, step.now);
    } else if step.Take? {
      TakeKeeps(s, step.now);
    } else if step.Expire? {
      ExpireFails(s, step.now);
      OnlyFailsKeeps(s, Do(s, step));
    } else if step.RecordWrite? {
      RecordKeeps(s, step.now);
    } else {
      LedgerKeeps(s, step);
    }
  }

  lemma LedgerKeeps(s: State, step: Step)
    requires Kinds(s) && InOrder(s)
    requires step.BeginAuto? || step.Transmit? || step.Unroute? || step.Recv? || step.SetAutoreply? || step.Decode?
             || step.ReadResult? || step.DropPromise? || step.DropGarbage?
    ensures Kinds(Do(s, step)) && InOrder(Do(s, step))
  {
    if step.BeginAuto? || step.Transmit? || step.Unroute? || step.Recv? {
      HandLedger(s, step);
    } else {
      QuietLedger(s, step);
    }
    SameLedgerKeeps(s, Do(s, step));
  }

  // ---------------------------------------------------------------------------
  // Every run

  /**
   In every run, an answer settles only a promise that asked, a write only one that
   did not, and the messages taken by the writer are in the order of their promises,
   all of them older than those still queued.
   */
  lemma {:induction false} EveryRun(side: Side, steps: seq<Step>)
    ensures Inv(Run(Init(side), steps))
    decreases |steps|
  {
    if steps == [] {
      Promises.EveryRun(side, []);
    } else {
      EveryRun(side, steps[..|steps| - 1]);
      StepKeeps(Run(Init(side), steps[..|steps| - 1]), steps[|steps| - 1]);
    }
  }

  /** The write of the message in hand is on record, and its promise settled or left waiting. */
  predicate WriteSettled(s: State, t: State, now: int)
    requires s.core.Open? && !s.threads.hand.Empty?
  {
    var h, key := s.threads.hand, s.threads.hand.message.key;
    && t.core.Open? && t.threads.hand == Empty
    && (key !in s.core.operations ==>
          t.core.operations == s.core.operations && t.hist.results == s.hist.results)
    && (key in s.core.operations ==>
          var deadline := s.core.operations[key].deadline;
          if now < deadline && h.Sent? && h.message.content.Ask?
          then t.core.operations == s.core.operations && t.hist.results == s.hist.results
          else
            && t.core.operations == s.core.operations - {key} && key in t.hist.results && key !in s.hist.results
            && t.hist.results == s.hist.results[key := t.hist.results[key]]
            && t.hist.results[key].result ==
               (if now >= deadline then Failed(Timeout) else if h.Unsent? then Failed(Refused) else Written))
  }

  lemma RecordedAs(s: State, now: int)
    requires Promises.Inv(s) && s.core.Open? && (s.threads.hand.Sent? || s.threads.hand.Unsent?)
    ensures WriteSettled(s, Do(s, RecordWrite(now)), now)
  {
    assert Do(s, RecordWrite(now)) == RecordWriteState(s, now);
  }

  /**
   Recording a write that was on time leaves a request waiting for its answer and
   settles a reply as written; a late one is a timeout, and one the encoder refused
   fails as refused. A promise already settled is left alone.
   */
  lemma WriteRecorded(side: Side, steps: seq<Step>, now: int)
    requires var s := Run(Init(side), steps); s.core.Open? && (s.threads.hand.Sent? || s.threads.hand.Unsent?)
    ensures var s := Run(Init(side), steps); WriteSettled(s, Do(s, RecordWrite(now)), now)
  {
    Promises.EveryRun(side, steps);
    RecordedAs(Run(Init(side), steps), now);
  }

  /**
   The writer has the oldest message that has not expired, if there is one and its
   request can be numbered; it left the queue, and nothing else that is alive did.
   */
  ghost predicate OldestTaken(s: State, t: State, now: int)
    requires s.core.Open?
  {
    var live := Alive(s.core.outgoing, s.core.operations, now);
    && t.core.Open? && t.retained == s.retained && t.core.maxBytes == s.core.maxBytes
    && (forall k :: k in t.core.operations <==> k in s.core.operations && now < s.core.operations[k].deadline)
    && (forall k :: k in t.core.operations ==> t.core.operations[k] == s.core.operations[k])
    && (if live == [] || (live[0].content.Ask? && s.core.nextId.None?)
        then t.threads.hand == Empty && t.core.outgoing == live
        else
          && t.threads.hand.Taken? && t.threads.hand.message == live[0]
          && t.threads.hand.id == (if live[0].content.Ask? then s.core.nextId.value else live[0].content.id)
          && t.core.outgoing == live[1..] && t.hist.order == s.hist.order + [live[0].key]
          && (live[0].content.Ask? ==>
                && t.core.outstanding == s.core.outstanding[s.core.nextId.value := live[0].key]
                && t.hist.taken == s.hist.taken + [live[0].key])
          && (live[0].content.Answer? ==> live[0].content.id !in t.core.reserved))
  }

  lemma OldestIsTaken(s: State, now: int)
    requires s.core.Open? && s.threads.hand == Empty
    ensures OldestTaken(s, Do(s, Take(now)), now)
  {
    AliveRetained(s.core.outgoing, s.core.operations, now);
  }

  /** Queued messages whose deadline has not come, in their order. */
  function Alive(q: seq<Outgoing>, operations: map<nat, Operation>, now: int): seq<Outgoing> {
    if q == [] then []
    else
      (if q[0].key in operations && now < operations[q[0].key].deadline then [q[0]] else [])
      + Alive(q[1..], operations, now)
  }

  lemma {:induction false} AliveRetained(q: seq<Outgoing>, operations: map<nat, Operation>, now: int)
    ensures Retained(q, Kept(operations, now).Keys) == Alive(q, operations, now)
  {
    if q != [] {
      AliveRetained(q[1..], operations, now);
    }
  }

  // ---------------------------------------------------------------------------
  // What one section does, field by field

  /** What becomes of the promise that a response is for, and of the response's bytes. */
  ghost predicate AnswerTaken(s: State, t: State, key: nat, e: Envelope, now: int)
    requires s.core.Open? && key in s.core.operations
  {
    var deadline := s.core.operations[key].deadline;
    var fits := s.retained + e.length <= s.core.maxBytes;
    && t.core.Open? && t.core.operations == s.core.operations - {key} && key in t.hist.results
    && t.hist.results[key].at == now && t.hist.results[key].deadline == deadline
    && t.hist.results[key].result == (if now >= deadline then Failed(Timeout)
                                      else if fits then Answered(e)
                                      else Failed(ByteLimit(s.core.maxBytes)))
    && (forall k :: k != key ==>
          && (k in t.hist.results <==> k in s.hist.results)
          && (k in s.hist.results ==> t.hist.results[k] == s.hist.results[k]))
    && (if now < deadline && fits && key !in s.threads.gone
        then t.retained == s.retained + e.length && t.threads.unread == s.threads.unread[key := e.length]
        else t.retained == s.retained && t.threads.unread == s.threads.unread)
  }

  lemma CompletionTakes(s: State, key: nat, e: Envelope, now: int)
    requires s.core.Open? && key in s.core.operations
    ensures AnswerTaken(s, CompleteResponse(s, key, e, now), key, e, now)
  {
  }

  lemma AnswerSettles(s: State, e: Envelope, now: int)
    requires s.core.Open? && KindOf(e.id, Own(s.side)) == IncomingResponse && e.id in s.core.outstanding
    requires s.core.outstanding[e.id] in s.core.operations
    ensures AnswerTaken(s, DeliverState(s, e, now), s.core.outstanding[e.id], e, now)
    ensures e.id !in DeliverState(s, e, now).core.outstanding
  {
  }

  lemma LateAnswerDropped(s: State, e: Envelope, now: int)
    requires s.core.Open? && KindOf(e.id, Own(s.side)) == IncomingResponse && e.id in s.core.outstanding
    requires s.core.outstanding[e.id] !in s.core.operations
    ensures var t := DeliverState(s, e, now); t.hist.results == s.hist.results && t.retained == s.retained
  {
  }

  /** What admission does with a request. */
  ghost predicate RequestTaken(s: State, t: State, e: Envelope)
    requires s.core.Open?
  {
    && t.core.Open? && t.core.reserved == s.core.reserved + {e.id}
    && t.hist.requests == s.hist.requests[e.id := e.body]
    && t.core.outgoing == s.core.outgoing && t.threads.hand == s.threads.hand
    && (if e.body.unknown
        then t.core.incoming == s.core.incoming && t.threads.unknown == s.threads.unknown + {e.id}
             && t.retained == s.retained
        else t.core.incoming == s.core.incoming + [e] && t.threads.unknown == s.threads.unknown
             && t.retained == s.retained + e.length)
  }

  /** Both limits leave room for a request. */
  predicate Room(s: State, e: Envelope)
    requires s.core.Open?
  {
    && |s.core.reserved| < s.core.maxRequests
    && (e.body.unknown || s.retained + e.length <= s.core.maxBytes)
  }

  lemma RequestAdmitted(s: State, e: Envelope, now: int)
    requires s.core.Open? && KindOf(e.id, Own(s.side)) == IncomingRequest && !e.body.failed && e.id !in s.core.reserved
    ensures var t := DeliverState(s, e, now);
            if |s.core.reserved| < s.core.maxRequests
               && (e.body.unknown || s.retained + e.length <= s.core.maxBytes)
            then RequestTaken(s, t, e) && Verdict(s, e, now).None?
            else t == s && Verdict(s, e, now) ==
                           Some(if |s.core.reserved| >= s.core.maxRequests then RequestLimit(s.core.maxRequests)
                                else ByteLimit(s.core.maxBytes))
  {
  }

  /** A message joined the queue behind all others, or was too late for it. */
  predicate MessageQueued(s: State, t: State, content: Content, deadline: int, now: int)
    requires s.core.Open?
  {
    var key := s.hist.issued;
    && t.core.Open? && t.hist.issued == key + 1
    && (if now < deadline
        then
          && t.core.outgoing == s.core.outgoing + [Outgoing(key, content)]
          && t.core.operations == s.core.operations[key := Operation(deadline, content.Ask?)]
          && t.hist.results == s.hist.results && t.core.reserved == s.core.reserved
        else
          && t.core.outgoing == s.core.outgoing && t.core.operations == s.core.operations
          && t.hist.results == s.hist.results[key := Settlement(Failed(Timeout), now, deadline)]
          && t.core.reserved == if content.Answer? then s.core.reserved - {content.id} else s.core.reserved)
  }

  lemma RequestQueues(s: State, body: Body, deadline: int, now: int)
    requires s.core.Open? && !body.failed
    ensures var t := Do(s, Request(body, deadline, now));
            && MessageQueued(s, t, Ask(body), deadline, now)
            && t.threads == s.threads && t.retained == s.retained && t.side == s.side
            && t.core.maxBytes == s.core.maxBytes && t.core.nextId == s.core.nextId && t.hist.taken == s.hist.taken
  {
  }

  lemma ReplyQueues(s: State, id: nat, body: Body, deadline: int, now: int)
    requires s.core.Open? && id in s.threads.responders && id !in s.threads.decoding
    ensures var t := Do(s, Reply(id, body, deadline, now));
            && MessageQueued(s, t, Answer(id, body), deadline, now)
            && t.threads == s.threads.(responders := s.threads.responders - {id})
  {
  }

  /** A dropped responder, or an unknown request, is to be answered within the session's timeout. */
  lemma AutoBegins(s: State, id: nat, now: int, representable: bool)
    requires s.core.Open? && id in s.threads.responders + s.threads.unknown && id !in s.threads.decoding
    ensures var t := Do(s, BeginAuto(id, now, representable));
            && t.core == s.core && id in t.threads.auto && id !in t.threads.responders + t.threads.unknown
            && t.threads.auto[id].deadline == (if representable then now + s.core.autoreplyTimeout else now)
            && t.threads.auto[id].body == if id in s.threads.unknown then UNKNOWN else UNANSWERED
  {
  }

  lemma AutoQueues(s: State, id: nat, now: int)
    requires s.core.Open? && id in s.threads.auto
    ensures var t, a := Do(s, FinishAuto(id, now)), s.threads.auto[id];
            && MessageQueued(s, t, Answer(id, a.body), a.deadline, now)
            && id !in t.threads.auto && s.hist.issued in t.threads.gone
  {
  }

  /** Exactly the operations that are due time out, with their queued messages; routes stay. */
  ghost predicate DueSettled(s: State, t: State, now: int)
    requires s.core.Open?
  {
    && t.core.Open? && t.core.outstanding == s.core.outstanding && t.core.incoming == s.core.incoming
    && t.core.outgoing == Alive(s.core.outgoing, s.core.operations, now)
    && (forall k :: k in t.core.operations <==> k in s.core.operations && now < s.core.operations[k].deadline)
    && (forall k :: k in t.core.operations ==> t.core.operations[k] == s.core.operations[k])
    && (forall k :: k in s.core.operations && now >= s.core.operations[k].deadline ==>
          k in t.hist.results
          && t.hist.results[k] == Settlement(Failed(Timeout), now, s.core.operations[k].deadline))
    && (forall k :: k in s.hist.results && k !in s.core.operations ==>
          k in t.hist.results && t.hist.results[k] == s.hist.results[k])
  }

  lemma ExpireSettles(s: State, now: int)
    requires s.core.Open?
    ensures DueSettled(s, ExpireState(s, now), now)
  {
    AliveRetained(s.core.outgoing, s.core.operations, now);
  }

  /** New limits stand, unless usage exceeds one of them, the requests being looked at first. */
  lemma LimitsSet(s: State, requests: nat, bytes: nat, now: int)
    requires s.core.Open?
    ensures var t := Do(s, SetLimits(requests, bytes, now));
            if |s.core.reserved| > requests then t.core == Shut(RequestLimit(requests))
            else if s.retained > bytes then t.core == Shut(ByteLimit(bytes))
            else t == s.(core := s.core.(maxRequests := requests, maxBytes := bytes))
  {
  }

  /** A receiver gets the oldest queued request, with a responder for its ID. */
  lemma OldestIsReceived(s: State)
    requires s.core.Open? && s.core.incoming != []
    ensures var t, e := Do(s, Recv), s.core.incoming[0];
            && t.core.Open? && t.core.incoming == s.core.incoming[1..] && t.core.reserved == s.core.reserved
            && t.threads.responders == s.threads.responders + {e.id} && t.retained == s.retained
            && e.id in t.threads.decoding && t.threads.decoding[e.id] == e.length
            && t.threads.hand == s.threads.hand && t.core.outgoing == s.core.outgoing
  {
  }

  /** A request is malformed exactly if it carries an error or reuses an ID that is still owed a reply. */
  lemma MalformedExactly(s: State, e: Envelope, now: int)
    requires s.core.Open?
    ensures Verdict(s, e, now) == Some(Malformed) <==>
            KindOf(e.id, Own(s.side)) == IncomingRequest && (e.body.failed || e.id in s.core.reserved)
    ensures Verdict(s, e, now) == Some(Malformed) ==> Do(s, Deliver(e, now)) == s
  {
  }

  /** A response that nobody awaits is dropped without a trace. */
  lemma UnmatchedIgnored(s: State, e: Envelope, now: int)
    requires s.core.Open? && KindOf(e.id, Own(s.side)) == IncomingResponse && e.id !in s.core.outstanding
    ensures var t := Do(s, Deliver(e, now));
            t.core == s.core && t.retained == s.retained && t.threads == s.threads && t.hist.results == s.hist.results
            && Verdict(s, e, now).None?
  {
  }

  /** A new timeout holds for automatic replies that begin later, and for nothing else. */
  lemma TimeoutSet(s: State, timeout: int)
    requires s.core.Open?
    ensures var t := Do(s, SetAutoreply(timeout));
            t.core.Open? && t.core.autoreplyTimeout == timeout && t == s.(core := t.core)
            && t.core == s.core.(autoreplyTimeout := timeout)
  {
  }

  /** A promise that is read or dropped gives back its bytes; only a dropped one is gone for good. */
  lemma PromiseReleased(s: State, key: nat)
    requires key < s.hist.issued
    ensures var t := Do(s, DropPromise(key));
            && key !in t.threads.unread && t.threads.gone == s.threads.gone + {key} && t.core == s.core
            && t.hist == s.hist
    ensures var t := Do(s, ReadResult(key));
            && key !in t.threads.unread && t.threads.gone == s.threads.gone && t.core == s.core && t.hist == s.hist
  {
  }
}
