/**
 Reply obligations: every accepted peer request is owed one answer, and the owed
 answer is in exactly one place at any time.
 */
module Obligations {
  import opened Prelude
  import opened Wire
  import opened Session

  function Ids(incoming: seq<Envelope>): seq<nat> {
    seq(|incoming|, i requires 0 <= i < |incoming| => incoming[i].id)
  }

  function AnswerIds(outgoing: seq<Outgoing>): seq<nat> {
    if outgoing == [] then []
    else (if outgoing[0].content.Answer? then [outgoing[0].content.id] else []) + AnswerIds(outgoing[1..])
  }

  /** IDs owed by responders and pending automatic replies. */
  function Loose(t: Threads): multiset<nat> {
    multiset(t.responders) + multiset(t.unknown) + multiset(t.auto.Keys)
  }

  /** IDs owed by the receive queue and everything taken from it. */
  function Held(s: State): multiset<nat>
    requires s.core.Open?
  {
    multiset(Ids(s.core.incoming)) + Loose(s.threads)
  }

  /** The account of one session's reserved IDs. */
  datatype Account = Account(
    reserved: set<nat>, held: multiset<nat>, queued: multiset<nat>,
    admitted: multiset<nat>, replied: multiset<nat>, discarded: multiset<nat>)
  {
    /**
     The reserved IDs are the disjoint union of those in the receive queue, with
     a responder, awaiting an automatic reply or answered in the outgoing queue;
     and every admission is still reserved, answered by the writer or expired.
     */
    ghost predicate Balanced() {
      && multiset(reserved) == held + queued
      && admitted == multiset(reserved) + replied + discarded
    }
  }

  function AccountOf(s: State): Account
    requires s.core.Open?
  {
    Account(s.core.reserved, Held(s), multiset(AnswerIds(s.core.outgoing)),
            s.hist.admitted, s.hist.replied, s.hist.discarded)
  }

  ghost predicate Owed(s: State) {
    && (s.core.Open? ==> AccountOf(s).Balanced() && |s.core.reserved| <= s.core.maxRequests)
    && s.hist.replied + s.hist.discarded <= s.hist.admitted
  }

  /** Queued answers leave the account, taken by the writer or expired. */
  lemma Leave(a: Account, lost: seq<nat>, queued: multiset<nat>, byWriter: bool)
    requires a.Balanced() && a.queued == queued + multiset(lost)
    ensures var r := a.reserved - SetOf(lost);
            && |r| <= |a.reserved|
            && (if byWriter then a.(reserved := r, queued := queued, replied := a.replied + multiset(lost))
                else a.(reserved := r, queued := queued, discarded := a.discarded + multiset(lost))).Balanced()
  {
    assert multiset(lost) <= multiset(a.reserved);
    RemoveReserved(a.reserved, lost);
  }

  /** One obligation moves between places without changing the account. */
  lemma Singleton(id: nat)
    ensures SetOf([id]) == {id}
    ensures multiset([id]) == multiset{id} == multiset({id})
  {
  }

  lemma {:induction false} AnswerIdsAppend(q: seq<Outgoing>, m: Outgoing)
    ensures AnswerIds(q + [m]) == AnswerIds(q) + if m.content.Answer? then [m.content.id] else []
  {
    if q == [] {
      assert q + [m] == [m];
    } else {
      var r := q + [m];
      assert r[0] == q[0] && r[1..] == q[1..] + [m];
      AnswerIdsAppend(q[1..], m);
      var head := if q[0].content.Answer? then [q[0].content.id] else [];
      var last := if m.content.Answer? then [m.content.id] else [];
      assert head + (AnswerIds(q[1..]) + last) == head + AnswerIds(q[1..]) + last;
    }
  }

  lemma {:induction false} AnswersSplit(q: seq<Outgoing>, pending: set<nat>)
    ensures multiset(AnswerIds(q)) == multiset(AnswerIds(Retained(q, pending))) + multiset(Abandoned(q, pending))
  {
    if q != [] {
      AnswersSplit(q[1..], pending);
      var rest := Retained(q[1..], pending);
      if q[0].key in pending {
        assert ([q[0]] + rest)[1..] == rest;
      }
    }
  }

  /** Removing reserved IDs from the set removes them from the count. */
  lemma RemoveReserved(reserved: set<nat>, lost: seq<nat>)
    requires multiset(lost) <= multiset(reserved)
    ensures multiset(reserved - SetOf(lost)) == multiset(reserved) - multiset(lost)
    ensures |reserved - SetOf(lost)| <= |reserved|
  {
    forall x
      ensures multiset(reserved - SetOf(lost))[x] == (multiset(reserved) - multiset(lost))[x]
    {
      assert x in lost <==> x in multiset(lost);
      assert multiset(reserved)[x] <= 1;
    }
    SubsetSize(reserved - SetOf(lost), reserved);
  }

  lemma {:induction false} SubsetSize(a: set<nat>, b: set<nat>)
    requires a <= b
    ensures |a| <= |b|
    decreases a
  {
    if a != {} {
      var x :| x in a;
      SubsetSize(a - {x}, b - {x});
    }
  }

  lemma ExpireOwed(s: State, now: int)
    requires Owed(s)
    ensures Owed(ExpireState(s, now))
  {
    if s.core.Open? {
      var pending := Kept(s.core.operations, now).Keys;
      var t := ExpireState(s, now);
      AnswersSplit(s.core.outgoing, pending);
      Leave(AccountOf(s), Abandoned(s.core.outgoing, pending), multiset(AnswerIds(t.core.outgoing)), false);
      assert Held(t) == Held(s);
    }
  }

  /** An obligation no longer held goes to the queue, or expires at once. */
  lemma EnqueueOwed(s: State, content: Content, deadline: int, now: int)
    requires s.core.Open? && |s.core.reserved| <= s.core.maxRequests
    requires var owed := if content.Answer? then multiset{content.id} else multiset{};
             AccountOf(s).(queued := AccountOf(s).queued + owed).Balanced()
    ensures Owed(Enqueue(s, content, deadline, now))
  {
    var t := Enqueue(s, content, deadline, now);
    assert Held(t) == Held(s);
    assert AccountOf(s).queued + multiset{} == AccountOf(s).queued;
    if now < deadline {
      AnswerIdsAppend(s.core.outgoing, Outgoing(s.hist.issued, content));
    } else if content.Answer? {
      Singleton(content.id);
      var a := AccountOf(s).(queued := AccountOf(s).queued + multiset{content.id});
      Leave(a, [content.id], AccountOf(s).queued, false);
    }
  }

  /** The writer takes the head of the queue, releasing the ID of an answer. */
  lemma TakeHeadOwed(e: State, t: State)
    requires Owed(e) && e.core.Open? && e.core.outgoing != []
    requires t.core.Open? && t.core.outgoing == e.core.outgoing[1..] && Held(t) == Held(e)
    requires t.core.maxRequests == e.core.maxRequests
    requires t.hist.admitted == e.hist.admitted && t.hist.discarded == e.hist.discarded
    requires var m := e.core.outgoing[0].content;
             if m.Ask? then t.core.reserved == e.core.reserved && t.hist.replied == e.hist.replied
             else t.core.reserved == e.core.reserved - {m.id} && t.hist.replied == e.hist.replied + multiset{m.id}
    ensures Owed(t)
  {
    var m := e.core.outgoing[0].content;
    if m.Answer? {
      Singleton(m.id);
      Leave(AccountOf(e), [m.id], multiset(AnswerIds(e.core.outgoing[1..])), true);
    } else {
      assert AccountOf(t) == AccountOf(e);
    }
  }

  lemma TakeOwed(s: State, now: int)
    requires Owed(s)
    ensures Owed(TakeState(s, now))
  {
    ExpireOwed(s, now);
    var e := ExpireState(s, now);
    if e.core.Open? && e.core.outgoing != [] && e.threads.hand == Empty
       && !(e.core.outgoing[0].content.Ask? && e.core.nextId.None?) {
      TakeHeadOwed(e, TakeState(s, now));
    }
  }

  /** Admission opens one new obligation. */
  lemma Enter(a: Account, id: nat)
    requires a.Balanced() && id !in a.reserved
    ensures a.(reserved := a.reserved + {id}, held := a.held + multiset{id},
               admitted := a.admitted + multiset{id}).Balanced()
    ensures id !in a.held
  {
    assert multiset(a.reserved + {id}) == multiset(a.reserved) + multiset{id};
    assert multiset(a.reserved)[id] == a.held[id] + a.queued[id];
  }

  lemma AdmitOwed(s: State, e: Envelope)
    requires Owed(s) && s.core.Open?
    requires e.id !in s.core.reserved && |s.core.reserved| < s.core.maxRequests
    ensures Owed(Admit(s, e))
  {
    var t := Admit(s, e);
    Enter(AccountOf(s), e.id);
    assert |t.core.reserved| == |s.core.reserved| + 1;
    AdmitHeld(s, e);
  }

  lemma AdmitHeld(s: State, e: Envelope)
    requires s.core.Open? && e.id !in Held(s)
    ensures Held(Admit(s, e)) == Held(s) + multiset{e.id}
  {
    if e.body.unknown {
      assert e.id !in multiset(s.threads.unknown);
      assert multiset(s.threads.unknown + {e.id}) == multiset(s.threads.unknown) + multiset{e.id};
    } else {
      assert Ids(s.core.incoming + [e]) == Ids(s.core.incoming) + [e.id];
    }
  }

  /** An ID is owed in only one place. */
  lemma OnePlace(a: Account, id: nat)
    requires a.Balanced()
    ensures a.held[id] + a.queued[id] <= 1
  {
    assert multiset(a.reserved)[id] <= 1;
    assert multiset(a.reserved)[id] == a.held[id] + a.queued[id];
  }

  /** The oldest queued request is reserved and has no responder yet. */
  lemma QueuedAlone(s: State)
    requires Owed(s) && s.core.Open? && s.core.incoming != []
    ensures s.core.incoming[0].id in s.core.reserved && s.core.incoming[0].id !in s.threads.responders
  {
    var id := s.core.incoming[0].id;
    assert Ids(s.core.incoming)[0] == id;
    OnePlace(AccountOf(s), id);
    assert id in multiset(s.core.reserved);
  }

  /** A received request moves from the queue to its responder. */
  lemma RecvHeld(s: State)
    requires Owed(s) && s.core.Open?
    ensures Held(RecvState(s)) == Held(s)
  {
    if s.core.incoming != [] {
      var e, t := s.core.incoming[0], RecvState(s);
      assert Ids(s.core.incoming) == [e.id] + Ids(t.core.incoming);
      OnePlace(AccountOf(s), e.id);
      assert e.id !in multiset(s.threads.responders);
      assert multiset(t.threads.responders) == multiset(s.threads.responders) + multiset{e.id};
      assert Loose(t.threads) == Loose(s.threads) + multiset{e.id};
    }
  }

  lemma RecvOwed(s: State)
    requires Owed(s)
    ensures Owed(RecvState(s))
  {
    if s.core.Open? {
      RecvHeld(s);
    }
  }

  lemma BeginAutoMoves(s: State, id: nat, now: int, representable: bool)
    requires s.core.Open? && id in s.threads.responders + s.threads.unknown && id !in s.threads.decoding
    ensures var t := BeginAutoState(s, id, now, representable).threads;
            && t.responders == s.threads.responders - {id} && t.unknown == s.threads.unknown - {id}
            && t.auto.Keys == s.threads.auto.Keys + {id}
  {
  }

  lemma BeginAutoLoose(s: State, id: nat, now: int, representable: bool)
    requires s.core.Open? && Loose(s.threads)[id] <= 1
    ensures Loose(BeginAutoState(s, id, now, representable).threads) == Loose(s.threads)
  {
    if id in s.threads.responders + s.threads.unknown && id !in s.threads.decoding {
      BeginAutoMoves(s, id, now, representable);
      MoveIds(s.threads.responders, s.threads.unknown, s.threads.auto.Keys, id);
    } else {
      assert BeginAutoState(s, id, now, representable) == s;
    }
  }

  /** A dropped responder or an unknown request becomes an automatic reply. */
  lemma BeginAutoHeld(s: State, id: nat, now: int, representable: bool)
    requires Owed(s) && s.core.Open?
    ensures Held(BeginAutoState(s, id, now, representable)) == Held(s)
  {
    if id in s.threads.responders + s.threads.unknown {
      OnePlace(AccountOf(s), id);
      BeginAutoLoose(s, id, now, representable);
    }
  }

  lemma BeginAutoOwed(s: State, id: nat, now: int, representable: bool)
    requires Owed(s)
    ensures Owed(BeginAutoState(s, id, now, representable))
  {
    if s.core.Open? {
      BeginAutoHeld(s, id, now, representable);
    }
  }

  lemma MoveIds(a: set<nat>, b: set<nat>, c: set<nat>, id: nat)
    requires id in a + b
    requires multiset(a)[id] + multiset(b)[id] + multiset(c)[id] <= 1
    ensures multiset(a - {id}) + multiset(b - {id}) + multiset(c + {id}) == multiset(a) + multiset(b) + multiset(c)
  {
    forall x
      ensures (multiset(a - {id}) + multiset(b - {id}) + multiset(c + {id}))[x]
           == (multiset(a) + multiset(b) + multiset(c))[x]
    {
    }
  }

  /** Finishing an automatic reply gives up its obligation. */
  lemma AutoHeld(s: State, t: Threads, id: nat)
    requires s.core.Open? && id in s.threads.auto
    requires t == s.threads.(auto := s.threads.auto - {id}, gone := t.gone)
    ensures Held(s) == Held(s.(threads := t)) + multiset{id}
  {
    assert t.auto.Keys == s.threads.auto.Keys - {id};
    assert multiset(s.threads.auto.Keys) == multiset(t.auto.Keys) + multiset{id};
    assert Loose(s.threads) == Loose(t) + multiset{id};
  }

  lemma FinishAutoOwed(s: State, id: nat, now: int)
    requires Owed(s)
    ensures Owed(FinishAutoState(s, id, now))
  {
    if s.core.Open? && id in s.threads.auto {
      var a, t := s.threads.auto[id], s.threads.(auto := s.threads.auto - {id});
      var u := t.(gone := t.gone + {s.hist.issued});
      AutoHeld(s, u, id);
      EnqueueOwed(s.(threads := u), Answer(id, a.body), a.deadline, now);
    }
  }

  /** Replying gives up the responder's obligation. */
  lemma ResponderHeld(s: State, id: nat)
    requires s.core.Open? && id in s.threads.responders
    ensures Held(s) == Held(s.(threads := s.threads.(responders := s.threads.responders - {id}))) + multiset{id}
  {
    assert multiset(s.threads.responders) == multiset(s.threads.responders - {id}) + multiset{id};
    assert Loose(s.threads) == Loose(s.threads.(responders := s.threads.responders - {id})) + multiset{id};
  }

  lemma ReplyOwed(s: State, id: nat, body: Body, deadline: int, now: int)
    requires Owed(s) && s.core.Open? && id in s.threads.responders
    ensures Owed(Enqueue(s.(threads := s.threads.(responders := s.threads.responders - {id})),
                         Answer(id, body), deadline, now))
  {
    ResponderHeld(s, id);
    EnqueueOwed(s.(threads := s.threads.(responders := s.threads.responders - {id})),
                Answer(id, body), deadline, now);
  }

  /** Nothing is owed elsewhere, and an open session is within its limit. */
  ghost predicate SamePlaces(s: State, t: State) {
    && t.hist.admitted == s.hist.admitted && t.hist.replied == s.hist.replied
    && t.hist.discarded == s.hist.discarded
    && (t.core.Open? ==>
          && s.core.Open?
          && (|t.core.reserved| <= t.core.maxRequests || t.core.maxRequests == s.core.maxRequests)
          && t.core.reserved == s.core.reserved && t.core.incoming == s.core.incoming
          && t.core.outgoing == s.core.outgoing
          && t.threads.responders == s.threads.responders
          && t.threads.unknown == s.threads.unknown && t.threads.auto == s.threads.auto)
  }

  lemma QuietOwed(s: State, t: State)
    requires Owed(s) && SamePlaces(s, t)
    ensures Owed(t)
  {
    assert t.core.Open? ==> AccountOf(t) == AccountOf(s);
  }

  lemma DeliverPlaces(s: State, e: Envelope, now: int)
    ensures KindOf(e.id, Own(s.side)) == IncomingResponse || Verdict(s, e, now).Some? ==>
              SamePlaces(s, DeliverState(s, e, now))
  {
  }

  predicate Quiet(step: Step) {
    step.Transmit? || step.Unroute? || step.RecordWrite? || step.WriteFailed? || step.Close?
    || step.SetLimits? || step.SetAutoreply? || step.Decode? || step.ReadResult?
    || step.DropPromise? || step.DropGarbage?
  }

  lemma HandPlaces(s: State, step: Step)
    requires step.Transmit? || step.Unroute? || step.RecordWrite?
    ensures SamePlaces(s, Do(s, step))
  {
  }

  lemma WriterPlaces(s: State, step: Step)
    requires step.Transmit? || step.Unroute? || step.RecordWrite? || step.WriteFailed? || step.Close?
    ensures SamePlaces(s, Do(s, step))
  {
    if !step.WriteFailed? && !step.Close? {
      HandPlaces(s, step);
    }
  }

  lemma QuietPlaces(s: State, step: Step)
    requires Quiet(step)
    ensures SamePlaces(s, Do(s, step))
  {
    if step.Transmit? || step.Unroute? || step.RecordWrite? || step.WriteFailed? || step.Close? {
      WriterPlaces(s, step);
    }
  }

  lemma DeliverOwed(s: State, e: Envelope, now: int)
    requires Owed(s)
    ensures Owed(DeliverState(s, e, now))
  {
    if KindOf(e.id, Own(s.side)) == IncomingRequest && Verdict(s, e, now).None? {
      AdmitOwed(s, e);
    } else {
      DeliverPlaces(s, e, now);
      QuietOwed(s, DeliverState(s, e, now));
    }
  }

  /** A caller's or worker's obligation moves, by the kind of step. */
  lemma RequestOwed(s: State, body: Body, deadline: int, now: int)
    requires Owed(s)
    ensures Owed(Do(s, Request(body, deadline, now)))
  {
    if s.core.Open? && !body.failed {
      assert Do(s, Request(body, deadline, now)) == Enqueue(s, Ask(body), deadline, now);
      assert AccountOf(s).queued + multiset{} == AccountOf(s).queued;
      EnqueueOwed(s, Ask(body), deadline, now);
    }
  }

  lemma AnswerOwed(s: State, id: nat, body: Body, deadline: int, now: int)
    requires Owed(s)
    ensures Owed(Do(s, Reply(id, body, deadline, now)))
  {
    if s.core.Open? && id in s.threads.responders && id !in s.threads.decoding {
      assert Do(s, Reply(id, body, deadline, now)) ==
             Enqueue(s.(threads := s.threads.(responders := s.threads.responders - {id})),
                     Answer(id, body), deadline, now);
      ReplyOwed(s, id, body, deadline, now);
    }
  }

  /** The other steps that move obligations, by name. */
  lemma MovingStep(s: State, step: Step)
    ensures step.BeginAuto? ==> Do(s, step) == BeginAutoState(s, step.id, step.now, step.representable)
    ensures step.FinishAuto? ==> Do(s, step) == FinishAutoState(s, step.id, step.now)
    ensures step.Deliver? ==> Do(s, step) == DeliverState(s, step.envelope, step.now)
    ensures step.Take? ==> Do(s, step) == TakeState(s, step.now)
    ensures step.Expire? ==> Do(s, step) == ExpireState(s, step.now)
    ensures step.Recv? ==> Do(s, step) == RecvState(s)
  {
  }

  lemma MovingOwed(s: State, step: Step)
    requires Owed(s) && !Quiet(step)
    ensures Owed(Do(s, step))
  {
    MovingStep(s, step);
    match step
    case Request(body, deadline, now) => RequestOwed(s, body, deadline, now);
    case Reply(id, body, deadline, now) => AnswerOwed(s, id, body, deadline, now);
    case BeginAuto(id, now, representable) => BeginAutoOwed(s, id, now, representable);
    case FinishAuto(id, now) => FinishAutoOwed(s, id, now);
    case Deliver(e, now) => DeliverOwed(s, e, now);
    case Take(now) => TakeOwed(s, now);
    case Expire(now) => ExpireOwed(s, now);
    case Recv => RecvOwed(s);
  }

  lemma StepOwed(s: State, step: Step)
    requires Owed(s)
    ensures Owed(Do(s, step))
  {
    if Quiet(step) {
      QuietPlaces(s, step);
      QuietOwed(s, Do(s, step));
    } else {
      MovingOwed(s, step);
    }
  }

  /**
   Reply obligations over every run: the reserved IDs partition into the places
   that owe an answer, their number stays within the limit, and the writer takes
   at most as many answers per ID as that ID was admitted.
   */
  lemma {:induction false} EveryRun(side: Side, steps: seq<Step>)
    ensures Owed(Run(Init(side), steps))
    decreases |steps|
  {
    if steps == [] {
      assert AccountOf(Init(side)).Balanced();
    } else {
      EveryRun(side, steps[..|steps| - 1]);
      StepOwed(Run(Init(side), steps[..|steps| - 1]), steps[|steps| - 1]);
    }
  }
}
