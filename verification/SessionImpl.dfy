/**
 The session object itself: queues and maps updated in place, one method per
 critical section, each proved to be the step of `Session` it implements. The
 object is always in a state that some run of the machine reaches.
 */
module SessionImpl {
  import opened Prelude
  import opened Wire
  import opened Session
  import Promises
  import Budget
  import opened Numbering
  import Outcomes
  import Obligations

  lemma {:induction false} RetainedAppend(q: seq<Outgoing>, m: Outgoing, pending: set<nat>)
    ensures Retained(q + [m], pending) == Retained(q, pending) + if m.key in pending then [m] else []
  {
    if q == [] {
      assert q + [m] == [m];
    } else {
      var r, head := q + [m], if q[0].key in pending then [q[0]] else [];
      assert r[0] == q[0] && r[1..] == q[1..] + [m];
      RetainedAppend(q[1..], m, pending);
      assert Retained(q, pending) == head + Retained(q[1..], pending);
      assert Retained(r, pending) == head + Retained(q[1..] + [m], pending);
    }
  }

  lemma {:induction false} AbandonedAppend(q: seq<Outgoing>, m: Outgoing, pending: set<nat>)
    ensures Abandoned(q + [m], pending) ==
            Abandoned(q, pending) + if m.key !in pending && m.content.Answer? then [m.content.id] else []
  {
    if q == [] {
      assert q + [m] == [m];
    } else {
      var r := q + [m];
      var head := if q[0].key !in pending && q[0].content.Answer? then [q[0].content.id] else [];
      assert r[0] == q[0] && r[1..] == q[1..] + [m];
      AbandonedAppend(q[1..], m, pending);
      assert Abandoned(q, pending) == head + Abandoned(q[1..], pending);
      assert Abandoned(r, pending) == head + Abandoned(q[1..] + [m], pending);
    }
  }

  /** Operations left after the keys outside `unseen` have been checked for expiry. */
  ghost function Unexpired(all: map<nat, Operation>, unseen: set<nat>, now: int): map<nat, Operation> {
    map k | k in all && (k in unseen || !Expired(now, all[k])) :: all[k]
  }

  ghost function TimedOut(all: map<nat, Operation>, unseen: set<nat>, now: int): map<nat, Settlement> {
    map k | k in all && k !in unseen && Expired(now, all[k]) ::
      Settlement(Failed(Timeout), now, all[k].deadline)
  }

  lemma UpdateLast(a: map<nat, Settlement>, b: map<nat, Settlement>, k: nat, v: Settlement)
    ensures (a + b)[k := v] == a + b[k := v]
  {
  }

  lemma VisitOne(all: map<nat, Operation>, unseen: set<nat>, k: nat, now: int)
    requires k in all && k !in unseen
    ensures Unexpired(all, unseen, now) ==
            if Expired(now, all[k]) then Unexpired(all, unseen + {k}, now) - {k}
            else Unexpired(all, unseen + {k}, now)
    ensures TimedOut(all, unseen, now) ==
            if Expired(now, all[k])
            then TimedOut(all, unseen + {k}, now)[k := Settlement(Failed(Timeout), now, all[k].deadline)]
            else TimedOut(all, unseen + {k}, now)
  {
  }

  /** Fails every expired operation, visiting the map in any order. */
  method FailExpired(all: map<nat, Operation>, before: map<nat, Settlement>, now: int)
    returns (operations: map<nat, Operation>, results: map<nat, Settlement>)
    ensures operations == Kept(all, now)
    ensures results == before + Lapsed(all, now)
  {
    operations, results := all, before;
    var unseen := all.Keys;
    assert operations == Unexpired(all, unseen, now);
    assert TimedOut(all, unseen, now) == map[];
    while unseen != {}
      invariant unseen <= all.Keys
      invariant operations == Unexpired(all, unseen, now)
      invariant results == before + TimedOut(all, unseen, now)
      decreases unseen
    {
      var k :| k in unseen;
      ghost var visited := unseen;
      unseen := unseen - {k};
      assert unseen + {k} == visited;
      VisitOne(all, unseen, k, now);
      assert k in operations && operations[k] == all[k];
      if now >= operations[k].deadline {
        var failure := Failure(Timeout, now, operations[k].deadline);
        UpdateLast(before, TimedOut(all, visited, now), k, failure);
        results := results[k := failure];
        operations := operations - {k};
      }
    }
    assert Unexpired(all, {}, now) == Kept(all, now);
    assert TimedOut(all, {}, now) == Lapsed(all, now);
  }

  /** Drops queued messages without an operation, freeing the IDs they answered. */
  method RetainPending(outgoing: seq<Outgoing>, before: set<nat>, pending: set<nat>)
    returns (kept: seq<Outgoing>, reserved: set<nat>)
    ensures kept == Retained(outgoing, pending)
    ensures reserved == before - SetOf(Abandoned(outgoing, pending))
  {
    kept, reserved := [], before;
    for i := 0 to |outgoing|
      invariant kept == Retained(outgoing[..i], pending)
      invariant reserved == before - SetOf(Abandoned(outgoing[..i], pending))
    {
      var m := outgoing[i];
      RetainedAppend(outgoing[..i], m, pending);
      AbandonedAppend(outgoing[..i], m, pending);
      assert outgoing[..i + 1] == outgoing[..i] + [m];
      if m.key in pending {
        kept := kept + [m];
      } else if m.content.Answer? {
        reserved := reserved - {m.content.id};
      }
    }
    assert outgoing[..|outgoing|] == outgoing;
  }

  lemma DrainOne(all: map<nat, Operation>, left: set<nat>, k: nat, reason: Error, now: int)
    requires k in all && k !in left
    ensures Failures(all - left, reason, now) ==
            Failures(all - (left + {k}), reason, now)[k := Failure(reason, now, all[k].deadline)]
  {
  }

  /** Fails every operation with a reason, visiting the map in any order. */
  method FailAll(all: map<nat, Operation>, before: map<nat, Settlement>, reason: Error, now: int)
    returns (results: map<nat, Settlement>)
    ensures results == before + Failures(all, reason, now)
  {
    results := before;
    var left := all.Keys;
    assert all - left == map[];
    assert Failures(map[], reason, now) == map[];
    while left != {}
      invariant left <= all.Keys
      invariant results == before + Failures(all - left, reason, now)
      decreases left
    {
      var k :| k in left;
      ghost var drained := left;
      left := left - {k};
      assert left + {k} == drained;
      DrainOne(all, left, k, reason, now);
      UpdateLast(before, Failures(all - drained, reason, now), k, Failure(reason, now, all[k].deadline));
      results := results[k := Failure(reason, now, all[k].deadline)];
    }
    assert all - {} == all;
  }

  // ---------------------------------------------------------------------------
  // What a caller can rely on in every reachable state

  lemma RunMore(side: Side, run: seq<Step>, step: Step)
    ensures Run(Init(side), run + [step]) == Do(Run(Init(side), run), step)
  {
    assert (run + [step])[..|run|] == run;
  }

  /** A closed session has settled every promise it ever issued. */
  lemma AllSettled(side: Side, run: seq<Step>)
    requires Run(Init(side), run).core.Shut?
    ensures var s := Run(Init(side), run); s.hist.results.Keys == Promises.Below(s.hist.issued)
  {
    Promises.EveryRun(side, run);
  }

  /** The next promise has not been settled, and nothing waits for it. */
  lemma KeyIsFresh(side: Side, run: seq<Step>)
    ensures var s := Run(Init(side), run);
            s.hist.issued !in s.hist.results && (s.core.Open? ==> s.hist.issued !in s.core.operations)
  {
    Promises.EveryRun(side, run);
    var s := Run(Init(side), run);
    assert s.hist.issued !in Promises.Below(s.hist.issued);
  }

  /** Bytes whose charge a step releases. */
  function ChargeOf(s: State, step: Step): nat {
    match step
    case Decode(id) => if id in s.threads.decoding then s.threads.decoding[id] else 0
    case ReadResult(key) => if key in s.threads.unread then s.threads.unread[key] else 0
    case DropPromise(key) => if key < s.hist.issued && key in s.threads.unread then s.threads.unread[key] else 0
    case DropGarbage => if s.threads.garbage != [] then s.threads.garbage[0] else 0
    case _ => 0
  }

  predicate Releases(step: Step) {
    step.Decode? || step.ReadResult? || step.DropPromise? || step.DropGarbage?
  }

  /** Every charge is contained in the counter. */
  lemma ChargeCovered(s: State, step: Step)
    requires Budget.Charged(s) && Releases(step)
    ensures ChargeOf(s, step) <= s.retained
  {
    if step.Decode? {
      EntryCovered(s.threads.decoding, step.id);
    } else if step.ReadResult? || step.DropPromise? {
      EntryCovered(s.threads.unread, step.key);
    }
  }

  lemma EntryCovered(m: map<nat, nat>, k: nat)
    ensures k in m ==> m[k] <= Budget.Total(m)
  {
    if k in m {
      Budget.TotalSplits(m, k);
    }
  }

  lemma ChargeInRun(side: Side, run: seq<Step>, step: Step)
    requires Releases(step)
    ensures var s := Run(Init(side), run); ChargeOf(s, step) <= s.retained
  {
    Budget.EveryRun(side, run);
    ChargeCovered(Run(Init(side), run), step);
  }

  /** A release changes the counter and what the threads hold, and nothing else. */
  lemma ReleaseFields(s: State, step: Step)
    requires Releases(step)
    ensures Do(s, step) == s.(retained := Minus(s.retained, ChargeOf(s, step)), threads := Do(s, step).threads)
  {
  }

  /** The oldest queued request is reserved and has no responder yet. */
  lemma QueuedIsOwed(side: Side, run: seq<Step>)
    requires var s := Run(Init(side), run); s.core.Open? && s.core.incoming != []
    ensures var s := Run(Init(side), run); var id := s.core.incoming[0].id;
            id in s.core.reserved && id !in s.threads.responders
  {
    Obligations.EveryRun(side, run);
    Obligations.QueuedAlone(Run(Init(side), run));
  }

  /** What delivery does with an answer that is awaited and with a request there is room for. */
  lemma Dispositions(s: State, e: Envelope, now: int)
    ensures s.core.Open? && KindOf(e.id, Own(s.side)) == IncomingResponse && e.id in s.core.outstanding
            && s.core.outstanding[e.id] in s.core.operations ==>
              Outcomes.AnswerTaken(s, Do(s, Deliver(e, now)), s.core.outstanding[e.id], e, now)
    ensures s.core.Open? && KindOf(e.id, Own(s.side)) == IncomingRequest && !e.body.failed
            && e.id !in s.core.reserved && Outcomes.Room(s, e) ==>
              Outcomes.RequestTaken(s, Do(s, Deliver(e, now)), e)
  {
    if s.core.Open? {
      if KindOf(e.id, Own(s.side)) == IncomingRequest {
        if !e.body.failed && e.id !in s.core.reserved {
          Outcomes.RequestAdmitted(s, e, now);
        }
      } else if e.id in s.core.outstanding && s.core.outstanding[e.id] in s.core.operations {
        Outcomes.AnswerSettles(s, e, now);
      }
    }
  }

  // ---------------------------------------------------------------------------

  /** The session with its lock-protected state, byte counter and promise channels. */
  class SessionInner {
    const side: Side
    var state: Core
    /** Byte counter shared with the envelopes it charges. */
    var retained: nat
    /** Promises created so far, and the result each channel has received. */
    var issued: nat
    var results: map<nat, Settlement>
    /** How often everyone asleep on the session has been woken. */
    var wakeups: nat
    /** What callers and workers hold, and what has happened. */
    ghost var threads: Threads
    ghost var past: History
    /** The critical sections so far. */
    ghost var run: seq<Step>

    /** The object as a state of the machine. */
    ghost function View(): State
      reads this
    {
      State(side, state, retained, threads, past.(issued := issued, results := results))
    }

    /** The object is in the state that its critical sections lead to. */
    ghost predicate Valid()
      reads this
    {
      View() == Run(Init(side), run)
    }

    /** So everything proved of all runs holds of it. */
    lemma ValidMeans()
      requires Valid()
      ensures Budget.Inv(View()) && Counted(View())
    {
      Budget.EveryRun(side, run);
      Numbering.EveryRun(side, run);
    }

    constructor (side: Side)
      ensures Valid() && View() == Init(side) && run == []
    {
      this.side := side;
      state := Open(DEFAULT_MAX_REQUESTS, DEFAULT_MAX_BYTES, DEFAULT_AUTOREPLY, [], {}, [],
                    Some(First(Own(side))), map[], map[]);
      retained, issued, results, wakeups := 0, 0, map[], 0;
      threads := Init(side).threads;
      past := Init(side).hist;
      run := [];
    }

    /** The section woke the sleepers exactly if the machine says that it does. */
    twostate predicate Woke(step: Step)
      reads this
    {
      wakeups == old(wakeups) + if Wakes(old(View()), step) then 1 else 0
    }

    /** Wakes everyone who sleeps on the session. */
    method NotifyAll()
      modifies this`wakeups
      ensures wakeups == old(wakeups) + 1
    {
      wakeups := wakeups + 1;
    }

    /** A critical section has ended. */
    ghost method Ran(step: Step)
      requires View() == Do(Run(Init(side), run), step)
      modifies this`run
      ensures Valid() && run == old(run) + [step]
    {
      RunMore(side, run, step);
      run := run + [step];
    }

    /** Fails expired operations and removes their queued messages; routes stay. */
    method DropExpired(now: int)
      modifies this`state, this`results, this`past
      ensures View() == ExpireState(old(View()), now)
    {
      if state.Shut? {
        return;
      }
      var pending, settled := FailExpired(state.operations, results, now);
      var kept, reserved := RetainPending(state.outgoing, state.reserved, pending.Keys);
      past := past.(discarded := past.discarded + multiset(Abandoned(state.outgoing, pending.Keys)));
      results := settled;
      state := state.(operations := pending, outgoing := kept, reserved := reserved);
    }

    /** Stops the session with its first reason and fails what is pending. */
    method Stop(reason: Error, now: int)
      modifies this`state, this`results, this`threads
      ensures View() == CloseState(old(View()), reason, now)
    {
      if state.Shut? {
        return;
      }
      results := FailAll(state.operations, results, reason, now);
      threads := threads.(garbage := threads.garbage + Lengths(state.incoming));
      state := Shut(reason);
    }

    method Expire(now: int)
      requires Valid()
      modifies this
      ensures Valid() && View() == Do(old(View()), Step.Expire(now))
      ensures Woke(Step.Expire(now))
      ensures old(state).Open? ==> Outcomes.DueSettled(old(View()), View(), now)
    {
      if state.Open? {
        Outcomes.ExpireSettles(View(), now);
      }
      DropExpired(now);
      Ran(Step.Expire(now));
    }

    /** Closes the session, and afterwards every promise ever issued is settled. */
    method Close(reason: Error, now: int)
      requires Valid() && reason != Timeout
      modifies this
      ensures Valid() && View() == Do(old(View()), Step.Close(reason, now))
      ensures Woke(Step.Close(reason, now))
      ensures state == if old(state).Shut? then old(state) else Shut(reason)
      ensures results.Keys == Promises.Below(issued) && issued == old(issued)
      ensures old(state).Open? ==>
                forall k :: k in old(state).operations && k in results ==>
                  results[k].result == Failed(if now >= old(state).operations[k].deadline then Timeout else reason)
    {
      if state.Open? {
        Promises.EveryRun(side, run);
        Promises.CloseSettlesAll(View(), reason, now);
      }
      Stop(reason, now);
      NotifyAll();
      Ran(Step.Close(reason, now));
      AllSettled(side, run);
    }

    /** Adds an operation and its message, or fails it when it is already late. */
    method Enqueue(content: Content, deadline: int, now: int)
      requires state.Open?
      modifies this`state, this`issued, this`results, this`past, this`wakeups
      ensures View() == Session.Enqueue(old(View()), content, deadline, now)
      ensures wakeups == old(wakeups) + if now < deadline then 1 else 0
    {
      var key := issued;
      issued := issued + 1;
      if now >= deadline {
        if content.Answer? {
          state := state.(reserved := state.reserved - {content.id});
          past := past.(discarded := past.discarded + multiset({content.id}));
        } else {
          assert state.reserved - {} == state.reserved;
          assert past.discarded + multiset({}) == past.discarded;
        }
        results := results[key := Failure(Timeout, now, deadline)];
        return;
      }
      state := state.(outgoing := state.outgoing + [Outgoing(key, content)],
                      operations := state.operations[key := Operation(deadline, content.Ask?)]);
      if content.Ask? {
        past := past.(asked := past.asked[key := content.body]);
      } else {
        past := past.(replies := past.replies[content.id := content.body]);
      }
      NotifyAll();
    }

    /** A promise that did not exist before, and is now pending or settled, and not both. */
    twostate predicate NewPromise(key: nat)
      reads this
    {
      && key == old(issued) && issued == old(issued) + 1
      && key !in old(results) && (old(state).Open? ==> key !in old(state).operations)
      && state.Open? && (key in results <==> key !in state.operations)
    }

    /** Queues a request under a new promise; a closed session refuses with its reason. */
    method Request(body: Body, deadline: int, now: int) returns (key: Option<nat>)
      requires Valid() && !body.failed
      modifies this
      ensures Valid() && View() == Do(old(View()), Step.Request(body, deadline, now))
      ensures Woke(Step.Request(body, deadline, now))
      ensures key.Some? <==> old(state).Open?
      ensures key.Some? ==> NewPromise(key.value)
      ensures key.Some? ==> Outcomes.MessageQueued(old(View()), View(), Ask(body), deadline, now)
    {
      key := None;
      if state.Open? {
        Outcomes.RequestQueues(View(), body, deadline, now);
        KeyIsFresh(side, run);
        key := Some(issued);
        Enqueue(Ask(body), deadline, now);
      }
      Ran(Step.Request(body, deadline, now));
    }

    /** A responder replies, once; its ID leaves the reserved ones when the writer takes the reply. */
    method Reply(id: nat, body: Body, deadline: int, now: int) returns (key: Option<nat>)
      requires Valid() && id in threads.responders && id !in threads.decoding
      modifies this
      ensures Valid() && View() == Do(old(View()), Step.Reply(id, body, deadline, now))
      ensures Woke(Step.Reply(id, body, deadline, now))
      ensures key.Some? <==> old(state).Open?
      ensures key.Some? ==> NewPromise(key.value) && id !in threads.responders
      ensures key.Some? ==> Outcomes.MessageQueued(old(View()), View(), Answer(id, body), deadline, now)
    {
      key := None;
      if state.Open? {
        Outcomes.ReplyQueues(View(), id, body, deadline, now);
        KeyIsFresh(side, run);
        key := Some(issued);
        threads := threads.(responders := threads.responders - {id});
        Enqueue(Answer(id, body), deadline, now);
      }
      Ran(Step.Reply(id, body, deadline, now));
    }

    /** Fixes the deadline of an automatic reply, under the lock for the first time. */
    method BeginAutoreply(id: nat, now: int, representable: bool) returns (deadline: Option<int>)
      requires Valid() && id in threads.responders + threads.unknown && id !in threads.decoding
      modifies this
      ensures Valid() && View() == Do(old(View()), Step.BeginAuto(id, now, representable))
      ensures Woke(Step.BeginAuto(id, now, representable))
      ensures deadline.Some? <==> old(state).Open?
      ensures deadline.Some? ==> id in threads.auto && threads.auto[id].deadline == deadline.value
      ensures deadline.Some? ==>
                && deadline.value == (if representable then now + old(state).autoreplyTimeout else now)
                && threads.auto[id].body == if id in old(threads).unknown then UNKNOWN else UNANSWERED
    {
      deadline := if state.Shut? then None
                  else Some(if representable then now + state.autoreplyTimeout else now);
      threads := BeginAutoState(View(), id, now, representable).threads;
      Ran(Step.BeginAuto(id, now, representable));
    }

    /** Queues the automatic reply, under the lock again; nobody keeps its promise. */
    method FinishAutoreply(id: nat, body: Body, deadline: int, now: int)
      requires Valid() && id in threads.auto && threads.auto[id] == Auto(deadline, body)
      modifies this
      ensures Valid() && View() == Do(old(View()), Step.FinishAuto(id, now)) && id !in threads.auto
      ensures Woke(Step.FinishAuto(id, now))
      ensures old(state).Open? ==> Outcomes.MessageQueued(old(View()), View(), Answer(id, body), deadline, now)
    {
      if state.Open? {
        Outcomes.AutoQueues(View(), id, now);
      }
      threads := threads.(auto := threads.auto - {id});
      if state.Open? {
        threads := threads.(gone := threads.gone + {issued});
        Enqueue(Answer(id, body), deadline, now);
      }
      Ran(Step.FinishAuto(id, now));
    }

    /**
     Expires, then takes the next message for the writer, if there is one. A request
     gets the ID after all those allocated before, which no request ever had.
     */
    method NextOutgoing(now: int) returns (m: Option<(nat, Outgoing)>)
      requires Valid() && threads.hand == Empty
      modifies this
      ensures Valid() && View() == Do(old(View()), Take(now))
      ensures Woke(Take(now))
      ensures m.Some? ==> threads.hand == Taken(m.value.0, m.value.1)
      ensures m.None? ==> threads.hand == Empty
      ensures m.Some? && m.value.1.content.Ask? ==>
                && m.value.0 == IdAt(side, |old(past).taken|) <= U64_MAX
                && past.taken == old(past).taken + [m.value.1.key]
                && forall k: nat :: k < |old(past).taken| ==> IdAt(side, k) != m.value.0
      ensures old(state).Open? ==> Outcomes.OldestTaken(old(View()), View(), now)
    {
      if state.Open? {
        Outcomes.OldestIsTaken(View(), now);
      }
      Numbering.EveryRun(side, run);
      m := TakeNext(now);
      Ran(Take(now));
    }

    method TakeNext(now: int) returns (m: Option<(nat, Outgoing)>)
      requires threads.hand == Empty && Counted(View())
      modifies this`state, this`results, this`past, this`threads
      ensures View() == TakeState(old(View()), now)
      ensures threads.hand == if m.Some? then Taken(m.value.0, m.value.1) else Empty
      ensures m.Some? && m.value.1.content.Ask? ==>
                && m.value.0 == IdAt(side, |old(past).taken|) <= U64_MAX
                && past.taken == old(past).taken + [m.value.1.key]
    {
      DropExpired(now);
      if state.Shut? || state.outgoing == [] {
        return None;
      }
      var message := state.outgoing[0];
      var rest := state.outgoing[1..];
      match message.content
      case Ask(_) =>
        if state.nextId.None? {
          return None;          // the source aborts the process here
        }
        var id := state.nextId.value;
        state := state.(outgoing := rest, nextId := NextId(id),
                        outstanding := state.outstanding[id := message.key]);
        past := past.(taken := past.taken + [message.key], order := past.order + [message.key]);
        threads := threads.(hand := Taken(id, message));
        return Some((id, message));
      case Answer(id, _) =>
        state := state.(outgoing := rest, reserved := state.reserved - {id});
        past := past.(replied := past.replied + multiset{id}, order := past.order + [message.key]);
        threads := threads.(hand := Taken(id, message));
        return Some((id, message));
    }

    /** The writer's message is on the wire. */
    ghost method Transmitted(length: nat)
      requires Valid()
      modifies this`threads, this`past, this`run
      ensures Valid() && View() == Do(old(View()), Transmit(length))
      ensures Woke(Transmit(length))
    {
      var t := Do(View(), Transmit(length));
      threads, past := t.threads, t.hist;
      Ran(Transmit(length));
    }

    /** Withdraws the route of a request that the encoder refused, so that it was never sent. */
    method Withdraw(id: nat, request: bool)
      requires Valid() && threads.hand.Taken?
      requires threads.hand.id == id && threads.hand.message.content.Ask? == request
      modifies this
      ensures Valid() && View() == Do(old(View()), Unroute)
      ensures Woke(Unroute)
      ensures request && state.Open? ==> id !in state.outstanding
    {
      if state.Open? && request {
        state := state.(outstanding := state.outstanding - {id});
      }
      ghost var t := UnrouteState(View());
      threads, past := t.threads, t.hist;
      Ran(Unroute);
    }

    /** Records the result of writing the message the writer holds. */
    method RecordWrite(key: nat, refused: bool, now: int)
      requires Valid() && (threads.hand.Sent? || threads.hand.Unsent?)
      requires threads.hand.message.key == key && threads.hand.Unsent? == refused
      modifies this
      ensures Valid() && View() == Do(old(View()), Step.RecordWrite(now))
      ensures Woke(Step.RecordWrite(now))
      ensures Promises.Extends(old(results), results)
      ensures old(state).Open? ==> Outcomes.WriteSettled(old(View()), View(), now)
    {
      Promises.EveryRun(side, run);
      if state.Open? {
        Outcomes.RecordedAs(View(), now);
      }
      Promises.StepFinal(View(), Step.RecordWrite(now));
      NoteWrite(key, refused, now);
      Ran(Step.RecordWrite(now));
    }

    method NoteWrite(key: nat, refused: bool, now: int)
      requires threads.hand.Sent? || threads.hand.Unsent?
      requires threads.hand.message.key == key && threads.hand.Unsent? == refused
      modifies this`state, this`results, this`threads
      ensures View() == RecordWriteState(old(View()), now)
    {
      threads := threads.(hand := Empty);
      if state.Open? && key in state.operations {
        var op := state.operations[key];
        if now >= op.deadline || refused {
          results := results[key := Failure(if refused then Refused else Timeout, now, op.deadline)];
          state := state.(operations := state.operations - {key});
        } else if !op.response {
          results := results[key := Settlement(Written, now, op.deadline)];
          state := state.(operations := state.operations - {key});
        }
      }
    }

    /** A wire failure closes the session and ends the writer. */
    method FailWriter(now: int)
      requires Valid() && (threads.hand.Taken? || threads.hand.Sent?)
      modifies this
      ensures Valid() && View() == Do(old(View()), WriteFailed(now))
      ensures state == (if old(state).Shut? then old(state) else Shut(Transport)) && threads.hand == Empty
      ensures Woke(WriteFailed(now))
    {
      Stop(Transport, now);
      NotifyAll();
      threads := threads.(hand := Empty);
      Ran(WriteFailed(now));
    }

    /** Counts an envelope's bytes unless they would exceed the limit. */
    method Reserve(length: nat) returns (ok: bool)
      requires state.Open?
      modifies this`retained
      ensures ok <==> old(retained) + length <= state.maxBytes
      ensures retained == if ok then old(retained) + length else old(retained)
    {
      ok := retained + length <= state.maxBytes;
      if ok {
        retained := retained + length;
      }
    }

    /** Gives back the bytes of a consumed or dropped envelope, of which the counter has enough. */
    method ReleaseCharge(bytes: nat, ghost step: Step)
      requires Valid() && Releases(step) && bytes == ChargeOf(View(), step)
      modifies this
      ensures Valid() && View() == Do(old(View()), step)
      ensures Woke(step)
      ensures retained == old(retained) - bytes
    {
      ChargeInRun(side, run, step);
      ReleaseFields(View(), step);
      ghost var t := Do(View(), step);
      retained := retained - bytes;
      threads := t.threads;
      Ran(step);
    }

    /** Checks the limits, then reserves a slot and buffers known content. */
    method AdmitRequest(e: Envelope) returns (r: Option<Error>)
      requires state.Open? && !e.body.failed && KindOf(e.id, Own(side)) == IncomingRequest
      modifies this`state, this`retained, this`threads, this`past
      ensures forall now :: r == Verdict(old(View()), e, now)
      ensures View() == if r.Some? then old(View()) else Admit(old(View()), e)
      ensures r.None? <==> e.id !in old(state).reserved && Outcomes.Room(old(View()), e)
      ensures r.None? ==> Outcomes.RequestTaken(old(View()), View(), e)
    {
      if e.id in state.reserved {
        return Some(Malformed);
      }
      if |state.reserved| >= state.maxRequests {
        return Some(RequestLimit(state.maxRequests));
      }
      if e.body.unknown {
        threads := threads.(unknown := threads.unknown + {e.id});
        state := state.(reserved := state.reserved + {e.id});
      } else {
        var ok := Reserve(e.length);
        if !ok {
          return Some(ByteLimit(state.maxBytes));
        }
        state := state.(reserved := state.reserved + {e.id}, incoming := state.incoming + [e]);
      }
      past := past.(admitted := past.admitted + multiset{e.id}, requests := past.requests[e.id := e.body]);
      return None;
    }

    /** Publishes an answer to the promise that asked, or its failure. */
    method CompleteResponse(key: nat, e: Envelope, gone: bool, now: int) returns (r: Option<Error>)
      requires state.Open? && key in state.operations && gone == (key in threads.gone)
      modifies this`state, this`retained, this`results, this`threads
      ensures View() == Session.CompleteResponse(old(View()), key, e, now)
      ensures r.Some? <==> now < old(state).operations[key].deadline && !gone
                           && old(retained) + e.length > old(state).maxBytes
      ensures r.Some? ==> r.value == ByteLimit(old(state).maxBytes)
      ensures Outcomes.AnswerTaken(old(View()), View(), key, e, now)
    {
      Outcomes.CompletionTakes(View(), key, e, now);
      var op := state.operations[key];
      state := state.(operations := state.operations - {key});
      r := None;
      if now >= op.deadline {
        results := results[key := Failure(Timeout, now, op.deadline)];
      } else {
        var ok := Reserve(e.length);
        if ok {
          results := results[key := Settlement(Answered(e), now, op.deadline)];
          if gone {
            retained := retained - e.length;      // the failed send drops the envelope
          } else {
            threads := threads.(unread := threads.unread[key := e.length]);
          }
        } else {
          results := results[key := Settlement(Failed(ByteLimit(state.maxBytes)), now, op.deadline)];
          if !gone {
            r := Some(ByteLimit(state.maxBytes));
          }
        }
      }
    }

    /** Routes one envelope; an error tells the reader to close the session. */
    method HandleMessage(e: Envelope, gone: set<nat>, now: int) returns (r: Option<Error>)
      requires Valid() && gone == threads.gone
      modifies this
      ensures Valid() && View() == Do(old(View()), Deliver(e, now))
      ensures Woke(Deliver(e, now))
      ensures r == Verdict(old(View()), e, now)
      ensures state.Open? ==> |state.reserved| <= state.maxRequests && retained <= state.maxBytes
      ensures old(state).Open? && KindOf(e.id, Own(side)) == IncomingResponse && e.id in old(state).outstanding
              && old(state).outstanding[e.id] in old(state).operations ==>
                Outcomes.AnswerTaken(old(View()), View(), old(state).outstanding[e.id], e, now)
      ensures old(state).Open? && KindOf(e.id, Own(side)) == IncomingRequest && !e.body.failed
              && e.id !in old(state).reserved && Outcomes.Room(old(View()), e) ==>
                Outcomes.RequestTaken(old(View()), View(), e)
    {
      Dispositions(View(), e, now);
      r := Route(e, gone, now);
      if r.None? {
        NotifyAll();
      }
      Ran(Deliver(e, now));
      ValidMeans();
    }

    method Route(e: Envelope, gone: set<nat>, now: int) returns (r: Option<Error>)
      requires gone == threads.gone
      modifies this`state, this`retained, this`results, this`threads, this`past
      ensures View() == DeliverState(old(View()), e, now)
      ensures r == Verdict(old(View()), e, now)
    {
      if KindOf(e.id, Own(side)) == IncomingRequest {
        if e.body.failed {
          return Some(Malformed);
        }
        if state.Shut? {
          return Some(state.reason);
        }
        r := AdmitRequest(e);
      } else {
        if state.Shut? {
          return Some(state.reason);
        }
        past := past.(heard := past.heard + {e.id});
        if e.id !in state.outstanding {
          return None;
        }
        var key := state.outstanding[e.id];
        state := state.(outstanding := state.outstanding - {e.id});
        if key !in state.operations {
          return None;
        }
        r := CompleteResponse(key, e, key in gone, now);
      }
    }

    /** Updates both limits and closes the session if usage is already too high. */
    method SetInboundLimits(requests: nat, bytes: nat, now: int)
      requires Valid()
      modifies this
      ensures Valid() && View() == Do(old(View()), SetLimits(requests, bytes, now))
      ensures Woke(SetLimits(requests, bytes, now))
      ensures old(state).Open? ==>
                state == if |old(state).reserved| > requests then Shut(RequestLimit(requests))
                         else if retained > bytes then Shut(ByteLimit(bytes))
                         else old(state).(maxRequests := requests, maxBytes := bytes)
    {
      if state.Open? {
        Outcomes.LimitsSet(View(), requests, bytes, now);
      }
      if state.Open? {
        state := state.(maxRequests := requests, maxBytes := bytes);
        if |state.reserved| > requests {
          Stop(RequestLimit(requests), now);
          NotifyAll();
        } else if retained > bytes {
          Stop(ByteLimit(bytes), now);
          NotifyAll();
        }
      }
      Ran(SetLimits(requests, bytes, now));
    }

    method SetAutoreplyTimeout(timeout: int)
      requires Valid()
      modifies this
      ensures Valid() && View() == Do(old(View()), SetAutoreply(timeout))
      ensures Woke(SetAutoreply(timeout))
      ensures state == if old(state).Open? then old(state).(autoreplyTimeout := timeout) else old(state)
    {
      if state.Open? {
        state := state.(autoreplyTimeout := timeout);
      }
      Ran(SetAutoreply(timeout));
    }

    /** Takes the next queued request; its charge is held until it is decoded. */
    method Receive() returns (r: Option<Envelope>)
      requires Valid()
      modifies this
      ensures Valid() && View() == Do(old(View()), Recv)
      ensures Woke(Recv)
      ensures r.Some? <==> old(state).Open? && old(state).incoming != []
      ensures r.Some? ==> r.value == old(state).incoming[0] && r.value.id in threads.responders
      ensures r.Some? ==> r.value.id !in old(threads).responders && r.value.id in state.reserved
    {
      r := None;
      if state.Open? && state.incoming != [] {
        var e := state.incoming[0];
        QueuedIsOwed(side, run);
        state := state.(incoming := state.incoming[1..]);
        threads := threads.(responders := threads.responders + {e.id},
                            decoding := threads.decoding[e.id := e.length]);
        r := Some(e);
      }
      Ran(Recv);
    }
  }
}
