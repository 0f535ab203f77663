/**
 Two sessions joined by order-preserving channels: every answered request gets
 the body the peer queued for that same request.
 */
module Correlation {
  import opened Prelude
  import opened Wire
  import opened Session
  import opened Numbering
  import opened Outcomes
  import Promises
  import Obligations

  /** A client and a server session with the envelopes in flight between them. */
  datatype System = System(client: State, server: State, up: seq<Envelope>, down: seq<Envelope>)

  datatype SystemStep =
    | Act(side: Side, step: Step)            // any step but transmission and delivery
    | Send(side: Side, length: nat)          // the writer's bytes reach the wire
    | Receive(side: Side, now: int)          // the reader handles the next envelope

  function Start(): System {
    System(Init(Client), Init(Server), [], [])
  }

  function Next(s: System, x: SystemStep): System {
    match x
    case Act(side, step) =>
      if step.Transmit? || step.Deliver? then s
      else if side == Client then s.(client := Do(s.client, step)) else s.(server := Do(s.server, step))
    case Send(side, length) =>
      var me := if side == Client then s.client else s.server;
      if !me.threads.hand.Taken? then s
      else
        var e := HandEnvelope(me.threads.hand, length);
        if side == Client then s.(client := Do(me, Transmit(length)), up := s.up + [e])
        else s.(server := Do(me, Transmit(length)), down := s.down + [e])
    case Receive(side, now) =>
      if side == Client then
        if s.down == [] then s
        else s.(client := Do(s.client, Deliver(s.down[0], now)), down := s.down[1..])
      else
        if s.up == [] then s
        else s.(server := Do(s.server, Deliver(s.up[0], now)), up := s.up[1..])
  }

  function Exec(steps: seq<SystemStep>): System
    decreases |steps|
  {
    if steps == [] then Start() else Next(Exec(steps[..|steps| - 1]), steps[|steps| - 1])
  }

  // ---------------------------------------------------------------------------
  // What one session keeps

  /** The ID was allocated to one of this session's requests. */
  predicate Allocated(x: State, id: nat) {
    IndexOf(x.side, id) < |x.hist.taken| && id == IdAt(x.side, IndexOf(x.side, id))
  }

  /** Promise and body of the request with an allocated ID. */
  function KeyOf(x: State, id: nat): nat
    requires Allocated(x, id)
  {
    x.hist.taken[IndexOf(x.side, id)]
  }

  ghost predicate Carries(x: State, id: nat, body: Body) {
    Allocated(x, id) && KeyOf(x, id) in x.hist.asked && x.hist.asked[KeyOf(x, id)] == body
  }

  /** Requests are numbered in the order taken, from the first ID in steps of two. */
  ghost predicate Numbered(x: State) {
    && (forall k :: 0 <= k < |x.hist.taken| ==>
          x.hist.taken[k] in x.hist.asked && IdAt(x.side, k) <= U64_MAX)
    && (forall k :: k in x.hist.asked ==> k < x.hist.issued && !x.hist.asked[k].failed)
    && Counted(x)
    && (x.core.Open? ==>
          forall m :: m in x.core.outgoing && m.content.Ask? ==>
            m.key in x.hist.asked && x.hist.asked[m.key] == m.content.body)
  }

  /** Exactly the unanswered requests that may be on the wire have a route. */
  ghost predicate Routed(x: State) {
    && (forall id :: id in x.hist.refused ==> Allocated(x, id))
    && (x.core.Open? ==>
          forall id :: id in x.core.outstanding <==>
            Allocated(x, id) && id !in x.hist.heard && id !in x.hist.refused)
    && (x.core.Open? ==>
          forall id :: id in x.core.outstanding ==> Allocated(x, id) && x.core.outstanding[id] == KeyOf(x, id))
  }

  /** An answer the writer holds is the queued one, and its ID is released. */
  ghost predicate HeldAnswer(y: State) {
    var h := y.threads.hand;
    !h.Empty? && h.message.content.Answer? ==>
      && h.id == h.message.content.id && h.id in y.hist.replies
      && y.hist.replies[h.id] == h.message.content.body
      && (h.Taken? ==> h.id !in y.hist.transmitted && (y.core.Open? ==> h.id !in y.core.reserved))
  }

  /** Each accepted request is answered at most once, by what was queued for it. */
  ghost predicate Answerable(y: State) {
    && y.hist.transmitted <= y.hist.replies.Keys <= y.hist.requests.Keys
    && HeldAnswer(y)
    && (y.core.Open? ==>
          && y.core.reserved <= y.hist.requests.Keys
          && y.core.reserved !! y.hist.transmitted
          && (forall id :: id in Obligations.Held(y) ==> id !in y.hist.replies)
          && (forall m :: m in y.core.outgoing && m.content.Answer? ==>
                m.content.id in y.hist.replies && y.hist.replies[m.content.id] == m.content.body))
  }

  ghost predicate Local(x: State) {
    && Promises.Inv(x) && Obligations.Owed(x)
    && Numbered(x) && Routed(x) && Answerable(x)
  }

  // ---------------------------------------------------------------------------
  // What holds between the sessions

  predicate Mine(x: State, e: Envelope) {
    ParityOf(e.id) == Own(x.side)
  }

  /** Requests of `x` in flight are newer than all `y` accepted, in order, and as asked. */
  ghost predicate Asking(x: State, fwd: seq<Envelope>, y: State) {
    && (forall i :: 0 <= i < |fwd| && Mine(x, fwd[i]) ==>
          && Carries(x, fwd[i].id, fwd[i].body) && fwd[i].id !in x.hist.refused
          && fwd[i].id !in y.hist.requests)
    && (forall i, j :: 0 <= i < j < |fwd| && Mine(x, fwd[i]) && Mine(x, fwd[j]) ==> fwd[i].id != fwd[j].id)
    && (forall id :: id in y.hist.requests ==>
          Carries(x, id, y.hist.requests[id]) && id !in x.hist.refused)
    && HeldRequest(x, fwd, y)
  }

  /** A request taken but not yet sent is nowhere else. */
  ghost predicate HeldRequest(x: State, fwd: seq<Envelope>, y: State) {
    var h := x.threads.hand;
    !h.Empty? && h.message.content.Ask? ==>
      && Carries(x, h.id, h.message.content.body)
      && (h.Taken? ==>
            && h.id !in x.hist.refused && h.id !in y.hist.requests
            && (forall i :: 0 <= i < |fwd| ==> fwd[i].id != h.id))
  }

  /** Answers to `x` in flight are the queued ones, each for the first time. */
  ghost predicate Answering(x: State, y: State, back: seq<Envelope>) {
    && x.hist.heard <= y.hist.transmitted
    && (forall i :: 0 <= i < |back| && Mine(x, back[i]) ==>
          && back[i].id in y.hist.transmitted && back[i].id !in x.hist.heard
          && back[i].id in y.hist.replies && y.hist.replies[back[i].id] == back[i].body)
    && (forall i, j :: 0 <= i < j < |back| && Mine(x, back[i]) && Mine(x, back[j]) ==> back[i].id != back[j].id)
  }

  /** A promise that got an answer got the peer's answer to its own request. */
  ghost predicate Matched(x: State, y: State, key: nat, e: Envelope) {
    && Allocated(x, e.id) && KeyOf(x, e.id) == key
    && key in x.hist.asked
    && e.id in y.hist.requests && y.hist.requests[e.id] == x.hist.asked[key]
    && e.id in y.hist.replies && y.hist.replies[e.id] == e.body
  }

  ghost predicate AllMatched(x: State, y: State) {
    forall k :: k in x.hist.results && x.hist.results[k].result.Answered? ==>
      Matched(x, y, k, x.hist.results[k].result.envelope)
  }

  ghost predicate Link(x: State, fwd: seq<Envelope>, y: State, back: seq<Envelope>) {
    Asking(x, fwd, y) && Answering(x, y, back) && AllMatched(x, y)
  }

  // ---------------------------------------------------------------------------
  // Local steps

  /** What was asked, accepted, answered and settled stays so. */
  ghost predicate Remembers(s: State, t: State) {
    && t.side == s.side
    && s.hist.taken <= t.hist.taken
    && (forall k :: k in s.hist.asked ==> k in t.hist.asked && t.hist.asked[k] == s.hist.asked[k])
    && t.hist.requests == s.hist.requests
    && (forall id :: id in s.hist.replies ==> id in t.hist.replies && t.hist.replies[id] == s.hist.replies[id])
    && t.hist.transmitted == s.hist.transmitted && t.hist.heard == s.hist.heard
    && (forall k :: k in t.hist.results && t.hist.results[k].result.Answered? ==>
          k in s.hist.results && s.hist.results[k] == t.hist.results[k])
    && s.hist.refused <= t.hist.refused
  }

  predicate HoldsAsk(h: Hand) {
    !h.Empty? && h.message.content.Ask?
  }

  /** A request in hand is new, or the one already in hand; only that one is refused. */
  ghost predicate HandMoves(s: State, t: State) {
    var h, g := s.threads.hand, t.threads.hand;
    && (HoldsAsk(g) ==> Carries(t, g.id, g.message.content.body))
    && (HoldsAsk(g) && g.Taken? ==> g.id !in t.hist.refused && (g == h || !Allocated(s, g.id)))
    && (forall id :: id in t.hist.refused ==> id in s.hist.refused || (HoldsAsk(h) && h.Taken? && h.id == id))
  }

  /** How a session may change without touching the channels. */
  ghost predicate Grew(s: State, t: State) {
    Remembers(s, t) && HandMoves(s, t)
  }

  lemma GrewCarries(s: State, t: State, id: nat, body: Body)
    requires Grew(s, t) && Carries(s, id, body)
    ensures Carries(t, id, body) && KeyOf(t, id) == KeyOf(s, id)
  {
  }

  /** The asking session's own steps keep the link. */
  lemma AskerKeeps(s: State, t: State, fwd: seq<Envelope>, y: State, back: seq<Envelope>)
    requires Link(s, fwd, y, back) && Grew(s, t)
    ensures Link(t, fwd, y, back)
  {
    forall i | 0 <= i < |fwd| && Mine(t, fwd[i])
      ensures Carries(t, fwd[i].id, fwd[i].body) && fwd[i].id !in t.hist.refused
    {
      GrewCarries(s, t, fwd[i].id, fwd[i].body);
    }
    forall id | id in y.hist.requests
      ensures Carries(t, id, y.hist.requests[id]) && id !in t.hist.refused
    {
      GrewCarries(s, t, id, y.hist.requests[id]);
    }
    forall k | k in t.hist.results && t.hist.results[k].result.Answered?
      ensures Matched(t, y, k, t.hist.results[k].result.envelope)
    {
      assert Matched(s, y, k, s.hist.results[k].result.envelope);
    }
    assert forall i :: 0 <= i < |fwd| && Mine(s, fwd[i]) ==> Allocated(s, fwd[i].id);
  }

  /** The answering session's own steps keep the link. */
  lemma AnswererKeeps(x: State, fwd: seq<Envelope>, s: State, t: State, back: seq<Envelope>)
    requires Link(x, fwd, s, back) && Grew(s, t)
    ensures Link(x, fwd, t, back)
  {
    forall k | k in x.hist.results && x.hist.results[k].result.Answered?
      ensures Matched(x, t, k, x.hist.results[k].result.envelope)
    {
      assert Matched(x, s, k, x.hist.results[k].result.envelope);
    }
  }

  // -- Expiry

  lemma ExpireRemembers(s: State, now: int)
    ensures Remembers(s, ExpireState(s, now))
    ensures ExpireState(s, now).threads == s.threads && ExpireState(s, now).hist.refused == s.hist.refused
    ensures ExpireState(s, now).hist.taken == s.hist.taken && ExpireState(s, now).hist.asked == s.hist.asked
  {
  }

  lemma ExpireLocal(s: State, now: int)
    requires Local(s)
    ensures Local(ExpireState(s, now))
  {
    assert Promises.Inv(ExpireState(s, now)) by { Promises.ExpireKeeps(s, now); }
    assert Obligations.Owed(ExpireState(s, now)) by { Obligations.ExpireOwed(s, now); }
    if s.core.Open? {
      Promises.RetainedKeeps(s.core.outgoing, Kept(s.core.operations, now).Keys);
      ExpireTalk(s, ExpireState(s, now));
    }
  }

  /** Losing queued messages and reservations keeps the conversation. */
  lemma ExpireTalk(s: State, t: State)
    requires Numbered(s) && Routed(s) && Answerable(s) && s.core.Open? && t.core.Open?
    requires t.side == s.side && t.threads == s.threads
    requires t.core.nextId == s.core.nextId && t.core.outstanding == s.core.outstanding
    requires t.core.incoming == s.core.incoming && t.core.reserved <= s.core.reserved
    requires forall m :: m in t.core.outgoing ==> m in s.core.outgoing
    requires t.hist == s.hist.(results := t.hist.results, discarded := t.hist.discarded)
    ensures Numbered(t) && Routed(t) && Answerable(t)
  {
    assert Obligations.Held(t) == Obligations.Held(s);
  }

  // -- Queuing

  ghost predicate Talks(s: State) {
    Numbered(s) && Routed(s) && Answerable(s)
  }

  /** Routes depend on what was taken, heard and refused. */
  lemma RoutedFrame(s: State, t: State)
    requires Routed(s) && t.side == s.side
    requires t.hist.taken == s.hist.taken && t.hist.heard == s.hist.heard && t.hist.refused == s.hist.refused
    requires t.core.Open? ==> s.core.Open? && t.core.outstanding == s.core.outstanding
    ensures Routed(t)
  {
    assert forall id :: Allocated(t, id) == Allocated(s, id);
  }

  /** Numbers depend on what was asked and taken. */
  lemma NumberedFrame(s: State, t: State)
    requires Numbered(s) && t.side == s.side && t.hist.issued >= s.hist.issued
    requires t.hist.taken == s.hist.taken && t.hist.asked == s.hist.asked
    requires t.core.Open? ==>
               && s.core.Open? && t.core.nextId == s.core.nextId
               && (forall m :: m in t.core.outgoing && m.content.Ask? ==> m in s.core.outgoing)
    ensures Numbered(t)
  {
  }

  /** Answers depend on what was accepted, queued and sent. */
  lemma AnswerableFrame(s: State, t: State)
    requires Answerable(s)
    requires t.hist.requests == s.hist.requests && t.hist.replies == s.hist.replies
    requires t.hist.transmitted == s.hist.transmitted && t.threads.hand == s.threads.hand
    requires t.core.Open? ==>
               && s.core.Open? && t.core.reserved <= s.core.reserved
               && Obligations.Held(t) == Obligations.Held(s)
               && (forall m :: m in t.core.outgoing && m.content.Answer? ==> m in s.core.outgoing)
    ensures Answerable(t)
  {
  }

  /** What queuing a request changes. */
  lemma AskFields(s: State, body: Body, deadline: int, now: int)
    requires s.core.Open?
    ensures var t := Enqueue(s, Ask(body), deadline, now); var key := s.hist.issued;
            && t.side == s.side && t.threads == s.threads && t.core.Open?
            && t.core.outstanding == s.core.outstanding && t.core.nextId == s.core.nextId
            && t.core.reserved == s.core.reserved && t.core.incoming == s.core.incoming
            && ((t.core.outgoing == s.core.outgoing && t.hist.asked == s.hist.asked)
                || (t.core.outgoing == s.core.outgoing + [Outgoing(key, Ask(body))]
                    && t.hist.asked == s.hist.asked[key := body]))
            && t.hist == s.hist.(issued := key + 1, asked := t.hist.asked, results := t.hist.results)
  {
  }

  lemma AskNumbered(s: State, t: State, key: nat, body: Body)
    requires Numbered(s) && s.core.Open? && t.core.Open? && !body.failed && key == s.hist.issued
    requires t.side == s.side && t.core.nextId == s.core.nextId && t.hist.taken == s.hist.taken
    requires t.hist.issued == key + 1
    requires (t.core.outgoing == s.core.outgoing && t.hist.asked == s.hist.asked)
             || (t.core.outgoing == s.core.outgoing + [Outgoing(key, Ask(body))]
                 && t.hist.asked == s.hist.asked[key := body])
    ensures Numbered(t)
  {
    assert key !in s.hist.asked;
  }

  lemma AskRemembers(s: State, body: Body, deadline: int, now: int)
    requires s.core.Open? && s.hist.issued !in s.hist.asked
    ensures Remembers(s, Enqueue(s, Ask(body), deadline, now))
  {
  }

  lemma AskTalk(s: State, body: Body, deadline: int, now: int)
    requires Talks(s) && s.core.Open? && !body.failed
    ensures var t := Enqueue(s, Ask(body), deadline, now);
            Talks(t) && Remembers(s, t) && t.threads == s.threads && t.hist.refused == s.hist.refused
  {
    var t := Enqueue(s, Ask(body), deadline, now);
    assert s.hist.issued !in s.hist.asked;
    AskRemembers(s, body, deadline, now);
    AskFields(s, body, deadline, now);
    AskNumbered(s, t, s.hist.issued, body);
    assert Obligations.Held(t) == Obligations.Held(s);
    RoutedFrame(s, t);
    AnswerableFrame(s, t);
  }

  /** Queued answers are on record, and so is one more. */
  lemma QueueRecorded(q: seq<Outgoing>, replies: map<nat, Body>, key: nat, id: nat, body: Body)
    requires id !in replies
    requires forall m :: m in q && m.content.Answer? ==>
               m.content.id in replies && replies[m.content.id] == m.content.body
    ensures forall m :: m in q + [Outgoing(key, Answer(id, body))] && m.content.Answer? ==>
              m.content.id in replies[id := body] && replies[id := body][m.content.id] == m.content.body
  {
  }

  lemma HeldAnswerRecorded(u: State, t: State, id: nat, body: Body)
    requires HeldAnswer(u) && u.core.Open? && t.core.Open? && id !in u.hist.replies
    requires t.hist.transmitted == u.hist.transmitted && t.hist.replies == u.hist.replies[id := body]
    requires t.threads.hand == u.threads.hand && t.core.reserved == u.core.reserved
    ensures HeldAnswer(t)
  {
  }

  /** The answer of an obligation just given up is new, and on record from now on. */
  lemma AnswerRecorded(u: State, t: State, key: nat, id: nat, body: Body)
    requires Answerable(u) && u.core.Open? && t.core.Open?
    requires id in u.core.reserved && id !in u.hist.replies && id !in Obligations.Held(t)
    requires t.hist.requests == u.hist.requests && t.hist.transmitted == u.hist.transmitted
    requires t.hist.replies == u.hist.replies[id := body]
    requires t.threads.hand == u.threads.hand && t.core.reserved == u.core.reserved
    requires forall x :: x in Obligations.Held(t) ==> x in Obligations.Held(u)
    requires t.core.outgoing == u.core.outgoing + [Outgoing(key, Answer(id, body))]
    ensures Answerable(t)
  {
    HeldAnswerRecorded(u, t, id, body);
    QueueRecorded(u.core.outgoing, u.hist.replies, key, id, body);
  }

  /** An obligation given up is reserved, unanswered and no longer held. */
  lemma GiveUp(s: State, u: State, id: nat)
    requires Answerable(s) && Obligations.Owed(s) && s.core.Open? && u.core == s.core
    requires Obligations.Held(s) == Obligations.Held(u) + multiset{id}
    ensures id in s.core.reserved && id !in s.hist.replies && id !in Obligations.Held(u)
    ensures forall x :: x in Obligations.Held(u) ==> x in Obligations.Held(s)
  {
    Obligations.OnePlace(Obligations.AccountOf(s), id);
    GivenUp(Obligations.Held(s), Obligations.Held(u), id);
    HeldReserved(s, id);
  }

  /** Queuing the answer of an obligation that `s` just gave up. */
  lemma AnswerTalk(s: State, threads: Threads, id: nat, body: Body, deadline: int, now: int)
    requires Talks(s) && Obligations.Owed(s) && s.core.Open?
    requires threads.hand == s.threads.hand
    requires Obligations.Held(s) == Obligations.Held(s.(threads := threads)) + multiset{id}
    ensures var t := Enqueue(s.(threads := threads), Answer(id, body), deadline, now);
            Talks(t) && Remembers(s, t) && t.threads == threads && t.hist.refused == s.hist.refused
  {
    var u := s.(threads := threads);
    GiveUp(s, u, id);
    AnswerQueues(s, u, id, body, deadline, now);
    AnswerRemembers(s, u, id, body, deadline, now);
  }

  lemma AnswerRemembers(s: State, u: State, id: nat, body: Body, deadline: int, now: int)
    requires s.core.Open? && u == s.(threads := u.threads) && id !in s.hist.replies
    ensures Remembers(s, Enqueue(u, Answer(id, body), deadline, now))
  {
  }

  lemma AnswerQueues(s: State, u: State, id: nat, body: Body, deadline: int, now: int)
    requires Talks(s) && s.core.Open? && u == s.(threads := u.threads) && u.threads.hand == s.threads.hand
    requires id in s.core.reserved && id !in s.hist.replies && id !in Obligations.Held(u)
    requires forall x :: x in Obligations.Held(u) ==> x in Obligations.Held(s)
    ensures Talks(Enqueue(u, Answer(id, body), deadline, now))
  {
    var t := Enqueue(u, Answer(id, body), deadline, now);
    assert Obligations.Held(t) == Obligations.Held(u);
    RoutedFrame(s, t);
    assert forall m :: m in t.core.outgoing ==> m in s.core.outgoing || m.content == Answer(id, body);
    NumberedFrame(s, t);
    assert Answerable(t) by {
      if now < deadline {
        assert t.core.outgoing == s.core.outgoing + [Outgoing(s.hist.issued, Answer(id, body))];
        AnswerRecorded(s, t, s.hist.issued, id, body);
      } else {
        ExpiredAnswer(s, t);
      }
    }
  }

  lemma ExpiredAnswer(s: State, t: State)
    requires Answerable(s) && s.core.Open? && t.core.Open?
    requires t.hist.requests == s.hist.requests && t.hist.replies == s.hist.replies
    requires t.hist.transmitted == s.hist.transmitted && t.threads.hand == s.threads.hand
    requires t.core.reserved <= s.core.reserved && t.core.outgoing == s.core.outgoing
    requires forall x :: x in Obligations.Held(t) ==> x in Obligations.Held(s)
    ensures Answerable(t)
  {
  }

  lemma GivenUp(before: multiset<nat>, after: multiset<nat>, id: nat)
    requires before == after + multiset{id} && before[id] <= 1
    ensures id in before && id !in after
    ensures forall x :: x in after ==> x in before
  {
    assert before[id] == after[id] + 1;
  }

  /** Whatever is owed is reserved. */
  lemma HeldReserved(s: State, id: nat)
    requires Obligations.Owed(s) && s.core.Open? && id in Obligations.Held(s)
    ensures id in s.core.reserved
  {
    assert id in multiset(s.core.reserved);
  }

  /** Whatever is answered in the queue is reserved. */
  lemma {:induction false} AnswerQueued(q: seq<Outgoing>, m: Outgoing)
    requires m in q && m.content.Answer?
    ensures m.content.id in Obligations.AnswerIds(q)
  {
    if m != q[0] {
      AnswerQueued(q[1..], m);
    }
  }

  // -- Taking

  lemma TakeAskNumbered(e: State, t: State, id: nat)
    requires Numbered(e) && e.core.Open? && t.core.Open? && t.side == e.side
    requires e.core.outgoing != [] && e.core.outgoing[0].content.Ask? && e.core.nextId == Some(id)
    requires t.core.outgoing == e.core.outgoing[1..] && t.core.nextId == NextId(id)
    requires t.hist.taken == e.hist.taken + [e.core.outgoing[0].key]
    requires t.hist.asked == e.hist.asked && t.hist.issued == e.hist.issued
    ensures Numbered(t)
  {
    AllocatedIds(e.side, |e.hist.taken|);
    assert e.core.outgoing[0] in e.core.outgoing;
    assert forall m :: m in t.core.outgoing ==> m in e.core.outgoing;
    assert id == IdAt(e.side, |e.hist.taken|) <= U64_MAX;
  }

  lemma TakeAskRouted(e: State, t: State, id: nat, key: nat)
    requires Routed(e) && e.core.Open? && t.core.Open? && t.side == e.side
    requires id == IdAt(e.side, |e.hist.taken|) && t.hist.taken == e.hist.taken + [key]
    requires t.core.outstanding == e.core.outstanding[id := key]
    requires t.hist.heard == e.hist.heard && t.hist.refused == e.hist.refused
    requires forall j :: j in e.hist.heard ==> Allocated(e, j)
    ensures Routed(t) && Allocated(t, id) && KeyOf(t, id) == key && !Allocated(e, id)
  {
    AllocatedIds(e.side, |e.hist.taken|);
    assert forall j :: Allocated(t, j) <==> Allocated(e, j) || j == id;
  }

  /** The writer takes the request at the head of the queue. */
  lemma TakeAskTalk(e: State, t: State)
    requires Talks(e) && e.core.Open? && e.threads.hand == Empty
    requires e.core.outgoing != [] && e.core.outgoing[0].content.Ask? && e.core.nextId.Some?
    requires var m, id := e.core.outgoing[0], e.core.nextId.value;
             t == e.(core := e.core.(outgoing := e.core.outgoing[1..], nextId := NextId(id),
                                     outstanding := e.core.outstanding[id := m.key]),
                     threads := e.threads.(hand := Taken(id, m)),
                     hist := e.hist.(taken := e.hist.taken + [m.key], order := e.hist.order + [m.key]))
    requires forall id :: id in e.hist.heard ==> Allocated(e, id)
    ensures Talks(t) && Grew(e, t)
  {
    var m, id := e.core.outgoing[0], e.core.nextId.value;
    assert m in e.core.outgoing;
    TakeAskNumbered(e, t, id);
    TakeAskRouted(e, t, id, m.key);
    assert Obligations.Held(t) == Obligations.Held(e);
    assert forall x :: x in t.core.outgoing ==> x in e.core.outgoing;
  }

  lemma TakeAnswerTalk(e: State, t: State)
    requires Talks(e) && Obligations.Owed(e) && e.core.Open? && e.threads.hand == Empty
    requires e.core.outgoing != [] && e.core.outgoing[0].content.Answer?
    requires var m := e.core.outgoing[0];
             t == e.(core := e.core.(outgoing := e.core.outgoing[1..], reserved := e.core.reserved - {m.content.id}),
                     threads := e.threads.(hand := Taken(m.content.id, m)),
                     hist := e.hist.(replied := e.hist.replied + multiset{m.content.id},
                                     order := e.hist.order + [m.key]))
    ensures Talks(t) && Grew(e, t)
  {
    var m := e.core.outgoing[0];
    assert m in e.core.outgoing;
    AnswerQueued(e.core.outgoing, m);
    assert m.content.id in multiset(e.core.reserved);
    assert Obligations.Held(t) == Obligations.Held(e);
    RoutedFrame(e, t);
    NumberedFrame(e, t);
    assert forall x :: x in t.core.outgoing ==> x in e.core.outgoing;
    TakeAnswerAnswerable(e, t, m);
  }

  lemma TakeAnswerAnswerable(e: State, t: State, m: Outgoing)
    requires Answerable(e) && e.core.Open? && t.core.Open? && m in e.core.outgoing && m.content.Answer?
    requires m.content.id in e.core.reserved && t.core.reserved == e.core.reserved - {m.content.id}
    requires t.threads.hand == Taken(m.content.id, m) && Obligations.Held(t) == Obligations.Held(e)
    requires forall x :: x in t.core.outgoing ==> x in e.core.outgoing
    requires t.hist.requests == e.hist.requests && t.hist.replies == e.hist.replies
    requires t.hist.transmitted == e.hist.transmitted
    ensures Answerable(t)
  {
  }

  lemma UnrouteFields(s: State)
    requires s.threads.hand.Taken?
    ensures var t, ask := UnrouteState(s), HoldsAsk(s.threads.hand);
            && t.side == s.side && t.core.Open? == s.core.Open?
            && t.threads.hand == Unsent(s.threads.hand.id, s.threads.hand.message)
            && t.hist == s.hist.(refused := s.hist.refused + if ask then {s.threads.hand.id} else {})
            && (s.core.Open? ==>
                  && t.core == s.core.(outstanding := t.core.outstanding)
                  && t.core.outstanding ==
                     (if ask then s.core.outstanding - {s.threads.hand.id} else s.core.outstanding)
                  && Obligations.Held(t) == Obligations.Held(s))
  {
  }

  lemma UnrouteGrew(s: State, t: State)
    requires s.threads.hand.Taken? && t.side == s.side
    requires HoldsAsk(s.threads.hand) ==> Carries(s, s.threads.hand.id, s.threads.hand.message.content.body)
    requires t.threads.hand == Unsent(s.threads.hand.id, s.threads.hand.message)
    requires t.hist == s.hist.(refused := s.hist.refused + if HoldsAsk(s.threads.hand) then {s.threads.hand.id} else {})
    ensures Grew(s, t)
  {
  }

  lemma UnrouteTalk(s: State)
    requires Talks(s)
    requires HoldsAsk(s.threads.hand) ==> Carries(s, s.threads.hand.id, s.threads.hand.message.content.body)
    ensures Talks(UnrouteState(s)) && Grew(s, UnrouteState(s))
  {
    var t := UnrouteState(s);
    if s.threads.hand.Taken? {
      UnrouteFields(s);
      NumberedFrame(s, t);
      UnrouteGrew(s, t);
      UnrouteAnswerable(s, t);
      UnrouteRouted(s, t, s.threads.hand.id, HoldsAsk(s.threads.hand));
    }
  }

  lemma UnrouteRouted(s: State, t: State, id: nat, ask: bool)
    requires Routed(s) && (ask ==> Allocated(s, id)) && t.side == s.side
    requires t.hist.taken == s.hist.taken && t.hist.heard == s.hist.heard
    requires t.hist.refused == s.hist.refused + if ask then {id} else {}
    requires t.core.Open? ==>
               && s.core.Open?
               && t.core.outstanding == (if ask then s.core.outstanding - {id} else s.core.outstanding)
    ensures Routed(t)
  {
    assert forall j :: Allocated(t, j) == Allocated(s, j);
  }

  lemma UnrouteAnswerable(s: State, t: State)
    requires Answerable(s) && s.threads.hand.Taken?
    requires t.threads.hand == Unsent(s.threads.hand.id, s.threads.hand.message)
    requires t.hist == s.hist.(refused := t.hist.refused)
    requires t.core.Open? ==>
               && s.core.Open? && t.core.reserved == s.core.reserved && t.core.outgoing == s.core.outgoing
               && Obligations.Held(t) == Obligations.Held(s)
    ensures Answerable(t)
  {
  }

  /** What the link tells the asking session about its own past. */
  ghost predicate Sane(s: State) {
    && (forall id :: id in s.hist.heard ==> Allocated(s, id))
    && (HoldsAsk(s.threads.hand) ==> Carries(s, s.threads.hand.id, s.threads.hand.message.content.body))
    && (HoldsAsk(s.threads.hand) && s.threads.hand.Taken? ==> s.threads.hand.id !in s.hist.refused)
  }

  lemma SameHand(s: State, t: State)
    requires Sane(s) && Remembers(s, t)
    requires t.threads.hand == s.threads.hand || t.threads.hand == Empty
    requires t.hist.refused == s.hist.refused
    ensures Grew(s, t)
  {
    if HoldsAsk(t.threads.hand) {
      assert Allocated(t, t.threads.hand.id);
    }
  }

  /** Steps after which the session says and owes what it did before. */
  ghost predicate SameTalk(s: State, t: State) {
    && t.side == s.side
    && t.hist == s.hist.(results := t.hist.results)
    && (t.threads.hand == s.threads.hand || t.threads.hand == Empty)
    && (t.core.Open? ==>
          && s.core.Open? && t.core.nextId == s.core.nextId && t.core.outgoing == s.core.outgoing
          && t.core.outstanding == s.core.outstanding && t.core.reserved == s.core.reserved)
    && (forall k :: k in t.hist.results && t.hist.results[k].result.Answered? ==>
          k in s.hist.results && s.hist.results[k] == t.hist.results[k])
  }

  lemma SameTalkKeeps(s: State, t: State)
    requires Talks(s) && SameTalk(s, t) && Sane(s)
    requires t.core.Open? ==> Obligations.Held(t) == Obligations.Held(s)
    ensures Talks(t) && Grew(s, t)
  {
    RoutedFrame(s, t);
    NumberedFrame(s, t);
    SameHand(s, t);
  }

  /** The same talk with the same obligations. */
  ghost predicate SameOwed(s: State, t: State) {
    t.core.Open? ==>
      && s.core.Open? && t.core.incoming == s.core.incoming
      && t.threads.responders == s.threads.responders
      && t.threads.unknown == s.threads.unknown && t.threads.auto == s.threads.auto
  }

  predicate Ending(step: Step) {
    step.RecordWrite? || step.WriteFailed? || step.Close? || step.SetLimits?
  }

  predicate Plain(step: Step) {
    step.SetAutoreply? || step.Decode? || step.ReadResult? || step.DropPromise? || step.DropGarbage?
  }

  lemma EndingSame(s: State, step: Step)
    requires Ending(step)
    ensures SameTalk(s, Do(s, step)) && SameOwed(s, Do(s, step))
  {
    match step
    case RecordWrite(now) => RecordSame(s, now);
    case WriteFailed(now) => CloseSame(s, Transport, now);
    case Close(reason, now) => CloseSame(s, reason, now);
    case SetLimits(requests, bytes, now) => SetLimitsSame(s, requests, bytes, now);
  }

  lemma RecordSame(s: State, now: int)
    ensures SameTalk(s, RecordWriteState(s, now)) && SameOwed(s, RecordWriteState(s, now))
  {
  }

  lemma SetLimitsSame(s: State, requests: nat, bytes: nat, now: int)
    ensures SameTalk(s, SetLimitsState(s, requests, bytes, now))
    ensures SameOwed(s, SetLimitsState(s, requests, bytes, now))
  {
    if s.core.Open? {
      var t := s.(core := s.core.(maxRequests := requests, maxBytes := bytes));
      CloseSame(t, RequestLimit(requests), now);
      CloseSame(t, ByteLimit(bytes), now);
    }
  }

  lemma CloseSame(s: State, reason: Error, now: int)
    ensures SameTalk(s, CloseState(s, reason, now)) && CloseState(s, reason, now).core.Shut?
  {
  }

  /** What these steps leave alone, field by field. */
  predicate PlainChange(s: State, t: State) {
    && t.side == s.side && t.hist == s.hist && t.threads.hand == s.threads.hand
    && t.threads.responders == s.threads.responders
    && t.threads.unknown == s.threads.unknown && t.threads.auto == s.threads.auto
    && t.core == if s.core.Open? && t.core.Open? then s.core.(autoreplyTimeout := t.core.autoreplyTimeout) else s.core
  }

  lemma PlainFields(s: State, step: Step)
    requires Plain(step)
    ensures PlainChange(s, Do(s, step))
  {
  }

  lemma PlainChangeSame(s: State, t: State)
    requires PlainChange(s, t)
    ensures SameTalk(s, t) && SameOwed(s, t)
  {
  }

  lemma PlainSame(s: State, step: Step)
    requires Plain(step)
    ensures SameTalk(s, Do(s, step)) && SameOwed(s, Do(s, step))
  {
    PlainFields(s, step);
    PlainChangeSame(s, Do(s, step));
  }

  lemma PlainTalk(s: State, step: Step)
    requires Talks(s) && Sane(s) && (Plain(step) || Ending(step))
    ensures Talks(Do(s, step)) && Grew(s, Do(s, step))
  {
    if Plain(step) {
      PlainSame(s, step);
    } else {
      EndingSame(s, step);
    }
    SameTalkKeeps(s, Do(s, step));
  }

  lemma BeginAutoSame(s: State, id: nat, now: int, representable: bool)
    ensures SameTalk(s, BeginAutoState(s, id, now, representable))
  {
  }

  lemma BeginAutoTalk(s: State, id: nat, now: int, representable: bool)
    requires Talks(s) && Sane(s) && Obligations.Owed(s)
    ensures Talks(BeginAutoState(s, id, now, representable))
    ensures Grew(s, BeginAutoState(s, id, now, representable))
  {
    if s.core.Open? {
      Obligations.BeginAutoHeld(s, id, now, representable);
    }
    BeginAutoSame(s, id, now, representable);
    SameTalkKeeps(s, BeginAutoState(s, id, now, representable));
  }

  lemma RecvSame(s: State)
    ensures SameTalk(s, RecvState(s))
  {
  }

  lemma RecvTalk(s: State)
    requires Talks(s) && Sane(s) && Obligations.Owed(s)
    ensures Talks(RecvState(s)) && Grew(s, RecvState(s))
  {
    if s.core.Open? {
      Obligations.RecvHeld(s);
    }
    RecvSame(s);
    SameTalkKeeps(s, RecvState(s));
  }

  lemma ReplyTalk(s: State, id: nat, body: Body, deadline: int, now: int)
    requires Talks(s) && Sane(s) && Obligations.Owed(s) && s.core.Open? && id in s.threads.responders
    ensures var t := Enqueue(s.(threads := s.threads.(responders := s.threads.responders - {id})),
                             Answer(id, body), deadline, now);
            Talks(t) && Grew(s, t)
  {
    var threads := s.threads.(responders := s.threads.responders - {id});
    Obligations.ResponderHeld(s, id);
    AnswerTalk(s, threads, id, body, deadline, now);
    SameHand(s, Enqueue(s.(threads := threads), Answer(id, body), deadline, now));
  }

  lemma FinishAutoTalk(s: State, id: nat, now: int)
    requires Talks(s) && Sane(s) && Obligations.Owed(s)
    ensures Talks(FinishAutoState(s, id, now)) && Grew(s, FinishAutoState(s, id, now))
  {
    if id in s.threads.auto && s.core.Open? {
      var a, t := s.threads.auto[id], s.threads.(auto := s.threads.auto - {id});
      var threads := t.(gone := t.gone + {s.hist.issued});
      Obligations.AutoHeld(s, threads, id);
      AnswerTalk(s, threads, id, a.body, a.deadline, now);
      SameHand(s, Enqueue(s.(threads := threads), Answer(id, a.body), a.deadline, now));
    } else {
      SameTalkKeeps(s, FinishAutoState(s, id, now));
    }
  }

  lemma GrewAfter(s: State, e: State, t: State)
    requires Remembers(s, e) && Grew(e, t)
    requires e.threads == s.threads && e.hist.refused == s.hist.refused && e.hist.taken == s.hist.taken
    ensures Grew(s, t)
  {
    assert forall id :: Allocated(s, id) == Allocated(e, id);
  }

  lemma TakeTalk(s: State, now: int)
    requires Local(s) && Sane(s)
    ensures Talks(TakeState(s, now)) && Grew(s, TakeState(s, now))
  {
    ExpireLocal(s, now);
    ExpireRemembers(s, now);
    var e, t := ExpireState(s, now), TakeState(s, now);
    assert forall id :: Allocated(s, id) == Allocated(e, id);
    if e.core.Open? && e.core.outgoing != [] && e.threads.hand == Empty
       && !(e.core.outgoing[0].content.Ask? && e.core.nextId.None?) {
      if e.core.outgoing[0].content.Ask? {
        TakeAskTalk(e, t);
      } else {
        TakeAnswerTalk(e, t);
      }
      GrewAfter(s, e, t);
    } else {
      SameHand(s, e);
    }
  }

  /** Every step that leaves the channels alone keeps the session's own invariant. */
  lemma LocalStep(s: State, step: Step)
    requires Local(s) && Sane(s) && !step.Transmit? && !step.Deliver?
    ensures Local(Do(s, step)) && Grew(s, Do(s, step))
  {
    Promises.StepKeeps(s, step);
    Obligations.StepOwed(s, step);
    TalkStep(s, step);
  }

  lemma TalkStep(s: State, step: Step)
    requires Local(s) && Sane(s) && !step.Transmit? && !step.Deliver?
    ensures Talks(Do(s, step)) && Grew(s, Do(s, step))
  {
    if Plain(step) || Ending(step) {
      PlainTalk(s, step);
    } else if step.Request? {
      RequestTalk(s, step.body, step.deadline, step.now);
    } else if step.Reply? {
      CallerTalk(s, step.id, step.body, step.deadline, step.now);
    } else {
      WorkerTalk(s, step);
    }
  }

  lemma Still(s: State)
    requires Talks(s) && Sane(s)
    ensures Talks(s) && Grew(s, s)
  {
    SameHand(s, s);
  }

  lemma RequestTalk(s: State, body: Body, deadline: int, now: int)
    requires Talks(s) && Sane(s)
    ensures var t := Do(s, Request(body, deadline, now)); Talks(t) && Grew(s, t)
  {
    if s.core.Open? && !body.failed {
      AskTalk(s, body, deadline, now);
      SameHand(s, Enqueue(s, Ask(body), deadline, now));
    } else {
      Still(s);
    }
  }

  lemma CallerTalk(s: State, id: nat, body: Body, deadline: int, now: int)
    requires Talks(s) && Sane(s) && Obligations.Owed(s)
    ensures var t := Do(s, Reply(id, body, deadline, now)); Talks(t) && Grew(s, t)
  {
    if s.core.Open? && id in s.threads.responders && id !in s.threads.decoding {
      assert Do(s, Reply(id, body, deadline, now)) ==
             Enqueue(s.(threads := s.threads.(responders := s.threads.responders - {id})),
                     Answer(id, body), deadline, now);
      ReplyTalk(s, id, body, deadline, now);
    } else {
      Still(s);
    }
  }

  /** Steps of the workers, by name. */
  lemma WorkerStep(s: State, step: Step)
    ensures step.BeginAuto? ==> Do(s, step) == BeginAutoState(s, step.id, step.now, step.representable)
    ensures step.FinishAuto? ==> Do(s, step) == FinishAutoState(s, step.id, step.now)
    ensures step.Take? ==> Do(s, step) == TakeState(s, step.now)
    ensures step.Unroute? ==> Do(s, step) == UnrouteState(s)
    ensures step.Expire? ==> Do(s, step) == ExpireState(s, step.now)
    ensures step.Recv? ==> Do(s, step) == RecvState(s)
  {
  }

  lemma ExpiryTalk(s: State, now: int)
    requires Local(s) && Sane(s)
    ensures Talks(ExpireState(s, now)) && Grew(s, ExpireState(s, now))
  {
    ExpireLocal(s, now);
    ExpireRemembers(s, now);
    SameHand(s, ExpireState(s, now));
  }

  lemma WorkerTalk(s: State, step: Step)
    requires Local(s) && Sane(s)
    requires step.BeginAuto? || step.FinishAuto? || step.Take? || step.Unroute? || step.Expire? || step.Recv?
    ensures Talks(Do(s, step)) && Grew(s, Do(s, step))
  {
    WorkerStep(s, step);
    match step
    case BeginAuto(id, now, representable) => BeginAutoTalk(s, id, now, representable);
    case FinishAuto(id, now) => FinishAutoTalk(s, id, now);
    case Take(now) => TakeTalk(s, now);
    case Unroute => UnrouteTalk(s);
    case Expire(now) => ExpiryTalk(s, now);
    case Recv => RecvTalk(s);
  }

  // ---------------------------------------------------------------------------
  // Transmission

  lemma AllocatedParity(x: State, id: nat)
    requires Allocated(x, id)
    ensures ParityOf(id) == Own(x.side) && ParityOf(id) != Own(Peer(x.side))
  {
    AllocatedIds(x.side, IndexOf(x.side, id));
  }

  lemma TransmitAnswerable(s: State)
    requires Answerable(s) && s.threads.hand.Taken?
    ensures Answerable(TransmitState(s))
  {
    var t := TransmitState(s);
    assert s.core.Open? ==> Obligations.Held(t) == Obligations.Held(s);
  }

  lemma TransmitTalk(s: State)
    requires Talks(s) && s.threads.hand.Taken?
    ensures Talks(TransmitState(s))
  {
    var t := TransmitState(s);
    RoutedFrame(s, t);
    NumberedFrame(s, t);
    TransmitAnswerable(s);
  }

  lemma TransmitLocal(s: State)
    requires Local(s) && s.threads.hand.Taken?
    ensures Local(TransmitState(s))
  {
    TransmitSound(s);
    TransmitTalk(s);
  }

  lemma TransmitSound(s: State)
    requires Promises.Inv(s) && Obligations.Owed(s)
    ensures Promises.Inv(TransmitState(s)) && Obligations.Owed(TransmitState(s))
  {
    assert Do(s, Transmit(0)) == TransmitState(s);
    Promises.StepKeeps(s, Transmit(0));
    Obligations.StepOwed(s, Transmit(0));
  }

  /** The request in hand goes out behind all earlier ones. */
  lemma SendAsks(x: State, fwd: seq<Envelope>, y: State, back: seq<Envelope>, length: nat)
    requires Link(x, fwd, y, back) && x.threads.hand.Taken? && x.threads.hand.message.content.Ask?
    ensures Link(TransmitState(x), fwd + [HandEnvelope(x.threads.hand, length)], y, back)
  {
    var t, e := TransmitState(x), HandEnvelope(x.threads.hand, length);
    assert forall id :: Allocated(t, id) == Allocated(x, id);
    forall k | k in t.hist.results && t.hist.results[k].result.Answered?
      ensures Matched(t, y, k, t.hist.results[k].result.envelope)
    {
      assert Matched(x, y, k, x.hist.results[k].result.envelope);
    }
    var out := fwd + [e];
    assert forall i :: 0 <= i < |fwd| ==> out[i] == fwd[i];
  }

  /** An answer in hand goes out for the first time. */
  lemma SendAnswers(x: State, fwd: seq<Envelope>, y: State, back: seq<Envelope>, length: nat)
    requires Link(y, back, x, fwd) && Local(x) && x.threads.hand.Taken? && x.threads.hand.message.content.Answer?
    ensures Link(y, back, TransmitState(x), fwd + [HandEnvelope(x.threads.hand, length)])
  {
    var t, e := TransmitState(x), HandEnvelope(x.threads.hand, length);
    assert HeldAnswer(x);
    var out := fwd + [e];
    assert forall i :: 0 <= i < |fwd| ==> out[i] == fwd[i];
    forall k | k in y.hist.results && y.hist.results[k].result.Answered?
      ensures Matched(y, t, k, y.hist.results[k].result.envelope)
    {
      assert Matched(y, x, k, y.hist.results[k].result.envelope);
    }
  }

  /** What sending changes in the sender, apart from the wire. */
  predicate HandedOver(x: State, t: State) {
    && t.side == x.side && t.hist == x.hist.(transmitted := t.hist.transmitted)
    && x.hist.transmitted <= t.hist.transmitted
  }

  /** What one side sends does not disturb the conversation it does not belong to. */
  lemma SendNotAsking(x: State, t: State, fwd: seq<Envelope>, y: State, back: seq<Envelope>, e: Envelope)
    requires HandedOver(x, t) && Link(x, fwd, y, back) && !Mine(x, e) && !HoldsAsk(t.threads.hand)
    ensures Link(t, fwd + [e], y, back)
  {
    var out := fwd + [e];
    assert forall i :: 0 <= i < |fwd| ==> out[i] == fwd[i];
    assert forall id :: Allocated(t, id) == Allocated(x, id);
    forall k | k in t.hist.results && t.hist.results[k].result.Answered?
      ensures Matched(t, y, k, t.hist.results[k].result.envelope)
    {
      assert Matched(x, y, k, x.hist.results[k].result.envelope);
    }
  }

  lemma SendNotAnswering(x: State, t: State, fwd: seq<Envelope>, y: State, back: seq<Envelope>, e: Envelope)
    requires HandedOver(x, t) && Link(y, back, x, fwd) && !Mine(y, e)
    ensures Link(y, back, t, fwd + [e])
  {
    var out := fwd + [e];
    assert forall i :: 0 <= i < |fwd| ==> out[i] == fwd[i];
    forall k | k in y.hist.results && y.hist.results[k].result.Answered?
      ensures Matched(y, t, k, y.hist.results[k].result.envelope)
    {
      assert Matched(y, x, k, y.hist.results[k].result.envelope);
    }
  }

  /** Both directions of the conversation. */
  ghost predicate Pair(x: State, fwd: seq<Envelope>, y: State, back: seq<Envelope>) {
    && y.side == Peer(x.side) && Local(x) && Local(y)
    && Link(x, fwd, y, back) && Link(y, back, x, fwd)
  }

  lemma TransmitHands(x: State)
    requires x.threads.hand.Taken?
    ensures HandedOver(x, TransmitState(x))
    ensures x.threads.hand.message.content.Answer? ==> !HoldsAsk(TransmitState(x).threads.hand)
  {
  }

  lemma SendPair(x: State, fwd: seq<Envelope>, y: State, back: seq<Envelope>, length: nat)
    requires Pair(x, fwd, y, back) && x.threads.hand.Taken?
    ensures Pair(TransmitState(x), fwd + [HandEnvelope(x.threads.hand, length)], y, back)
  {
    var t, e := TransmitState(x), HandEnvelope(x.threads.hand, length);
    TransmitLocal(x);
    TransmitHands(x);
    if x.threads.hand.message.content.Ask? {
      AskIsOurs(x, fwd, y, back);
      SendAsks(x, fwd, y, back, length);
      SendNotAnswering(x, t, fwd, y, back, e);
    } else {
      AnswerIsTheirs(x, fwd, y, back);
      SendAnswers(x, fwd, y, back, length);
      SendNotAsking(x, t, fwd, y, back, e);
    }
    MakePair(t, fwd + [e], y, back);
  }

  lemma AskIsOurs(x: State, fwd: seq<Envelope>, y: State, back: seq<Envelope>)
    requires Asking(x, fwd, y) && y.side == Peer(x.side) && HoldsAsk(x.threads.hand)
    ensures ParityOf(x.threads.hand.id) == Own(x.side) && ParityOf(x.threads.hand.id) != Own(y.side)
  {
    AllocatedParity(x, x.threads.hand.id);
  }

  /** An answer in hand carries an ID of the peer. */
  lemma AnswerIsTheirs(x: State, fwd: seq<Envelope>, y: State, back: seq<Envelope>)
    requires Pair(x, fwd, y, back) && x.threads.hand.Taken? && x.threads.hand.message.content.Answer?
    ensures ParityOf(x.threads.hand.id) == Own(y.side) && ParityOf(x.threads.hand.id) != Own(x.side)
  {
    var id := x.threads.hand.id;
    assert HeldAnswer(x) && id in x.hist.requests;
    assert Carries(y, id, x.hist.requests[id]);
    AllocatedParity(y, id);
  }

  // ---------------------------------------------------------------------------
  // Delivery

  /** Dropping the head of a channel keeps what holds of the rest. */
  lemma Shorten(x: State, fwd: seq<Envelope>, y: State, back: seq<Envelope>)
    requires Link(x, fwd, y, back)
    ensures fwd != [] ==> Link(x, fwd[1..], y, back)
    ensures back != [] ==> Link(x, fwd, y, back[1..])
  {
    assert forall i :: 0 <= i < |fwd| - 1 ==> fwd[1..][i] == fwd[i + 1];
    assert forall i :: 0 <= i < |back| - 1 ==> back[1..][i] == back[i + 1];
  }

  /** A response in flight has a route to the promise that asked. */
  lemma RouteExists(x: State, fwd: seq<Envelope>, y: State, back: seq<Envelope>)
    requires Pair(x, fwd, y, back) && back != [] && Mine(x, back[0])
    ensures var e := back[0];
            && Allocated(x, e.id) && e.id !in x.hist.heard && e.id !in x.hist.refused
            && (x.core.Open? ==> e.id in x.core.outstanding && x.core.outstanding[e.id] == KeyOf(x, e.id))
            && KeyOf(x, e.id) in x.hist.asked
            && Matched(x, y, KeyOf(x, e.id), e)
  {
    var e := back[0];
    assert e.id in y.hist.transmitted && e.id in y.hist.requests;
    assert Carries(x, e.id, y.hist.requests[e.id]);
  }

  /** A request in flight is new to its receiver and carries no error. */
  lemma RequestIsNew(x: State, fwd: seq<Envelope>, y: State, back: seq<Envelope>)
    requires Pair(x, fwd, y, back) && back != [] && !Mine(x, back[0])
    ensures var e := back[0];
            && Mine(y, e) && Carries(y, e.id, e.body) && !e.body.failed
            && e.id !in x.hist.requests && (x.core.Open? ==> e.id !in x.core.reserved)
  {
  }

  /** What delivering a response changes: a route becomes a heard ID, maybe a result. */
  ghost predicate Hears(s: State, t: State, e: Envelope) {
    && t.side == s.side && t.core.Open? && s.core.Open?
    && t.hist == s.hist.(heard := s.hist.heard + {e.id}, results := t.hist.results)
    && t.threads.hand == s.threads.hand
    && t.core.nextId == s.core.nextId && t.core.outgoing == s.core.outgoing
    && t.core.reserved == s.core.reserved && t.core.outstanding == s.core.outstanding - {e.id}
    && t.core.incoming == s.core.incoming
    && t.threads == s.threads.(unread := t.threads.unread)
    && (forall k :: k in t.hist.results && t.hist.results[k].result.Answered? ==>
          || (k in s.hist.results && s.hist.results[k] == t.hist.results[k])
          || (e.id in s.core.outstanding && k == s.core.outstanding[e.id]
              && t.hist.results[k].result.envelope == e))
  }

  lemma CompleteHears(s: State, key: nat, e: Envelope, now: int)
    requires s.core.Open? && key in s.core.operations
    ensures var t := CompleteResponse(s, key, e, now);
            && t.side == s.side && t.core.Open?
            && t.hist == s.hist.(results := t.hist.results)
            && t.core == s.core.(operations := t.core.operations)
            && t.threads == s.threads.(unread := t.threads.unread)
            && (forall k :: k in t.hist.results && t.hist.results[k].result.Answered? ==>
                  || (k in s.hist.results && s.hist.results[k] == t.hist.results[k])
                  || (k == key && t.hist.results[k].result.envelope == e))
  {
  }

  lemma DeliverHears(s: State, e: Envelope, now: int)
    requires s.core.Open? && KindOf(e.id, Own(s.side)) == IncomingResponse
    ensures Hears(s, DeliverState(s, e, now), e)
  {
    if e.id in s.core.outstanding {
      var h := s.(hist := s.hist.(heard := s.hist.heard + {e.id}));
      var t := h.(core := s.core.(outstanding := s.core.outstanding - {e.id}));
      if s.core.outstanding[e.id] in s.core.operations {
        CompleteHears(t, s.core.outstanding[e.id], e, now);
      }
    } else {
      assert s.core.outstanding - {e.id} == s.core.outstanding;
    }
  }

  lemma HearsTalk(s: State, t: State, e: Envelope)
    requires Talks(s) && Hears(s, t, e)
    ensures Talks(t)
  {
    NumberedFrame(s, t);
    assert Obligations.Held(t) == Obligations.Held(s);
    AnswerableFrame(s, t);
    assert forall id :: Allocated(t, id) == Allocated(s, id);
  }

  lemma HearsMatched(x: State, t: State, y: State, e: Envelope)
    requires AllMatched(x, y) && Hears(x, t, e)
    requires Allocated(x, e.id) && Matched(x, y, KeyOf(x, e.id), e)
    requires e.id in x.core.outstanding && x.core.outstanding[e.id] == KeyOf(x, e.id)
    ensures AllMatched(t, y)
  {
    forall k | k in t.hist.results && t.hist.results[k].result.Answered?
      ensures Matched(t, y, k, t.hist.results[k].result.envelope)
    {
      if k in x.hist.results && x.hist.results[k] == t.hist.results[k] {
        assert Matched(x, y, k, x.hist.results[k].result.envelope);
      }
    }
  }

  lemma HearsAsking(x: State, t: State, fwd: seq<Envelope>, y: State, e: Envelope)
    requires Asking(x, fwd, y) && Hears(x, t, e)
    ensures Asking(t, fwd, y)
  {
    assert forall id :: Allocated(t, id) == Allocated(x, id);
  }

  lemma HearsAnswering(x: State, t: State, y: State, back: seq<Envelope>)
    requires back != [] && Answering(x, y, back) && Hears(x, t, back[0]) && Mine(x, back[0])
    ensures Answering(t, y, back[1..])
  {
    assert forall i :: 0 <= i < |back| - 1 ==> back[1..][i] == back[i + 1];
  }

  lemma HearsLink(x: State, t: State, fwd: seq<Envelope>, y: State, back: seq<Envelope>)
    requires Pair(x, fwd, y, back) && back != [] && Mine(x, back[0]) && Hears(x, t, back[0])
    ensures Link(t, fwd, y, back[1..])
  {
    assert AllMatched(t, y) by {
      RouteExists(x, fwd, y, back);
      HearsMatched(x, t, y, back[0]);
    }
    HearsAsking(x, t, fwd, y, back[0]);
    HearsAnswering(x, t, y, back);
  }

  lemma HearsPeer(x: State, t: State, fwd: seq<Envelope>, y: State, back: seq<Envelope>, e: Envelope)
    requires Link(y, back, x, fwd) && Hears(x, t, e)
    ensures Link(y, back, t, fwd)
  {
    forall k | k in y.hist.results && y.hist.results[k].result.Answered?
      ensures Matched(y, t, k, y.hist.results[k].result.envelope)
    {
      assert Matched(y, x, k, y.hist.results[k].result.envelope);
    }
  }

  lemma HearsLocal(x: State, e: Envelope, now: int)
    requires Local(x) && x.core.Open? && KindOf(e.id, Own(x.side)) == IncomingResponse
    ensures Local(DeliverState(x, e, now))
  {
    Promises.DeliverKeeps(x, e, now);
    Obligations.DeliverOwed(x, e, now);
    DeliverHears(x, e, now);
    HearsTalk(x, DeliverState(x, e, now), e);
  }

  /** A pair is made of its parts. */
  lemma MakePair(x: State, fwd: seq<Envelope>, y: State, back: seq<Envelope>)
    requires y.side == Peer(x.side) && Local(x) && Local(y) && Link(x, fwd, y, back) && Link(y, back, x, fwd)
    ensures Pair(x, fwd, y, back)
  {
  }

  lemma ReceiveResponse(x: State, fwd: seq<Envelope>, y: State, back: seq<Envelope>, now: int)
    requires Pair(x, fwd, y, back) && back != [] && Mine(x, back[0]) && x.core.Open?
    ensures Pair(DeliverState(x, back[0], now), fwd, y, back[1..])
  {
    var e, t := back[0], DeliverState(x, back[0], now);
    DeliverHears(x, e, now);
    assert Local(t) by { HearsLocal(x, e, now); }
    assert Link(t, fwd, y, back[1..]) by { HearsLink(x, t, fwd, y, back); }
    assert Link(y, back[1..], t, fwd) by {
      HearsPeer(x, t, fwd, y, back, e);
      Shorten(y, back, t, fwd);
    }
    MakePair(t, fwd, y, back[1..]);
  }

  /** What accepting a request changes. */
  ghost predicate Accepts(s: State, t: State, e: Envelope) {
    && t.side == s.side && s.core.Open? && t.core.Open?
    && t.hist == s.hist.(requests := s.hist.requests[e.id := e.body], admitted := t.hist.admitted)
    && t.threads.hand == s.threads.hand
    && t.core.nextId == s.core.nextId && t.core.outgoing == s.core.outgoing
    && t.core.outstanding == s.core.outstanding && t.core.reserved == s.core.reserved + {e.id}
    && (forall id :: id in Obligations.Held(t) ==> id in Obligations.Held(s) || id == e.id)
  }

  lemma AdmitAccepts(s: State, e: Envelope)
    requires s.core.Open?
    ensures Accepts(s, Admit(s, e), e)
  {
    var t := Admit(s, e);
    if !e.body.unknown {
      assert Obligations.Ids(s.core.incoming + [e]) == Obligations.Ids(s.core.incoming) + [e.id];
    }
  }

  lemma AcceptsTalk(s: State, t: State, e: Envelope)
    requires Talks(s) && Accepts(s, t, e) && e.id !in s.hist.requests
    ensures Talks(t)
  {
    NumberedFrame(s, t);
    RoutedFrame(s, t);
    assert e.id !in s.hist.replies && e.id !in s.hist.transmitted;
  }

  lemma AcceptsLink(x: State, t: State, fwd: seq<Envelope>, y: State, back: seq<Envelope>, e: Envelope)
    requires Link(x, fwd, y, back) && Accepts(x, t, e)
    ensures Link(t, fwd, y, back)
  {
    assert forall id :: Allocated(t, id) == Allocated(x, id);
    forall k | k in t.hist.results && t.hist.results[k].result.Answered?
      ensures Matched(t, y, k, t.hist.results[k].result.envelope)
    {
      assert Matched(x, y, k, x.hist.results[k].result.envelope);
    }
  }

  lemma AcceptsPeer(x: State, t: State, fwd: seq<Envelope>, y: State, back: seq<Envelope>)
    requires Link(y, back, x, fwd) && back != [] && Accepts(x, t, back[0]) && Mine(y, back[0])
    ensures Link(y, back[1..], t, fwd)
  {
    var e := back[0];
    Shorten(y, back, x, fwd);
    assert Carries(y, e.id, e.body) && e.id !in x.hist.requests && e.id !in y.hist.refused;
    assert forall i :: 0 <= i < |back| - 1 ==> back[1..][i] == back[i + 1];
    forall k | k in y.hist.results && y.hist.results[k].result.Answered?
      ensures Matched(y, t, k, y.hist.results[k].result.envelope)
    {
      assert Matched(y, x, k, y.hist.results[k].result.envelope);
    }
  }

  lemma AcceptsLocal(x: State, e: Envelope)
    requires Local(x) && x.core.Open? && e.id !in x.hist.requests && e.id !in x.core.reserved
    requires |x.core.reserved| < x.core.maxRequests
    ensures Local(Admit(x, e))
  {
    AdmitSound(x, e);
    AdmitAccepts(x, e);
    AcceptsTalk(x, Admit(x, e), e);
  }

  lemma AdmitSound(x: State, e: Envelope)
    requires Promises.Inv(x) && Obligations.Owed(x) && x.core.Open?
    requires e.id !in x.core.reserved && |x.core.reserved| < x.core.maxRequests
    ensures Promises.Inv(Admit(x, e)) && Obligations.Owed(Admit(x, e))
  {
    assert Promises.Calm(x, Admit(x, e));
    Promises.QuietKeeps(x, Admit(x, e));
    Obligations.AdmitOwed(x, e);
  }

  lemma AcceptRequest(x: State, fwd: seq<Envelope>, y: State, back: seq<Envelope>)
    requires Pair(x, fwd, y, back) && back != [] && !Mine(x, back[0]) && x.core.Open?
    requires |x.core.reserved| < x.core.maxRequests
    ensures Pair(Admit(x, back[0]), fwd, y, back[1..])
  {
    var e, t := back[0], Admit(x, back[0]);
    RequestIsNew(x, fwd, y, back);
    AdmitAccepts(x, e);
    assert Local(t) by { AcceptsLocal(x, e); }
    assert Link(t, fwd, y, back[1..]) by {
      Shorten(x, fwd, y, back);
      AcceptsLink(x, t, fwd, y, back[1..], e);
    }
    assert Link(y, back[1..], t, fwd) by { AcceptsPeer(x, t, fwd, y, back); }
    MakePair(t, fwd, y, back[1..]);
  }

  lemma ReceiveRequest(x: State, fwd: seq<Envelope>, y: State, back: seq<Envelope>, now: int)
    requires Pair(x, fwd, y, back) && back != [] && !Mine(x, back[0]) && x.core.Open?
    ensures Pair(DeliverState(x, back[0], now), fwd, y, back[1..])
  {
    RequestOutcome(x, back[0], now);
    if Verdict(x, back[0], now).None? {
      AcceptRequest(x, fwd, y, back);
    } else {
      ShortenPair(x, fwd, y, back);
    }
  }

  /** A request that is not rejected is admitted, within the limit. */
  lemma RequestOutcome(x: State, e: Envelope, now: int)
    requires x.core.Open? && !Mine(x, e)
    ensures DeliverState(x, e, now) == if Verdict(x, e, now).None? then Admit(x, e) else x
    ensures Verdict(x, e, now).None? ==> |x.core.reserved| < x.core.maxRequests
  {
  }

  lemma ShortenPair(x: State, fwd: seq<Envelope>, y: State, back: seq<Envelope>)
    requires Pair(x, fwd, y, back) && back != []
    ensures Pair(x, fwd, y, back[1..])
  {
    Shorten(x, fwd, y, back);
    Shorten(y, back, x, fwd);
  }

  lemma ReceivePair(x: State, fwd: seq<Envelope>, y: State, back: seq<Envelope>, now: int)
    requires Pair(x, fwd, y, back) && back != []
    ensures Pair(DeliverState(x, back[0], now), fwd, y, back[1..])
  {
    if x.core.Shut? {
      ShortenPair(x, fwd, y, back);
    } else if Mine(x, back[0]) {
      ReceiveResponse(x, fwd, y, back, now);
    } else {
      ReceiveRequest(x, fwd, y, back, now);
    }
  }

  // ---------------------------------------------------------------------------
  // Whole runs

  lemma LinkSane(x: State, fwd: seq<Envelope>, y: State, back: seq<Envelope>)
    requires Pair(x, fwd, y, back)
    ensures Sane(x)
  {
    forall id | id in x.hist.heard
      ensures Allocated(x, id)
    {
      assert id in y.hist.transmitted && id in y.hist.requests;
      assert Carries(x, id, y.hist.requests[id]);
    }
  }

  lemma ActPair(x: State, fwd: seq<Envelope>, y: State, back: seq<Envelope>, step: Step)
    requires Pair(x, fwd, y, back) && !step.Transmit? && !step.Deliver?
    ensures Pair(Do(x, step), fwd, y, back)
  {
    LinkSane(x, fwd, y, back);
    LocalStep(x, step);
    var t := Do(x, step);
    AskerKeeps(x, t, fwd, y, back);
    AnswererKeeps(y, back, x, t, fwd);
  }

  ghost predicate Whole(s: System) {
    s.client.side == Client && Pair(s.client, s.up, s.server, s.down)
  }

  lemma PairSwaps(x: State, fwd: seq<Envelope>, y: State, back: seq<Envelope>)
    requires Pair(x, fwd, y, back)
    ensures Pair(y, back, x, fwd)
  {
  }

  lemma ActKeeps(s: System, side: Side, step: Step)
    requires Whole(s) && !step.Transmit? && !step.Deliver?
    ensures Whole(Next(s, Act(side, step)))
  {
    var c, v, up, down := s.client, s.server, s.up, s.down;
    if side == Client {
      ActPair(c, up, v, down, step);
    } else {
      PairSwaps(c, up, v, down);
      ActPair(v, down, c, up, step);
      PairSwaps(Do(v, step), down, c, up);
    }
  }

  lemma SendNext(s: System, length: nat)
    ensures Next(s, Send(Client, length)) ==
            if !s.client.threads.hand.Taken? then s
            else s.(client := TransmitState(s.client), up := s.up + [HandEnvelope(s.client.threads.hand, length)])
    ensures Next(s, Send(Server, length)) ==
            if !s.server.threads.hand.Taken? then s
            else s.(server := TransmitState(s.server), down := s.down + [HandEnvelope(s.server.threads.hand, length)])
  {
  }

  lemma ReceiveNext(s: System, now: int)
    ensures Next(s, Receive(Client, now)) ==
            if s.down == [] then s
            else s.(client := DeliverState(s.client, s.down[0], now), down := s.down[1..])
    ensures Next(s, Receive(Server, now)) ==
            if s.up == [] then s
            else s.(server := DeliverState(s.server, s.up[0], now), up := s.up[1..])
  {
  }

  lemma ClientSends(c: State, up: seq<Envelope>, v: State, down: seq<Envelope>, length: nat)
    requires Whole(System(c, v, up, down)) && c.threads.hand.Taken?
    ensures Whole(System(TransmitState(c), v, up + [HandEnvelope(c.threads.hand, length)], down))
  {
    SendPair(c, up, v, down, length);
  }

  lemma ServerSends(c: State, up: seq<Envelope>, v: State, down: seq<Envelope>, length: nat)
    requires Whole(System(c, v, up, down)) && v.threads.hand.Taken?
    ensures Whole(System(c, TransmitState(v), up, down + [HandEnvelope(v.threads.hand, length)]))
  {
    PairSwaps(c, up, v, down);
    SendPair(v, down, c, up, length);
    PairSwaps(TransmitState(v), down + [HandEnvelope(v.threads.hand, length)], c, up);
  }

  lemma SendKeeps(s: System, side: Side, length: nat)
    requires Whole(s)
    ensures Whole(Next(s, Send(side, length)))
  {
    SendNext(s, length);
    if side == Client && s.client.threads.hand.Taken? {
      ClientSends(s.client, s.up, s.server, s.down, length);
    } else if side == Server && s.server.threads.hand.Taken? {
      ServerSends(s.client, s.up, s.server, s.down, length);
    }
  }

  lemma ClientReceives(c: State, up: seq<Envelope>, v: State, down: seq<Envelope>, now: int)
    requires Whole(System(c, v, up, down)) && down != []
    ensures Whole(System(DeliverState(c, down[0], now), v, up, down[1..]))
  {
    ReceivePair(c, up, v, down, now);
  }

  lemma ServerReceives(c: State, up: seq<Envelope>, v: State, down: seq<Envelope>, now: int)
    requires Whole(System(c, v, up, down)) && up != []
    ensures Whole(System(c, DeliverState(v, up[0], now), up[1..], down))
  {
    PairSwaps(c, up, v, down);
    ReceivePair(v, down, c, up, now);
    PairSwaps(DeliverState(v, up[0], now), down, c, up[1..]);
  }

  lemma ReceiveKeeps(s: System, side: Side, now: int)
    requires Whole(s)
    ensures Whole(Next(s, Receive(side, now)))
  {
    ReceiveNext(s, now);
    if side == Client && s.down != [] {
      ClientReceives(s.client, s.up, s.server, s.down, now);
    } else if side == Server && s.up != [] {
      ServerReceives(s.client, s.up, s.server, s.down, now);
    }
  }

  lemma NextKeeps(s: System, x: SystemStep)
    requires Whole(s)
    ensures Whole(Next(s, x))
  {
    match x
    case Act(side, step) =>
      if !step.Transmit? && !step.Deliver? {
        ActKeeps(s, side, step);
      }
    case Send(side, length) => SendKeeps(s, side, length);
    case Receive(side, now) => ReceiveKeeps(s, side, now);
  }

  lemma InitLocal(side: Side)
    ensures Local(Init(side)) && Init(side).side == side
  {
    assert Run(Init(side), []) == Init(side);
    Promises.EveryRun(side, []);
    Obligations.EveryRun(side, []);
  }

  lemma StartWhole()
    ensures Whole(Start())
  {
    InitLocal(Client);
    InitLocal(Server);
  }

  lemma {:induction false} EveryRun(steps: seq<SystemStep>)
    ensures Whole(Exec(steps))
    decreases |steps|
  {
    if steps == [] {
      StartWhole();
    } else {
      EveryRun(steps[..|steps| - 1]);
      NextKeeps(Exec(steps[..|steps| - 1]), steps[|steps| - 1]);
    }
  }

  function Me(s: System, side: Side): State {
    if side == Client then s.client else s.server
  }

  /**
   End-to-end correlation. In every run, if a request promise of either side
   settles with an answer, then that answer names an ID allocated to this very
   promise, the peer accepted under that ID exactly the body that was asked, and
   the answer's body is exactly what the peer queued for it.
   */
  lemma AnswersMatchRequests(steps: seq<SystemStep>, side: Side, key: nat)
    requires key in Me(Exec(steps), side).hist.results
    requires Me(Exec(steps), side).hist.results[key].result.Answered?
    ensures var x, y := Me(Exec(steps), side), Me(Exec(steps), Peer(side));
            Matched(x, y, key, x.hist.results[key].result.envelope)
  {
    EveryRun(steps);
  }

  /** The envelope a side would handle next. */
  function Inbox(s: System, side: Side): seq<Envelope> {
    if side == Client then s.down else s.up
  }

  lemma FineVerdict(x: State, e: Envelope, now: int)
    requires x.core.Open? && (Mine(x, e) || (!e.body.failed && e.id !in x.core.reserved))
    ensures Verdict(x, e, now) != Some(Malformed)
    ensures KindOf(e.id, Own(x.side)) == IncomingResponse ==> Mine(x, e)
  {
  }

  /** The head of a channel is acceptable to its receiver. */
  lemma HeadAcceptable(x: State, fwd: seq<Envelope>, y: State, back: seq<Envelope>, now: int)
    requires Pair(x, fwd, y, back) && back != [] && x.core.Open?
    ensures Verdict(x, back[0], now) != Some(Malformed)
    ensures KindOf(back[0].id, Own(x.side)) == IncomingResponse ==> back[0].id in x.core.outstanding
  {
    if Mine(x, back[0]) {
      RouteExists(x, fwd, y, back);
    } else {
      RequestIsNew(x, fwd, y, back);
    }
    FineVerdict(x, back[0], now);
  }

  /**
   Conforming peers. In every run, no envelope in flight is rejected as malformed
   by its receiver, and every response meets the route of the request it answers.
   */
  lemma NothingRejected(steps: seq<SystemStep>, side: Side, now: int)
    requires Inbox(Exec(steps), side) != [] && Me(Exec(steps), side).core.Open?
    ensures var x, e := Me(Exec(steps), side), Inbox(Exec(steps), side)[0];
            && Verdict(x, e, now) != Some(Malformed)
            && (KindOf(e.id, Own(side)) == IncomingResponse ==> e.id in x.core.outstanding)
  {
    EveryRun(steps);
    var s := Exec(steps);
    if side == Client {
      HeadAcceptable(s.client, s.up, s.server, s.down, now);
    } else {
      PairSwaps(s.client, s.up, s.server, s.down);
      HeadAcceptable(s.server, s.down, s.client, s.up, now);
    }
  }

  lemma MyNext(s: System, side: Side, now: int)
    requires Inbox(s, side) != []
    ensures Me(Next(s, Receive(side, now)), side) == DeliverState(Me(s, side), Inbox(s, side)[0], now)
    ensures Inbox(Next(s, Receive(side, now)), side) == Inbox(s, side)[1..]
    ensures Me(Next(s, Receive(side, now)), Peer(side)) == Me(s, Peer(side))
  {
    ReceiveNext(s, now);
  }

  /** What the invariant says of the response at the head of a side's inbox. */
  lemma HeadRouted(steps: seq<SystemStep>, side: Side)
    requires var s := Exec(steps);
             Inbox(s, side) != [] && Me(s, side).core.Open? && Mine(Me(s, side), Inbox(s, side)[0])
    ensures var x, y, e := Me(Exec(steps), side), Me(Exec(steps), Peer(side)), Inbox(Exec(steps), side)[0];
            && Allocated(x, e.id) && e.id in x.core.outstanding && x.core.outstanding[e.id] == KeyOf(x, e.id)
            && Matched(x, y, KeyOf(x, e.id), e)
  {
    EveryRun(steps);
    var s := Exec(steps);
    if side == Client {
      RouteExists(s.client, s.up, s.server, s.down);
    } else {
      PairSwaps(s.client, s.up, s.server, s.down);
      RouteExists(s.server, s.down, s.client, s.up);
    }
  }

  /**
   Answers arrive. In every run, when the next envelope of an open side is a response,
   the promise that asked, if still pending, is settled by it: with exactly the body
   that the peer queued for this request when it is on time and fits the budget, whose
   bytes are then held if and only if the promise still exists; with a timeout when it
   is late; and with the byte limit when it does not fit.
   */
  lemma AnswersArrive(steps: seq<SystemStep>, side: Side, now: int)
    requires var s := Exec(steps); Inbox(s, side) != [] && Me(s, side).core.Open?
    requires Mine(Me(Exec(steps), side), Inbox(Exec(steps), side)[0])
    ensures var s := Exec(steps);
            var x, y, e, t := Me(s, side), Me(s, Peer(side)), Inbox(s, side)[0], Me(Next(s, Receive(side, now)), side);
            && Allocated(x, e.id)
            && var key := KeyOf(x, e.id);
               && e.id in y.hist.replies && e.body == y.hist.replies[e.id]
               && e.id in y.hist.requests && key in x.hist.asked && y.hist.requests[e.id] == x.hist.asked[key]
               && (key in x.core.operations ==> AnswerTaken(x, t, key, e, now))
               && (key !in x.core.operations ==> t.hist.results == x.hist.results && t.retained == x.retained)
  {
    HeadRouted(steps, side);
    var s := Exec(steps);
    var x, e := Me(s, side), Inbox(s, side)[0];
    MyNext(s, side, now);
    if KeyOf(x, e.id) in x.core.operations {
      AnswerSettles(x, e, now);
    } else {
      LateAnswerDropped(x, e, now);
    }
  }

  lemma HeadNew(steps: seq<SystemStep>, side: Side)
    requires var s := Exec(steps);
             Inbox(s, side) != [] && Me(s, side).core.Open? && !Mine(Me(s, side), Inbox(s, side)[0])
    ensures var x, y, e := Me(Exec(steps), side), Me(Exec(steps), Peer(side)), Inbox(Exec(steps), side)[0];
            Carries(y, e.id, e.body) && !e.body.failed && e.id !in x.core.reserved
  {
    EveryRun(steps);
    var s := Exec(steps);
    if side == Client {
      RequestIsNew(s.client, s.up, s.server, s.down);
    } else {
      PairSwaps(s.client, s.up, s.server, s.down);
      RequestIsNew(s.server, s.down, s.client, s.up);
    }
  }

  /**
   Requests arrive. In every run, when the next envelope of an open side is a request
   and both limits allow it, the side reserves its ID and queues it with the body that
   the peer asked with, charging its bytes; content it does not know only awaits its
   automatic reply. Otherwise nothing changes and the limit in question is reported.
   */
  lemma RequestsArrive(steps: seq<SystemStep>, side: Side, now: int)
    requires var s := Exec(steps); Inbox(s, side) != [] && Me(s, side).core.Open?
    requires !Mine(Me(Exec(steps), side), Inbox(Exec(steps), side)[0])
    ensures var s := Exec(steps);
            var x, y, e, t := Me(s, side), Me(s, Peer(side)), Inbox(s, side)[0], Me(Next(s, Receive(side, now)), side);
            && Carries(y, e.id, e.body)
            && (if |x.core.reserved| < x.core.maxRequests
                   && (e.body.unknown || x.retained + e.length <= x.core.maxBytes)
                then RequestTaken(x, t, e)
                else t == x && Verdict(x, e, now) ==
                               Some(if |x.core.reserved| >= x.core.maxRequests then RequestLimit(x.core.maxRequests)
                                    else ByteLimit(x.core.maxBytes)))
  {
    HeadNew(steps, side);
    MyNext(Exec(steps), side, now);
    RequestAdmitted(Me(Exec(steps), side), Inbox(Exec(steps), side)[0], now);
  }

  /**
   Allocation. In every run, the k-th request a session takes has ID
   `first + 2 * (k - 1)`, which fits 64 bits; the next one follows or does not
   exist, so no ID wraps or is reissued; and a route names the promise its ID was
   allocated to.
   */
  lemma IdsAreNeverReused(steps: seq<SystemStep>, side: Side)
    ensures var x := Me(Exec(steps), side);
            && (forall k :: 0 <= k < |x.hist.taken| ==> IdAt(side, k) <= U64_MAX)
            && (x.core.Open? ==>
                  && x.core.nextId == UpTo64(IdAt(side, |x.hist.taken|))
                  && (forall id :: id in x.core.outstanding ==>
                        exists k :: 0 <= k < |x.hist.taken| && id == IdAt(side, k)
                                    && x.core.outstanding[id] == x.hist.taken[k]))
  {
    EveryRun(steps);
    AllocationOf(Me(Exec(steps), side));
  }

  lemma AllocationOf(x: State)
    requires Numbered(x) && Routed(x)
    ensures forall k :: 0 <= k < |x.hist.taken| ==> IdAt(x.side, k) <= U64_MAX
    ensures x.core.Open? ==>
              && x.core.nextId == UpTo64(IdAt(x.side, |x.hist.taken|))
              && (forall id :: id in x.core.outstanding ==>
                    exists k :: 0 <= k < |x.hist.taken| && id == IdAt(x.side, k)
                                && x.core.outstanding[id] == x.hist.taken[k])
  {
    if x.core.Open? {
      forall id | id in x.core.outstanding
        ensures exists k :: 0 <= k < |x.hist.taken| && id == IdAt(x.side, k)
                            && x.core.outstanding[id] == x.hist.taken[k]
      {
        assert Allocated(x, id);
        assert id == IdAt(x.side, IndexOf(x.side, id));
      }
    }
  }
}
