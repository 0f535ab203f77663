/**
 One request and its answer between two idle sessions, step by step: the request is
 queued, taken, sent, admitted and received, answered, and the answer settles the
 promise that asked.
 */
module RoundTrip {
  import opened Prelude
  import opened Wire
  import opened Session
  import Numbering
  import Obligations
  import opened Outcomes
  import C = Correlation

  /** An open session with nothing queued and nothing in the writer's hand. */
  predicate Resting(s: State) {
    s.core.Open? && s.core.outgoing == [] && s.threads.hand == Empty && s.core.incoming == []
  }

  lemma OneAlive(m: Outgoing, operations: map<nat, Operation>, now: int)
    requires m.key in operations && now < operations[m.key].deadline
    ensures Alive([m], operations, now) == [m]
  {
    assert [m][1..] == [];
  }

  /** A resting session asks: its writer holds the request under the next ID, and the promise waits. */
  lemma Asks(c: State, body: Body, deadline: int, now: int)
    requires Resting(c) && c.core.nextId.Some? && !body.failed && now < deadline
    ensures var t, key := Do(Do(c, Request(body, deadline, now)), Take(now)), c.hist.issued;
            && t.core.Open? && t.threads.hand == Taken(c.core.nextId.value, Outgoing(key, Ask(body)))
            && key in t.core.operations && t.core.operations[key] == Operation(deadline, true)
            && t.hist.taken == c.hist.taken + [key] && t.retained == c.retained && t.core.maxBytes == c.core.maxBytes
  {
    var q := Do(c, Request(body, deadline, now));
    RequestQueues(c, body, deadline, now);
    assert q.core.outgoing == [Outgoing(c.hist.issued, Ask(body))];
    OneAlive(q.core.outgoing[0], q.core.operations, now);
    OldestIsTaken(q, now);
  }

  /** A session that has admitted a request receives, decodes and answers it. */
  lemma Answers(v: State, e: Envelope, body: Body, deadline: int, now: int)
    requires v.core.Open? && v.core.outgoing == [] && v.threads.hand == Empty && v.core.incoming == [e]
    requires e.id !in v.threads.responders && now < deadline
    ensures var t := Do(Do(Do(Do(v, Recv), Decode(e.id)), Reply(e.id, body, deadline, now)), Take(now));
            && t.core.Open? && t.threads.hand.Taken? && t.threads.hand.id == e.id
            && t.threads.hand.message.content == Answer(e.id, body)
  {
    var r := Do(v, Recv);
    OldestIsReceived(v);
    var d := Do(r, Decode(e.id));
    assert d.core == r.core && d.threads.responders == r.threads.responders && e.id !in d.threads.decoding
           && d.threads.hand == r.threads.hand;
    var q := Do(d, Reply(e.id, body, deadline, now));
    ReplyQueues(d, e.id, body, deadline, now);
    assert q.core.outgoing == [Outgoing(d.hist.issued, Answer(e.id, body))];
    OneAlive(q.core.outgoing[0], q.core.operations, now);
    OldestIsTaken(q, now);
  }

  lemma ExecMore(steps: seq<C.SystemStep>, x: C.SystemStep)
    ensures C.Exec(steps + [x]) == C.Next(C.Exec(steps), x)
  {
    assert (steps + [x])[..|steps|] == steps;
  }

  /** The system after a side acted, or its writer's message went out. */
  lemma Acted(s: C.System, step: Step)
    requires !step.Transmit? && !step.Deliver?
    ensures C.Next(s, C.Act(Client, step)) == s.(client := Do(s.client, step))
    ensures C.Next(s, C.Act(Server, step)) == s.(server := Do(s.server, step))
  {
  }

  /** What is still true of a session whose message went out. */
  lemma Transmitted(s: State)
    ensures var t := TransmitState(s); t.core == s.core && t.retained == s.retained && t.hist.taken == s.hist.taken
    ensures s.threads.hand.Taken? ==> !TransmitState(s).threads.hand.Taken?
  {
  }

  /** The request is on its way. */
  lemma AskSent(s: C.System, body: Body, deadline: int, now: int, length: nat)
    requires s.up == [] && Resting(s.client) && s.client.core.nextId.Some? && !body.failed && now < deadline
    ensures var r := C.Next(C.Next(C.Next(s, C.Act(Client, Request(body, deadline, now))), C.Act(Client, Take(now))),
                            C.Send(Client, length));
            var id, key := s.client.core.nextId.value, s.client.hist.issued;
            && r.up == [Envelope(id, body, length)] && r.down == s.down && r.server == s.server && r.client.core.Open?
            && key in r.client.core.operations && r.client.core.operations[key] == Operation(deadline, true)
            && r.client.hist.taken == s.client.hist.taken + [key]
            && r.client.retained == s.client.retained && r.client.core.maxBytes == s.client.core.maxBytes
  {
    Asks(s.client, body, deadline, now);
    var q := Do(s.client, Request(body, deadline, now));
    var t := Do(q, Take(now));
    Acted(s, Request(body, deadline, now));
    Acted(s.(client := q), Take(now));
    C.SendNext(s.(client := t), length);
    Transmitted(t);
  }

  /** The answer is on its way. */
  lemma AnswerSent(s: C.System, e: Envelope, body: Body, deadline: int, now: int, length: nat)
    requires s.down == [] && s.server.core.Open? && s.server.core.outgoing == [] && s.server.threads.hand == Empty
    requires s.server.core.incoming == [e] && e.id !in s.server.threads.responders && now < deadline
    ensures var a := C.Next(C.Next(s, C.Act(Server, Recv)), C.Act(Server, Decode(e.id)));
            var b := C.Next(C.Next(a, C.Act(Server, Reply(e.id, body, deadline, now))), C.Act(Server, Take(now)));
            var r := C.Next(b, C.Send(Server, length));
            r.down == [Envelope(e.id, body, length)] && r.client == s.client && r.up == s.up
  {
    Answers(s.server, e, body, deadline, now);
    var v1 := Do(s.server, Recv);
    var v2 := Do(v1, Decode(e.id));
    var v3 := Do(v2, Reply(e.id, body, deadline, now));
    Acted(s, Recv);
    Acted(s.(server := v1), Decode(e.id));
    Acted(s.(server := v2), Reply(e.id, body, deadline, now));
    Acted(s.(server := v3), Take(now));
    C.SendNext(s.(server := Do(v3, Take(now))), length);
  }

  /** Both sessions rest and there is room for a request and for its answer. */
  ghost predicate Ready(s: C.System, asked: nat, answered: nat) {
    && s.up == [] && s.down == [] && Resting(s.client) && Resting(s.server) && s.client.core.nextId.Some?
    && |s.server.core.reserved| < s.server.core.maxRequests
    && s.server.retained + asked <= s.server.core.maxBytes
    && s.client.retained + answered <= s.client.core.maxBytes
  }

  /** Steps up to the sending of the request. */
  function Asking(steps: seq<C.SystemStep>, body: Body, deadline: int, now: int, length: nat): seq<C.SystemStep> {
    steps + [C.Act(Client, Request(body, deadline, now))] + [C.Act(Client, Take(now))] + [C.Send(Client, length)]
  }

  /** Steps from the receipt of the request up to the sending of the answer. */
  function Replying(steps: seq<C.SystemStep>, id: nat, body: Body, deadline: int, now: int, length: nat)
    : seq<C.SystemStep>
  {
    steps + [C.Act(Server, Recv)] + [C.Act(Server, Decode(id))] + [C.Act(Server, Reply(id, body, deadline, now))]
    + [C.Act(Server, Take(now))] + [C.Send(Server, length)]
  }

  lemma AskingRuns(steps: seq<C.SystemStep>, body: Body, deadline: int, now: int, length: nat)
    ensures C.Exec(Asking(steps, body, deadline, now, length)) ==
            C.Next(C.Next(C.Next(C.Exec(steps), C.Act(Client, Request(body, deadline, now))), C.Act(Client, Take(now))),
                   C.Send(Client, length))
  {
    var p1 := steps + [C.Act(Client, Request(body, deadline, now))];
    ExecMore(steps, C.Act(Client, Request(body, deadline, now)));
    ExecMore(p1, C.Act(Client, Take(now)));
    ExecMore(p1 + [C.Act(Client, Take(now))], C.Send(Client, length));
  }

  lemma ReplyingRuns(steps: seq<C.SystemStep>, id: nat, body: Body, deadline: int, now: int, length: nat)
    ensures var a := C.Next(C.Next(C.Exec(steps), C.Act(Server, Recv)), C.Act(Server, Decode(id)));
            var b := C.Next(C.Next(a, C.Act(Server, Reply(id, body, deadline, now))), C.Act(Server, Take(now)));
            C.Exec(Replying(steps, id, body, deadline, now, length)) == C.Next(b, C.Send(Server, length))
  {
    var p1 := steps + [C.Act(Server, Recv)];
    var p2 := p1 + [C.Act(Server, Decode(id))];
    var p3 := p2 + [C.Act(Server, Reply(id, body, deadline, now))];
    ExecMore(steps, C.Act(Server, Recv));
    ExecMore(p1, C.Act(Server, Decode(id)));
    ExecMore(p2, C.Act(Server, Reply(id, body, deadline, now)));
    ExecMore(p3, C.Act(Server, Take(now)));
    ExecMore(p3 + [C.Act(Server, Take(now))], C.Send(Server, length));
  }

  /** An ID of the client is a request to the server and a response to the client. */
  lemma Theirs(steps: seq<C.SystemStep>)
    requires var c := C.Exec(steps).client; c.core.Open? && c.core.nextId.Some?
    ensures var s := C.Exec(steps); var id := s.client.core.nextId.value;
            && id == IdAt(Client, |s.client.hist.taken|) && s.client.side == Client && s.server.side == Server
            && ParityOf(id) == Own(Client) && ParityOf(id) != Own(Server)
            && IndexOf(Client, id) == |s.client.hist.taken|
  {
    C.EveryRun(steps);
    AllocatedIds(Client, |C.Exec(steps).client.hist.taken|);
  }

  /** The request has reached the server, which has nothing else to do. */
  ghost predicate Arrived(s: C.System, r: C.System, e: Envelope) {
    && r.up == [] && r.client == s.client && r.down == s.down
    && r.server.core.Open? && r.server.core.outgoing == [] && r.server.threads.hand == Empty
    && r.server.core.incoming == [e] && e.id !in r.server.threads.responders
  }

  lemma RequestArrives(steps: seq<C.SystemStep>, now: int)
    requires var s := C.Exec(steps);
             && |s.up| == 1 && Resting(s.server) && !C.Mine(s.server, s.up[0]) && !s.up[0].body.unknown
             && Room(s.server, s.up[0])
    ensures Arrived(C.Exec(steps), C.Exec(steps + [C.Receive(Server, now)]), C.Exec(steps).up[0])
  {
    var s, p := C.Exec(steps), steps + [C.Receive(Server, now)];
    ExecMore(steps, C.Receive(Server, now));
    C.RequestsArrive(steps, Server, now);
    C.MyNext(s, Server, now);
    C.ReceiveNext(s, now);
    assert s.up[1..] == [] && [] + [s.up[0]] == [s.up[0]];
    ServerOwed(p);
    Obligations.QueuedAlone(C.Exec(p).server);
  }

  lemma ServerOwed(steps: seq<C.SystemStep>)
    ensures Obligations.Owed(C.Exec(steps).server) && C.Exec(steps).client.side == Client
  {
    C.EveryRun(steps);
  }

  lemma AnswerArrives(steps: seq<C.SystemStep>, key: nat, deadline: int, now: int)
    requires var s := C.Exec(steps);
             && |s.down| == 1 && s.client.core.Open? && C.Mine(s.client, s.down[0])
             && IndexOf(Client, s.down[0].id) < |s.client.hist.taken|
             && s.client.hist.taken[IndexOf(Client, s.down[0].id)] == key
             && key in s.client.core.operations && s.client.core.operations[key].deadline == deadline && now < deadline
             && s.client.retained + s.down[0].length <= s.client.core.maxBytes
    ensures var s, r := C.Exec(steps), C.Exec(steps + [C.Receive(Client, now)]);
            key in r.client.hist.results && r.client.hist.results[key].result == Answered(s.down[0])
  {
    ServerOwed(steps);
    ExecMore(steps, C.Receive(Client, now));
    C.AnswersArrive(steps, Client, now);
  }

  /**
   A whole round trip: from every reachable state in which both sessions are open and
   idle and have room, a request that is queued, taken, sent, received, answered in time
   and answered back settles its promise with exactly the body of the answer.
   */
  lemma RequestAnswered(steps: seq<C.SystemStep>, ask: Body, reply: Body, askBy: int, replyBy: int, now: int,
                        asked: nat, replied: nat)
    requires Ready(C.Exec(steps), asked, replied) && !ask.failed && !ask.unknown && now < askBy && now < replyBy
    ensures var c := C.Exec(steps).client;
            var id, key := c.core.nextId.value, c.hist.issued;
            var there := Asking(steps, ask, askBy, now, asked) + [C.Receive(Server, now)];
            var back := Replying(there, id, reply, replyBy, now, replied) + [C.Receive(Client, now)];
            && key in C.Exec(back).client.hist.results
            && C.Exec(back).client.hist.results[key].result == Answered(Envelope(id, reply, replied))
  {
    var s := C.Exec(steps);
    var id, key := s.client.core.nextId.value, s.client.hist.issued;
    var p := Asking(steps, ask, askBy, now, asked);
    var there := p + [C.Receive(Server, now)];
    var q := Replying(there, id, reply, replyBy, now, replied);
    AskingRuns(steps, ask, askBy, now, asked);
    AskSent(s, ask, askBy, now, asked);
    Theirs(steps);
    RequestArrives(p, now);
    ReplyingRuns(there, id, reply, replyBy, now, replied);
    AnswerSent(C.Exec(there), Envelope(id, ask, asked), reply, replyBy, now, replied);
    ServerOwed(q);
    AnswerArrives(q, key, askBy, now);
  }
}
