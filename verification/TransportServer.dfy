/**
 The transport server's receive loop against the four-state reference machine
 that the repository states independently in its mock client.
 */
module TransportServer {
  import opened Prelude
  import opened Framing
  import FW = FrameWriting

  /**
   A complete frame as the server can tell it apart. An acknowledgment names the
   server hello it answers, and a sealed packet the session and sequence number
   it was encrypted with.
   */
  datatype Packet =
    | Hello(key: nat)
    | Ack(attempt: nat)
    | Sealed(session: nat, seqno: nat)
    | Junk

  /** How the output of a server hello went. */
  datatype Reply = Delivered | Broken | TimedOut

  datatype Input =
    | Reset                                              // an empty frame
    | Garbled(late: bool)                                // oversized or undecodable
    | Arrives(packet: Packet, reply: Reply, late: bool)  // `late`: deadline gone when processed
    | DeadlineHit                                        // handshake deadline gone while reading
    | ReadFails
    | StreamEnds
    | SendFails(timedOut: bool)                          // a sender's write ends the binding
    | Disconnects                                        // the owner drops the session

  datatype Outcome =
    | Absorbed
    | Opened(session: nat)
    | Ended
    | Message(session: nat, seqno: nat)
    | LocalEnd
    | RecvFailed
    | SendFailed
    | Terminated

  datatype Emit = ArkHello(hello: nat, attempt: nat) | DropSignal

  // ---------------------------------------------------------------------------
  // Reference machine

  datatype Phase =
    | Idle
    | AwaitHello
    | AwaitAck(hello: nat, attempt: nat)
    | Established(session: nat, next: nat)

  /** `held` says that a session was opened and its end has not been reported. */
  datatype Machine = Machine(phase: Phase, held: bool, attempts: nat, emits: seq<Emit>)

  const FRESH := Machine(Idle, false, 0, [])

  predicate Handshaking(m: Machine) {
    m.phase.AwaitHello? || m.phase.AwaitAck?
  }

  /** Invalid input abandons the handshake or session and signals the client. */
  function Abandon(m: Machine, late: bool): (Machine, Outcome) {
    (m.(phase := Idle, held := false, emits := m.emits + [DropSignal]),
     if m.held then Ended else if Handshaking(m) && late then RecvFailed else Absorbed)
  }

  /** A read error or the end of the stream aborts only an unfinished handshake. */
  function Interrupt(m: Machine, o: Outcome): (Machine, Outcome) {
    (if Handshaking(m) then m.(phase := Idle) else m, o)
  }

  function Advance(m: Machine, x: Input): (Machine, Outcome) {
    match x
    case Reset => (m.(phase := AwaitHello, held := false), if m.held then Ended else Absorbed)
    case Garbled(late) => Abandon(m, late)
    case Arrives(packet, reply, late) =>
      if m.phase.AwaitHello? && packet.Hello? then
        var a := m.attempts;
        var n := m.(attempts := a + 1, emits := m.emits + [ArkHello(packet.key, a)]);
        match reply
        case Delivered => (n.(phase := AwaitAck(packet.key, a)), Absorbed)
        case Broken => (n.(phase := Idle, emits := n.emits + [DropSignal]), SendFailed)
        case TimedOut => (n.(phase := Idle), SendFailed)
      else if m.phase.AwaitAck? && packet == Ack(m.phase.attempt) then
        (m.(phase := Established(m.phase.attempt, 0), held := true), Opened(m.phase.attempt))
      else if m.phase.Established? && packet == Sealed(m.phase.session, m.phase.next) then
        (m.(phase := Established(m.phase.session, m.phase.next + 1)), Message(m.phase.session, m.phase.next))
      else Abandon(m, late)
    case DeadlineHit => if Handshaking(m) then (m.(phase := Idle), RecvFailed) else (m, Absorbed)
    case ReadFails => Interrupt(m, RecvFailed)
    case StreamEnds => Interrupt(m, Terminated)
    case SendFails(timedOut) =>
      (if !m.phase.Established? then m
       else m.(phase := Idle, emits := if timedOut then m.emits else m.emits + [DropSignal]),
       Absorbed)
    case Disconnects =>
      if m.phase.AwaitAck? then (m, Absorbed)
      else
        (m.(phase := if m.phase.AwaitHello? then AwaitHello else Idle, held := false,
            emits := m.emits + [DropSignal]),
         if m.held then LocalEnd else Absorbed)
  }

  /** Machine after a whole input. */
  function Replay(inputs: seq<Input>): Machine {
    if inputs == [] then FRESH else Advance(Replay(inputs[..|inputs| - 1]), inputs[|inputs| - 1]).0
  }

  /** What an outcome adds to the events the owner has seen. */
  function Shown(o: Outcome): seq<Outcome> {
    if o == Absorbed then [] else [o]
  }

  /** Outcomes a whole input surfaces to the owner, in order. */
  function Surfaced(inputs: seq<Input>): seq<Outcome> {
    if inputs == [] then []
    else
      Surfaced(inputs[..|inputs| - 1]) + Shown(Advance(Replay(inputs[..|inputs| - 1]), inputs[|inputs| - 1]).1)
  }

  lemma OneMore(inputs: seq<Input>, x: Input)
    ensures Replay(inputs + [x]) == Advance(Replay(inputs), x).0
    ensures Surfaced(inputs + [x]) == Surfaced(inputs) + Shown(Advance(Replay(inputs), x).1)
  {
    assert (inputs + [x])[..|inputs|] == inputs;
  }

  // ---------------------------------------------------------------------------
  // Order of the events

  /** An owner's view: the open session and its next sequence number, and the newest session. */
  datatype Owner = Owner(open: Option<(nat, nat)>, newest: Option<nat>)

  /** What the owner may observe next; `None` is a violation. */
  function Observe(w: Owner, o: Outcome): Option<Owner> {
    match o
    case Opened(s) =>
      if w.open.None? && (w.newest.None? || w.newest.value < s) then Some(Owner(Some((s, 0)), Some(s))) else None
    case Ended => if w.open.Some? then Some(w.(open := None)) else None
    case LocalEnd => if w.open.Some? then Some(w.(open := None)) else None
    case Message(s, n) =>
      if w.open == Some((s, n)) then Some(w.(open := Some((s, n + 1)))) else None
    case _ => Some(w)
  }

  function Watch(events: seq<Outcome>): Option<Owner> {
    if events == [] then Some(Owner(None, None))
    else
      var w := Watch(events[..|events| - 1]);
      if w.None? then None else Observe(w.value, events[|events| - 1])
  }

  lemma WatchMore(events: seq<Outcome>, o: Outcome)
    ensures Watch(events + [o]) == if Watch(events).None? then None else Observe(Watch(events).value, o)
  {
    assert (events + [o])[..|events|] == events;
  }

  /** The owner's view agrees with the machine. */
  ghost predicate Agrees(m: Machine, w: Owner) {
    && (m.held <==> w.open.Some?)
    && (m.phase.Established? ==> w.open == Some((m.phase.session, m.phase.next)))
    && (w.newest.Some? ==> w.newest.value < m.attempts)
    && (m.phase.AwaitAck? ==> m.phase.attempt < m.attempts
                              && (w.newest.Some? ==> w.newest.value < m.phase.attempt))
    && (Handshaking(m) ==> !m.held)
  }

  lemma StepAgrees(m: Machine, w: Owner, x: Input)
    requires Agrees(m, w)
    ensures var (n, o) := Advance(m, x);
            if o == Absorbed then Agrees(n, w)
            else Observe(w, o).Some? && Agrees(n, Observe(w, o).value)
  {
  }

  /**
   Event order over every run: a session opens only after the previous one was
   reported ended, exactly once, or dropped by the owner; sessions are new; and
   its messages arrive inside it, numbered from zero without a gap or a repeat.
   */
  lemma {:induction false} EventsInOrder(inputs: seq<Input>)
    ensures Watch(Surfaced(inputs)).Some?
    ensures Agrees(Replay(inputs), Watch(Surfaced(inputs)).value)
  {
    if inputs != [] {
      var past, x := inputs[..|inputs| - 1], inputs[|inputs| - 1];
      EventsInOrder(past);
      var w, o := Watch(Surfaced(past)).value, Advance(Replay(past), x).1;
      StepAgrees(Replay(past), w, x);
      if o != Absorbed {
        WatchMore(Surfaced(past), o);
      } else {
        assert Surfaced(inputs) == Surfaced(past);
      }
    }
  }

  /** Inputs that no frame brings and that the owner does not cause. */
  predicate Frameless(x: Input) {
    x.ReadFails? || x.StreamEnds? || x.DeadlineHit? || x.SendFails?
  }

  /** The machine run on from any state, and what that shows. */
  function RunFrom(m: Machine, inputs: seq<Input>): Machine {
    if inputs == [] then m else Advance(RunFrom(m, inputs[..|inputs| - 1]), inputs[|inputs| - 1]).0
  }

  function ShownFrom(m: Machine, inputs: seq<Input>): seq<Outcome> {
    if inputs == [] then []
    else
      var past, x := inputs[..|inputs| - 1], inputs[|inputs| - 1];
      ShownFrom(m, past) + Shown(Advance(RunFrom(m, past), x).1)
  }

  /** A run goes on from where it was. */
  lemma {:induction false} RunSplits(base: seq<Input>, more: seq<Input>)
    ensures Replay(base + more) == RunFrom(Replay(base), more)
    ensures Surfaced(base + more) == Surfaced(base) + ShownFrom(Replay(base), more)
  {
    if more == [] {
      assert base + more == base;
    } else {
      var past, x := more[..|more| - 1], more[|more| - 1];
      assert more == past + [x] && base + more == base + past + [x];
      RunSplits(base, past);
      SplitMore(base, past, x);
    }
  }

  lemma SplitMore(base: seq<Input>, past: seq<Input>, x: Input)
    requires Replay(base + past) == RunFrom(Replay(base), past)
    requires Surfaced(base + past) == Surfaced(base) + ShownFrom(Replay(base), past)
    ensures Replay(base + past + [x]) == RunFrom(Replay(base), past + [x])
    ensures Surfaced(base + past + [x]) == Surfaced(base) + ShownFrom(Replay(base), past + [x])
  {
    var m := Replay(base);
    OneMore(base + past, x);
    FromMore(m, past, x);
    JoinShown(Surfaced(base), ShownFrom(m, past), Shown(Advance(RunFrom(m, past), x).1));
  }

  lemma FromMore(m: Machine, past: seq<Input>, x: Input)
    ensures RunFrom(m, past + [x]) == Advance(RunFrom(m, past), x).0
    ensures ShownFrom(m, past + [x]) == ShownFrom(m, past) + Shown(Advance(RunFrom(m, past), x).1)
  {
    assert (past + [x])[..|past|] == past;
  }

  lemma JoinShown(a: seq<Outcome>, b: seq<Outcome>, c: seq<Outcome>)
    ensures a + b + c == a + (b + c)
  {
  }

  /** Until a frame arrives, a lost session stays unreported. */
  lemma {:induction false} GapKeeps(m: Machine, gap: seq<Input>)
    requires m.held && m.phase == Idle && forall x <- gap :: Frameless(x)
    ensures RunFrom(m, gap).held && RunFrom(m, gap).phase == Idle && Ended !in ShownFrom(m, gap)
  {
    if gap != [] {
      var past, x := gap[..|gap| - 1], gap[|gap| - 1];
      GapKeeps(m, past);
      FramelessKeeps(RunFrom(m, past), x);
    }
  }

  lemma FramelessKeeps(m: Machine, x: Input)
    requires m.held && m.phase == Idle && Frameless(x)
    ensures var (n, o) := Advance(m, x); n.held && n.phase == Idle && o != Ended
  {
  }

  /** Without a session, no end is reported before a new one opens. */
  lemma {:induction false} NoSecondEnd(m: Machine, later: seq<Input>)
    requires !m.held && forall o <- ShownFrom(m, later) :: !o.Opened?
    ensures !RunFrom(m, later).held && Ended !in ShownFrom(m, later)
  {
    if later != [] {
      var past, x := later[..|later| - 1], later[|later| - 1];
      var o := Advance(RunFrom(m, past), x).1;
      assert forall p <- ShownFrom(m, past) :: p in ShownFrom(m, later);
      NoSecondEnd(m, past);
      assert o.Opened? ==> Shown(o) == [o] && o in ShownFrom(m, later);
      NoEndUnheld(RunFrom(m, past), x);
    }
  }

  lemma NoEndUnheld(m: Machine, x: Input)
    requires !m.held
    ensures var (n, o) := Advance(m, x); o != Ended && (!o.Opened? ==> !n.held)
  {
  }

  lemma LossSurfaces(m: Machine, timedOut: bool)
    requires m.phase.Established? && m.held
    ensures var (n, o) := Advance(m, SendFails(timedOut)); o == Absorbed && n.held && n.phase == Idle
  {
  }

  lemma FrameEndsIt(m: Machine, x: Input)
    requires m.held && m.phase == Idle && FromBytes(x)
    ensures Advance(m, x).1 == Ended && !Advance(m, x).0.held
  {
  }

  /**
   A session that a failed send ended is reported once: whatever reads fail and
   sends fail meanwhile, nothing reports the end before the next frame, that frame
   does, and nothing does again before a new session opens.
   */
  lemma LossReportedOnce(inputs: seq<Input>, timedOut: bool, gap: seq<Input>, x: Input, later: seq<Input>)
    requires Replay(inputs).phase.Established? && FromBytes(x) && forall y <- gap :: Frameless(y)
    ensures var lost := inputs + [SendFails(timedOut)];
            var meanwhile, after := ShownFrom(Replay(lost), gap), ShownFrom(Replay(lost + gap + [x]), later);
            && Surfaced(lost + gap + [x] + later) == Surfaced(inputs) + meanwhile + [Ended] + after
            && Ended !in meanwhile
            && ((forall o <- after :: !o.Opened?) ==> Ended !in after)
  {
    EventsInOrder(inputs);
    var lost := inputs + [SendFails(timedOut)];
    OneMore(inputs, SendFails(timedOut));
    LossSurfaces(Replay(inputs), timedOut);
    assert Surfaced(lost) == Surfaced(inputs);
    RunSplits(lost, gap);
    GapKeeps(Replay(lost), gap);
    OneMore(lost + gap, x);
    FrameEndsIt(Replay(lost + gap), x);
    RunSplits(lost + gap + [x], later);
    if forall o <- ShownFrom(Replay(lost + gap + [x]), later) :: !o.Opened? {
      NoSecondEnd(Replay(lost + gap + [x]), later);
    }
  }

  // ---------------------------------------------------------------------------
  // What the owner can count on

  /** An unreported session is in use, unless a send failed. */
  predicate InUse(m: Machine) { m.held ==> m.phase.Established? }

  lemma StepInUse(m: Machine, x: Input)
    requires InUse(m) && !x.SendFails?
    ensures InUse(Advance(m, x).0)
  {
  }

  lemma {:induction false} StaysInUse(m: Machine, since: seq<Input>)
    requires InUse(m) && forall x <- since :: !x.SendFails?
    ensures InUse(RunFrom(m, since))
  {
    if since != [] {
      StaysInUse(m, since[..|since| - 1]);
      StepInUse(RunFrom(m, since[..|since| - 1]), since[|since| - 1]);
    }
  }

  lemma OpeningInUse(m: Machine, x: Input)
    requires Advance(m, x).1.Opened?
    ensures InUse(Advance(m, x).0)
  {
  }

  lemma ExpectedIsMessage(m: Machine, s: nat, n: nat, reply: Reply, late: bool)
    requires m.phase == Established(s, n)
    ensures Advance(m, Arrives(Sealed(s, n), reply, late)).1 == Message(s, n)
  {
  }

  /**
   Messages are delivered: in every run, while the owner has a session open in which
   no send has failed since it opened, the packet it expects next surfaces as exactly
   that message.
   */
  lemma ExpectedDelivered(before: seq<Input>, opening: Input, since: seq<Input>, s: nat, n: nat,
                          reply: Reply, late: bool)
    requires Advance(Replay(before), opening).1.Opened? && forall x <- since :: !x.SendFails?
    requires Watch(Surfaced(before + [opening] + since)) != None
    requires Watch(Surfaced(before + [opening] + since)).value.open == Some((s, n))
    ensures var inputs := before + [opening] + since;
            Surfaced(inputs + [Arrives(Sealed(s, n), reply, late)]) == Surfaced(inputs) + [Message(s, n)]
  {
    var inputs := before + [opening] + since;
    OneMore(before, opening);
    OpeningInUse(Replay(before), opening);
    RunSplits(before + [opening], since);
    StaysInUse(Replay(before + [opening]), since);
    EventsInOrder(inputs);
    ExpectedIsMessage(Replay(inputs), s, n, reply, late);
    OneMore(inputs, Arrives(Sealed(s, n), reply, late));
  }

  /** Frames that the state of the server calls for. */
  predicate Expected(m: Machine, x: Input) {
    || x.Reset?
    || (x.Arrives? && x.packet.Hello? && m.phase.AwaitHello?)
    || (x.Arrives? && m.phase.AwaitAck? && x.packet == Ack(m.phase.attempt))
    || (x.Arrives? && m.phase.Established? && x.packet == Sealed(m.phase.session, m.phase.next))
  }

  /** Any other frame ends what there was, is answered with a drop signal, and is reported if it ended a session. */
  lemma OthersAreDropped(m: Machine, x: Input)
    requires FromBytes(x) && !Expected(m, x)
    ensures var (n, o) := Advance(m, x);
            && n == Machine(Idle, false, m.attempts, m.emits + [DropSignal])
            && o == if m.held then Ended
                    else if (m.phase.AwaitHello? || m.phase.AwaitAck?) && x.late then RecvFailed else Absorbed
  {
  }

  /** A hello is answered with keys of its own; a reply that cannot be sent ends the attempt with an error. */
  lemma HelloIsAnswered(m: Machine, key: nat, reply: Reply, late: bool)
    requires m.phase.AwaitHello?
    ensures var (n, o) := Advance(m, Arrives(Hello(key), reply, late));
            && n.attempts == m.attempts + 1 && |n.emits| > |m.emits| && n.emits[|m.emits|] == ArkHello(key, m.attempts)
            && (if reply == Delivered then n.phase == AwaitAck(key, m.attempts) && o == Absorbed
                else n.phase == Idle && o == Outcome.SendFailed)
            && n.emits == m.emits + [ArkHello(key, m.attempts)] + if reply == Broken then [DropSignal] else []
  {
  }

  /** The awaited acknowledgment opens the session of its attempt. */
  lemma AckOpens(m: Machine, reply: Reply, late: bool)
    requires m.phase.AwaitAck?
    ensures var (n, o) := Advance(m, Arrives(Ack(m.phase.attempt), reply, late));
            o == Opened(m.phase.attempt) && n.phase == Established(m.phase.attempt, 0) && n.held
  {
  }

  /**
   Reading that fails or ends is reported every time, a handshake deadline once; they
   end a handshake and leave a session alone.
   */
  lemma FailuresSurface(m: Machine)
    ensures Advance(m, ReadFails).1 == RecvFailed && Advance(m, StreamEnds).1 == Terminated
    ensures m.phase.AwaitHello? || m.phase.AwaitAck? ==>
              && Advance(m, DeadlineHit).1 == RecvFailed && Advance(m, DeadlineHit).0.phase == Idle
              && Advance(m, ReadFails).0.phase == Idle && Advance(m, StreamEnds).0.phase == Idle
    ensures m.phase.Established? || m.phase.Idle? ==>
              Advance(m, ReadFails).0 == m && Advance(m, StreamEnds).0 == m
  {
  }

  // ---------------------------------------------------------------------------
  // Self-stabilisation

  /** Input `x` is what the server makes of a reported frame. */
  predicate ReadsAs(codec: FW.Codec, read: seq<byte> -> Packet, e: Event, x: Input) {
    match e
    case Oversize => x.Garbled?
    case Frame(bytes) =>
      if bytes == [] then x == Reset
      else
        match codec.decode(bytes)
        case None => x.Garbled?
        case Some(packet) => x.Arrives? && x.packet == read(packet)
  }

  predicate FromBytes(x: Input) { x.Reset? || x.Garbled? || x.Arrives? }

  /** Inputs that came off the line, without the acts of senders and of the owner. */
  function Heard(inputs: seq<Input>): seq<Input> {
    if inputs == [] then []
    else
      var x := inputs[|inputs| - 1];
      Heard(inputs[..|inputs| - 1]) + if FromBytes(x) then [x] else []
  }

  /** Neither reading fails nor the handshake deadline expires. */
  predicate Undisturbed(inputs: seq<Input>) {
    forall x <- inputs :: FromBytes(x) || x.SendFails? || x.Disconnects?
  }

  /** A reset leaves the server awaiting a hello, from anywhere. */
  lemma {:induction false} ResetAwaitsHello(m: Machine, inputs: seq<Input>)
    requires Undisturbed(inputs)
    requires var h := Heard(inputs); h != [] && h[|h| - 1] == Reset
    ensures RunFrom(m, inputs).phase == AwaitHello && !RunFrom(m, inputs).held
  {
    var past, x := inputs[..|inputs| - 1], inputs[|inputs| - 1];
    if !FromBytes(x) {
      assert Heard(inputs) == Heard(past);
      ResetAwaitsHello(m, past);
    }
  }

  /** A reset and an answered hello leave it awaiting the acknowledgment of that hello. */
  lemma {:induction false} ResetThenHello(m: Machine, inputs: seq<Input>, key: nat)
    requires Undisturbed(inputs)
    requires var h := Heard(inputs);
             && |h| >= 2 && h[|h| - 2] == Reset
             && h[|h| - 1].Arrives? && h[|h| - 1].packet == Hello(key) && h[|h| - 1].reply == Delivered
    ensures var n := RunFrom(m, inputs); n.phase.AwaitAck? && n.phase.hello == key && !n.held
    ensures var n := RunFrom(m, inputs); exists i :: 0 <= i < |n.emits| && n.emits[i] == ArkHello(key, n.phase.attempt)
  {
    var past, x := inputs[..|inputs| - 1], inputs[|inputs| - 1];
    if FromBytes(x) {
      assert Heard(inputs) == Heard(past) + [x];
      ResetAwaitsHello(m, past);
      var n := RunFrom(m, inputs);
      assert n.emits[|n.emits| - 1] == ArkHello(key, n.phase.attempt);
    } else {
      assert Heard(inputs) == Heard(past);
      ResetThenHello(m, past, key);
    }
  }

  /**
   Self-stabilising connect: whatever state the line and the server were in and
   whatever junk came before, a reset followed by a hello leaves the server
   awaiting the acknowledgment of that hello, provided its reply goes out.
   */
  lemma ConnectStabilises(codec: FW.Codec, read: seq<byte> -> Packet, line: Automaton, junk: seq<byte>,
                          m: Machine, hello: seq<byte>, key: nat, inputs: seq<Input>)
    requires codec.Lawful() && |codec.encode(hello)| <= MAX_FRAME_SIZE && read(hello) == Hello(key)
    requires Undisturbed(inputs)
    requires var events, h := Reported(line, junk + [0, 0] + codec.encode(hello) + [0]), Heard(inputs);
             && |h| == |events| && (forall i :: 0 <= i < |h| ==> ReadsAs(codec, read, events[i], h[i]))
             && (h != [] && h[|h| - 1].Arrives? ==> h[|h| - 1].reply == Delivered)
    ensures var n := RunFrom(m, inputs);
            && n.phase.AwaitAck? && n.phase.hello == key && !n.held
            && exists i :: 0 <= i < |n.emits| && n.emits[i] == ArkHello(key, n.phase.attempt)
  {
    var f, start := codec.encode(hello), junk + [0, 0];
    ResetResynchronises(line, junk);
    FeedAppend(line, start, f + [0]);
    FrameOnCleanLine(f);
    assert start + (f + [0]) == junk + [0, 0] + f + [0];
    var events := Reported(line, start) + [Frame(f)];
    assert Reported(line, junk + [0, 0] + f + [0]) == events;
    var h := Heard(inputs);
    assert ReadsAs(codec, read, events[|h| - 2], h[|h| - 2]) && ReadsAs(codec, read, events[|h| - 1], h[|h| - 1]);
    ResetThenHello(m, inputs, key);
  }
}
