/**
 A whole connection attempt, end to end: the client's reset and hello over any junk
 into a server in any state, the server's hello behind whatever its writer left on
 the line, and the client's acknowledgment.
 */
module Connecting {
  import opened Prelude
  import opened Framing
  import FW = FrameWriting
  import opened TransportServer
  import opened ClientLoop

  /** What the client makes of a reported frame. */
  function ArrivalOf(codec: FW.Codec, read: seq<byte> -> Arrival, e: Event): Arrival {
    match e
    case Oversize => Undecodable
    case Frame(bytes) =>
      if bytes == [] then Blank
      else
        match codec.decode(bytes)
        case None => Undecodable
        case Some(packet) => read(packet)
  }

  function Arrivals(codec: FW.Codec, read: seq<byte> -> Arrival, events: seq<Event>): seq<Arrival> {
    seq(|events|, i requires 0 <= i < |events| => ArrivalOf(codec, read, events[i]))
  }

  /** A writer that has nothing to recover from has left a clean line. */
  lemma SuccessLeavesClean(h: seq<FW.Send>)
    requires FW.Legal(h) && !FW.Resync(h)
    ensures After(IDLE, FW.Line(h)) == IDLE
  {
    FW.WriterResynchronises(h);
    AutomatonCutsAtZeros(FW.Line(h));
  }

  /** Behind any history of sends, a successful frame is the last thing reported. */
  lemma FrameArrives(a: Automaton, lead: seq<byte>, f: seq<byte>)
    requires (lead == [] && a == IDLE) || lead == [0]
    requires ZeroFree(f) && |f| <= MAX_FRAME_SIZE
    ensures After(a, lead + f + [0]) == IDLE
    ensures Reported(a, lead + f + [0]) == Reported(a, lead) + [Frame(f)]
  {
    FeedAppend(a, lead, f + [0]);
    assert lead + (f + [0]) == lead + f + [0];
    FrameOnCleanLine(f);
    if lead == [0] {
      FeedByte(a, 0);
    }
  }

  lemma LineGrows(h: seq<FW.Send>, x: FW.Send)
    requires FW.Legal(h + [x]) && FW.Legal(h) && x.ok
    ensures FW.Line(h + [x]) == FW.Line(h) + (FW.Lead(FW.Resync(h), x.output) + FW.Payload(x.output) + [0])
    ensures ZeroFree(FW.Payload(x.output))
  {
    var all, bytes := h + [x], FW.Bytes(FW.Resync(h), x.output);
    assert all[..|all| - 1] == h && all[|all| - 1] == x;
    assert bytes[..|bytes|] == bytes;
  }

  lemma RestSplits(consumed: seq<byte>, rest: seq<byte>, line: seq<byte>, last: seq<byte>)
    requires consumed <= line && consumed + rest == line + last
    ensures line == consumed + line[|consumed|..] && rest == line[|consumed|..] + last
  {
    assert rest == (consumed + rest)[|consumed|..];
    assert (line + last)[|consumed|..] == line[|consumed|..] + last;
  }

  /**
   The server's hello reaches the client: the client may have read any part of what
   the server wrote before, complete or cut short; of what it still reads, the hello
   is the last frame.
   */
  lemma HelloArrives(h: seq<FW.Send>, x: FW.Send, f: seq<byte>, consumed: seq<byte>, rest: seq<byte>)
    requires FW.Legal(h + [x]) && x.ok && x.output == FW.Packet(f) && |f| <= MAX_FRAME_SIZE
    requires FW.Legal(h) && consumed <= FW.Line(h) && consumed + rest == FW.Line(h + [x])
    ensures var events := Reported(After(IDLE, consumed), rest);
            events != [] && events[|events| - 1] == Frame(f)
  {
    var lead, between := FW.Lead(FW.Resync(h), x.output), FW.Line(h)[|consumed|..];
    var last := lead + f + [0];
    LineGrows(h, x);
    RestSplits(consumed, rest, FW.Line(h), last);
    var a := After(IDLE, consumed);
    FeedAppend(a, between, last);
    FeedAppend(IDLE, consumed, between);
    if !FW.Resync(h) {
      SuccessLeavesClean(h);
    }
    FrameArrives(After(a, between), lead, f);
  }

  /** The first frame that is not stale is the last one, if it is not stale itself. */
  lemma LastAnswers(arrivals: seq<Arrival>, key: nat)
    requires arrivals != [] && !Stale(arrivals[|arrivals| - 1], key)
    requires forall i :: 0 <= i < |arrivals| - 1 ==> Stale(arrivals[i], key)
    ensures Answer(arrivals, key) == Some(arrivals[|arrivals| - 1])
  {
    var before, last := arrivals[..|arrivals| - 1], arrivals[|arrivals| - 1..];
    assert arrivals == before + last;
    StaleSkipped(before, last, key);
  }

  /** What the client has sent up to its hello, behind the junk. */
  function Opening(junk: seq<byte>, hello: seq<byte>): seq<byte> {
    junk + [0, 0] + hello + [0]
  }

  /** The server reads the client's opening without a failure, and its hello goes out. */
  ghost predicate ServerReads(codec: FW.Codec, read: seq<byte> -> Packet, events: seq<Event>, inputs: seq<Input>) {
    var h := Heard(inputs);
    && Undisturbed(inputs) && |h| == |events|
    && (forall i :: 0 <= i < |h| ==> ReadsAs(codec, read, events[i], h[i]))
    && (h != [] && h[|h| - 1].Arrives? ==> h[|h| - 1].reply == Delivered)
  }

  /** `packet` is the last thing on the server's line, of which the client has yet to read `rest`. */
  ghost predicate LastOnLine(codec: FW.Codec, packet: seq<byte>,
                             h: seq<FW.Send>, consumed: seq<byte>, rest: seq<byte>) {
    && h != [] && FW.Legal(h) && FW.Legal(h[..|h| - 1])
    && h[|h| - 1].ok && h[|h| - 1].output == FW.Packet(codec.encode(packet))
    && consumed <= FW.Line(h[..|h| - 1]) && consumed + rest == FW.Line(h)
  }

  /** No earlier frame that the client still reads names its key. */
  ghost predicate KeyIsNew(codec: FW.Codec, read: seq<byte> -> Arrival, events: seq<Event>, key: nat) {
    forall i :: 0 <= i < |events| - 1 ==> Stale(ArrivalOf(codec, read, events[i]), key)
  }

  /** The client gets the server's hello as its answer. */
  lemma ClientHears(codec: FW.Codec, read: seq<byte> -> Arrival, packet: seq<byte>, key: nat, attempt: nat,
                    h: seq<FW.Send>, consumed: seq<byte>, rest: seq<byte>)
    requires codec.Lawful() && |codec.encode(packet)| <= MAX_FRAME_SIZE
    requires LastOnLine(codec, packet, h, consumed, rest) && read(packet) == HelloFor(key, attempt, true)
    requires KeyIsNew(codec, read, Reported(After(IDLE, consumed), rest), key)
    ensures Answer(Arrivals(codec, read, Reported(After(IDLE, consumed), rest)), key) ==
            Some(HelloFor(key, attempt, true))
  {
    var past, x := h[..|h| - 1], h[|h| - 1];
    assert h == past + [x];
    var events := Reported(After(IDLE, consumed), rest);
    HelloArrives(past, x, codec.encode(packet), consumed, rest);
    LastAnswers(Arrivals(codec, read, events), key);
  }

  /** The acknowledgment of the attempt that a server awaits establishes it. */
  lemma AckEstablishes(m: Machine, inputs: seq<Input>, x: Input)
    requires RunFrom(m, inputs).phase.AwaitAck? && x.Arrives? && x.packet == Ack(RunFrom(m, inputs).phase.attempt)
    ensures var n := RunFrom(m, inputs + [x]);
            n.phase == Established(RunFrom(m, inputs).phase.attempt, 0) && n.held
  {
    assert (inputs + [x])[..|inputs|] == inputs;
  }

  /** Behind the opening, the next frame is reported alone. */
  lemma AfterOpening(line: Automaton, junk: seq<byte>, hello: seq<byte>, f: seq<byte>)
    requires ZeroFree(hello) && |hello| <= MAX_FRAME_SIZE && ZeroFree(f) && |f| <= MAX_FRAME_SIZE
    ensures Reported(After(line, Opening(junk, hello)), f + [0]) == [Frame(f)]
  {
    ResetResynchronises(line, junk);
    FeedAppend(line, junk + [0, 0], hello + [0]);
    assert junk + [0, 0] + (hello + [0]) == Opening(junk, hello);
    FrameOnCleanLine(hello);
    FrameOnCleanLine(f);
  }

  /**
   Both sides end up in the same session. Whatever was on the lines and whatever the
   server was doing, when the three frames of an attempt go out and its key is new to
   the frames still on the line, the client's answer is the hello of the very attempt
   that the server is in, and acknowledging it establishes that attempt at the server.
   */
  lemma ConnectJoins(codec: FW.Codec, atServer: seq<byte> -> Packet, atClient: seq<byte> -> Arrival,
                     line: Automaton, junk: seq<byte>, m: Machine, hello: seq<byte>, key: nat, inputs: seq<Input>,
                     arkHello: seq<byte>, h: seq<FW.Send>, consumed: seq<byte>, rest: seq<byte>,
                     ack: seq<byte>, answered: Input)
    requires codec.Lawful() && |codec.encode(hello)| <= MAX_FRAME_SIZE
    requires |codec.encode(arkHello)| <= MAX_FRAME_SIZE && |codec.encode(ack)| <= MAX_FRAME_SIZE
    // Reset and hello go up, and the server answers
    requires atServer(hello) == Hello(key)
    requires ServerReads(codec, atServer, Reported(line, Opening(junk, codec.encode(hello))), inputs)
    // The hello of the server's attempt comes down behind its earlier output
    requires LastOnLine(codec, arkHello, h, consumed, rest)
    requires KeyIsNew(codec, atClient, Reported(After(IDLE, consumed), rest), key)
    requires var n := RunFrom(m, inputs).phase;
             n.AwaitAck? ==> atClient(arkHello) == HelloFor(key, n.attempt, true) && atServer(ack) == Ack(n.attempt)
    // The acknowledgment goes up
    requires var events := Reported(After(line, Opening(junk, codec.encode(hello))), codec.encode(ack) + [0]);
             |events| == 1 ==> ReadsAs(codec, atServer, events[0], answered)
    ensures var n := RunFrom(m, inputs).phase;
            && n.AwaitAck?
            && Answer(Arrivals(codec, atClient, Reported(After(IDLE, consumed), rest)), key) ==
               Some(HelloFor(key, n.attempt, true))
            && RunFrom(m, inputs + [answered]).phase == Established(n.attempt, 0)
            && RunFrom(m, inputs + [answered]).held
  {
    assert RunFrom(m, inputs).phase.AwaitAck? by {
      ConnectStabilises(codec, atServer, line, junk, m, hello, key, inputs);
    }
    var attempt := RunFrom(m, inputs).phase.attempt;
    ClientHears(codec, atClient, arkHello, key, attempt, h, consumed, rest);
    AfterOpening(line, junk, codec.encode(hello), codec.encode(ack));
    AckEstablishes(m, inputs, answered);
  }
}
