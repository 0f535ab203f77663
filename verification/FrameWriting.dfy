/**
 The frame writer with its recovery flag, and what the peer can cut out of the
 stream after any history of successful and failed sends.
 */
module FrameWriting {
  import opened Prelude
  import opened Framing
  import opened Deadlines

  /**
   The byte-stuffing codec, whose body is an external library.

   `bound` is the worst-case encoded size of a packet of the given length.
   */
  datatype Codec = Codec(
    encode: seq<byte> -> seq<byte>,
    decode: seq<byte> -> Option<seq<byte>>,
    bound: nat -> nat)
  {
    ghost predicate Lawful() {
      && (forall p {:trigger encode(p)} ::
            && encode(p) != [] && ZeroFree(encode(p))
            && |encode(p)| <= bound(|p|)
            && decode(encode(p)) == Some(p))
      && (forall m: nat, n: nat {:trigger bound(m), bound(n)} :: m <= n ==> bound(m) <= bound(n))
    }
  }

  /** One thing the writer can be asked to put on the stream. */
  datatype Output = Reset | Dropped | Packet(encoded: seq<byte>)

  /** Bytes of the frame proper, between its delimiters. */
  function Payload(o: Output): seq<byte> {
    if o.Packet? then o.encoded else []
  }

  /** Everything one send tries to write, given the recovery flag. */
  function Bytes(resync: bool, o: Output): seq<byte> {
    Lead(resync, o) + Payload(o) + [0]
  }

  function Lead(resync: bool, o: Output): seq<byte> {
    if resync || o.Reset? then [0] else []
  }

  // ---------------------------------------------------------------------------
  // Histories

  /** One finished send: how many of its bytes were accepted and its result. */
  datatype Send = Send(output: Output, accepted: nat, ok: bool)

  /** The recovery flag is raised exactly by a send that did not succeed. */
  predicate Resync(h: seq<Send>) {
    h != [] && !h[|h| - 1].ok
  }

  /** A legal history: frames are zero free, and success accepted every byte. */
  ghost predicate Legal(h: seq<Send>)
    decreases |h|
  {
    h == [] ||
    var last := h[|h| - 1];
    && Legal(h[..|h| - 1])
    && ZeroFree(Payload(last.output))
    && last.accepted <= |Bytes(Resync(h[..|h| - 1]), last.output)|
    && (last.ok ==> last.accepted == |Bytes(Resync(h[..|h| - 1]), last.output)|)
  }

  /** Bytes on the stream after a history. */
  ghost function Line(h: seq<Send>): seq<byte>
    requires Legal(h)
    decreases |h|
  {
    if h == [] then []
    else
      var last := h[|h| - 1];
      Line(h[..|h| - 1]) + Bytes(Resync(h[..|h| - 1]), last.output)[..last.accepted]
  }

  /** Where a piece of the stream came from. */
  datatype Piece = Sent(index: nat) | Leftover(index: nat, count: nat) | Blank

  /** Pieces closed by a zero, in order, and the unterminated rest. */
  datatype Parsed = Parsed(pieces: seq<Piece>, rest: Piece)

  /** How one more send changes the pieces on the stream. */
  function Extend(before: Parsed, resync: bool, k: nat, x: Send): Parsed {
    var lead, payload := |Lead(resync, x.output)|, |Payload(x.output)|;
    if x.accepted < lead then before
    else
      var closed := if lead == 1 then before.pieces + [before.rest] else before.pieces;
      if x.accepted - lead <= payload then Parsed(closed, Leftover(k, x.accepted - lead))
      else Parsed(closed + [if x.ok then Sent(k) else Leftover(k, payload)], Blank)
  }

  /** A history read as the pieces it leaves on the stream. */
  function Parse(h: seq<Send>): Parsed
    decreases |h|
  {
    if h == [] then Parsed([], Blank)
    else Extend(Parse(h[..|h| - 1]), Resync(h[..|h| - 1]), |h| - 1, h[|h| - 1])
  }

  /** A piece refers to the history: whole frames to successes, the rest to failures. */
  ghost predicate Refers(h: seq<Send>, p: Piece) {
    match p
    case Sent(i) => i < |h| && h[i].ok
    case Leftover(i, n) => i < |h| && !h[i].ok && n <= |Payload(h[i].output)|
    case Blank => true
  }

  function Content(h: seq<Send>, p: Piece): seq<byte> {
    match p
    case Sent(i) => if i < |h| then Payload(h[i].output) else []
    case Leftover(i, n) => if i < |h| then Payload(h[i].output)[..Min(n, |Payload(h[i].output)|)] else []
    case Blank => []
  }

  function Contents(h: seq<Send>, ps: seq<Piece>): seq<seq<byte>> {
    seq(|ps|, i requires 0 <= i < |ps| => Content(h, ps[i]))
  }

  /** Indices of the sends whose frames arrive whole, in stream order. */
  function Whole(ps: seq<Piece>): seq<nat> {
    if ps == [] then []
    else
      var p := ps[|ps| - 1];
      Whole(ps[..|ps| - 1]) + if p.Sent? then [p.index] else []
  }

  /** Indices of the successful sends, in call order. */
  function Successes(h: seq<Send>): seq<nat> {
    if h == [] then []
    else Successes(h[..|h| - 1]) + if h[|h| - 1].ok then [|h| - 1] else []
  }

  lemma WholeAppend(ps: seq<Piece>, p: Piece)
    ensures Whole(ps + [p]) == Whole(ps) + if p.Sent? then [p.index] else []
  {
    assert (ps + [p])[..|ps|] == ps;
  }

  ghost predicate Grounded(h: seq<Send>, ps: seq<Piece>) {
    forall i :: 0 <= i < |ps| ==> Refers(h, ps[i])
  }

  ghost predicate AllRefer(h: seq<Send>, d: Parsed) {
    && Grounded(h, d.pieces)
    && Refers(h, d.rest) && !d.rest.Sent?
    && (!Resync(h) ==> Content(h, d.rest) == [])
  }

  /** One send keeps the labels grounded and adds itself exactly when it succeeds. */
  lemma ExtendLabels(past: seq<Send>, d: Parsed, x: Send)
    requires AllRefer(past, d)
    requires x.ok ==> x.accepted == |Bytes(Resync(past), x.output)|
    requires x.accepted <= |Bytes(Resync(past), x.output)|
    ensures var e := Extend(d, Resync(past), |past|, x);
            && AllRefer(past + [x], e)
            && Whole(e.pieces) == Whole(d.pieces) + if x.ok then [|past|] else []
  {
    var h, k, e := past + [x], |past|, Extend(d, Resync(past), |past|, x);
    var lead, payload := |Lead(Resync(past), x.output)|, |Payload(x.output)|;
    assert h[k] == x && Resync(h) == !x.ok;
    LabelsClosed(past, d, x);
    var closed := if lead == 1 then d.pieces + [d.rest] else d.pieces;
    if x.accepted < lead {
      assert e == d;
    } else if x.accepted - lead <= payload {
      assert e == Parsed(closed, Leftover(k, x.accepted - lead));
    } else {
      var p := if x.ok then Sent(k) else Leftover(k, payload);
      assert e == Parsed(closed + [p], Blank);
      WholeAppend(closed, p);
      GroundedAppend(h, closed, p);
    }
  }

  /** What a send's leading zero closes is labelled as before. */
  lemma LabelsClosed(past: seq<Send>, d: Parsed, x: Send)
    requires AllRefer(past, d)
    ensures var closed := if |Lead(Resync(past), x.output)| == 1 then d.pieces + [d.rest] else d.pieces;
            && Grounded(past + [x], closed) && Whole(closed) == Whole(d.pieces)
            && Grounded(past + [x], d.pieces) && Refers(past + [x], d.rest)
  {
    GroundedMore(past, x, d.pieces);
    RefersMore(past, x, d.rest);
    WholeAppend(d.pieces, d.rest);
    GroundedAppend(past + [x], d.pieces, d.rest);
  }

  lemma GroundedAppend(h: seq<Send>, ps: seq<Piece>, p: Piece)
    requires Grounded(h, ps) && Refers(h, p)
    ensures Grounded(h, ps + [p])
  {
  }

  lemma RefersMore(past: seq<Send>, x: Send, p: Piece)
    requires Refers(past, p)
    ensures Refers(past + [x], p) && Content(past + [x], p) == Content(past, p)
  {
  }

  lemma GroundedMore(past: seq<Send>, x: Send, ps: seq<Piece>)
    requires Grounded(past, ps)
    ensures Grounded(past + [x], ps)
  {
    forall i | 0 <= i < |ps| ensures Refers(past + [x], ps[i]) {
      RefersMore(past, x, ps[i]);
    }
  }

  lemma ContentStable(past: seq<Send>, x: Send, ps: seq<Piece>)
    requires Grounded(past, ps)
    ensures Contents(past + [x], ps) == Contents(past, ps)
  {
    assert forall i :: 0 <= i < |ps| ==> Refers(past, ps[i]) && Content(past + [x], ps[i]) == Content(past, ps[i]);
  }

  /** A partially written send: nothing, or its lead and part of its frame. */
  lemma CutPartial(s: seq<byte>, lead: seq<byte>, part: seq<byte>)
    requires ZeroFree(part) && (lead == [] || lead == [0])
    ensures Segments(s + lead + part) == if lead == [0] then Segments(s) + [Tail(s)] else Segments(s)
    ensures Tail(s + lead + part) == (if lead == [0] then [] else Tail(s)) + part
  {
    if lead == [] {
      assert s + lead == s;
    } else {
      CutCloses(s);
    }
    CutExtends(s + lead, part);
  }

  /** The accepted prefix of a send, by how far it got. */
  lemma AcceptedPrefix(lead: seq<byte>, payload: seq<byte>, n: nat)
    requires n <= |lead| + |payload| + 1
    ensures var out := (lead + payload + [0])[..n];
            if n < |lead| then out == lead[..n]
            else if n <= |lead| + |payload| then out == lead + payload[..n - |lead|]
            else out == lead + payload + [0]
  {
  }

  lemma ContentsAppend(h: seq<Send>, ps: seq<Piece>, p: Piece)
    ensures Contents(h, ps + [p]) == Contents(h, ps) + [Content(h, p)]
  {
  }

  /** The pieces closed by a send's leading zero, if it has one. */
  lemma LeadCloses(past: seq<Send>, d: Parsed, s: seq<byte>, x: Send, part: seq<byte>)
    requires AllRefer(past, d) && ZeroFree(part)
    requires Segments(s) == Contents(past, d.pieces) && Tail(s) == Content(past, d.rest)
    ensures var lead := Lead(Resync(past), x.output);
            var closed := if |lead| == 1 then d.pieces + [d.rest] else d.pieces;
            Segments(s + lead + part) == Contents(past + [x], closed) && Tail(s + lead + part) == part
  {
    var h, lead := past + [x], Lead(Resync(past), x.output);
    CutPartial(s, lead, part);
    ContentStable(past, x, d.pieces);
    ContentsAppend(h, d.pieces, d.rest);
    if |lead| == 1 {
      assert Content(h, d.rest) == Content(past, d.rest);
    } else {
      assert Tail(s) == [];
    }
  }

  lemma ExtendShort(past: seq<Send>, d: Parsed, x: Send, part: seq<byte>)
    requires |Lead(Resync(past), x.output)| <= x.accepted
    requires x.accepted - |Lead(Resync(past), x.output)| <= |Payload(x.output)|
    requires part == Payload(x.output)[..x.accepted - |Lead(Resync(past), x.output)|]
    ensures var e := Extend(d, Resync(past), |past|, x);
            && e.pieces == (if |Lead(Resync(past), x.output)| == 1 then d.pieces + [d.rest] else d.pieces)
            && Content(past + [x], e.rest) == part
    ensures Bytes(Resync(past), x.output)[..x.accepted] == Lead(Resync(past), x.output) + part
  {
    AcceptedPrefix(Lead(Resync(past), x.output), Payload(x.output), x.accepted);
  }

  /** A send cut short inside its frame leaves a prefix as the tail. */
  lemma CutShort(past: seq<Send>, d: Parsed, s: seq<byte>, x: Send)
    requires AllRefer(past, d) && ZeroFree(Payload(x.output))
    requires Segments(s) == Contents(past, d.pieces) && Tail(s) == Content(past, d.rest)
    requires |Lead(Resync(past), x.output)| <= x.accepted
    requires x.accepted - |Lead(Resync(past), x.output)| <= |Payload(x.output)|
    ensures Cuts(past + [x], s + Bytes(Resync(past), x.output)[..x.accepted],
                 Extend(d, Resync(past), |past|, x))
  {
    var lead, payload := Lead(Resync(past), x.output), Payload(x.output);
    var part := payload[..x.accepted - |lead|];
    ExtendShort(past, d, x, part);
    LeadCloses(past, d, s, x, part);
    assert s + (lead + part) == s + lead + part;
  }

  lemma Regroup(s: seq<byte>, lead: seq<byte>, payload: seq<byte>)
    ensures s + (lead + payload + [0]) == s + lead + payload + [0]
  {
  }

  /** All bytes of a send, its frame closed by its own delimiter. */
  lemma CloseWhole(past: seq<Send>, d: Parsed, s: seq<byte>, x: Send)
    requires AllRefer(past, d) && ZeroFree(Payload(x.output))
    requires Segments(s) == Contents(past, d.pieces) && Tail(s) == Content(past, d.rest)
    ensures var t := s + Bytes(Resync(past), x.output);
            var closed := if |Lead(Resync(past), x.output)| == 1 then d.pieces + [d.rest] else d.pieces;
            Segments(t) == Contents(past + [x], closed) + [Payload(x.output)] && Tail(t) == []
  {
    var lead, payload := Lead(Resync(past), x.output), Payload(x.output);
    LeadCloses(past, d, s, x, payload);
    var u := s + lead + payload;
    CutCloses(u);
    Regroup(s, lead, payload);
  }

  /** A send whose bytes all got out is one more terminated piece. */
  lemma CutWhole(past: seq<Send>, d: Parsed, s: seq<byte>, x: Send)
    requires AllRefer(past, d) && ZeroFree(Payload(x.output))
    requires Segments(s) == Contents(past, d.pieces) && Tail(s) == Content(past, d.rest)
    requires x.accepted == |Bytes(Resync(past), x.output)|
    ensures Cuts(past + [x], s + Bytes(Resync(past), x.output)[..x.accepted],
                 Extend(d, Resync(past), |past|, x))
  {
    var payload := Payload(x.output);
    var closed := if |Lead(Resync(past), x.output)| == 1 then d.pieces + [d.rest] else d.pieces;
    var final := if x.ok then Sent(|past|) else Leftover(|past|, |payload|);
    assert Bytes(Resync(past), x.output)[..x.accepted] == Bytes(Resync(past), x.output);
    CloseWhole(past, d, s, x);
    ContentsAppend(past + [x], closed, final);
    assert payload[..|payload|] == payload;
  }

  /** The stream `s` cut at its zeros is the pieces `d`. */
  ghost predicate Cuts(h: seq<Send>, s: seq<byte>, d: Parsed) {
    Segments(s) == Contents(h, d.pieces) && Tail(s) == Content(h, d.rest)
  }

  /** One send cuts the stream as `Extend` predicts. */
  lemma ExtendCuts(past: seq<Send>, d: Parsed, s: seq<byte>, x: Send)
    requires AllRefer(past, d) && ZeroFree(Payload(x.output))
    requires x.accepted <= |Bytes(Resync(past), x.output)|
    requires Cuts(past, s, d)
    ensures Cuts(past + [x], s + Bytes(Resync(past), x.output)[..x.accepted],
                 Extend(d, Resync(past), |past|, x))
  {
    var lead := Lead(Resync(past), x.output);
    if x.accepted < |lead| {
      assert s + Bytes(Resync(past), x.output)[..x.accepted] == s;
      ContentStable(past, x, d.pieces);
      assert Content(past + [x], d.rest) == Content(past, d.rest);
    } else if x.accepted - |lead| <= |Payload(x.output)| {
      CutShort(past, d, s, x);
    } else {
      CutWhole(past, d, s, x);
    }
  }

  /**
   Writer resynchronisation. After every history, cutting the stream at its
   zeros yields exactly the parsed pieces: every successful send is one whole
   piece, in call order and merged with nothing, and every other piece is empty
   or a prefix of some failed frame.
   */
  lemma {:induction false} WriterResynchronises(h: seq<Send>)
    requires Legal(h)
    ensures AllRefer(h, Parse(h))
    ensures Segments(Line(h)) == Contents(h, Parse(h).pieces)
    ensures Tail(Line(h)) == Content(h, Parse(h).rest)
    ensures Whole(Parse(h).pieces) == Successes(h)
    decreases |h|
  {
    if h != [] {
      var last, past := h[|h| - 1], h[..|h| - 1];
      assert h == past + [last];
      WriterResynchronises(past);
      HistoryGrows(past, last);
      ParseGrows(past, last);
      OneMoreSend(past, last, Parse(past), Line(past));
    }
  }

  lemma ParseGrows(past: seq<Send>, x: Send)
    ensures Parse(past + [x]) == Extend(Parse(past), Resync(past), |past|, x)
    ensures Successes(past + [x]) == Successes(past) + if x.ok then [|past|] else []
  {
    assert (past + [x])[..|past|] == past;
  }

  lemma OneMoreSend(past: seq<Send>, x: Send, d: Parsed, s: seq<byte>)
    requires AllRefer(past, d) && ZeroFree(Payload(x.output)) && Cuts(past, s, d)
    requires x.accepted <= |Bytes(Resync(past), x.output)|
    requires x.ok ==> x.accepted == |Bytes(Resync(past), x.output)|
    ensures var e := Extend(d, Resync(past), |past|, x);
            && AllRefer(past + [x], e)
            && Cuts(past + [x], s + Bytes(Resync(past), x.output)[..x.accepted], e)
            && Whole(e.pieces) == Whole(d.pieces) + if x.ok then [|past|] else []
  {
    ExtendLabels(past, d, x);
    ExtendCuts(past, d, s, x);
  }

  /** Pieces that all fit a frame are all reported as frames. */
  lemma FittingPieces(h: seq<Send>, ps: seq<Piece>)
    requires forall i :: 0 <= i < |h| ==> |Payload(h[i].output)| <= MAX_FRAME_SIZE
    ensures Reports(Contents(h, ps)) == seq(|ps|, i requires 0 <= i < |ps| => Frame(Content(h, ps[i])))
    ensures forall p :: |Content(h, p)| <= MAX_FRAME_SIZE
  {
  }

  /**
   Writer and reader together: when every frame fits, a reader of the whole
   stream reports exactly the pieces, so each successful packet reaches the peer
   as itself and in order whatever failed around it.
   */
  lemma ReaderSeesPieces(h: seq<Send>)
    requires Legal(h)
    requires forall i :: 0 <= i < |h| ==> |Payload(h[i].output)| <= MAX_FRAME_SIZE
    ensures Whole(Parse(h).pieces) == Successes(h)
    ensures var ps := Parse(h).pieces;
            Reported(IDLE, Line(h)) == seq(|ps|, i requires 0 <= i < |ps| => Frame(Content(h, ps[i])))
  {
    WriterResynchronises(h);
    AutomatonCutsAtZeros(Line(h));
    FittingPieces(h, Parse(h).pieces);
  }

  // ---------------------------------------------------------------------------
  // The writer itself

  /** Answer of the adapter to one deadline setter, write or flush call. */
  datatype WriteCall =
    | Refused                  // the stream is closing, so the call is not admitted
    | Accepted(count: nat)     // Ok; for a write, the number of bytes taken
    | Interrupted
    | Failed(timeout: bool)

  /** Result of an output operation, where `Stuck` means it has not returned yet. */
  datatype WriteResult = Done | SendFailed(timeout: bool) | Stuck | TooLarge(size: nat)

  lemma JoinSlices(past: seq<byte>, s: seq<byte>, i: nat, j: nat)
    requires i <= j <= |s|
    ensures past + s[..i] + s[i..j] == past + s[..j]
  {
    assert s[..i] + s[i..j] == s[..j];
  }

  lemma SliceOfSlice(s: seq<byte>, from: nat, to: nat, i: nat, j: nat)
    requires i <= j <= to - from && from <= to <= |s|
    ensures s[from..to][i..j] == s[from + i..from + j]
  {
    assert forall k :: 0 <= k < j - i ==> s[from..to][i..j][k] == s[from + i..from + j][k];
  }

  // What the adapter's answers amount to

  /** An answer that ends a write: anything but progress and an interruption. */
  predicate Stops(c: WriteCall) {
    !c.Interrupted? && !(c.Accepted? && c.count > 0)
  }

  function Failure(c: WriteCall): WriteResult {
    SendFailed(c.Failed? && c.timeout)
  }

  /** Bytes taken by successive writes of `len` bytes. */
  function Wrote(writes: seq<WriteCall>, len: nat): (n: nat)
    ensures n <= len
  {
    if writes == [] then 0
    else
      var before, c := Wrote(writes[..|writes| - 1], len), writes[|writes| - 1];
      before + if c.Accepted? then Min(c.count, len - before) else 0
  }

  /** Each of the writes was called for and did not stop the operation. */
  predicate Ongoing(writes: seq<WriteCall>, len: nat) {
    writes == [] ||
    var past := writes[..|writes| - 1];
    Ongoing(past, len) && Wrote(past, len) < len && !Stops(writes[|writes| - 1])
  }

  /** Result and bytes taken, from the answers to the writes and the flush. */
  predicate BodyExplained(r: WriteResult, sent: nat, late: bool, len: nat, calls: seq<WriteCall>) {
    if Ongoing(calls, len) then sent == Wrote(calls, len) && r == if late then SendFailed(true) else Stuck
    else
      var past, last := calls[..|calls| - 1], calls[|calls| - 1];
      && !late && Ongoing(past, len) && sent == Wrote(past, len)
      && r == if sent == len && last.Accepted? then Done else Failure(last)
  }

  /**
   Result and bytes taken, from all answers. The first one is the deadline
   setter's, and `late` says that the last check found the deadline gone. With no
   failure and no expired check, the operation succeeds or has not returned.
   */
  predicate WriteExplained(r: WriteResult, sent: nat, late: bool, len: nat, calls: seq<WriteCall>) {
    if calls == [] then sent == 0 && r == if late then SendFailed(true) else Stuck
    else if !calls[0].Accepted? then |calls| == 1 && !late && sent == 0 && r == Failure(calls[0])
    else BodyExplained(r, sent, late, len, calls[1..])
  }

  /** One deadline check before each call, and one after which there was none. */
  function Checks(r: WriteResult, late: bool, calls: seq<WriteCall>): nat {
    |calls| + if r.Stuck? || late then 1 else 0
  }

  /** Success means that the setter, all bytes and the flush were accepted in time. */
  lemma SuccessMeans(sent: nat, late: bool, len: nat, calls: seq<WriteCall>)
    requires WriteExplained(Done, sent, late, len, calls)
    ensures !late && sent == len && |calls| >= 2 && calls[0].Accepted? && calls[|calls| - 1].Accepted?
    ensures Wrote(calls[1..|calls| - 1], len) == len
  {
    var body := calls[1..];
    assert body[..|body| - 1] == calls[1..|calls| - 1];
  }

  // The same without reference to how the writing goes on

  /** Bytes the adapter offered to take, in all. */
  function Offered(writes: seq<WriteCall>): nat {
    if writes == [] then 0
    else
      var c := writes[|writes| - 1];
      Offered(writes[..|writes| - 1]) + if c.Accepted? then c.count else 0
  }

  /** Every answer took something or asked to try again. */
  ghost predicate Progressing(writes: seq<WriteCall>) {
    forall i :: 0 <= i < |writes| ==> writes[i].Interrupted? || (writes[i].Accepted? && writes[i].count > 0)
  }

  /** Progress that is called for: before the last write something was left. */
  ghost predicate Needed(writes: seq<WriteCall>, len: nat) {
    Progressing(writes) && (writes == [] || Offered(writes[..|writes| - 1]) < len)
  }

  /** Setter and flush accepted, and in between writes that took all `len` bytes. */
  ghost predicate Completes(calls: seq<WriteCall>, len: nat) {
    && |calls| >= 2 && calls[0].Accepted? && calls[|calls| - 1].Accepted?
    && Needed(calls[1..|calls| - 1], len) && Offered(calls[1..|calls| - 1]) >= len
  }

  lemma {:induction false} WroteOffered(writes: seq<WriteCall>, len: nat)
    ensures Wrote(writes, len) == Min(Offered(writes), len)
  {
    if writes != [] {
      WroteOffered(writes[..|writes| - 1], len);
    }
  }

  lemma {:induction false} OfferedGrows(writes: seq<WriteCall>, k: nat)
    requires k <= |writes|
    ensures Offered(writes[..k]) <= Offered(writes)
  {
    if k < |writes| {
      OfferedGrows(writes[..|writes| - 1], k);
      assert writes[..|writes| - 1][..k] == writes[..k];
    } else {
      assert writes[..k] == writes;
    }
  }

  /** Writing goes on exactly through progress that is called for. */
  lemma {:induction false} OngoingMeans(writes: seq<WriteCall>, len: nat)
    ensures Ongoing(writes, len) <==> Needed(writes, len)
  {
    if writes != [] {
      var past, c := writes[..|writes| - 1], writes[|writes| - 1];
      OngoingMeans(past, len);
      WroteOffered(past, len);
      assert Progressing(writes) <==>
             Progressing(past) && (c.Interrupted? || (c.Accepted? && c.count > 0)) by {
        assert forall i :: 0 <= i < |past| ==> past[i] == writes[i];
      }
      if past != [] {
        OfferedGrows(past, |past| - 1);
      }
    }
  }

  /** An operation succeeds if and only if it completes with no check late. */
  lemma DoneExactly(r: WriteResult, sent: nat, late: bool, len: nat, calls: seq<WriteCall>)
    requires WriteExplained(r, sent, late, len, calls)
    ensures r == Done <==> !late && Completes(calls, len)
    ensures r == Done ==> sent == len
  {
    if |calls| >= 2 && calls[0].Accepted? {
      var body := calls[1..];
      var middle := calls[1..|calls| - 1];
      assert body[..|body| - 1] == middle;
      OngoingMeans(body, len);
      OngoingMeans(middle, len);
      WroteOffered(middle, len);
    }
  }

  /** Whatever was wrong with the answer that ended an operation. */
  predicate Objectionable(calls: seq<WriteCall>, len: nat) {
    calls != [] &&
    var last := calls[|calls| - 1];
    || last.Refused? || last.Failed?
    || (last.Interrupted? && (|calls| == 1 || Offered(calls[1..|calls| - 1]) >= len))
    || (last.Accepted? && last.count == 0 && |calls| > 1 && Offered(calls[1..|calls| - 1]) < len)
  }

  /**
   An error has its cause, and the right one: a timeout is reported if and only if a
   check was late or the adapter timed out, and any other error only after an answer
   that is refused, failed, a write of nothing, or an interrupted setter or flush.
   */
  lemma FailureExactly(r: WriteResult, sent: nat, late: bool, len: nat, calls: seq<WriteCall>)
    requires WriteExplained(r, sent, late, len, calls)
    ensures r == SendFailed(true) <==> late || (calls != [] && calls[|calls| - 1] == Failed(true))
    ensures r.SendFailed? <==> late || Objectionable(calls, len)
  {
    if calls != [] && calls[0].Accepted? {
      var body := calls[1..];
      OngoingMeans(body, len);
      if body != [] {
        var middle := body[..|body| - 1];
        assert calls[1..|calls| - 1] == middle;
        OngoingMeans(middle, len);
        WroteOffered(middle, len);
      }
    }
  }

  /**
   Given an adapter that is going to accept the setter, take the bytes in any number
   of writes and interruptions, and accept the flush, an operation whose checks are
   all in time succeeds, having used exactly these answers.
   */
  lemma WriteSucceeds(r: WriteResult, sent: nat, len: nat, calls: seq<WriteCall>, script: seq<WriteCall>, good: nat)
    requires WriteExplained(r, sent, false, len, calls)
    requires calls <= script && (r.Stuck? ==> calls == script)
    requires good <= |script| && Completes(script[..good], len)
    ensures r == Done && sent == len && |calls| == good
  {
    DoneExactly(r, sent, false, len, calls);
    FailureExactly(r, sent, false, len, calls);
    assert calls == script[..|calls|];
    if |calls| < good {
      assert script[..good][..|calls|] == calls;
      Unfinished(r, sent, len, script[..good], |calls|);
    } else if |calls| > good {
      assert calls[..good] == script[..good];
      Overrun(calls, len, good);
    } else {
      assert calls == script[..good];
    }
  }

  /** Short of completion, the operation has not returned. */
  lemma Unfinished(r: WriteResult, sent: nat, len: nat, full: seq<WriteCall>, k: nat)
    requires Completes(full, len) && k < |full| && WriteExplained(r, sent, false, len, full[..k])
    ensures r == Stuck
  {
    var calls := full[..k];
    if k > 1 {
      var body, middle := calls[1..], full[1..|full| - 1];
      assert body == middle[..k - 1];
      NeededBefore(middle, len, k - 1);
      OngoingMeans(body, len);
    } else if k == 1 {
      assert calls[1..] == [];
    }
  }

  lemma NeededBefore(writes: seq<WriteCall>, len: nat, k: nat)
    requires Needed(writes, len) && k <= |writes|
    ensures Needed(writes[..k], len)
  {
    if k > 0 {
      var past := writes[..|writes| - 1];
      OfferedGrows(past, k - 1);
      assert past[..k - 1] == writes[..k][..k - 1];
    }
  }

  /** Nothing is called beyond completion. */
  lemma Overrun(calls: seq<WriteCall>, len: nat, good: nat)
    requires good < |calls| && Completes(calls[..good], len)
    ensures forall r, sent :: !WriteExplained(r, sent, false, len, calls)
  {
    var body := calls[1..];
    var past := body[..|body| - 1];
    var middle := calls[..good][1..good - 1];
    assert past[..good - 2] == middle;
    OngoingMeans(body, len);
    OngoingMeans(past, len);
    if |past| > good - 2 {
      var before := past[..|past| - 1];
      OfferedGrows(before, good - 2);
      assert before[..good - 2] == middle;
    }
    OfferedGrows(past, good - 2);
  }

  lemma OneMoreCall(past: seq<WriteCall>, calls: seq<WriteCall>, more: seq<WriteCall>)
    ensures past + calls + more == past + (calls + more)
  {
  }

  /** One round of writing `left` bytes: a check that ended it, a wait, or one answer. */
  predicate Round(stop: Option<WriteResult>, n: nat, late: bool, left: nat, more: seq<WriteCall>) {
    if more == [] then n == 0 && stop == Some(if late then SendFailed(true) else Stuck)
    else
      && |more| == 1 && !late
      && n == (if more[0].Accepted? then Min(more[0].count, left) else 0)
      && stop == if Stops(more[0]) then Some(Failure(more[0])) else None
  }

  /** What the rounds so far amount to. */
  predicate SoFar(stop: Option<WriteResult>, sent: nat, late: bool, len: nat, calls: seq<WriteCall>) {
    if stop.Some? then BodyExplained(stop.value, sent, late, len, calls)
    else !late && Ongoing(calls, len) && sent == Wrote(calls, len)
  }

  lemma RoundExplained(stop: Option<WriteResult>, n: nat, late: bool, len: nat,
                       calls: seq<WriteCall>, more: seq<WriteCall>)
    requires Ongoing(calls, len) && Wrote(calls, len) < len && Round(stop, n, late, len - Wrote(calls, len), more)
    ensures SoFar(stop, Wrote(calls, len) + n, late, len, calls + more)
  {
    if more == [] {
      assert calls + more == calls;
    } else {
      var c := more[0];
      assert more == [c];
      WroteMore(calls, c, len);
      if Stops(c) {
        BodyEnds(Failure(c), calls, c, len);
      }
    }
  }

  lemma WroteMore(writes: seq<WriteCall>, c: WriteCall, len: nat)
    ensures Wrote(writes + [c], len) ==
            Wrote(writes, len) + if c.Accepted? then Min(c.count, len - Wrote(writes, len)) else 0
    ensures Ongoing(writes + [c], len) == (Ongoing(writes, len) && Wrote(writes, len) < len && !Stops(c))
  {
    assert (writes + [c])[..|writes|] == writes;
  }

  /** The answer after ongoing writes that ends the operation. */
  lemma BodyEnds(r: WriteResult, writes: seq<WriteCall>, c: WriteCall, len: nat)
    requires Ongoing(writes, len) && (Wrote(writes, len) < len ==> Stops(c))
    requires r == if Wrote(writes, len) == len && c.Accepted? then Done else Failure(c)
    ensures BodyExplained(r, Wrote(writes, len), false, len, writes + [c])
  {
    var all := writes + [c];
    WroteMore(writes, c, len);
    assert !Ongoing(all, len);
    assert all[..|all| - 1] == writes && all[|all| - 1] == c;
  }

  lemma AfterSetter(r: WriteResult, sent: nat, late: bool, len: nat, setter: WriteCall, calls: seq<WriteCall>)
    requires setter.Accepted? && BodyExplained(r, sent, late, len, calls)
    ensures WriteExplained(r, sent, late, len, [setter] + calls)
  {
    assert ([setter] + calls)[1..] == calls;
  }

  /** Output half of the stream, with the answers its adapter is going to give. */
  class WriteHalf {
    const clock: nat -> int
    var ticks: nat
    var script: seq<WriteCall>
    ghost var wire: seq<byte>
    /** All answers of the adapter, and those already given. */
    ghost const plan: seq<WriteCall>
    ghost var played: seq<WriteCall>

    ghost predicate Valid()
      reads this
    {
      played + script == plan
    }

    constructor (clock: nat -> int, script: seq<WriteCall>)
      ensures Valid() && this.clock == clock && this.script == plan == script && wire == [] && played == []
    {
      this.clock := clock;
      this.ticks := 0;
      this.script := script;
      this.wire := [];
      this.plan := script;
      this.played := [];
    }

    /** The last check since `start` found the deadline gone. */
    ghost predicate Late(start: nat, deadline: int)
      reads this`ticks
    {
      LastLate(clock, start, ticks, Some(deadline))
    }

    /** All checks since `start` but the last were in time. */
    ghost predicate Punctual(start: nat, deadline: int)
      reads this`ticks
    {
      RestInTime(clock, start, ticks, Some(deadline))
    }

    method Expired(deadline: int) returns (expired: bool)
      modifies this`ticks
      ensures ticks == old(ticks) + 1 && (expired <==> clock(old(ticks)) >= deadline)
    {
      expired := clock(ticks) >= deadline;
      ticks := ticks + 1;
    }

    /** Checks once more, after checks that were all in time. */
    method Check(ghost start: nat, deadline: int) returns (expired: bool)
      requires Punctual(start, deadline) && !Late(start, deadline)
      modifies this`ticks
      ensures Punctual(start, deadline) && expired == Late(start, deadline) && ticks == old(ticks) + 1
    {
      expired := Expired(deadline);
      MoreChecks(clock, start, old(ticks), ticks, Some(deadline));
    }

    /** Makes one call. */
    method Call() returns (call: WriteCall)
      requires Valid() && script != []
      modifies this`script, this`played
      ensures Valid() && call == old(script)[0] && script == old(script)[1..] && played == old(played) + [call]
    {
      call := script[0];
      assert played + script == played + [call] + script[1..];
      played := played + [call];
      script := script[1..];
    }

    /** One write of what is left, or the reason why there is none. */
    method WriteSome(ghost start: nat, buf: array<byte>, from: nat, to: nat, sent: nat, deadline: int)
      returns (stop: Option<WriteResult>, n: nat, ghost more: seq<WriteCall>)
      requires Valid() && from <= to <= buf.Length && sent < to - from
      requires Punctual(start, deadline) && !Late(start, deadline)
      modifies this`ticks, this`script, this`played, this`wire
      ensures Valid() && Punctual(start, deadline) && ticks == old(ticks) + 1 && played == old(played) + more
      ensures sent + n <= to - from && wire == old(wire) + buf[from..to][sent..sent + n]
      ensures Round(stop, n, Late(start, deadline), to - from - sent, more)
      ensures (stop == Some(Stuck) ==> script == []) && (stop.None? ==> |script| < |old(script)|)
      ensures |script| <= |old(script)|
    {
      var expired := Check(start, deadline);
      if expired || script == [] {
        return Some(if expired then SendFailed(true) else Stuck), 0, [];
      }
      var c := Call();
      n := if c.Accepted? then Min(c.count, to - from - sent) else 0;
      SliceOfSlice(buf[..], from, to, sent, sent + n);
      wire := wire + buf[from + sent..from + sent + n];
      stop := if Stops(c) then Some(Failure(c)) else None;
      more := [c];
    }

    /** Writes until all bytes are taken; a result ends the operation before that. */
    method WriteAll(ghost start: nat, buf: array<byte>, from: nat, to: nat, deadline: int)
      returns (stop: Option<WriteResult>, sent: nat, ghost calls: seq<WriteCall>)
      requires Valid() && from <= to <= buf.Length && Punctual(start, deadline) && !Late(start, deadline)
      modifies this`ticks, this`script, this`played, this`wire
      ensures Valid() && played == old(played) + calls && Punctual(start, deadline)
      ensures sent <= to - from && wire == old(wire) + buf[from..to][..sent]
      ensures stop.Some? ==> BodyExplained(stop.value, sent, Late(start, deadline), to - from, calls)
      ensures stop == Some(Stuck) ==> script == []
      ensures ticks == old(ticks) + |calls| + if stop == Some(Stuck) || Late(start, deadline) then 1 else 0
      ensures stop.None? ==>
                !Late(start, deadline) && Ongoing(calls, to - from) && sent == Wrote(calls, to - from) == to - from
    {
      stop, sent, calls := None, 0, [];
      ghost var data := buf[from..to];
      assert wire == old(wire) + data[..0];
      while stop.None? && sent < to - from
        invariant Valid() && played == old(played) + calls && Punctual(start, deadline)
        invariant sent <= to - from && wire == old(wire) + data[..sent]
        invariant SoFar(stop, sent, Late(start, deadline), to - from, calls) && (stop == Some(Stuck) ==> script == [])
        invariant ticks == old(ticks) + |calls| + if stop == Some(Stuck) || Late(start, deadline) then 1 else 0
        decreases |script|, if stop.None? then 1 else 0
      {
        var n;
        ghost var more;
        stop, n, more := WriteSome(start, buf, from, to, sent, deadline);
        RoundExplained(stop, n, Late(start, deadline), to - from, calls, more);
        OneMoreCall(old(played), calls, more);
        JoinSlices(old(wire), data, sent, sent + n);
        sent, calls := sent + n, calls + more;
      }
    }

    /** Flushes what the writes in `calls` have written. */
    method Flush(ghost start: nat, deadline: int, ghost calls: seq<WriteCall>, ghost len: nat)
      returns (r: WriteResult, ghost last: seq<WriteCall>)
      requires Valid() && Punctual(start, deadline) && !Late(start, deadline)
      requires Ongoing(calls, len) && Wrote(calls, len) == len
      modifies this`ticks, this`script, this`played
      ensures Valid() && Punctual(start, deadline) && played == old(played) + last
      ensures ticks == old(ticks) + 1 && (last == [] <==> r.Stuck? || Late(start, deadline)) && |last| <= 1
      ensures BodyExplained(r, len, Late(start, deadline), len, calls + last) && (r.Stuck? ==> script == [])
    {
      last := [];
      assert calls + last == calls;
      var expired := Check(start, deadline);
      if expired || script == [] {
        return if expired then SendFailed(true) else Stuck, last;
      }
      var call := Call();
      last := [call];
      r := if call.Accepted? then Done else Failure(call);
      BodyEnds(r, calls, call, len);
    }

    /** Everything after the deadline setter. */
    method WriteAndFlush(ghost start: nat, buf: array<byte>, from: nat, to: nat, deadline: int)
      returns (r: WriteResult, sent: nat, ghost calls: seq<WriteCall>)
      requires Valid() && from <= to <= buf.Length && Punctual(start, deadline) && !Late(start, deadline)
      modifies this`ticks, this`script, this`played, this`wire
      ensures Valid() && played == old(played) + calls && Punctual(start, deadline)
      ensures sent <= to - from && wire == old(wire) + buf[from..to][..sent]
      ensures BodyExplained(r, sent, Late(start, deadline), to - from, calls) && (r.Stuck? ==> script == [])
      ensures ticks == old(ticks) + Checks(r, Late(start, deadline), calls)
    {
      var stop;
      stop, sent, calls := WriteAll(start, buf, from, to, deadline);
      if stop.Some? {
        return stop.value, sent, calls;
      }
      ghost var last;
      r, last := Flush(start, deadline, calls, to - from);
      assert old(played) + (calls + last) == old(played) + calls + last;
      calls := calls + last;
    }

    /**
     Writes `buf[from..to]` and flushes it under one absolute deadline; `calls`
     are the answers the adapter gave meanwhile.

     Whatever happens, exactly the bytes the adapter took join the stream, in order
     and without repetition, and the result follows from its answers and the
     deadline checks, of which there is one before each call.
     */
    method Write(buf: array<byte>, from: nat, to: nat, deadline: int)
      returns (r: WriteResult, sent: nat, ghost calls: seq<WriteCall>)
      requires Valid() && from <= to <= buf.Length
      modifies this`ticks, this`script, this`played, this`wire
      ensures Valid() && played == old(played) + calls && Punctual(old(ticks), deadline)
      ensures sent <= to - from && wire == old(wire) + buf[from..to][..sent]
      ensures WriteExplained(r, sent, Late(old(ticks), deadline), to - from, calls)
      ensures ticks == old(ticks) + Checks(r, Late(old(ticks), deadline), calls)
      ensures r.Stuck? ==> script == []
      ensures r == Done <==> !Late(old(ticks), deadline) && Completes(calls, to - from)
      ensures r.SendFailed? <==> Late(old(ticks), deadline) || Objectionable(calls, to - from)
      ensures r == SendFailed(true) <==>
              Late(old(ticks), deadline) || (calls != [] && calls[|calls| - 1] == Failed(true))
    {
      r, sent, calls := Perform(buf, from, to, deadline);
      DoneExactly(r, sent, Late(old(ticks), deadline), to - from, calls);
      FailureExactly(r, sent, Late(old(ticks), deadline), to - from, calls);
    }

    method Perform(buf: array<byte>, from: nat, to: nat, deadline: int)
      returns (r: WriteResult, sent: nat, ghost calls: seq<WriteCall>)
      requires Valid() && from <= to <= buf.Length
      modifies this`ticks, this`script, this`played, this`wire
      ensures Valid() && played == old(played) + calls && Punctual(old(ticks), deadline)
      ensures sent <= to - from && wire == old(wire) + buf[from..to][..sent]
      ensures WriteExplained(r, sent, Late(old(ticks), deadline), to - from, calls)
      ensures ticks == old(ticks) + Checks(r, Late(old(ticks), deadline), calls)
      ensures r.Stuck? ==> script == []
    {
      sent, calls := 0, [];
      var expired := Check(old(ticks), deadline);
      if expired || script == [] {
        return if expired then SendFailed(true) else Stuck, 0, calls;
      }
      var setter := Call();
      if !setter.Accepted? {
        return Failure(setter), 0, [setter];
      }
      r, sent, calls := WriteAndFlush(old(ticks), buf, from, to, deadline);
      AfterSetter(r, sent, Late(old(ticks), deadline), to - from, setter, calls);
      assert old(played) + ([setter] + calls) == old(played) + [setter] + calls;
      calls := [setter] + calls;
    }
  }

  /** How a write of a frame went: its result and the adapter's answers. */
  datatype Attempt = Attempt(written: WriteResult, calls: seq<WriteCall>)

  /**
   The write went as `how` says, under the checks from `start` on, and a last check
   after it found the deadline gone or let its result stand.
   */
  ghost predicate PutExplained(clock: nat -> int, start: nat, end: nat, deadline: int,
                               r: WriteResult, sent: nat, len: nat, how: Attempt) {
    if how.written.Stuck? then r == Stuck && WriteTimed(clock, start, end, deadline, sent, len, how)
    else
      && start < end && WriteTimed(clock, start, end - 1, deadline, sent, len, how)
      && r == if clock(end - 1) >= deadline then SendFailed(true) else how.written
  }

  ghost predicate WriteTimed(clock: nat -> int, start: nat, end: nat, deadline: int,
                             sent: nat, len: nat, how: Attempt) {
    && RestInTime(clock, start, end, Some(deadline))
    && end == start + Checks(how.written, LastLate(clock, start, end, Some(deadline)), how.calls)
    && WriteExplained(how.written, sent, LastLate(clock, start, end, Some(deadline)), len, how.calls)
  }

  lemma Delimited(s: seq<byte>, size: nat)
    requires size + 1 < |s| && s[0] == 0 && s[size + 1] == 0
    ensures s[1..size + 2] == [] + s[1..size + 1] + [0]
    ensures s[0..size + 2] == [0] + s[1..size + 1] + [0]
  {
  }

  /** Encoder of frames with a reserved recovery delimiter at index zero. */
  class FrameWriter {
    const writer: WriteHalf
    const codec: Codec
    const frame: array<byte>
    var resync: bool
    ghost var history: seq<Send>

    ghost predicate Valid()
      reads this, writer, frame
    {
      && writer.Valid() && frame.Length == MAX_FRAME_SIZE + 2 && frame[0] == 0
      && codec.Lawful()
      && Legal(history)
      && writer.wire == Line(history)
      && resync == Resync(history)
    }

    constructor (writer: WriteHalf, codec: Codec)
      requires writer.Valid() && writer.wire == [] && codec.Lawful()
      ensures Valid() && this.writer == writer && this.codec == codec && history == [] && fresh(frame)
    {
      this.writer, this.codec := writer, codec;
      frame := new byte[MAX_FRAME_SIZE + 2](_ => 0);
      resync, history := false, [];
    }

    /** One more send was recorded, with the given output and result. */
    twostate predicate Recorded(o: Output, r: WriteResult)
      reads this
    {
      && |history| == |old(history)| + 1
      && history[..|old(history)|] == old(history)
      && history[|old(history)|].output == o
      && history[|old(history)|].ok == (r == Done)
    }

    /**
     The recorded send and its result follow from the adapter's answers: the
     write went as `how` says, and a last check after it found the deadline gone
     or let its result stand.
     */
    twostate predicate Caused(o: Output, r: WriteResult, deadline: int, how: Attempt)
      reads this, writer
    {
      && writer.played == old(writer.played) + how.calls
      && |history| == |old(history)| + 1
      && PutExplained(writer.clock, old(writer.ticks), writer.ticks, deadline, r,
                      history[|old(history)|].accepted, |Bytes(Resync(old(history)), o)|, how)
    }

    /** The buffer holds what a send of `o` must put on the stream. */
    ghost predicate Staged(size: nat, o: Output)
      requires size + 1 < frame.Length
      reads this, frame
    {
      (if resync then [0] else []) + frame[1..size + 1] + [0] == Bytes(Resync(history), o)
    }

    /** Copies an encoded packet behind the reserved delimiter. */
    method Stage(encoded: seq<byte>)
      requires |encoded| + 1 < frame.Length
      modifies frame
      ensures frame[0] == old(frame[0]) && frame[1..|encoded| + 1] == encoded
    {
      forall i | 0 <= i < |encoded| {
        frame[1 + i] := encoded[i];
      }
      assert forall i :: 0 <= i < |encoded| ==> frame[1..|encoded| + 1][i] == encoded[i];
    }

    /** Terminates the staged bytes and tells where the output starts. */
    method Terminate(size: nat, ghost o: Output) returns (start: nat)
      requires size + 1 < frame.Length && frame[0] == 0 && Staged(size, o)
      modifies frame
      ensures frame[0] == 0 && start <= 1
      ensures frame[start..size + 2] == Bytes(Resync(history), o)
    {
      frame[size + 1] := 0;
      start := if resync then 0 else 1;
      Delimited(frame[..], size);
    }

    /** Writes the `size` bytes staged at index one, between their delimiters. */
    method SendFrame(size: nat, deadline: int, ghost o: Output) returns (r: WriteResult, ghost how: Attempt)
      requires size + 1 < frame.Length == MAX_FRAME_SIZE + 2 && frame[0] == 0
      requires writer.Valid() && codec.Lawful() && Legal(history) && writer.wire == Line(history)
      requires Staged(size, o) && ZeroFree(Payload(o))
      modifies this`resync, this`history, writer, frame
      ensures Valid() && Recorded(o, r) && Caused(o, r, deadline, how)
    {
      var start := Terminate(size, o);
      resync := true;
      var sent;
      r, sent, how := Put(start, size + 2, deadline, Bytes(Resync(history), o));
      resync := r != Done;
      Record(Send(o, sent, r == Done));
    }

    /** Writes part of the buffer and checks the deadline once more. */
    method Put(start: nat, end: nat, deadline: int, ghost bytes: seq<byte>)
      returns (r: WriteResult, sent: nat, ghost how: Attempt)
      requires writer.Valid() && start <= end <= frame.Length && frame[start..end] == bytes
      modifies writer
      ensures writer.Valid() && sent <= |bytes| && writer.wire == old(writer.wire) + bytes[..sent]
      ensures writer.played == old(writer.played) + how.calls && (r == Done ==> sent == |bytes|)
      ensures PutExplained(writer.clock, old(writer.ticks), writer.ticks, deadline, r, sent, |bytes|, how)
    {
      ghost var calls;
      r, sent, calls := writer.Write(frame, start, end, deadline);
      how := Attempt(r, calls);
      if r == Done {
        SuccessMeans(sent, writer.Late(old(writer.ticks), deadline), |bytes|, calls);
      }
      if !r.Stuck? {
        var late := writer.Expired(deadline);
        r := if late then SendFailed(true) else r;
      }
    }

    /** Adds a finished send to the history. */
    ghost method Record(x: Send)
      requires Legal(history) && ZeroFree(Payload(x.output))
      requires x.accepted <= |Bytes(Resync(history), x.output)|
      requires x.ok ==> x.accepted == |Bytes(Resync(history), x.output)|
      requires writer.wire == Line(history) + Bytes(Resync(history), x.output)[..x.accepted]
      modifies this`history
      ensures Legal(history) && writer.wire == Line(history) && Resync(history) == !x.ok
      ensures |history| == |old(history)| + 1 && history[..|old(history)|] == old(history)
      ensures history[|old(history)|] == x
    {
      HistoryGrows(history, x);
      history := history + [x];
    }

    /** Two zeros: the first ends any old frame, the second is the reset. */
    method SendReset(deadline: int) returns (r: WriteResult, ghost how: Attempt)
      requires Valid()
      modifies this, writer, frame
      ensures Valid() && Recorded(Reset, r) && Caused(Reset, r, deadline, how)
    {
      resync := false;
      frame[1] := 0;
      assert frame[1..2] == [0];
      r, how := SendFrame(1, deadline, Reset);
    }

    /** An empty frame, which tells the peer that its session is gone. */
    method SendDropped(deadline: int) returns (r: WriteResult, ghost how: Attempt)
      requires Valid()
      modifies this, writer, frame
      ensures Valid() && Recorded(Dropped, r) && Caused(Dropped, r, deadline, how)
    {
      assert frame[1..1] == [];
      r, how := SendFrame(0, deadline, Dropped);
    }

    /**
     Encodes and sends a packet. One whose worst case cannot fit a frame is
     refused before any output, and every other one is attempted.
     */
    method SendPacket(packet: seq<byte>, deadline: int) returns (r: WriteResult, ghost how: Attempt)
      requires Valid()
      modifies this, writer, frame
      ensures Valid()
      ensures r.TooLarge? <==> codec.bound(|packet|) > MAX_FRAME_SIZE
      ensures if r.TooLarge? then history == old(history) && writer.wire == old(writer.wire)
              else Recorded(Packet(codec.encode(packet)), r) && Caused(Packet(codec.encode(packet)), r, deadline, how)
    {
      var len := codec.bound(|packet|);
      if len > MAX_FRAME_SIZE {
        return TooLarge(len), Attempt(TooLarge(len), []);
      }
      var encoded := codec.encode(packet);
      Stage(encoded);
      r, how := SendFrame(|encoded|, deadline, Packet(encoded));
    }
  }

  lemma HistoryGrows(h: seq<Send>, x: Send)
    requires Legal(h) && ZeroFree(Payload(x.output))
    requires x.accepted <= |Bytes(Resync(h), x.output)|
    requires x.ok ==> x.accepted == |Bytes(Resync(h), x.output)|
    ensures Legal(h + [x])
    ensures Line(h + [x]) == Line(h) + Bytes(Resync(h), x.output)[..x.accepted]
    ensures Resync(h + [x]) == !x.ok
    ensures (h + [x])[..|h|] == h
  {
    assert (h + [x])[..|h|] == h;
  }

  // ---------------------------------------------------------------------------
  // Message size limit

  /** Bytes the session's authenticated encryption adds to a message. */
  const OVERHEAD: nat := 16

  /** A message of this length fits a frame after sealing and worst-case encoding. */
  predicate Frameable(bound: nat -> nat, n: nat) {
    bound(n + OVERHEAD) <= MAX_FRAME_SIZE
  }

  /**
   The largest message whose sealed packet fits a frame in the worst case.

   With a monotone bound it separates exactly: everything up to the result can
   always be framed after sealing, and nothing above it is promised to be.
   */
  method MaxMessageSize(bound: nat -> nat) returns (size: nat)
    requires forall m: nat, n: nat {:trigger bound(m), bound(n)} :: m <= n ==> bound(m) <= bound(n)
    requires bound(OVERHEAD) <= MAX_FRAME_SIZE
    ensures size <= MAX_FRAME_SIZE
    ensures forall n: nat :: n <= MAX_FRAME_SIZE ==> (n <= size <==> Frameable(bound, n))
  {
    size := MAX_FRAME_SIZE;
    while !Frameable(bound, size)
      invariant size <= MAX_FRAME_SIZE
      invariant forall n: nat :: size < n <= MAX_FRAME_SIZE ==> !Frameable(bound, n)
      decreases size
    {
      size := size - 1;
    }
    forall n: nat | n <= size
      ensures Frameable(bound, n)
    {
      assert bound(n + OVERHEAD) <= bound(size + OVERHEAD);
    }
  }
}
