/**
 The buffered frame reader, proved to report exactly what the per-byte automaton
 of `Framing` reports on the bytes it received, whatever the adapter does.
 */
module FrameReading {
  import opened Prelude
  import opened Framing
  import opened Deadlines

  /** Answer of the adapter to one admitted or refused read call. */
  datatype ReadCall =
    | Refused                    // the stream is closing, so the call is not admitted
    | SetterFailed               // installing the read deadline failed
    | Retried                    // TimedOut or Interrupted
    | Failed                     // any other adapter error
    | Data(bytes: seq<byte>)     // Ok(n), where no bytes mean end of file

  /** Result of a read, where `Blocked` means that the call has not returned yet. */
  datatype ReadResult = Got(count: nat) | ReadError | Blocked
  {
    function Size(): nat { if Got? then count else 0 }
  }

  /** Result of asking for the next frame, with its range in the buffer. */
  datatype FrameResult =
    | Found(start: nat, end: nat)
    | TooLarge
    | RecvFailed
    | Terminated
    | Waiting

  /** What a result tells, given the buffer it refers to. */
  function Told(r: FrameResult, buffer: seq<byte>): seq<Event> {
    match r
    case Found(start, end) => if start <= end <= |buffer| then [Frame(buffer[start..end])] else []
    case TooLarge => [Oversize]
    case _ => []
  }

  /** What the buffer alone yields. */
  datatype Served = Ready(result: FrameResult) | Again | Hungry

  // ---------------------------------------------------------------------------
  // What an adapter is going to do, byte by byte

  /** One thing the adapter does; how bytes are grouped into calls is left out. */
  datatype Atom = Byte(value: byte) | EndOfFile | Closure | SetterFault | Retry | Fault

  function Chunk(bytes: seq<byte>): seq<Atom> {
    seq(|bytes|, i requires 0 <= i < |bytes| => Byte(bytes[i]))
  }

  function Atoms(c: ReadCall): seq<Atom> {
    match c
    case Refused => [Closure]
    case SetterFailed => [SetterFault]
    case Retried => [Retry]
    case Failed => [Fault]
    case Data(bytes) => if bytes == [] then [EndOfFile] else Chunk(bytes)
  }

  function Flat(script: seq<ReadCall>): seq<Atom> {
    if script == [] then [] else Atoms(script[0]) + Flat(script[1..])
  }

  /** The bytes among them, in order. */
  function BytesOf(a: seq<Atom>): seq<byte> {
    if a == [] then [] else (if a[0].Byte? then [a[0].value] else []) + BytesOf(a[1..])
  }

  /** Calls that had to be repeated. */
  function RetryCount(a: seq<Atom>): nat {
    if a == [] then 0 else (if a[0].Retry? then 1 else 0) + RetryCount(a[1..])
  }

  /** Only bytes and retries: nothing that a read returns as a failure or an end. */
  ghost predicate Smooth(a: seq<Atom>) {
    forall i :: 0 <= i < |a| ==> a[i].Byte? || a[i].Retry?
  }

  /** Everything before the last atom is smooth. */
  ghost predicate SmoothUpTo(a: seq<Atom>) {
    a == [] || Smooth(a[..|a| - 1])
  }

  predicate Faulty(a: seq<Atom>) {
    a != [] && (a[|a| - 1].Fault? || a[|a| - 1].SetterFault?)
  }

  predicate Ends(a: seq<Atom>) {
    a != [] && (a[|a| - 1].EndOfFile? || a[|a| - 1].Closure?)
  }

  lemma {:induction false} BytesAppend(a: seq<Atom>, b: seq<Atom>)
    ensures BytesOf(a + b) == BytesOf(a) + BytesOf(b)
  {
    if a == [] {
      assert a + b == b;
    } else {
      var c := a + b;
      assert c[0] == a[0] && c[1..] == a[1..] + b;
      BytesAppend(a[1..], b);
    }
  }

  lemma {:induction false} CountAppend(a: seq<Atom>, b: seq<Atom>)
    ensures RetryCount(a + b) == RetryCount(a) + RetryCount(b)
  {
    if a == [] {
      assert a + b == b;
    } else {
      var c := a + b;
      assert c[0] == a[0] && c[1..] == a[1..] + b;
      CountAppend(a[1..], b);
    }
  }

  lemma {:induction false} ChunkBytes(bytes: seq<byte>)
    ensures BytesOf(Chunk(bytes)) == bytes && RetryCount(Chunk(bytes)) == 0
  {
    if bytes != [] {
      assert Chunk(bytes)[1..] == Chunk(bytes[1..]);
      ChunkBytes(bytes[1..]);
      assert [bytes[0]] + bytes[1..] == bytes;
    }
  }

  lemma ChunkSplits(bytes: seq<byte>, n: nat)
    requires n <= |bytes|
    ensures Chunk(bytes) == Chunk(bytes[..n]) + Chunk(bytes[n..])
  {
  }

  /** Calls and bytes still to come. */
  function Weight(script: seq<ReadCall>): nat {
    if script == [] then 0 else 1 + (if script[0].Data? then |script[0].bytes| else 0) + Weight(script[1..])
  }

  /** The script after `n` bytes of its first call have been transferred. */
  function KeepRest(script: seq<ReadCall>, n: nat): seq<ReadCall>
    requires script != [] && script[0].Data? && n <= |script[0].bytes|
  {
    (if n < |script[0].bytes| then [Data(script[0].bytes[n..])] else []) + script[1..]
  }

  lemma RestSplits(bytes: seq<byte>, rest: seq<ReadCall>)
    requires bytes != []
    ensures Flat([Data(bytes)] + rest) == Chunk(bytes) + Flat(rest)
    ensures Weight([Data(bytes)] + rest) == 1 + |bytes| + Weight(rest)
  {
    var all := [Data(bytes)] + rest;
    assert all[0] == Data(bytes) && all[1..] == rest;
  }

  lemma Assoc<T>(a: seq<T>, b: seq<T>, c: seq<T>)
    ensures a + (b + c) == a + b + c
  {
  }

  lemma RestFlat(script: seq<ReadCall>, n: nat)
    requires script != [] && script[0].Data? && 0 < n <= |script[0].bytes|
    ensures Flat(script) == Chunk(script[0].bytes[..n]) + Flat(KeepRest(script, n))
    ensures Weight(KeepRest(script, n)) < Weight(script)
  {
    var bytes, rest := script[0].bytes, KeepRest(script, n);
    ChunkSplits(bytes, n);
    if n < |bytes| {
      RestSplits(bytes[n..], script[1..]);
      Assoc(Chunk(bytes[..n]), Chunk(bytes[n..]), Flat(script[1..]));
    } else {
      assert bytes[..n] == bytes && rest == script[1..];
    }
  }

  lemma OneAtom(a: Atom)
    requires !a.Byte?
    ensures BytesOf([a]) == [] && RetryCount([a]) == if a.Retry? then 1 else 0
  {
    assert [a][1..] == [];
  }

  /**
   The result of a read has its cause: it failed exactly when the deadline was
   found gone or the last call failed, and ended exactly when the last call did.
   */
  ghost predicate ReadExplained(r: ReadResult, late: bool, news: seq<Atom>) {
    && SmoothUpTo(news)
    && (r.ReadError? <==> late || Faulty(news))
    && (r == Got(0) <==> !late && Ends(news))
    && (r.Got? && r.count > 0 ==> Smooth(news))
  }

  ghost predicate Explained(r: FrameResult, late: bool, news: seq<Atom>) {
    && SmoothUpTo(news)
    && (r.RecvFailed? <==> late || Faulty(news))
    && (r.Terminated? <==> !late && Ends(news))
  }

  lemma SmoothThen(news: seq<Atom>, more: seq<Atom>)
    requires Smooth(news) && SmoothUpTo(more)
    ensures SmoothUpTo(news + more) && (Smooth(more) ==> Smooth(news + more))
    ensures Faulty(news + more) == Faulty(more) && Ends(news + more) == Ends(more)
  {
    var all := news + more;
    assert forall i :: 0 <= i < |all| ==> all[i] == if i < |news| then news[i] else more[i - |news|];
  }

  /** What came before does not change the explanation. */
  lemma ReadExplainedThen(r: ReadResult, late: bool, news: seq<Atom>, more: seq<Atom>)
    requires Smooth(news) && ReadExplained(r, late, more)
    ensures ReadExplained(r, late, news + more)
  {
    SmoothThen(news, more);
  }

  lemma ChunkExplained(bytes: seq<byte>)
    requires bytes != []
    ensures ReadExplained(Got(|bytes|), false, Chunk(bytes)) && BytesOf(Chunk(bytes)) == bytes
    ensures RetryCount(Chunk(bytes)) == 0
  {
    ChunkBytes(bytes);
  }

  lemma CallExplained(call: ReadCall)
    requires !call.Retried? && (call.Data? ==> call.bytes == [])
    ensures var r := if call.SetterFailed? || call.Failed? then ReadError else Got(0);
            ReadExplained(r, false, Atoms(call)) && BytesOf(Atoms(call)) == [] && RetryCount(Atoms(call)) == 0
  {
    OneAtom(Atoms(call)[0]);
  }

  /** Nothing but idle timeouts and interruptions. */
  ghost predicate Retries(a: seq<Atom>) {
    forall i :: 0 <= i < |a| ==> a[i].Retry?
  }

  lemma {:induction false} RetriesBring(a: seq<Atom>)
    requires Retries(a)
    ensures BytesOf(a) == [] && RetryCount(a) == |a|
  {
    if a != [] {
      RetriesBring(a[1..]);
    }
  }

  lemma RetriesExplain(r: ReadResult, news: seq<Atom>)
    requires Retries(news) && (r.ReadError? || r.Blocked?)
    ensures ReadExplained(r, r.ReadError?, news) && BytesOf(news) == [] && RetryCount(news) == |news|
  {
    RetriesBring(news);
  }

  lemma AfterRetries(r: ReadResult, news: seq<Atom>, more: seq<Atom>)
    requires Retries(news) && ReadExplained(r, false, more) && RetryCount(more) == 0
    ensures ReadExplained(r, false, news + more) && BytesOf(news + more) == BytesOf(more)
    ensures RetryCount(news + more) == |news|
  {
    RetriesBring(news);
    BytesAppend(news, more);
    CountAppend(news, more);
    ReadExplainedThen(r, false, news, more);
  }

  /** How a read ends the search for a frame, if it does. */
  function StopOf(got: ReadResult): Option<FrameResult> {
    match got
    case ReadError => Some(RecvFailed)
    case Blocked => Some(Waiting)
    case Got(n) => if n == 0 then Some(Terminated) else None
  }

  lemma StopExplained(got: ReadResult, late: bool, news: seq<Atom>)
    requires ReadExplained(got, late, news)
    ensures StopOf(got).Some? ==> Explained(StopOf(got).value, late, news) && got.Size() == 0
    ensures StopOf(got).None? ==> Smooth(news) && !late && got.Size() > 0
  {
  }

  lemma ExplainedThen(r: FrameResult, late: bool, news: seq<Atom>, more: seq<Atom>)
    requires Smooth(news) && Explained(r, late, more)
    ensures Explained(r, late, news + more)
  {
    SmoothThen(news, more);
  }

  /** Input half of the stream, with the answers its adapter is going to give. */
  class ReadHalf {
    const clock: nat -> int
    var ticks: nat
    var script: seq<ReadCall>
    /** All that the adapter does, and how much of it has happened. */
    ghost const plan: seq<Atom>
    ghost var played: seq<Atom>

    ghost predicate Valid()
      reads this
    {
      played + Flat(script) == plan
    }

    /** The bytes received so far. */
    ghost function Received(): seq<byte>
      reads this
    {
      BytesOf(played)
    }

    /** With nothing left to come, everything has happened. */
    lemma AllPlayed()
      requires Valid() && script == []
      ensures played == plan
    {
    }

    constructor (clock: nat -> int, script: seq<ReadCall>)
      ensures Valid() && this.clock == clock && this.script == script && plan == Flat(script) && played == []
    {
      this.clock := clock;
      this.ticks := 0;
      this.script := script;
      this.plan := Flat(script);
      this.played := [];
    }

    /** The last check since `start` found the deadline gone. */
    ghost predicate Late(start: nat, deadline: Option<int>)
      reads this`ticks
    {
      LastLate(clock, start, ticks, deadline)
    }

    /** All checks since `start` but the last were in time. */
    ghost predicate Punctual(start: nat, deadline: Option<int>)
      reads this`ticks
    {
      RestInTime(clock, start, ticks, deadline)
    }

    /** Checks an optional absolute deadline against the next clock reading. */
    method Expired(deadline: Option<int>) returns (expired: bool)
      modifies this`ticks
      ensures Punctual(old(ticks), deadline) && expired == Late(old(ticks), deadline)
      ensures ticks == old(ticks) + if deadline.Some? then 1 else 0
    {
      expired := false;
      if deadline.Some? {
        expired := clock(ticks) >= deadline.value;
        ticks := ticks + 1;
      }
    }

    /** Makes a call that transfers nothing. */
    method Call() returns (call: ReadCall)
      requires Valid() && script != [] && (script[0].Data? ==> script[0].bytes == [])
      modifies this`script, this`played
      ensures Valid() && call == old(script)[0] && script == old(script)[1..]
      ensures played == old(played) + Atoms(call) && |Atoms(call)| == 1
    {
      call := script[0];
      Assoc(played, Atoms(call), Flat(script[1..]));
      played := played + Atoms(call);
      script := script[1..];
    }

    /** Transfers what fits of the adapter's data, which keeps the rest. */
    method Transfer(buf: array<byte>, from: nat) returns (n: nat)
      requires Valid() && from < buf.Length && script != [] && script[0].Data? && script[0].bytes != []
      modifies this`script, this`played, buf
      ensures Valid() && 0 < n == Min(|old(script)[0].bytes|, buf.Length - from)
      ensures buf[from..from + n] == old(script)[0].bytes[..n]
      ensures played == old(played) + Chunk(buf[from..from + n])
      ensures forall i :: 0 <= i < from ==> buf[i] == old(buf[i])
      ensures Weight(script) < Weight(old(script))
    {
      var bytes := script[0].bytes;
      n := Min(|bytes|, buf.Length - from);
      forall i | 0 <= i < n {
        buf[from + i] := bytes[i];
      }
      assert buf[from..from + n] == bytes[..n];
      RestFlat(script, n);
      Assoc(played, Chunk(bytes[..n]), Flat(KeepRest(script, n)));
      script := KeepRest(script, n);
      played := played + Chunk(bytes[..n]);
    }

    /** Checks once more, after checks that were all in time. */
    method Check(ghost start: nat, deadline: Option<int>) returns (expired: bool)
      requires Punctual(start, deadline) && !Late(start, deadline)
      modifies this`ticks
      ensures Punctual(start, deadline) && expired == Late(start, deadline)
      ensures ticks == old(ticks) + if deadline.Some? then 1 else 0
    {
      expired := Expired(deadline);
      MoreChecks(clock, start, old(ticks), ticks, deadline);
    }

    /** Repeats calls that only time out, until another answer, the deadline or a wait. */
    method SkipRetries(deadline: Option<int>) returns (stop: Option<ReadResult>, ghost news: seq<Atom>)
      requires Valid()
      modifies this`ticks, this`script, this`played
      ensures Valid() && played == old(played) + news && Retries(news)
      ensures Punctual(old(ticks), deadline) && Weight(script) <= Weight(old(script))
      ensures deadline.Some? ==> ticks == old(ticks) + |news| + 1
      ensures match stop
              case None => script != [] && !script[0].Retried? && !Late(old(ticks), deadline)
              case Some(r) =>
                if r.ReadError? then Late(old(ticks), deadline)
                else r.Blocked? && script == [] && !Late(old(ticks), deadline)
    {
      news := [];
      while true
        invariant Valid() && played == old(played) + news && Retries(news)
        invariant Punctual(old(ticks), deadline) && !Late(old(ticks), deadline)
        invariant deadline.Some? ==> ticks == old(ticks) + |news|
        invariant Weight(script) <= Weight(old(script))
        decreases |script|
      {
        var expired := Check(old(ticks), deadline);
        if expired {
          return Some(ReadError), news;
        }
        if script == [] {
          return Some(Blocked), news;
        }
        if !script[0].Retried? {
          return None, news;
        }
        var _ := Call();
        news := news + [Retry];
      }
    }

    /** A call whose answer is not a retry, which does `more`. */
    method Attempt(buf: array<byte>, from: nat) returns (r: ReadResult, ghost more: seq<Atom>)
      requires Valid() && from < buf.Length && script != [] && !script[0].Retried?
      modifies this`script, this`played, buf
      ensures Valid() && played == old(played) + more && !r.Blocked? && ReadExplained(r, false, more)
      ensures RetryCount(more) == 0
      ensures forall i :: 0 <= i < from ==> buf[i] == old(buf[i])
      ensures Weight(script) < Weight(old(script))
      ensures from + r.Size() <= buf.Length && BytesOf(more) == buf[from..from + r.Size()]
    {
      if script[0].Data? && script[0].bytes != [] {
        var n := Transfer(buf, from);
        ChunkExplained(buf[from..from + n]);
        return Got(n), Chunk(buf[from..from + n]);
      }
      var call := Call();
      CallExplained(call);
      more := Atoms(call);
      r := if call.SetterFailed? || call.Failed? then ReadError else Got(0);
    }

    /**
     Reads into `buf[from..]`, retrying idle timeouts within the deadline.

     Exactly the bytes the adapter delivered are stored, even when the call
     finishes late, and every result has its cause. A refused call reads as end
     of file. `news` is what the adapter did meanwhile; a deadline is checked once
     before each of its calls.
     */
    method Read(buf: array<byte>, from: nat, deadline: Option<int>)
      returns (r: ReadResult, ghost news: seq<Atom>)
      requires Valid() && from < buf.Length
      modifies this`ticks, this`script, this`played, buf
      ensures Valid() && played == old(played) + news
      ensures Punctual(old(ticks), deadline)
      ensures deadline.Some? ==> ticks == old(ticks) + RetryCount(news) + 1
      ensures ReadExplained(r, Late(old(ticks), deadline), news)
      ensures r.Blocked? ==> script == []
      ensures from + r.Size() <= buf.Length && BytesOf(news) == buf[from..from + r.Size()]
      ensures forall i :: 0 <= i < from ==> buf[i] == old(buf[i])
      ensures Weight(script) <= Weight(old(script)) && (r.Size() > 0 ==> Weight(script) < Weight(old(script)))
    {
      var stop;
      stop, news := SkipRetries(deadline);
      if stop.Some? {
        RetriesExplain(stop.value, news);
        return stop.value, news;
      }
      ghost var more;
      r, more := Attempt(buf, from);
      AfterRetries(r, news, more);
      Assoc(old(played), news, more);
      news := news + more;
    }
  }

  /** Index of the first zero of `buf[lo..hi]`, or `hi`. */
  method FindZero(buf: array<byte>, lo: nat, hi: nat) returns (at: nat)
    requires lo <= hi <= buf.Length
    ensures lo <= at <= hi
    ensures ZeroFree(buf[lo..at])
    ensures at < hi ==> buf[at] == 0
  {
    at := lo;
    while at < hi && buf[at] != 0
      invariant lo <= at <= hi
      invariant ZeroFree(buf[lo..at])
    {
      at := at + 1;
    }
  }

  /** A delimiter closes the frame behind it, or only ends a drain. */
  lemma FrameEnds(past: seq<byte>, discard: bool, frame: seq<byte>)
    requires ZeroFree(frame) && |frame| <= MAX_FRAME_SIZE
    requires After(IDLE, past) == Automaton([], discard)
    ensures After(IDLE, past + frame + [0]) == IDLE
    ensures Reported(IDLE, past + frame + [0]) ==
            Reported(IDLE, past) + if discard then [] else [Frame(frame)]
  {
    FeedAppend(IDLE, past, frame);
    FeedAppend(IDLE, past + frame, [0]);
    FeedByte(After(IDLE, past + frame), 0);
    if discard {
      FeedDrains(frame);
    } else {
      FeedFits(IDLE, frame);
      assert [] + frame == frame;
    }
  }

  /** One byte too many for a frame is reported, and the rest of it is drained. */
  lemma FrameOverflows(past: seq<byte>, all: seq<byte>)
    requires ZeroFree(all) && |all| == MAX_FRAME_SIZE + 1 && After(IDLE, past) == IDLE
    ensures After(IDLE, past + all) == Automaton([], true)
    ensures Reported(IDLE, past + all) == Reported(IDLE, past) + [Oversize]
  {
    var fits, last := all[..MAX_FRAME_SIZE], all[MAX_FRAME_SIZE];
    assert all == fits + [last];
    FeedAppend(IDLE, past, all);
    FeedAppend(IDLE, fits, [last]);
    FullThenOne(fits, last);
  }

  lemma FullThenOne(fits: seq<byte>, last: byte)
    requires ZeroFree(fits) && |fits| == MAX_FRAME_SIZE && last != 0
    ensures Reported(IDLE, fits) == [] && Reported(After(IDLE, fits), [last]) == [Oversize]
    ensures After(After(IDLE, fits), [last]) == Automaton([], true)
  {
    FeedFits(IDLE, fits);
    assert [] + fits == fits;
    FeedByte(Automaton(fits, false), last);
  }

  lemma SamePrefix(a: seq<byte>, b: seq<byte>, n: nat)
    requires n <= |a| == |b| && forall i :: 0 <= i < n ==> a[i] == b[i]
    ensures a[0..n] == b[0..n]
  {
  }

  /** Received bytes join the unconsumed ones. */
  lemma JoinInput(played: seq<Atom>, news: seq<Atom>, past: seq<byte>, s: seq<byte>, i: nat, j: nat)
    requires i <= j <= |s| && BytesOf(played) == past + s[0..i] && BytesOf(news) == s[i..j]
    ensures BytesOf(played + news) == past + s[0..j]
  {
    BytesAppend(played, news);
    assert s[0..i] + s[i..j] == s[0..j];
  }

  lemma ZeroFreeJoins(s: seq<byte>, a: nat, b: nat, c: nat)
    requires a <= b <= c <= |s| && ZeroFree(s[a..b]) && ZeroFree(s[b..c])
    ensures ZeroFree(s[a..c])
  {
    assert s[a..c] == s[a..b] + s[b..c];
  }

  /** A frame and its delimiter leave the unconsumed bytes. */
  lemma SplitAtZero(past: seq<byte>, s: seq<byte>, offset: nat, search: nat, end: nat, filled: nat)
    requires offset <= search <= end < filled <= |s| && s[end] == 0
    requires ZeroFree(s[offset..search]) && ZeroFree(s[search..end])
    ensures ZeroFree(s[offset..end])
    ensures past + s[offset..filled] == past + s[offset..end] + [0] + s[end + 1..filled]
  {
    ZeroFreeJoins(s, offset, search, end);
    assert s[offset..filled] == s[offset..end] + [0] + s[end + 1..filled];
  }

  /** Incremental in-place parser over one fixed buffer. */
  class FrameReader {
    const reader: ReadHalf
    const buffer: array<byte>
    var filled: nat
    var offset: nat
    var search: nat
    var discard: bool

    /** Received bytes whose reports have been handed out. */
    ghost var consumed: seq<byte>
    /** Everything reported so far. */
    ghost var reported: seq<Event>

    /** The buffer holds the unconsumed suffix of the input; the rest is history. */
    ghost predicate Valid()
      reads this, reader, buffer
    {
      && reader.Valid() && buffer.Length == MAX_FRAME_SIZE + 1
      && offset <= search <= filled <= buffer.Length
      && ZeroFree(buffer[offset..search])
      && (discard ==> offset == search)
      && reader.Received() == consumed + buffer[offset..filled]
      && After(IDLE, consumed) == Automaton([], discard)
      && Reported(IDLE, consumed) == reported
    }

    constructor (reader: ReadHalf)
      requires reader.Valid() && reader.played == []
      ensures Valid() && this.reader == reader && reported == [] && fresh(buffer)
    {
      this.reader := reader;
      buffer := new byte[MAX_FRAME_SIZE + 1](_ => 0);
      filled, offset, search, discard := 0, 0, 0, false;
      consumed, reported := [], [];
    }

    /** Moves a partial frame to the front, or drops a drained portion. */
    method Compact()
      requires Valid() && ZeroFree(buffer[search..filled])
      modifies this, buffer
      ensures Valid() && offset == 0 && search == filled
      ensures discard == old(discard) && reported == old(reported)
      ensures discard ==> filled == 0
      ensures !discard ==> filled == old(filled) - old(offset)
    {
      ghost var kept := buffer[offset..filled];
      ZeroFreeJoins(buffer[..], offset, search, filled);
      if !discard {
        var used, from := filled - offset, offset;
        forall i | 0 <= i < used {
          buffer[i] := buffer[from + i];
        }
        assert buffer[..used] == kept;
        filled, offset, search := used, 0, used;
      } else {
        FeedAppend(IDLE, consumed, kept);
        FeedDrains(kept);
        consumed := consumed + kept;
        filled, offset, search := 0, 0, 0;
      }
    }

    /** Consumes the frame that ends at the zero `buffer[end]`. */
    method Consume(end: nat)
      requires Valid() && search <= end < filled
      requires ZeroFree(buffer[search..end]) && buffer[end] == 0
      modifies this`offset, this`search, this`discard, this`consumed, this`reported
      ensures Valid() && !discard && offset == end + 1
      ensures reported == old(reported) +
                          if old(discard) then [] else [Frame(buffer[old(offset)..end])]
    {
      ghost var frame := buffer[offset..end];
      SplitAtZero(consumed, buffer[..], offset, search, end, filled);
      FrameEnds(consumed, discard, frame);
      reported := reported + if discard then [] else [Frame(frame)];
      consumed := consumed + frame + [0];
      offset, search, discard := end + 1, end + 1, false;
    }

    /** Reports a full buffer without a delimiter as an overflow. */
    method Overflow()
      requires Valid() && !discard && offset == 0 && search == filled == MAX_FRAME_SIZE + 1
      modifies this
      ensures Valid() && discard && reported == old(reported) + [Oversize]
      ensures offset == filled == 0
    {
      ghost var all := buffer[..filled];
      FrameOverflows(consumed, all);
      consumed := consumed + all;
      reported := reported + [Oversize];
      filled, offset, search, discard := 0, 0, 0, true;
    }

    /**
     Finds the next frame and returns its range within `buffer`; `news` is what
     the adapter did meanwhile.

     The reports handed out are those of the automaton on the bytes received, and
     all of them whenever the reader asks for more or stops. It fails exactly when
     the last check found the deadline gone or the last call failed, ends exactly
     when the last call did, and waits only when the adapter has nothing more. A
     failed read, an expired deadline or the end of the stream reports nothing and
     forgets nothing, including a drain in progress.
     */
    method NextFrame(deadline: Option<int>) returns (r: FrameResult, ghost news: seq<Atom>)
      requires Valid()
      modifies this, buffer, reader
      ensures Valid() && reader.played == old(reader.played) + news
      ensures reader.Punctual(old(reader.ticks), deadline)
      ensures deadline.Some? ==> reader.ticks > old(reader.ticks) + RetryCount(news)
      ensures Explained(r, reader.Late(old(reader.ticks), deadline), news)
      ensures r.Waiting? ==> reader.script == [] && reported == Reported(IDLE, BytesOf(reader.plan))
      ensures r.Found? ==> r.start <= r.end < buffer.Length
      ensures reported == old(reported) + Told(r, buffer[..])
      ensures r.Terminated? ==> reported == Reported(IDLE, reader.Received())
      ensures news != [] ==> old(reported) == Reported(IDLE, old(reader.Received()))
    {
      news := [];
      while true
        invariant Valid() && reported == old(reported)
        invariant reader.played == old(reader.played) + news && Smooth(news)
        invariant reader.Punctual(old(reader.ticks), deadline) && !reader.Late(old(reader.ticks), deadline)
        invariant deadline.Some? ==> reader.ticks >= old(reader.ticks) + RetryCount(news)
        invariant news != [] ==> old(reported) == Reported(IDLE, old(reader.Received()))
        decreases Weight(reader.script), filled - offset
      {
        var found;
        ghost var more;
        found, more := Pass(old(reader.ticks), deadline);
        CountAppend(news, more);
        Assoc(old(reader.played), news, more);
        if found.Some? {
          ExplainedThen(found.value, reader.Late(old(reader.ticks), deadline), news, more);
          return found.value, news + more;
        }
        SmoothThen(news, more);
        news := news + more;
      }
    }

    /** One pass of the search, after checks since `start` that were all in time. */
    method Pass(ghost start: nat, deadline: Option<int>) returns (r: Option<FrameResult>, ghost news: seq<Atom>)
      requires Valid() && reader.Punctual(start, deadline) && !reader.Late(start, deadline)
      modifies this, buffer, reader
      ensures Valid() && reader.played == old(reader.played) + news && reader.Punctual(start, deadline)
      ensures deadline.Some? ==> reader.ticks > old(reader.ticks) + RetryCount(news)
      ensures r.Some? ==> Explained(r.value, reader.Late(start, deadline), news)
      ensures r.Some? && r.value.Found? ==> r.value.start <= r.value.end < buffer.Length
      ensures reported == old(reported) + if r.Some? then Told(r.value, buffer[..]) else []
      ensures r == Some(Waiting) ==> reader.script == [] && reported == Reported(IDLE, BytesOf(reader.plan))
      ensures r == Some(Terminated) ==> reported == Reported(IDLE, reader.Received())
      ensures news != [] ==> old(reported) == Reported(IDLE, old(reader.Received()))
      ensures r.None? ==>
                && Smooth(news) && !reader.Late(start, deadline)
                && (Weight(reader.script) < Weight(old(reader.script))
                    || (reader.script == old(reader.script) && filled - offset < old(filled - offset)))
    {
      news := [];
      var expired := reader.Check(start, deadline);
      if expired {
        return Some(RecvFailed), news;
      }
      var served := Serve();
      if served.Hungry? {
        r, news := Fill(start, deadline);
      } else {
        r := if served.Ready? then Some(served.result) else None;
      }
    }

    /** Serves a report from the buffer, ends a drain, or makes room for more input. */
    method Serve() returns (s: Served)
      requires Valid()
      modifies this, buffer
      ensures Valid()
      ensures match s
              case Ready(f) =>
                && (f.TooLarge? || (f.Found? && f.start <= f.end < buffer.Length))
                && reported == old(reported) + Told(f, buffer[..])
              case Again => reported == old(reported) && filled - offset < old(filled - offset)
              case Hungry =>
                && reported == old(reported) && offset == 0 && search == filled <= MAX_FRAME_SIZE
                && (discard ==> filled == 0)
    {
      var end := FindZero(buffer, search, filled);
      if end < filled {
        var start, draining := offset, discard;
        Consume(end);
        return if draining then Again else Ready(Found(start, end));
      }
      Compact();
      if filled == MAX_FRAME_SIZE + 1 {
        Overflow();
        return Ready(TooLarge);
      }
      return Hungry;
    }

    /** Asks the adapter for more input behind the partial frame; a result stops the search. */
    method Fill(ghost start: nat, deadline: Option<int>) returns (stop: Option<FrameResult>, ghost news: seq<Atom>)
      requires Valid() && offset == 0 && search == filled <= MAX_FRAME_SIZE
      requires discard ==> filled == 0
      requires reader.Punctual(start, deadline) && !reader.Late(start, deadline)
      modifies this`filled, buffer, reader
      ensures Valid() && reported == old(reported) == Reported(IDLE, old(reader.Received()))
      ensures reader.played == old(reader.played) + news && reader.Punctual(start, deadline)
      ensures deadline.Some? ==> reader.ticks == old(reader.ticks) + RetryCount(news) + 1
      ensures stop.Some? ==> Explained(stop.value, reader.Late(start, deadline), news)
      ensures stop.Some? ==> reader.Received() == old(reader.Received())
      ensures stop.Some? ==> stop.value.RecvFailed? || stop.value.Terminated? || stop.value.Waiting?
      ensures stop == Some(Waiting) ==> reader.script == [] && reader.played == reader.plan
      ensures stop.None? ==>
                Smooth(news) && !reader.Late(start, deadline) && Weight(reader.script) < Weight(old(reader.script))
    {
      AllReported();
      ghost var ticks := reader.ticks;
      var got;
      got, news := Load(deadline);
      MoreChecks(reader.clock, start, ticks, reader.ticks, deadline);
      StopExplained(got, reader.Late(start, deadline), news);
      stop := StopOf(got);
      if got.Blocked? {
        reader.AllPlayed();
      }
    }

    /** Reads behind the partial frame. */
    method Load(deadline: Option<int>) returns (got: ReadResult, ghost news: seq<Atom>)
      requires Valid() && offset == 0 && search == filled <= MAX_FRAME_SIZE
      modifies this`filled, buffer, reader
      ensures Valid() && reader.played == old(reader.played) + news
      ensures reader.Punctual(old(reader.ticks), deadline)
      ensures deadline.Some? ==> reader.ticks == old(reader.ticks) + RetryCount(news) + 1
      ensures ReadExplained(got, reader.Late(old(reader.ticks), deadline), news)
      ensures got.Blocked? ==> reader.script == []
      ensures got.Size() == 0 ==> reader.Received() == old(reader.Received())
      ensures got.Size() > 0 ==> Weight(reader.script) < Weight(old(reader.script))
    {
      got, news := reader.Read(buffer, filled, deadline);
      SamePrefix(buffer[..], old(buffer[..]), filled);
      JoinInput(old(reader.played), news, consumed, buffer[..], filled, filled + got.Size());
      filled := filled + got.Size();
    }

    /** A reader about to ask for more input owes no report. */
    lemma AllReported()
      requires Valid() && offset == 0 && search == filled <= MAX_FRAME_SIZE
      requires discard ==> filled == 0
      ensures reported == Reported(IDLE, reader.Received())
    {
      var held := buffer[offset..filled];
      FeedAppend(IDLE, consumed, held);
      if !discard {
        FeedFits(IDLE, held);
      }
    }
  }
}
