/**
 Frame boundaries on a byte stream, stated twice and independently.

 `Feed` is the per-byte automaton a reader would run if it looked at one byte at
 a time. `Segments` and `Tail` cut a whole stream at its zero bytes. The lemmas
 relate the two, so a theorem about either holds of the other.
 */
module Framing {
  import opened Prelude

  /** Largest encoded frame, excluding its delimiter. */
  const MAX_FRAME_SIZE: nat := 2 * 1024 * 1024

  /** What a reader reports about the stream: a delimited frame or an overflow. */
  datatype Event = Frame(bytes: seq<byte>) | Oversize

  /** The frame read so far, or the drain of a frame already reported as too large. */
  datatype Automaton = Automaton(partial: seq<byte>, discard: bool)

  const IDLE := Automaton([], false)

  ghost predicate ZeroFree(s: seq<byte>) {
    forall i :: 0 <= i < |s| ==> s[i] != 0
  }

  /** State after one byte. */
  function Step(a: Automaton, b: byte): Automaton {
    if b == 0 then IDLE
    else if a.discard then a
    else if |a.partial| >= MAX_FRAME_SIZE then Automaton([], true)
    else Automaton(a.partial + [b], false)
  }

  /** Report caused by one byte. */
  function Report(a: Automaton, b: byte): seq<Event> {
    if a.discard then []
    else if b == 0 then [Frame(a.partial)]
    else if |a.partial| >= MAX_FRAME_SIZE then [Oversize]
    else []
  }

  /** State after a whole input. */
  function After(a: Automaton, input: seq<byte>): Automaton
    decreases |input|
  {
    if input == [] then a else After(Step(a, input[0]), input[1..])
  }

  /** Reports of a whole input, in order. */
  function Reported(a: Automaton, input: seq<byte>): seq<Event>
    decreases |input|
  {
    if input == [] then []
    else Report(a, input[0]) + Reported(Step(a, input[0]), input[1..])
  }

  /** Feeding is compositional, so the chunking of the input is irrelevant. */
  lemma {:induction false} FeedAppend(a: Automaton, x: seq<byte>, y: seq<byte>)
    ensures After(a, x + y) == After(After(a, x), y)
    ensures Reported(a, x + y) == Reported(a, x) + Reported(After(a, x), y)
    decreases |x|
  {
    if x == [] {
      assert x + y == y;
    } else {
      assert (x + y)[1..] == x[1..] + y;
      FeedAppend(Step(a, x[0]), x[1..], y);
    }
  }

  /** A single byte fed as an input of its own. */
  lemma FeedByte(a: Automaton, b: byte)
    ensures After(a, [b]) == Step(a, b)
    ensures Reported(a, [b]) == Report(a, b)
  {
    assert [b][1..] == [];
    assert Reported(a, [b]) == Report(a, b) + [];
  }

  /** Bytes without a delimiter only grow the partial frame while it fits. */
  lemma {:induction false} FeedFits(a: Automaton, s: seq<byte>)
    requires !a.discard && ZeroFree(s) && |a.partial| + |s| <= MAX_FRAME_SIZE
    ensures After(a, s) == Automaton(a.partial + s, false)
    ensures Reported(a, s) == []
    decreases |s|
  {
    if s == [] {
      assert a.partial + s == a.partial;
    } else {
      assert Step(a, s[0]) == Automaton(a.partial + [s[0]], false) && Report(a, s[0]) == [];
      FeedFits(Step(a, s[0]), s[1..]);
      assert a.partial + [s[0]] + s[1..] == a.partial + s;
    }
  }

  /** A drain swallows every byte up to the delimiter without a report. */
  lemma {:induction false} FeedDrains(s: seq<byte>)
    requires ZeroFree(s)
    ensures After(Automaton([], true), s) == Automaton([], true)
    ensures Reported(Automaton([], true), s) == []
    decreases |s|
  {
    if s != [] {
      FeedDrains(s[1..]);
    }
  }

  // ---------------------------------------------------------------------------
  // The stream cut at its zeros

  /** Contents of the zero-terminated pieces of a stream. */
  function Segments(s: seq<byte>): seq<seq<byte>>
    decreases |s|
  {
    if s == [] then []
    else if s[|s| - 1] == 0 then Segments(s[..|s| - 1]) + [Tail(s[..|s| - 1])]
    else Segments(s[..|s| - 1])
  }

  /** Bytes after the last zero. */
  function Tail(s: seq<byte>): seq<byte>
    decreases |s|
  {
    if s == [] || s[|s| - 1] == 0 then []
    else Tail(s[..|s| - 1]) + [s[|s| - 1]]
  }

  /** Reports owed for terminated pieces: each one exactly once. */
  function Reports(pieces: seq<seq<byte>>): seq<Event> {
    seq(|pieces|, i requires 0 <= i < |pieces| =>
      if |pieces[i]| <= MAX_FRAME_SIZE then Frame(pieces[i]) else Oversize)
  }

  ghost predicate AllZeroFree(pieces: seq<seq<byte>>) {
    forall i :: 0 <= i < |pieces| ==> ZeroFree(pieces[i])
  }

  lemma {:induction false} CutZeroFree(s: seq<byte>)
    ensures ZeroFree(Tail(s)) && AllZeroFree(Segments(s))
    decreases |s|
  {
    if s != [] {
      CutZeroFree(s[..|s| - 1]);
    }
  }

  /** Cutting the stream is recovered by gluing the pieces back with zeros. */
  function Glue(pieces: seq<seq<byte>>): seq<byte> {
    if pieces == [] then []
    else Glue(pieces[..|pieces| - 1]) + pieces[|pieces| - 1] + [0]
  }

  lemma {:induction false} CutGlues(s: seq<byte>)
    ensures Glue(Segments(s)) + Tail(s) == s
    decreases |s|
  {
    if s != [] {
      var t := s[..|s| - 1];
      CutGlues(t);
      assert s == t + [s[|s| - 1]];
      if s[|s| - 1] == 0 {
        assert Segments(s)[..|Segments(s)| - 1] == Segments(t);
      }
    }
  }

  /** Appending delimiter-free bytes extends only the tail. */
  lemma {:induction false} CutExtends(s: seq<byte>, t: seq<byte>)
    requires ZeroFree(t)
    ensures Segments(s + t) == Segments(s)
    ensures Tail(s + t) == Tail(s) + t
    decreases |t|
  {
    if t == [] {
      assert s + t == s;
    } else {
      var u := t[..|t| - 1];
      CutExtends(s, u);
      assert (s + t)[..|s + t| - 1] == s + u;
      assert Tail(s) + u + [t[|t| - 1]] == Tail(s) + t;
    }
  }

  /** Appending a zero closes the tail into the last piece. */
  lemma CutCloses(s: seq<byte>)
    ensures Segments(s + [0]) == Segments(s) + [Tail(s)]
    ensures Tail(s + [0]) == []
  {
    assert (s + [0])[..|s|] == s;
  }

  /** Zero-free pieces glued together are cut into the same pieces again. */
  lemma {:induction false} GlueCuts(pieces: seq<seq<byte>>)
    requires AllZeroFree(pieces)
    ensures Segments(Glue(pieces)) == pieces && Tail(Glue(pieces)) == []
  {
    if pieces != [] {
      var past, last := pieces[..|pieces| - 1], pieces[|pieces| - 1];
      GlueCuts(past);
      CutExtends(Glue(past), last);
      CutCloses(Glue(past) + last);
      assert past + [last] == pieces && [] + last == last;
    }
  }

  /**
   What the cut means: the pieces and the tail of a stream are the one way to write
   it as zero-free pieces, each followed by a zero, and a zero-free rest.
   */
  lemma CutIsUnique(s: seq<byte>, pieces: seq<seq<byte>>, rest: seq<byte>)
    ensures pieces == Segments(s) && rest == Tail(s) <==>
            AllZeroFree(pieces) && ZeroFree(rest) && Glue(pieces) + rest == s
  {
    if AllZeroFree(pieces) && ZeroFree(rest) && Glue(pieces) + rest == s {
      GlueCuts(pieces);
      CutExtends(Glue(pieces), rest);
      assert [] + rest == rest;
    }
    CutZeroFree(s);
    CutGlues(s);
  }

  /**
   The automaton computes the cut: over every input, each terminated piece is
   reported exactly once, as itself or as an overflow, an unterminated overflow
   is reported already, and no delimiter of an oversized piece is ever reported
   as an empty frame.
   */
  lemma {:induction false} AutomatonCutsAtZeros(s: seq<byte>)
    ensures After(IDLE, s) ==
            if |Tail(s)| > MAX_FRAME_SIZE then Automaton([], true) else Automaton(Tail(s), false)
    ensures Reported(IDLE, s) ==
            Reports(Segments(s)) + if |Tail(s)| > MAX_FRAME_SIZE then [Oversize] else []
    decreases |s|
  {
    if s != [] {
      var t, b := s[..|s| - 1], s[|s| - 1];
      assert s == t + [b];
      AutomatonCutsAtZeros(t);
      FeedAppend(IDLE, t, [b]);
      FeedByte(After(IDLE, t), b);
    }
  }

  /**
   From any state of the line, two zeros resynchronise: whatever the first one
   closes, the second is reported as the empty frame and leaves nothing behind.
   */
  lemma ResetResynchronises(a: Automaton, junk: seq<byte>)
    ensures After(a, junk + [0, 0]) == IDLE
    ensures var r := Reported(a, junk + [0, 0]); |r| > 0 && r[|r| - 1] == Frame([])
  {
    var mid := After(a, junk);
    assert junk + [0, 0] == junk + [0] + [0];
    FeedAppend(a, junk, [0]);
    FeedByte(mid, 0);
    FeedAppend(a, junk + [0], [0]);
    FeedByte(IDLE, 0);
  }

  /** A frame sent on a resynchronised line is reported as itself. */
  lemma FrameOnCleanLine(f: seq<byte>)
    requires ZeroFree(f) && |f| <= MAX_FRAME_SIZE
    ensures After(IDLE, f + [0]) == IDLE
    ensures Reported(IDLE, f + [0]) == [Frame(f)]
  {
    FeedAppend(IDLE, f, [0]);
    FeedFits(IDLE, f);
    FeedByte(After(IDLE, f), 0);
    assert [] + f == f;
  }
}
