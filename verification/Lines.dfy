/** Newline-terminated lines: `crates/slopio/src/line.rs`. */
module Lines {
  import opened Prelude
  import opened Streams

  const LF: byte := 10
  const CR: byte := 13

  datatype ReadResult = Line(bytes: seq<byte>) | EndOfStream | TooLong | UnexpectedEof

  /** Position of the first LF, or the length when there is none. */
  function FirstLf(s: seq<byte>): (n: nat)
    ensures n <= |s| && (n < |s| ==> s[n] == LF)
    ensures forall i :: 0 <= i < n ==> s[i] != LF
  {
    if s == [] || s[0] == LF then 0 else FirstLf(s[1..]) + 1
  }

  /** `trim_crlf`: one LF and then one CR are dropped from the end. */
  function TrimCrlf(s: seq<byte>): seq<byte> {
    var t := if s != [] && s[|s| - 1] == LF then s[..|s| - 1] else s;
    if t != [] && t[|t| - 1] == CR then t[..|t| - 1] else t
  }

  /** What a read finds when no unfinished line outgrows the limit. */
  function Decode(s: seq<byte>): (ReadResult, seq<byte>) {
    var n := FirstLf(s);
    if n < |s| then (Line(TrimCrlf(s[..n + 1])), s[n + 1..])
    else if s == [] then (EndOfStream, [])
    else (UnexpectedEof, s)
  }

  function DecodeAll(s: seq<byte>): (seq<seq<byte>>, ReadResult)
    decreases |s|
  {
    var (r, rest) := Decode(s);
    if r.Line? then
      var (more, end) := DecodeAll(rest);
      ([r.bytes] + more, end)
    else ([], r)
  }

  /** A line as written: its bytes, and whether it ends in CRLF or in LF alone. */
  datatype Written = Written(bytes: seq<byte>, crlf: bool)

  predicate LineOk(w: Written, max: nat) {
    && LF !in w.bytes
    && (!w.crlf ==> w.bytes == [] || w.bytes[|w.bytes| - 1] != CR)
    && |w.bytes| + (if w.crlf then 1 else 0) <= max
  }

  function BeforeLf(w: Written): seq<byte> {
    if w.crlf then w.bytes + [CR] else w.bytes
  }

  function EncodeAll(ws: seq<Written>): seq<byte> {
    if ws == [] then [] else BeforeLf(ws[0]) + [LF] + EncodeAll(ws[1..])
  }

  function Bytes(ws: seq<Written>): seq<seq<byte>> {
    seq(|ws|, n requires 0 <= n < |ws| => ws[n].bytes)
  }

  lemma FirstLfIs(s: seq<byte>, n: nat)
    requires n < |s| && s[n] == LF && forall i :: 0 <= i < n ==> s[i] != LF
    ensures FirstLf(s) == n
  {
  }

  lemma TrimWritten(w: Written, max: nat)
    requires LineOk(w, max)
    ensures TrimCrlf(BeforeLf(w) + [LF]) == w.bytes
  {
    var body := BeforeLf(w);
    assert (body + [LF])[..|body|] == body;
    assert w.crlf ==> body[..|w.bytes|] == w.bytes;
  }

  lemma NoLfBefore(w: Written, max: nat)
    requires LineOk(w, max)
    ensures forall i :: 0 <= i < |BeforeLf(w)| ==> BeforeLf(w)[i] != LF
  {
    assert forall i :: 0 <= i < |w.bytes| ==> w.bytes[i] in w.bytes;
  }

  lemma FirstLfAfter(body: seq<byte>, rest: seq<byte>)
    requires forall i :: 0 <= i < |body| ==> body[i] != LF
    ensures FirstLf(body + [LF] + rest) == |body|
    ensures (body + [LF] + rest)[..|body| + 1] == body + [LF] && (body + [LF] + rest)[|body| + 1..] == rest
  {
    var s := body + [LF] + rest;
    assert forall i :: 0 <= i < |body| ==> s[i] == body[i];
    FirstLfIs(s, |body|);
  }

  lemma DecodeFirst(w: Written, rest: seq<byte>, max: nat)
    requires LineOk(w, max)
    ensures Decode(BeforeLf(w) + [LF] + rest) == (Line(w.bytes), rest)
    ensures FirstLf(BeforeLf(w) + [LF] + rest) == |BeforeLf(w)|
  {
    NoLfBefore(w, max);
    FirstLfAfter(BeforeLf(w), rest);
    TrimWritten(w, max);
  }

  /** Any finished line: the bytes before the first LF, without one CR at their end. */
  lemma FinishedLine(body: seq<byte>, rest: seq<byte>)
    requires 10 !in body
    ensures Decode(body + [10] + rest)
         == (Line(if body != [] && body[|body| - 1] == 13 then body[..|body| - 1] else body), rest)
  {
    assert forall i :: 0 <= i < |body| ==> body[i] in body;
    FirstLfAfter(body, rest);
    assert (body + [LF])[..|body|] == body;
  }

  /** Bytes without an LF are no line: the end of the stream when there are none, and else an unexpected end. */
  lemma UnfinishedLine(s: seq<byte>)
    requires LF !in s
    ensures Decode(s) == (if s == [] then EndOfStream else UnexpectedEof, s)
  {
    NoLf(s);
  }

  lemma NoLf(a: seq<byte>)
    requires LF !in a
    ensures FirstLf(a) == |a|
  {
    assert forall i :: 0 <= i < |a| ==> a[i] in a;
  }

  /** No line of the stream, finished or not, is longer than the limit. */
  ghost predicate AllShort(s: seq<byte>, max: nat)
    decreases |s|
  {
    FirstLf(s) <= max && (FirstLf(s) < |s| ==> AllShort(s[FirstLf(s) + 1..], max))
  }

  /** Reading back written lines gives their bytes, in order, then a clean end, and no line is too long. */
  lemma {:induction false} DecodeInvertsEncode(ws: seq<Written>, max: nat)
    requires forall n :: 0 <= n < |ws| ==> LineOk(ws[n], max)
    ensures DecodeAll(EncodeAll(ws)) == (Bytes(ws), EndOfStream)
    ensures AllShort(EncodeAll(ws), max)
  {
    if ws == [] {
      assert Bytes(ws) == [];
    } else {
      var w, more := ws[0], ws[1..];
      DecodeInvertsEncode(more, max);
      EncodedNext(w, EncodeAll(more), max);
      BytesNext(ws);
      assert EncodeAll(ws) == BeforeLf(w) + [LF] + EncodeAll(more);
    }
  }

  lemma BytesNext(ws: seq<Written>)
    requires ws != []
    ensures Bytes(ws) == [ws[0].bytes] + Bytes(ws[1..])
  {
  }

  lemma EncodedNext(w: Written, rest: seq<byte>, max: nat)
    requires LineOk(w, max)
    ensures var s := BeforeLf(w) + [LF] + rest;
      && DecodeAll(s).0 == [w.bytes] + DecodeAll(rest).0 && DecodeAll(s).1 == DecodeAll(rest).1
      && (AllShort(rest, max) ==> AllShort(s, max))
  {
    var s := BeforeLf(w) + [LF] + rest;
    DecodeFirst(w, rest, max);
    DecodeAllNext(s);
    assert s[|BeforeLf(w)| + 1..] == rest;
  }

  lemma LastRead(s: seq<byte>)
    requires !Decode(s).0.Line?
    ensures DecodeAll(s).0 == [] && DecodeAll(s).1 == Decode(s).0
  {
  }

  lemma DecodeAllNext(s: seq<byte>)
    requires Decode(s).0.Line?
    ensures DecodeAll(s) == ([Decode(s).0.bytes] + DecodeAll(Decode(s).1).0, DecodeAll(Decode(s).1).1)
  {
  }

  /** Reads chunk by chunk: the result may depend on the chunks, through the length check. */
  function Chunked(buf: seq<byte>, chunks: seq<seq<byte>>, max: nat): ReadResult
    decreases |chunks|
  {
    var n := FirstLf(buf);
    if n < |buf| then Line(TrimCrlf(buf[..n + 1]))
    else if |buf| > max then TooLong
    else if chunks == [] then if buf == [] then EndOfStream else UnexpectedEof
    else Chunked(buf + chunks[0], chunks[1..], max)
  }

  lemma FirstLfOfPrefix(a: seq<byte>, b: seq<byte>)
    ensures FirstLf(a) < |a| ==> FirstLf(a + b) == FirstLf(a)
    ensures FirstLf(a) == |a| ==> FirstLf(a + b) >= |a|
  {
    if FirstLf(a) < |a| {
      FirstLfIs(a + b, FirstLf(a));
    }
  }

  lemma CutInFirst<T>(a: seq<T>, b: seq<T>, n: nat)
    requires n <= |a|
    ensures (a + b)[..n] == a[..n] && (a + b)[n..] == a[n..] + b
  {
  }

  /** A line that is complete in the buffer is the first line of the stream. */
  lemma BufferedLine(buf: seq<byte>, rest: seq<byte>, n: nat)
    requires n < |buf| && buf[n] == LF && forall i :: 0 <= i < n ==> buf[i] != LF
    ensures Decode(buf + rest).0 == Line(TrimCrlf(buf[..n + 1]))
    ensures Decode(buf + rest).1 == buf[n + 1..] + rest
  {
    FirstLfIs(buf + rest, n);
    CutInFirst(buf, rest, n + 1);
    DecodeAt(buf + rest, n);
  }

  lemma DecodeAt(s: seq<byte>, n: nat)
    requires n == FirstLf(s) < |s|
    ensures Decode(s) == (Line(TrimCrlf(s[..n + 1])), s[n + 1..])
  {
  }

  /** A first line within the limit reads the same under every chunking. */
  lemma {:induction false} ShortLineAnyChunks(buf: seq<byte>, chunks: seq<seq<byte>>, max: nat)
    requires FirstLf(buf + Concat(chunks)) <= max
    ensures Chunked(buf, chunks, max) == Decode(buf + Concat(chunks)).0
    decreases |chunks|
  {
    var s := buf + Concat(chunks);
    FirstLfOfPrefix(buf, Concat(chunks));
    if FirstLf(buf) < |buf| {
      BufferedLine(buf, Concat(chunks), FirstLf(buf));
    } else if chunks == [] {
      assert s == buf;
    } else {
      assert (buf + chunks[0]) + Concat(chunks[1..]) == s;
      ShortLineAnyChunks(buf + chunks[0], chunks[1..], max);
    }
  }

  /** An unfinished last line within the limit ends unexpectedly under every chunking, and nothing ends cleanly. */
  lemma UnfinishedAnyChunks(chunks: seq<seq<byte>>, max: nat)
    requires LF !in Concat(chunks) && |Concat(chunks)| <= max
    ensures Chunked([], chunks, max) == if Concat(chunks) == [] then EndOfStream else UnexpectedEof
  {
    NoLf(Concat(chunks));
    assert [] + Concat(chunks) == Concat(chunks);
    ShortLineAnyChunks([], chunks, max);
    UnfinishedLine(Concat(chunks));
  }

  /** An unfinished last line over the limit is refused under every chunking. */
  lemma {:induction false} LongTailAnyChunks(buf: seq<byte>, chunks: seq<seq<byte>>, max: nat)
    requires FirstLf(buf + Concat(chunks)) == |buf + Concat(chunks)| > max
    ensures Chunked(buf, chunks, max) == TooLong
    decreases |chunks|
  {
    var s := buf + Concat(chunks);
    FirstLfOfPrefix(buf, Concat(chunks));
    if chunks == [] {
      assert s == buf;
    } else if |buf| <= max {
      assert (buf + chunks[0]) + Concat(chunks[1..]) == s;
      LongTailAnyChunks(buf + chunks[0], chunks[1..], max);
    }
  }

  /** The stream cut into single bytes. */
  function Singles(s: seq<byte>): seq<seq<byte>> {
    if s == [] then [] else [[s[0]]] + Singles(s[1..])
  }

  lemma {:induction false} SinglesConcat(s: seq<byte>)
    ensures Concat(Singles(s)) == s && NonEmpty(Singles(s))
  {
    if s != [] {
      SinglesConcat(s[1..]);
      assert Singles(s)[1..] == Singles(s[1..]);
    }
  }

  lemma {:induction false} LongLineByteByByte(buf: seq<byte>, s: seq<byte>, max: nat)
    requires max < FirstLf(buf + s) < |buf + s| && FirstLf(buf) == |buf| <= max + 1
    ensures Chunked(buf, Singles(s), max) == TooLong
    decreases |s|
  {
    if |buf| <= max {
      var next := buf + [s[0]];
      assert next + s[1..] == buf + s;
      FirstLfOfPrefix(next, s[1..]);
      assert Singles(s)[0] == [s[0]] && Singles(s)[1..] == Singles(s[1..]);
      LongLineByteByByte(next, s[1..], max);
    }
  }

  ghost predicate EveryChunkingGives(s: seq<byte>, max: nat, r: ReadResult) {
    forall chunks: seq<seq<byte>> :: NonEmpty(chunks) && Concat(chunks) == s ==> Chunked([], chunks, max) == r
  }

  /**
   * Reading a stream gives the same result under every chunking exactly when its first line
   * is within the limit or has no end: a finished line over the limit is accepted when it
   * arrives in one piece and refused byte by byte.
   */
  lemma ChunkingMattersIff(s: seq<byte>, max: nat)
    ensures (exists r :: EveryChunkingGives(s, max, r))
       <==> (FirstLf(s) <= max || FirstLf(s) == |s|)
  {
    if FirstLf(s) <= max || FirstLf(s) == |s| {
      ShortOrOpenIsStable(s, max);
    } else {
      LongLineDiffers(s, max);
      forall r
        ensures !EveryChunkingGives(s, max, r)
      {
        assert NonEmpty(Singles(s)) && NonEmpty([s]);
      }
    }
  }

  lemma ShortOrOpenIsStable(s: seq<byte>, max: nat)
    requires FirstLf(s) <= max || FirstLf(s) == |s|
    ensures EveryChunkingGives(s, max, if FirstLf(s) <= max then Decode(s).0 else TooLong)
  {
    forall chunks | NonEmpty(chunks) && Concat(chunks) == s
      ensures Chunked([], chunks, max) == if FirstLf(s) <= max then Decode(s).0 else TooLong
    {
      assert [] + Concat(chunks) == s;
      if FirstLf(s) <= max {
        ShortLineAnyChunks([], chunks, max);
      } else {
        LongTailAnyChunks([], chunks, max);
      }
    }
  }

  lemma LongLineDiffers(s: seq<byte>, max: nat)
    requires max < FirstLf(s) < |s|
    ensures NonEmpty(Singles(s)) && Concat(Singles(s)) == s && Chunked([], Singles(s), max) == TooLong
    ensures NonEmpty([s]) && Concat([s]) == s && Chunked([], [s], max) != TooLong
  {
    SinglesConcat(s);
    assert [] + s == s;
    LongLineByteByByte([], s, max);
    LongLineInOne(s, max);
  }

  lemma LongLineInOne(s: seq<byte>, max: nat)
    requires FirstLf(s) < |s|
    ensures NonEmpty([s]) && Concat([s]) == s && Chunked([], [s], max) != TooLong
  {
    assert [s][1..] == [] && s + Concat([]) == s && [] + s == s;
    assert Chunked([], [s], max) == Chunked(s, [], max);
  }

  // Reads are never larger than the space in the buffer.

  predicate AtMost(chunks: seq<seq<byte>>, cap: nat) {
    forall n :: 0 <= n < |chunks| ==> |chunks[n]| <= cap
  }

  ghost predicate EveryReadOfAtMost(cap: nat, s: seq<byte>, max: nat, r: ReadResult) {
    forall chunks: seq<seq<byte>> ::
      NonEmpty(chunks) && AtMost(chunks, cap) && Concat(chunks) == s ==> Chunked([], chunks, max) == r
  }

  /** A line over the limit by a whole read or more is refused, however it is read. */
  lemma {:induction false} FarOverIsRefused(buf: seq<byte>, chunks: seq<seq<byte>>, max: nat, cap: nat)
    requires cap > 0 && AtMost(chunks, cap) && FirstLf(buf) == |buf| <= max + cap
    requires FirstLf(buf + Concat(chunks)) >= max + cap
    ensures Chunked(buf, chunks, max) == TooLong
    decreases |chunks|
  {
    if |buf| <= max {
      assert chunks == [] ==> buf + Concat(chunks) == buf;
      if chunks != [] {
        var next := buf + chunks[0];
        assert next + Concat(chunks[1..]) == buf + Concat(chunks);
        FirstLfOfPrefix(next, Concat(chunks[1..]));
        FarOverIsRefused(next, chunks[1..], max, cap);
      }
    }
  }

  /** Bytes read one at a time, none of them LF, only fill the buffer. */
  lemma {:induction false} SinglesFill(buf: seq<byte>, a: seq<byte>, rest: seq<seq<byte>>, max: nat)
    requires LF !in buf + a && |buf + a| <= max
    ensures Chunked(buf, Singles(a) + rest, max) == Chunked(buf + a, rest, max)
    decreases |a|
  {
    if a == [] {
      assert buf + a == buf && Singles(a) + rest == rest;
    } else {
      var chunks := Singles(a) + rest;
      assert chunks[0] == [a[0]] && chunks[1..] == Singles(a[1..]) + rest;
      assert (buf + [a[0]]) + a[1..] == buf + a;
      assert forall i :: 0 <= i < |buf| ==> buf[i] == (buf + a)[i];
      NoLf(buf);
      SinglesFill(buf + [a[0]], a[1..], rest, max);
    }
  }

  lemma {:induction false} SinglesAreSmall(s: seq<byte>, cap: nat)
    requires cap > 0
    ensures AtMost(Singles(s), cap)
  {
    if s != [] {
      SinglesAreSmall(s[1..], cap);
    }
  }

  function PieceStart(f: nat, cap: nat): (j: nat)
    requires cap > 0
    ensures j <= f && f + 1 - j <= cap
  {
    if f + 1 <= cap then 0 else f + 1 - cap
  }

  /** A reading of the stream that brings the bytes up to `f` in one read of at most `cap` bytes. */
  function LastPieceWhole(s: seq<byte>, f: nat, cap: nat): seq<seq<byte>>
    requires cap > 0 && f < |s|
  {
    var j := PieceStart(f, cap);
    Singles(s[..j]) + ([s[j..f + 1]] + Singles(s[f + 1..]))
  }

  lemma AroundOnePiece(a: seq<byte>, piece: seq<byte>, b: seq<byte>, cap: nat)
    requires 0 < |piece| <= cap
    ensures var chunks := Singles(a) + ([piece] + Singles(b));
      NonEmpty(chunks) && AtMost(chunks, cap) && Concat(chunks) == a + (piece + b)
  {
    SinglesConcat(a);
    SinglesConcat(b);
    SinglesAreSmall(a, cap);
    SinglesAreSmall(b, cap);
    ConcatSplits(Singles(a), [piece] + Singles(b));
    assert ([piece] + Singles(b))[1..] == Singles(b);
  }

  lemma LastPieceReads(s: seq<byte>, f: nat, cap: nat)
    requires cap > 0 && f < |s|
    ensures var chunks := LastPieceWhole(s, f, cap);
      NonEmpty(chunks) && AtMost(chunks, cap) && Concat(chunks) == s
  {
    var j := PieceStart(f, cap);
    AroundOnePiece(s[..j], s[j..f + 1], s[f + 1..], cap);
    assert s == s[..j] + (s[j..f + 1] + s[f + 1..]);
  }

  lemma PieceIsTaken(front: seq<byte>, piece: seq<byte>, tail: seq<seq<byte>>, max: nat)
    requires LF !in front && |front| <= max && FirstLf(front + piece) < |front + piece|
    ensures Chunked(front, [piece] + tail, max) != TooLong
  {
    NoLf(front);
    assert ([piece] + tail)[0] == piece && ([piece] + tail)[1..] == tail;
  }

  lemma LastPieceIsTaken(s: seq<byte>, max: nat, cap: nat)
    requires cap > 0 && FirstLf(s) < |s| && FirstLf(s) < max + cap
    ensures Chunked([], LastPieceWhole(s, FirstLf(s), cap), max) != TooLong
  {
    var f := FirstLf(s);
    var j := PieceStart(f, cap);
    var front, piece, tail := s[..j], s[j..f + 1], Singles(s[f + 1..]);
    assert [] + front == front && LF !in front;
    SinglesFill([], front, [piece] + tail, max);
    assert front + piece == s[..f + 1];
    FirstLfIs(s[..f + 1], f);
    PieceIsTaken(front, piece, tail, max);
  }

  /**
   * With reads of at most `cap` bytes, the result depends on how the stream is read exactly when its
   * first line ends, over the limit but by less than one read.
   */
  lemma ReadingMattersIff(s: seq<byte>, max: nat, cap: nat)
    requires cap > 0
    ensures (exists r :: EveryReadOfAtMost(cap, s, max, r))
       <==> (FirstLf(s) <= max || FirstLf(s) == |s| || FirstLf(s) >= max + cap)
  {
    if FirstLf(s) <= max || FirstLf(s) == |s| {
      ShortOrOpenIsStable(s, max);
      assert EveryReadOfAtMost(cap, s, max, if FirstLf(s) <= max then Decode(s).0 else TooLong);
    } else if FirstLf(s) >= max + cap {
      forall chunks | NonEmpty(chunks) && AtMost(chunks, cap) && Concat(chunks) == s
        ensures Chunked([], chunks, max) == TooLong
      {
        assert [] + Concat(chunks) == s;
        FarOverIsRefused([], chunks, max, cap);
      }
      assert EveryReadOfAtMost(cap, s, max, TooLong);
    } else {
      LongLineDiffers(s, max);
      SinglesAreSmall(s, cap);
      LastPieceReads(s, FirstLf(s), cap);
      LastPieceIsTaken(s, max, cap);
      forall r
        ensures !EveryReadOfAtMost(cap, s, max, r)
      {
      }
    }
  }

  class LineReader {
    const inner: Source
    const max: nat
    var buf: seq<byte>

    constructor (inner: Source, max: nat)
      ensures this.inner == inner && this.buf == []
      ensures this.max == if max < 1 then 1 else max
    {
      this.inner, this.max, this.buf := inner, if max < 1 then 1 else max, [];
    }

    ghost function Pending(): seq<byte>
      reads this, inner
    {
      buf + Concat(inner.chunks)
    }

    /** One line; a line that is returned is the first one pending, and exactly it is consumed. */
    method ReadLine() returns (r: ReadResult)
      requires NonEmpty(inner.chunks)
      modifies this, inner
      ensures NonEmpty(inner.chunks)
      ensures r == Chunked(old(buf), old(inner.chunks), max)
      ensures if r.Line? then (r, Pending()) == Decode(old(Pending())) else Pending() == old(Pending())
    {
      while true
        invariant NonEmpty(inner.chunks) && Pending() == old(Pending())
        invariant Chunked(buf, inner.chunks, max) == Chunked(old(buf), old(inner.chunks), max)
        decreases |inner.chunks|
      {
        var n := FirstLf(buf);
        if n < |buf| {
          BufferedLine(buf, Concat(inner.chunks), n);
          r := Line(TrimCrlf(buf[..n + 1]));
          buf := buf[n + 1..];
          return;
        }
        if |buf| > max {
          return TooLong;
        }
        var chunk := inner.Read();
        if chunk == [] {
          return if buf == [] then EndOfStream else UnexpectedEof;
        }
        assert (buf + chunk) + Concat(inner.chunks) == buf + (chunk + Concat(inner.chunks));
        buf := buf + chunk;
      }
    }

    /** One line, when the first one pending is within the limit: chunks make no difference. */
    method ReadShortLine() returns (r: ReadResult)
      requires NonEmpty(inner.chunks) && FirstLf(Pending()) <= max
      modifies this, inner
      ensures NonEmpty(inner.chunks)
      ensures r == Decode(old(Pending())).0
      ensures r.Line? ==> Pending() == Decode(old(Pending())).1
    {
      ShortLineAnyChunks(buf, inner.chunks, max);
      r := ReadLine();
    }

    /** Reads lines until the stream ends or fails. */
    method ReadAll() returns (lines: seq<seq<byte>>, end: ReadResult)
      requires NonEmpty(inner.chunks)
      requires AllShort(Pending(), max)
      modifies this, inner
      ensures (lines, end) == DecodeAll(old(Pending()))
    {
      lines := [];
      ghost var all := DecodeAll(Pending());
      while true
        invariant NonEmpty(inner.chunks) && AllShort(Pending(), max)
        invariant all.0 == lines + DecodeAll(Pending()).0 && all.1 == DecodeAll(Pending()).1
        decreases |Pending()|
      {
        ghost var before := Pending();
        end := ReadShortLine();
        if !end.Line? {
          LastRead(before);
          assert lines + [] == lines;
          return;
        }
        DecodeAllNext(before);
        lines := lines + [end.bytes];
      }
    }
  }
}
