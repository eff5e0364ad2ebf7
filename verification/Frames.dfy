/** Length-prefixed frames: `crates/slopio/src/frame.rs`. */
module Frames {
  import opened Prelude
  import opened Streams

  const U32_MAX: nat := 0xFFFF_FFFF

  datatype ReadResult = Frame(payload: seq<byte>) | EndOfStream | TooLarge | UnexpectedEof

  /** What one `read_frame` finds in a stream, and the bytes it leaves. */
  function Decode(s: seq<byte>, max: nat): (ReadResult, seq<byte>) {
    if |s| >= 4 && Number(s[..4]) > max then (TooLarge, s)
    else if |s| >= 4 && |s| >= 4 + Number(s[..4]) then (Frame(s[4..4 + Number(s[..4])]), s[4 + Number(s[..4])..])
    else if s == [] then (EndOfStream, [])
    else (UnexpectedEof, s)
  }

  function Encode(payload: seq<byte>): seq<byte> {
    BigEndian(|payload|, 4) + payload
  }

  function EncodeAll(payloads: seq<seq<byte>>): seq<byte> {
    if payloads == [] then [] else Encode(payloads[0]) + EncodeAll(payloads[1..])
  }

  /** All results of reading a stream until it ends or fails. */
  function DecodeAll(s: seq<byte>, max: nat): (seq<seq<byte>>, ReadResult)
    decreases |s|
  {
    var (r, rest) := Decode(s, max);
    if r.Frame? then
      var (more, end) := DecodeAll(rest, max);
      ([r.payload] + more, end)
    else ([], r)
  }

  predicate Fits(payload: seq<byte>, max: nat) {
    |payload| <= max && |payload| <= U32_MAX
  }

  lemma FourBytes()
    ensures Pow256(4) == U32_MAX + 1
  {
    assert Pow256(1) == 256 && Pow256(2) == 65536 && Pow256(3) == 16777216;
  }

  lemma DecodeFirst(payload: seq<byte>, rest: seq<byte>, max: nat)
    requires Fits(payload, max)
    ensures Decode(Encode(payload) + rest, max) == (Frame(payload), rest)
  {
    var s := Encode(payload) + rest;
    FourBytes();
    NumberInvertsBigEndian(|payload|, 4);
    assert s[..4] == BigEndian(|payload|, 4);
    assert s[4..4 + |payload|] == payload && s[4 + |payload|..] == rest;
  }

  /** The length that the first four bytes give, the highest byte first. */
  function Length(s: seq<byte>): nat
    requires |s| >= 4
  {
    16777216 * (s[0] as int) + 65536 * (s[1] as int) + 256 * (s[2] as int) + s[3] as int
  }

  lemma Prefix(s: seq<byte>)
    requires |s| >= 4
    ensures Number(s[..4]) == Length(s)
  {
    assert s[..4][..3] == s[..3] && s[..3][..2] == s[..2] && s[..2][..1] == s[..1] && s[..1][..0] == [];
    assert Number(s[..1]) == s[0] as int;
    assert Number(s[..2]) == 256 * Number(s[..1]) + s[1];
    assert Number(s[..3]) == 256 * Number(s[..2]) + s[2];
  }

  /** A frame on the wire: four bytes of length, the highest first, and then the payload. */
  lemma WireFrame(payload: seq<byte>)
    requires |payload| <= U32_MAX
    ensures var n, s := |payload|, Encode(payload);
      && |s| == n + 4 && s[4..] == payload
      && s[0] == n / 16777216 && s[1] == n / 65536 % 256 && s[2] == n / 256 % 256 && s[3] == n % 256
  {
    FourBytes();
    assert Pow256(0) == 1 && Pow256(1) == 256 && Pow256(2) == 65536 && Pow256(3) == 16777216;
    BigEndianAt(|payload|, 4, 0);
    BigEndianAt(|payload|, 4, 1);
    BigEndianAt(|payload|, 4, 2);
    BigEndianAt(|payload|, 4, 3);
  }

  /** What a read finds, in terms of the bytes: a length over the limit is refused before its payload is there. */
  lemma DecodeMeans(s: seq<byte>, max: nat)
    ensures var (r, rest) := Decode(s, max);
      && (s == [] ==> r == EndOfStream && rest == [])
      && (0 < |s| < 4 ==> r == UnexpectedEof && rest == s)
      && (|s| >= 4 ==>
            var n := Length(s);
            && (n > max ==> r == TooLarge && rest == s)
            && (n <= max && |s| < 4 + n ==> r == UnexpectedEof && rest == s)
            && (n <= max && |s| >= 4 + n ==> r.Frame? && |r.payload| == n && s == s[..4] + r.payload + rest))
  {
    if |s| >= 4 {
      Prefix(s);
    }
  }

  /** Reading back a written stream gives the payloads, in order, and then a clean end. */
  lemma {:induction false} DecodeInvertsEncode(payloads: seq<seq<byte>>, max: nat)
    requires forall n :: 0 <= n < |payloads| ==> Fits(payloads[n], max)
    ensures DecodeAll(EncodeAll(payloads), max) == (payloads, EndOfStream)
  {
    if payloads != [] {
      DecodeInvertsEncode(payloads[1..], max);
      DecodeFirst(payloads[0], EncodeAll(payloads[1..]), max);
      assert payloads == [payloads[0]] + payloads[1..];
    }
  }

  /** A frame cut short is an unexpected end, wherever the cut falls. */
  lemma DecodeCut(payload: seq<byte>, cut: nat, max: nat)
    requires Fits(payload, max) && 0 < cut < |Encode(payload)|
    ensures Decode(Encode(payload)[..cut], max) == (UnexpectedEof, Encode(payload)[..cut])
  {
    var s := Encode(payload)[..cut];
    FourBytes();
    NumberInvertsBigEndian(|payload|, 4);
    if cut >= 4 {
      assert s[..4] == BigEndian(|payload|, 4);
    }
  }

  /**
   * A stream cut anywhere gives the frames that are complete; the end is clean when the cut
   * falls between frames and unexpected otherwise.
   */
  lemma {:induction false} TruncatedStream(payloads: seq<seq<byte>>, cut: nat, max: nat)
    requires forall n :: 0 <= n < |payloads| ==> Fits(payloads[n], max)
    requires cut <= |EncodeAll(payloads)|
    ensures var (got, end) := DecodeAll(EncodeAll(payloads)[..cut], max);
      && got <= payloads
      && |EncodeAll(got)| <= cut
      && (|got| < |payloads| ==> cut < |EncodeAll(got)| + |Encode(payloads[|got|])|)
      && end == if cut == |EncodeAll(got)| then EndOfStream else UnexpectedEof
  {
    var s := EncodeAll(payloads)[..cut];
    if payloads != [] {
      var first, rest := payloads[0], payloads[1..];
      if cut < |Encode(first)| {
        assert s == Encode(first)[..cut];
        if cut > 0 {
          DecodeCut(first, cut, max);
        }
      } else {
        var left := cut - |Encode(first)|;
        assert s == Encode(first) + EncodeAll(rest)[..left];
        DecodeFirst(first, EncodeAll(rest)[..left], max);
        TruncatedStream(rest, left, max);
        var (more, end) := DecodeAll(EncodeAll(rest)[..left], max);
        var got := [first] + more;
        assert got[1..] == more && payloads == [first] + rest;
      }
    }
  }

  class FrameReader {
    const inner: Source
    const max: nat
    var buf: seq<byte>

    constructor (inner: Source, max: nat)
      ensures this.inner == inner && this.buf == []
      ensures this.max == if max < 1 then 1 else max
    {
      this.inner, this.max, this.buf := inner, if max < 1 then 1 else max, [];
    }

    /** Everything not yet returned: what is buffered and what the source still holds. */
    ghost function Pending(): seq<byte>
      reads this, inner
    {
      buf + Concat(inner.chunks)
    }

    /** The result depends on the pending bytes alone, not on how they are cut into reads. */
    method ReadFrame() returns (r: ReadResult)
      requires NonEmpty(inner.chunks)
      modifies this, inner
      ensures NonEmpty(inner.chunks)
      ensures (r, Pending()) == Decode(old(Pending()), max)
    {
      while true
        invariant NonEmpty(inner.chunks) && Pending() == old(Pending())
        decreases |inner.chunks|
      {
        if |buf| >= 4 {
          var len := Number(buf[..4]);
          assert Pending()[..4] == buf[..4];
          if len > max {
            return TooLarge;
          }
          if |buf| >= 4 + len {
            ghost var before := Pending();
            assert before[4..4 + len] == buf[4..4 + len];
            assert before[4 + len..] == buf[4 + len..] + Concat(inner.chunks);
            r := Frame(buf[4..4 + len]);
            buf := buf[4 + len..];
            return;
          }
        }
        var chunk := inner.Read();
        if chunk == [] {
          assert Concat(inner.chunks) == [];
          return if buf == [] then EndOfStream else UnexpectedEof;
        }
        assert (buf + chunk) + Concat(inner.chunks) == buf + (chunk + Concat(inner.chunks));
        buf := buf + chunk;
      }
    }

    /** Reads until the stream ends or fails. */
    method ReadAll() returns (frames: seq<seq<byte>>, end: ReadResult)
      requires NonEmpty(inner.chunks)
      modifies this, inner
      ensures (frames, end) == DecodeAll(old(Pending()), max)
    {
      frames := [];
      assert [] + DecodeAll(Pending(), max).0 == DecodeAll(Pending(), max).0;
      while true
        invariant NonEmpty(inner.chunks)
        invariant var (more, end) := DecodeAll(Pending(), max); DecodeAll(old(Pending()), max) == (frames + more, end)
        decreases |Pending()|
      {
        ghost var (more, last) := DecodeAll(Pending(), max);
        end := ReadFrame();
        if !end.Frame? {
          assert frames + [] == frames;
          return;
        }
        assert frames + more == (frames + [end.payload]) + more[1..];
        frames := frames + [end.payload];
      }
    }
  }

  class FrameWriter {
    var written: seq<byte>

    constructor ()
      ensures written == []
    {
      written := [];
    }

    /** Writes one frame whose payload is given in parts; a payload over 32 bits of length is refused. */
    method WriteFrameParts(parts: seq<seq<byte>>) returns (ok: bool)
      modifies this
      ensures ok <==> |Concat(parts)| <= U32_MAX
      ensures written == if ok then old(written) + Encode(Concat(parts)) else old(written)
    {
      var len := 0;
      for n := 0 to |parts|
        invariant len + |Concat(parts[n..])| == |Concat(parts)|
      {
        assert parts[n..][1..] == parts[n + 1..];
        len := len + |parts[n]|;
      }
      if len > U32_MAX {
        return false;
      }
      written := written + BigEndian(len, 4);
      for n := 0 to |parts|
        invariant written + Concat(parts[n..]) == old(written) + Encode(Concat(parts))
      {
        assert parts[n..][1..] == parts[n + 1..];
        if parts[n] != [] {
          written := written + parts[n];
        }
      }
      ok := true;
    }
  }
}
