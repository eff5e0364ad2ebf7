/** Byte streams read in chunks, and big-endian numbers. */
module Streams {
  import opened Prelude

  function Concat(chunks: seq<seq<byte>>): seq<byte> {
    if chunks == [] then [] else chunks[0] + Concat(chunks[1..])
  }

  lemma {:induction false} ConcatSplits(a: seq<seq<byte>>, b: seq<seq<byte>>)
    ensures Concat(a + b) == Concat(a) + Concat(b)
  {
    if a == [] {
      assert a + b == b;
    } else {
      assert (a + b)[1..] == a[1..] + b;
      ConcatSplits(a[1..], b);
    }
  }

  lemma ConcatNext(chunks: seq<seq<byte>>, n: nat)
    requires n < |chunks|
    ensures Concat(chunks[..n + 1]) == Concat(chunks[..n]) + chunks[n]
  {
    assert chunks[..n + 1] == chunks[..n] + [chunks[n]];
    ConcatSplits(chunks[..n], [chunks[n]]);
    assert Concat([chunks[n]]) == chunks[n];
  }

  /** A reader never returns an empty chunk before the end of the stream. */
  predicate NonEmpty(chunks: seq<seq<byte>>) {
    forall n :: 0 <= n < |chunks| ==> chunks[n] != []
  }

  /** A source of bytes: each read hands over the next chunk, and nothing once the stream has ended. */
  class Source {
    var chunks: seq<seq<byte>>

    constructor (chunks: seq<seq<byte>>)
      requires NonEmpty(chunks)
      ensures this.chunks == chunks
    {
      this.chunks := chunks;
    }

    method Read() returns (chunk: seq<byte>)
      requires NonEmpty(chunks)
      modifies this
      ensures NonEmpty(chunks)
      ensures chunk + Concat(chunks) == old(Concat(chunks))
      ensures if old(chunks) == [] then chunk == [] && chunks == []
              else chunk == old(chunks)[0] && chunk != [] && chunks == old(chunks)[1..]
    {
      if chunks == [] {
        chunk := [];
      } else {
        chunk := chunks[0];
        chunks := chunks[1..];
      }
    }
  }

  /** `to_be_bytes` of a number of `w` bytes. */
  function BigEndian(n: nat, w: nat): (s: seq<byte>)
    ensures |s| == w
  {
    if w == 0 then [] else BigEndian(n / 256, w - 1) + [n % 256]
  }

  /** `from_be_bytes`. */
  function Number(s: seq<byte>): nat {
    if s == [] then 0 else 256 * Number(s[..|s| - 1]) + s[|s| - 1]
  }

  function Pow256(w: nat): nat {
    if w == 0 then 1 else 256 * Pow256(w - 1)
  }

  lemma {:induction false} Pow256Positive(w: nat)
    ensures Pow256(w) > 0
  {
    if w > 0 {
      Pow256Positive(w - 1);
    }
  }

  /** The byte at `i`, counted from the end, is the one of weight 256^i. */
  lemma {:induction false} BigEndianAt(n: nat, w: nat, i: nat)
    requires i < w
    ensures Pow256(i) > 0 && BigEndian(n, w)[w - 1 - i] == n / Pow256(i) % 256
  {
    if i > 0 {
      BigEndianAt(n / 256, w - 1, i - 1);
      Pow256Positive(i - 1);
      DivideTwice(n, Pow256(i - 1));
    }
  }

  lemma DivideTwice(n: nat, d: nat)
    requires d > 0
    ensures 256 * d > 0 && n / 256 / d == n / (256 * d)
  {
    var q, r := n / 256 / d, n / 256 % d;
    assert n / 256 == q * d + r;
    assert n == 256 * (q * d + r) + n % 256 == q * (256 * d) + (256 * r + n % 256);
    assert 256 * r + n % 256 < 256 * d;
    QuotientIs(n, 256 * d, q);
  }

  lemma {:induction false} NumberInvertsBigEndian(n: nat, w: nat)
    requires n < Pow256(w)
    ensures Number(BigEndian(n, w)) == n
  {
    if w > 0 {
      NumberInvertsBigEndian(n / 256, w - 1);
      assert BigEndian(n, w)[..w - 1] == BigEndian(n / 256, w - 1);
    }
  }

  lemma {:induction false} BigEndianInvertsNumber(s: seq<byte>)
    ensures Number(s) < Pow256(|s|)
    ensures BigEndian(Number(s), |s|) == s
  {
    if s != [] {
      BigEndianInvertsNumber(s[..|s| - 1]);
    }
  }
}
