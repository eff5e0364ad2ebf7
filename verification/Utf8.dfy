/** UTF-8, as far as cutting a string at a byte position needs it. */
module Utf8 {
  import opened Prelude

  function EncodeChar(c: char): (s: seq<byte>)
    ensures 1 <= |s| <= 4
  {
    var n := c as int;
    if n < 0x80 then [n]
    else if n < 0x800 then [0xC0 + n / 64, 0x80 + n % 64]
    else if n < 0x1_0000 then [0xE0 + n / 4096, 0x80 + n / 64 % 64, 0x80 + n % 64]
    else [0xF0 + n / 262144, 0x80 + n / 4096 % 64, 0x80 + n / 64 % 64, 0x80 + n % 64]
  }

  function Encode(s: string): seq<byte> {
    if s == [] then [] else Encode(s[..|s| - 1]) + EncodeChar(s[|s| - 1])
  }

  /** A byte that continues a character: slicing a `str` in front of one panics. */
  predicate Continues(b: byte) {
    0x80 <= b < 0xC0
  }

  /** The six bits of a byte that continues a character. */
  function Six(b: byte): int {
    b - 0x80
  }

  /**
   * The bytes of a character, as in section 3 of RFC 3629: the first byte says how many there are, their
   * bits joined are the character's number, and there are as few bytes as that takes.
   */
  lemma CharBits(c: char)
    ensures var n, s := c as int, EncodeChar(c);
      && (|s| == 1 ==> s[0] == n < 0x80)
      && (|s| == 2 ==> 0xC0 <= s[0] < 0xE0 && (s[0] - 0xC0) * 64 + Six(s[1]) == n >= 0x80)
      && (|s| == 3 ==> 0xE0 <= s[0] < 0xF0 && (s[0] - 0xE0) * 4096 + Six(s[1]) * 64 + Six(s[2]) == n >= 0x800)
      && (|s| == 4 ==>
            && 0xF0 <= s[0] < 0xF8 && n >= 0x1_0000
            && (s[0] - 0xF0) * 262144 + Six(s[1]) * 4096 + Six(s[2]) * 64 + Six(s[3]) == n)
  {
    var n := c as int;
    SplitSix(n);
    SplitSix(n / 64);
    SplitSix(n / 4096);
  }

  lemma SplitSix(n: nat)
    ensures n == 64 * (n / 64) + n % 64 && n / 64 / 64 == n / 4096 && n / 4096 / 64 == n / 262144
  {
  }

  lemma CharShape(c: char)
    ensures !Continues(EncodeChar(c)[0])
    ensures forall i :: 1 <= i < |EncodeChar(c)| ==> Continues(EncodeChar(c)[i])
  {
  }

  lemma {:induction false} PrefixGrows(s: string, k: nat)
    requires k <= |s|
    ensures |Encode(s[..k])| <= |Encode(s)|
    ensures k < |s| ==> |Encode(s[..k])| <= |Encode(s[..|s| - 1])| < |Encode(s)|
    ensures Encode(s[..k]) == Encode(s)[..|Encode(s[..k])|]
  {
    if k < |s| {
      var front := s[..|s| - 1];
      PrefixGrows(front, k);
      assert front[..k] == s[..k];
      assert Encode(s)[..|Encode(front)|] == Encode(front);
    } else {
      assert s[..k] == s;
    }
  }

  /** The first `k` characters take exactly `p` bytes, for some `k`. */
  ghost predicate Boundary(s: string, p: nat) {
    exists k :: 0 <= k <= |s| && |Encode(s[..k])| == p
  }

  lemma BoundaryInFront(s: string, p: nat)
    requires s != [] && p < |Encode(s[..|s| - 1])|
    ensures Boundary(s, p) <==> Boundary(s[..|s| - 1], p)
  {
    var n := |s| - 1;
    forall k | 0 <= k <= n ensures s[..n][..k] == s[..k] {}
    assert s[..|s|] == s;
    PrefixGrows(s, n);
  }

  lemma BoundaryInLast(s: string, p: nat)
    requires s != [] && |Encode(s[..|s| - 1])| <= p < |Encode(s)|
    ensures Boundary(s, p) <==> p == |Encode(s[..|s| - 1])|
  {
    var n := |s| - 1;
    assert s[..|s|] == s;
    forall k | 0 <= k < n ensures |Encode(s[..k])| != p {
      PrefixGrows(s[..n], k);
      assert s[..n][..k] == s[..k];
    }
  }

  /** A byte position is between two characters exactly when the byte there does not continue one. */
  lemma {:induction false} BoundaryIffLeads(s: string, p: nat)
    requires p < |Encode(s)|
    ensures Boundary(s, p) <==> !Continues(Encode(s)[p])
  {
    var front := s[..|s| - 1];
    if p < |Encode(front)| {
      BoundaryInFront(s, p);
      BoundaryIffLeads(front, p);
    } else {
      BoundaryInLast(s, p);
      CharShape(s[|s| - 1]);
    }
  }
}
