/** Small shared vocabulary: optional values, bytes, saturating counters, ends of sequences. */
module Prelude {
  datatype Option<+T> = None | Some(value: T)

  type byte = x: int | 0 <= x < 256

  const U64_MAX: nat := 0xFFFF_FFFF_FFFF_FFFF

  /** `u64::saturating_add`. */
  function SatAdd(a: nat, b: nat): nat {
    if a + b > U64_MAX then U64_MAX else a + b
  }

  lemma SatAddIs(a: nat, b: nat)
    ensures a + b <= 0xFFFF_FFFF_FFFF_FFFF ==> SatAdd(a, b) - b == a
    ensures a + b > 0xFFFF_FFFF_FFFF_FFFF ==> SatAdd(a, b) == 0xFFFF_FFFF_FFFF_FFFF
  {
  }

  function Max(a: int, b: int): (m: int)
    ensures m >= a && m >= b && m in {a, b}
  {
    if a < b then b else a
  }

  function Get<K, V>(m: map<K, V>, k: K): Option<V> {
    if k in m then Some(m[k]) else None
  }

  function Min(a: int, b: int): (m: int)
    ensures m <= a && m <= b && m in {a, b}
  {
    if a < b then a else b
  }

  /** `tail` is the end of `s`. */
  ghost predicate IsSuffix<T>(tail: seq<T>, s: seq<T>) {
    |tail| <= |s| && s[|s| - |tail|..] == tail
  }

  /** The last `n` elements, or all of them when there are fewer. */
  function Newest<T>(s: seq<T>, n: nat): seq<T> {
    if |s| <= n then s else s[|s| - n..]
  }

  lemma NewestIs<T>(s: seq<T>, n: nat)
    ensures IsSuffix(Newest(s, n), s) && |Newest(s, n)| <= n && (|s| >= n ==> |Newest(s, n)| == n)
    ensures |s| <= n ==> Newest(s, n) == s
  {
  }

  lemma QuotientIs(x: nat, d: nat, q: nat)
    requires d > 0 && q * d <= x < q * d + d
    ensures x / d == q
  {
    var r := x / d;
    assert r * d <= x < r * d + d;
    SmallerFactor(r, q + 1, d);
    SmallerFactor(q, r + 1, d);
  }

  lemma SmallerFactor(a: nat, b: nat, d: nat)
    requires a * d < b * d
    ensures a < b
  {
  }

  function Pow2(k: nat): (p: nat)
    ensures p >= 1
  {
    if k == 0 then 1 else 2 * Pow2(k - 1)
  }
}
