/**
 * CIDR prefixes (`crates/sbc_core/src/lib.rs`).
 *
 * An address is a number below 2^32 or 2^128. The source ANDs it, as a machine word, with a mask;
 * module `AddressWords` shows that this is `Cleared` on the number, and `ClearedIsMultiple` characterises
 * `Cleared` as the largest multiple of 2^k that is not above `x`.
 */
module IpPrefixes {
  import opened Prelude

  datatype Family = V4 | V6

  function Width(f: Family): nat {
    if f.V4? then 32 else 128
  }

  datatype IpAddr = IpAddr(family: Family, bits: nat) {
    predicate Valid() {
      bits < Pow2(Width(family))
    }
  }

  datatype IpPrefix = IpPrefix(addr: IpAddr, len: nat) {
    predicate Valid() {
      addr.Valid() && len <= Width(addr.family)
    }

    /** Number of host bits: the shift that builds the mask. */
    function Host(): nat
      requires len <= Width(addr.family)
    {
      Width(addr.family) - len
    }
  }

  /** `x & (MAX << k)`: the low `k` bits of `x` cleared. */
  function Cleared(x: nat, k: nat): (y: nat)
    ensures y <= x
  {
    if k == 0 then x else 2 * Cleared(x / 2, k - 1)
  }

  /** Clearing the low `k` bits of `x` gives the multiple of 2^k at or just below it: `x / 2^k * 2^k`. */
  lemma {:induction false} ClearedIsMultiple(x: nat, k: nat) returns (q: nat)
    ensures Cleared(x, k) == q * Pow2(k) <= x < q * Pow2(k) + Pow2(k)
  {
    if k == 0 {
      q := x;
    } else {
      q := ClearedIsMultiple(x / 2, k - 1);
      assert 2 * (q * Pow2(k - 1)) == q * Pow2(k) by {
        assert 2 * (q * Pow2(k - 1)) == q * (2 * Pow2(k - 1));
      }
    }
  }

  lemma ClearedIsDivision(x: nat, k: nat)
    ensures Cleared(x, k) == x / Pow2(k) * Pow2(k)
  {
    var q := ClearedIsMultiple(x, k);
    QuotientIs(x, Pow2(k), q);
  }

  /** `IpPrefix::new`: an overlong prefix is an error, otherwise host bits are cleared. */
  function New(a: IpAddr, len: nat): Option<IpPrefix> {
    if len > Width(a.family) then None
    else Some(IpPrefix(IpAddr(a.family, Cleared(a.bits, Width(a.family) - len)), len))
  }

  predicate ContainsIp(p: IpPrefix, ip: IpAddr)
    requires p.Valid()
  {
    p.addr.family == ip.family && Cleared(p.addr.bits, p.Host()) == Cleared(ip.bits, p.Host())
  }

  predicate ContainsPrefix(p: IpPrefix, q: IpPrefix)
    requires p.Valid()
  {
    p.addr.family == q.addr.family && p.len <= q.len && ContainsIp(p, q.addr)
  }

  predicate Canonical(p: IpPrefix) {
    p.Valid() && Cleared(p.addr.bits, p.Host()) == p.addr.bits
  }

  /** Every address of the family of `q` that `q` covers is covered by `p`. */
  ghost predicate Includes(p: IpPrefix, q: IpPrefix)
    requires p.Valid() && q.Valid()
  {
    forall ip: IpAddr :: ip.Valid() && ContainsIp(q, ip) ==> ContainsIp(p, ip)
  }

  lemma HalfOfTwice(c: nat)
    ensures 2 * c / 2 == c
  {
  }

  lemma {:induction false} ClearedTwice(x: nat, k: nat)
    ensures Cleared(Cleared(x, k), k) == Cleared(x, k)
  {
    if k > 0 {
      var c := Cleared(x / 2, k - 1);
      ClearedTwice(x / 2, k - 1);
      HalfOfTwice(c);
      assert Cleared(x, k) == 2 * c && Cleared(2 * c, k) == 2 * Cleared(c, k - 1);
    }
  }

  /** Numbers that agree above their low `k` bits agree above any more bits. */
  lemma {:induction false} AgreeFurther(a: nat, b: nat, k: nat, j: nat)
    requires k <= j && Cleared(a, k) == Cleared(b, k)
    ensures Cleared(a, j) == Cleared(b, j)
  {
    if k > 0 {
      AgreeFurther(a / 2, b / 2, k - 1, j - 1);
    }
  }

  /** Flipping bit `k` is seen when `k` bits are cleared and not when more are. */
  lemma {:induction false} FlipBit(a: nat, k: nat, w: nat) returns (b: nat)
    requires k < w && a < Pow2(w)
    ensures b < Pow2(w) && Cleared(a, k) != Cleared(b, k)
    ensures forall j :: j > k ==> Cleared(a, j) == Cleared(b, j)
  {
    if k == 0 {
      b := if a % 2 == 0 then a + 1 else a - 1;
      assert a / 2 == b / 2;
      if a % 2 == 0 {
        EvenBelow(a, w);
      }
    } else {
      var h := FlipBit(a / 2, k - 1, w - 1);
      b := 2 * h;
      HalfOfTwice(h);
      assert Cleared(b, k) == 2 * Cleared(h, k - 1);
      forall j | j > k ensures Cleared(a, j) == Cleared(b, j) {
        assert Cleared(a / 2, j - 1) == Cleared(h, j - 1);
      }
    }
  }

  lemma EvenBelow(a: nat, w: nat)
    requires w > 0 && a < Pow2(w) && a % 2 == 0
    ensures a + 1 < Pow2(w)
  {
  }

  /** A longer prefix never includes a shorter one: some address of the shorter one is outside. */
  lemma Outside(p: IpPrefix, q: IpPrefix) returns (ip: IpAddr)
    requires p.Valid() && q.Valid() && q.len < p.len
    ensures ip.Valid() && ContainsIp(q, ip) && !ContainsIp(p, ip)
  {
    ip := q.addr;
    if ContainsIp(p, ip) {
      var b := FlipBit(q.addr.bits, p.Host(), Width(q.addr.family));
      ip := IpAddr(q.addr.family, b);
    }
  }

  /** A shorter prefix covers all of a longer one or nothing of it. */
  lemma AllOrNothing(p: IpPrefix, q: IpPrefix, ip: IpAddr)
    requires p.Valid() && q.Valid() && p.len <= q.len && ContainsIp(q, ip)
    ensures ContainsIp(p, ip) <==> ContainsPrefix(p, q)
  {
    if p.addr.family == q.addr.family {
      AgreeFurther(q.addr.bits, ip.bits, q.Host(), p.Host());
    }
  }

  /** `contains_prefix` is inclusion of address sets. */
  lemma ContainsPrefixIsInclusion(p: IpPrefix, q: IpPrefix)
    requires p.Valid() && q.Valid()
    ensures ContainsPrefix(p, q) <==> Includes(p, q)
  {
    if q.len < p.len {
      var ip := Outside(p, q);
    } else {
      assert ContainsIp(q, q.addr);
      forall ip: IpAddr | ip.Valid() && ContainsIp(q, ip)
        ensures ContainsIp(p, ip) <==> ContainsPrefix(p, q)
      {
        AllOrNothing(p, q, ip);
      }
    }
  }

  /** Any two prefixes are nested or disjoint. */
  lemma NestedOrDisjoint(p: IpPrefix, q: IpPrefix)
    requires p.Valid() && q.Valid()
    ensures Includes(p, q) || Includes(q, p)
         || forall ip: IpAddr :: ip.Valid() ==> !(ContainsIp(p, ip) && ContainsIp(q, ip))
  {
    ContainsPrefixIsInclusion(p, q);
    ContainsPrefixIsInclusion(q, p);
    forall ip: IpAddr | ContainsIp(p, ip) && ContainsIp(q, ip)
      ensures ContainsPrefix(p, q) || ContainsPrefix(q, p)
    {
      if p.len <= q.len { AllOrNothing(p, q, ip); } else { AllOrNothing(q, p, ip); }
    }
  }

  /** `new` succeeds exactly on lengths that fit, and clearing host bits loses no address. */
  lemma NewKeepsAddresses(a: IpAddr, len: nat)
    requires a.Valid()
    ensures New(a, len).Some? <==> len <= Width(a.family)
    ensures New(a, len).Some? ==>
              && Canonical(New(a, len).value)
              && forall ip: IpAddr :: ContainsIp(New(a, len).value, ip) <==> ContainsIp(IpPrefix(a, len), ip)
  {
    if len <= Width(a.family) {
      var k := Width(a.family) - len;
      ClearedTwice(a.bits, k);
      var p := New(a, len).value;
      assert p.Host() == k == IpPrefix(a, len).Host();
      assert Cleared(p.addr.bits, k) == Cleared(a.bits, k);
    }
  }

  /** Prefixes built by `new` are equal exactly when they cover the same addresses. */
  lemma CanonicalIsExtensional(p: IpPrefix, q: IpPrefix)
    requires Canonical(p) && Canonical(q)
    ensures p == q <==> (Includes(p, q) && Includes(q, p))
  {
    ContainsPrefixIsInclusion(p, q);
    ContainsPrefixIsInclusion(q, p);
  }

  // The exemption list.

  predicate AllValid(ps: seq<IpPrefix>) {
    forall i :: 0 <= i < |ps| ==> ps[i].Valid()
  }

  /** `ExemptPrefixes::contains_ip`. */
  predicate ExemptIp(exempt: seq<IpPrefix>, ip: IpAddr)
    requires AllValid(exempt)
  {
    exists i :: 0 <= i < |exempt| && ContainsIp(exempt[i], ip)
  }

  /** `ExemptPrefixes::contains_prefix`: one listed prefix must cover all of `p`. */
  predicate ExemptPrefix(exempt: seq<IpPrefix>, p: IpPrefix)
    requires AllValid(exempt)
  {
    exists i :: 0 <= i < |exempt| && ContainsPrefix(exempt[i], p)
  }

  /** A prefix is exempt exactly when one entry of the list has all of its addresses. */
  lemma ExemptPrefixIff(exempt: seq<IpPrefix>, p: IpPrefix)
    requires AllValid(exempt) && p.Valid()
    ensures ExemptPrefix(exempt, p) <==> exists i :: 0 <= i < |exempt| && Includes(exempt[i], p)
  {
    forall i | 0 <= i < |exempt|
      ensures ContainsPrefix(exempt[i], p) <==> Includes(exempt[i], p)
    {
      ContainsPrefixIsInclusion(exempt[i], p);
    }
  }

  lemma ExemptPrefixIsAllExempt(exempt: seq<IpPrefix>, p: IpPrefix)
    requires AllValid(exempt) && p.Valid() && ExemptPrefix(exempt, p)
    ensures forall ip: IpAddr :: ip.Valid() && ContainsIp(p, ip) ==> ExemptIp(exempt, ip)
  {
    var i :| 0 <= i < |exempt| && ContainsPrefix(exempt[i], p);
    ContainsPrefixIsInclusion(exempt[i], p);
  }

  /** The two halves of a prefix with host bits. */
  function LowHalf(p: IpPrefix): IpPrefix
    requires p.Valid() && p.Host() > 0
  {
    IpPrefix(IpAddr(p.addr.family, Cleared(p.addr.bits, p.Host())), p.len + 1)
  }

  function HighHalf(p: IpPrefix): IpPrefix
    requires p.Valid() && p.Host() > 0
  {
    IpPrefix(IpAddr(p.addr.family, Cleared(p.addr.bits, p.Host()) + Pow2(p.Host() - 1)), p.len + 1)
  }

  lemma {:induction false} HalfBits(a: nat, h: nat, w: nat)
    requires 0 < h <= w && a < Pow2(w)
    ensures var low, high := Cleared(a, h), Cleared(a, h) + Pow2(h - 1);
      && low <= high < Pow2(w) && Cleared(low, h) == Cleared(high, h) == low
      && Cleared(low, h - 1) == low && Cleared(high, h - 1) == high
  {
    if h > 1 {
      HalfBits(a / 2, h - 1, w - 1);
    }
  }

  lemma {:induction false} InOneHalf(a: nat, x: nat, h: nat)
    requires h > 0 && Cleared(x, h) == Cleared(a, h)
    ensures Cleared(x, h - 1) == Cleared(a, h) || Cleared(x, h - 1) == Cleared(a, h) + Pow2(h - 1)
  {
    if h > 1 {
      InOneHalf(a / 2, x / 2, h - 1);
    }
  }

  lemma NumberInAHalf(a: nat, x: nat, h: nat, low: nat, high: nat)
    requires h > 0 && low == Cleared(a, h) && high == low + Pow2(h - 1)
    requires Cleared(low, h) == Cleared(high, h) == low && Cleared(low, h - 1) == low && Cleared(high, h - 1) == high
    ensures Cleared(x, h) == low <==> Cleared(x, h - 1) == low || Cleared(x, h - 1) == high
  {
    if Cleared(x, h) == low {
      InOneHalf(a, x, h);
    } else if Cleared(x, h - 1) == low {
      AgreeFurther(low, x, h - 1, h);
    } else if Cleared(x, h - 1) == high {
      AgreeFurther(high, x, h - 1, h);
    }
  }

  /** An address is in a prefix exactly when it is in one of its two halves. */
  lemma InAHalf(p: IpPrefix, ip: IpAddr)
    requires p.Valid() && p.Host() > 0
    ensures LowHalf(p).Valid() && HighHalf(p).Valid()
    ensures ContainsIp(p, ip) <==> ContainsIp(LowHalf(p), ip) || ContainsIp(HighHalf(p), ip)
  {
    var h, a := p.Host(), p.addr.bits;
    HalfBits(a, h, Width(p.addr.family));
    var low := Cleared(a, h);
    var high := low + Pow2(h - 1);
    assert LowHalf(p).Host() == HighHalf(p).Host() == h - 1;
    NumberInAHalf(a, ip.bits, h, low, high);
    assert ContainsIp(LowHalf(p), ip) <==> p.addr.family == ip.family && Cleared(ip.bits, h - 1) == low;
    assert ContainsIp(HighHalf(p), ip) <==> p.addr.family == ip.family && Cleared(ip.bits, h - 1) == high;
  }

  /** A prefix has the addresses of its two halves. */
  lemma HalvesCover(p: IpPrefix)
    requires p.Valid() && p.Host() > 0
    ensures LowHalf(p).Valid() && HighHalf(p).Valid()
    ensures forall ip: IpAddr :: ContainsIp(p, ip) <==> ContainsIp(LowHalf(p), ip) || ContainsIp(HighHalf(p), ip)
  {
    InAHalf(p, p.addr);
    forall ip: IpAddr
      ensures ContainsIp(p, ip) <==> ContainsIp(LowHalf(p), ip) || ContainsIp(HighHalf(p), ip)
    {
      InAHalf(p, ip);
    }
  }

  ghost predicate AllExempt(exempt: seq<IpPrefix>, p: IpPrefix)
    requires AllValid(exempt) && p.Valid()
  {
    forall ip: IpAddr :: ip.Valid() && ContainsIp(p, ip) ==> ExemptIp(exempt, ip)
  }

  /** The prefix check sees every prefix whose addresses are all exempt. */
  ghost predicate SeesAllExempt(exempt: seq<IpPrefix>)
    requires AllValid(exempt)
  {
    forall p: IpPrefix :: p.Valid() && AllExempt(exempt, p) ==> ExemptPrefix(exempt, p)
  }

  /** Whenever both halves of a prefix are exempt, so is the prefix. */
  ghost predicate JoinsHalves(exempt: seq<IpPrefix>)
    requires AllValid(exempt)
  {
    forall p: IpPrefix :: p.Valid() && p.Host() > 0 && ExemptPrefix(exempt, LowHalf(p))
        && ExemptPrefix(exempt, HighHalf(p))
      ==> ExemptPrefix(exempt, p)
  }

  lemma {:induction false} JoinedIsSeen(exempt: seq<IpPrefix>, p: IpPrefix)
    requires AllValid(exempt) && JoinsHalves(exempt) && p.Valid() && AllExempt(exempt, p)
    ensures ExemptPrefix(exempt, p)
    decreases p.Host()
  {
    if p.Host() == 0 {
      assert ContainsIp(p, p.addr) && ExemptIp(exempt, p.addr);
      var i :| 0 <= i < |exempt| && ContainsIp(exempt[i], p.addr);
      assert ContainsPrefix(exempt[i], p);
    } else {
      HalvesCover(p);
      JoinedIsSeen(exempt, LowHalf(p));
      JoinedIsSeen(exempt, HighHalf(p));
    }
  }

  /**
   * The converse holds for exactly the exemption lists that join halves: every prefix whose addresses
   * are all exempt is exempt if and only if a prefix is exempt whenever both its halves are.
   */
  lemma SeesAllExemptIff(exempt: seq<IpPrefix>)
    requires AllValid(exempt)
    ensures SeesAllExempt(exempt) <==> JoinsHalves(exempt)
  {
    if SeesAllExempt(exempt) {
      forall p: IpPrefix | p.Valid() && p.Host() > 0
          && ExemptPrefix(exempt, LowHalf(p)) && ExemptPrefix(exempt, HighHalf(p))
        ensures ExemptPrefix(exempt, p)
      {
        HalvesCover(p);
        ExemptPrefixIsAllExempt(exempt, LowHalf(p));
        ExemptPrefixIsAllExempt(exempt, HighHalf(p));
        assert AllExempt(exempt, p);
      }
    }
    if JoinsHalves(exempt) {
      forall p: IpPrefix | p.Valid() && AllExempt(exempt, p)
        ensures ExemptPrefix(exempt, p)
      {
        JoinedIsSeen(exempt, p);
      }
    }
  }

  /**
   * Not every list does: exempting 0.0.0.0/32 and 0.0.0.1/32 exempts every address of
   * 0.0.0.0/31, yet that prefix does not count as exempt.
   */
  lemma ExemptHalvesAreNotExemptWhole(low: IpPrefix, high: IpPrefix, whole: IpPrefix)
    requires low == IpPrefix(IpAddr(V4, 0), 32) && high == IpPrefix(IpAddr(V4, 1), 32)
    requires whole == IpPrefix(IpAddr(V4, 0), 31)
    ensures AllValid([low, high]) && whole.Valid() && !ExemptPrefix([low, high], whole)
    ensures forall ip: IpAddr :: ip.Valid() && ContainsIp(whole, ip) ==> ExemptIp([low, high], ip)
  {
    forall ip: IpAddr | ip.Valid() && ContainsIp(whole, ip)
      ensures ExemptIp([low, high], ip)
    {
      assert Cleared(ip.bits, 1) == 2 * (ip.bits / 2) && Cleared(0, 1) == 0;
      assert ip.bits == 0 || ip.bits == 1;
      assert [low, high][0] == low && [low, high][1] == high;
    }
  }

  /**
   * A prefix that the exemption check lets through still covers an exempt address exactly
   * when it covers a whole entry of the exemption list.
   */
  lemma ExemptAddressInside(exempt: seq<IpPrefix>, p: IpPrefix)
    requires AllValid(exempt) && p.Valid() && !ExemptPrefix(exempt, p)
    ensures (exists ip: IpAddr :: ip.Valid() && ContainsIp(p, ip) && ExemptIp(exempt, ip))
       <==> (exists i :: 0 <= i < |exempt| && ContainsPrefix(p, exempt[i]))
  {
    forall ip: IpAddr | ip.Valid() && ContainsIp(p, ip) && ExemptIp(exempt, ip)
      ensures exists i :: 0 <= i < |exempt| && ContainsPrefix(p, exempt[i])
    {
      var i :| 0 <= i < |exempt| && ContainsIp(exempt[i], ip);
      if p.len <= exempt[i].len {
        AllOrNothing(p, exempt[i], ip);
      } else {
        AllOrNothing(exempt[i], p, ip);
      }
    }
    forall i | 0 <= i < |exempt| && ContainsPrefix(p, exempt[i])
      ensures exists ip: IpAddr :: ip.Valid() && ContainsIp(p, ip) && ExemptIp(exempt, ip)
    {
      assert ContainsIp(exempt[i], exempt[i].addr);
      assert ExemptIp(exempt, exempt[i].addr);
    }
  }
}
