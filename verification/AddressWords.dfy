/**
 * Addresses as the machine words that the source masks (`crates/sbc_core/src/lib.rs`). Words and valid
 * addresses correspond one to one; `New6Masks` and `Contains6Masks` say of every word and length what
 * making a prefix and asking for an address do with the mask, and `New4Masks` and `Contains4Masks` the
 * same for 32 bits.
 */
module AddressWords {
  import opened Prelude
  import opened IpPrefixes

  /** The number that the low `n` bits of a word stand for. */
  function Value4(x: bv32, n: nat): (v: nat)
    ensures v < Pow2(n)
  {
    if n == 0 then 0 else 2 * Value4(x >> 1, n - 1) + if x & 1 == 1 then 1 else 0
  }

  function Value6(x: bv128, n: nat): (v: nat)
    ensures v < Pow2(n)
  {
    if n == 0 then 0 else 2 * Value6(x >> 1, n - 1) + if x & 1 == 1 then 1 else 0
  }

  /** `u32::from` and `u128::from`: the number that an address is as a word. */
  function Number4(x: bv32): nat {
    Value4(x, 32)
  }

  function Number6(x: bv128): nat {
    Value6(x, 128)
  }

  /** All ones, shifted `k` times by one. */
  function Mask4(k: nat): bv32 {
    if k == 0 then !(0 as bv32) else Mask4(k - 1) << 1
  }

  lemma MaskStep4(x: bv32, m: bv32)
    ensures x & !(0 as bv32) == x
    ensures (x & (m << 1)) & 1 == 0 && (x & (m << 1)) >> 1 == (x >> 1) & m
  {}

  lemma ShiftStep4(k: bv8)
    requires 0 < k <= 32
    ensures !(0 as bv32) << k == (!(0 as bv32) << (k - 1)) << 1
  {}

  /** `MAX << k` is that mask. */
  lemma {:induction false} ShiftIsMask4(k: bv8)
    requires k <= 32
    ensures !(0 as bv32) << k == Mask4(Count(k))
    decreases k
  {
    if k != 0 {
      ShiftStep4(k);
      ShiftIsMask4(k - 1);
    }
  }

  lemma Value4Next(x: bv32, n: nat, half: bv32, odd: bool)
    requires n > 0 && x >> 1 == half && (x & 1 == 1) == odd
    ensures Value4(x, n) == 2 * Value4(half, n - 1) + if odd then 1 else 0
  {
  }

  /** Masking a word is clearing low bits of its value. */
  lemma {:induction false} MaskedIsCleared4(x: bv32, m: bv32, k: nat, n: nat)
    requires k <= n && m == Mask4(k)
    ensures Value4(x & m, n) == Cleared(Value4(x, n), k)
    decreases n
  {
    if k == 0 {
      MaskStep4(x, !(0 as bv32));
    } else {
      var half, odd, less := x >> 1, x & 1 == 1, Mask4(k - 1);
      MaskStep4(x, less);
      MaskedIsCleared4(half, less, k - 1, n - 1);
      Value4Next(x, n, half, odd);
      assert Value4(x & m, n) == 2 * Value4(half & less, n - 1) by {
        Value4Next(x & m, n, half & less, false);
      }
      ClearedNext(Value4(x, n), Value4(half, n - 1), odd, k);
    }
  }

  /** The mask as the source builds it: a shift by the whole width is left out. */
  function V4Mask(len: bv8): bv32
    requires len <= 32
  {
    if len == 0 then 0 else !(0 as bv32) << (32 - len)
  }

  lemma V4MaskShifts(len: bv8)
    requires len <= 32
    ensures V4Mask(len) == !(0 as bv32) << (32 - len)
  {
  }

  lemma V4MaskIs(len: bv8)
    requires len <= 32
    ensures len as nat <= 32 && V4Mask(len) == Mask4(32 - len as nat)
  {
    HostBits(len, 32 - len, 32);
    CountIs(len);
    CountIs(32);
    V4MaskShifts(len);
    ShiftIsMask4(32 - len);
  }

  /** It clears the host bits of the number that the address, as a word, stands for. */
  lemma V4MaskClears(x: bv32, len: bv8)
    requires len <= 32
    ensures Number4(x & V4Mask(len)) == Cleared(Number4(x), 32 - len as nat)
  {
    V4MaskIs(len);
    MaskedIsCleared4(x, V4Mask(len), 32 - len as nat, 32);
  }

  /** All ones, shifted `k` times by one. */
  function Mask6(k: nat): bv128 {
    if k == 0 then !(0 as bv128) else Mask6(k - 1) << 1
  }

  lemma MaskStep6(x: bv128, m: bv128)
    ensures x & !(0 as bv128) == x
    ensures (x & (m << 1)) & 1 == 0 && (x & (m << 1)) >> 1 == (x >> 1) & m
  {}

  lemma ShiftStep6(k: bv8)
    requires 0 < k <= 128
    ensures !(0 as bv128) << k == (!(0 as bv128) << (k - 1)) << 1
  {}

  /** `MAX << k` is that mask. */
  lemma {:induction false} ShiftIsMask6(k: bv8)
    requires k <= 128
    ensures !(0 as bv128) << k == Mask6(Count(k))
    decreases k
  {
    if k != 0 {
      ShiftStep6(k);
      ShiftIsMask6(k - 1);
    }
  }

  lemma Value6Next(x: bv128, n: nat, half: bv128, odd: bool)
    requires n > 0 && x >> 1 == half && (x & 1 == 1) == odd
    ensures Value6(x, n) == 2 * Value6(half, n - 1) + if odd then 1 else 0
  {
  }

  /** Masking a word is clearing low bits of its value. */
  lemma {:induction false} MaskedIsCleared6(x: bv128, m: bv128, k: nat, n: nat)
    requires k <= n && m == Mask6(k)
    ensures Value6(x & m, n) == Cleared(Value6(x, n), k)
    decreases n
  {
    if k == 0 {
      MaskStep6(x, !(0 as bv128));
    } else {
      var half, odd, less := x >> 1, x & 1 == 1, Mask6(k - 1);
      MaskStep6(x, less);
      MaskedIsCleared6(half, less, k - 1, n - 1);
      Value6Next(x, n, half, odd);
      assert Value6(x & m, n) == 2 * Value6(half & less, n - 1) by {
        Value6Next(x & m, n, half & less, false);
      }
      ClearedNext(Value6(x, n), Value6(half, n - 1), odd, k);
    }
  }

  /** The mask as the source builds it: a shift by the whole width is left out. */
  function V6Mask(len: bv8): bv128
    requires len <= 128
  {
    if len == 0 then 0 else !(0 as bv128) << (128 - len)
  }

  lemma V6MaskShifts(len: bv8)
    requires len <= 128
    ensures V6Mask(len) == !(0 as bv128) << (128 - len)
  {
  }

  lemma V6MaskIs(len: bv8)
    requires len <= 128
    ensures len as nat <= 128 && V6Mask(len) == Mask6(128 - len as nat)
  {
    HostBits(len, 128 - len, 128);
    CountIs(len);
    CountIs(128);
    V6MaskShifts(len);
    ShiftIsMask6(128 - len);
  }

  /** It clears the host bits of the number that the address, as a word, stands for. */
  lemma V6MaskClears(x: bv128, len: bv8)
    requires len <= 128
    ensures Number6(x & V6Mask(len)) == Cleared(Number6(x), 128 - len as nat)
  {
    V6MaskIs(len);
    MaskedIsCleared6(x, V6Mask(len), 128 - len as nat, 128);
  }

  // The shift is computed on bytes.

  function Count(k: bv8): nat
    decreases k
  {
    if k == 0 then 0 else Count(k - 1) + 1
  }

  lemma {:induction false} CountIs(k: bv8)
    ensures Count(k) == k as nat
    decreases k
  {
    if k != 0 {
      CountIs(k - 1);
      OneLess(k);
    }
  }

  lemma OneLess(k: bv8)
    requires k > 0
    ensures (k - 1) as nat == k as nat - 1
  {
  }

  lemma {:induction false} HostBits(len: bv8, host: bv8, width: bv8)
    requires len <= width && len + host == width
    ensures Count(len) + Count(host) == Count(width)
    decreases len
  {
    if len == 0 {
      assert host == width;
    } else {
      var less, more := OneMoreHostBit(len, host, width);
      HostBits(less, more, width);
      SameCount(len, less, host, more);
    }
  }

  lemma SameCount(len: bv8, less: bv8, host: bv8, more: bv8)
    requires len != 0 && less == len - 1 && more != 0 && more - 1 == host
    ensures Count(less) + Count(more) == Count(len) + Count(host)
  {
  }

  lemma OneMoreHostBit(len: bv8, host: bv8, width: bv8) returns (less: bv8, more: bv8)
    requires 0 < len <= width && len + host == width
    ensures less == len - 1 && less < len && less <= width && less + more == width && more != 0 && more - 1 == host
  {
    less, more := len - 1, host + 1;
  }

  lemma ClearedNext(v: nat, half: nat, odd: bool, k: nat)
    requires k > 0 && v == 2 * half + if odd then 1 else 0
    ensures Cleared(v, k) == 2 * Cleared(half, k - 1)
  {
    assert v / 2 == half;
  }

  // Words and addresses correspond one to one.

  /** Words without bits from the `n`th on are the same if their values are. */
  lemma {:induction false} SameValue4(x: bv32, y: bv32, m: bv32, n: nat)
    requires m == Mask4(n) && x & m == 0 && y & m == 0 && Value4(x, n) == Value4(y, n)
    ensures x == y
    decreases n
  {
    if n == 0 {
      NoBits4(x);
      NoBits4(y);
    } else {
      var less := Mask4(n - 1);
      var a, b, odd := SameStep4(x, y, less, n);
      SameValue4(a, b, less, n - 1);
      SameHalves4(x, y, a, odd);
    }
  }

  lemma NoBits4(x: bv32)
    requires x & Mask4(0) == 0
    ensures x == 0
  {
  }

  lemma SameStep4(x: bv32, y: bv32, less: bv32, n: nat) returns (a: bv32, b: bv32, odd: bool)
    requires n > 0 && x & (less << 1) == 0 && y & (less << 1) == 0 && Value4(x, n) == Value4(y, n)
    ensures a == x >> 1 && b == y >> 1 && a & less == 0 && b & less == 0 && Value4(a, n - 1) == Value4(b, n - 1)
    ensures (x & 1 == 1) == odd && (y & 1 == 1) == odd
  {
    a, b, odd := x >> 1, y >> 1, x & 1 == 1;
    HalfIsSmall4(x, less);
    HalfIsSmall4(y, less);
    Value4Parity(x, n);
    Value4Parity(y, n);
  }

  lemma HalfIsSmall4(x: bv32, m: bv32)
    requires x & (m << 1) == 0
    ensures (x >> 1) & m == 0
  {
  }

  lemma Value4Parity(x: bv32, n: nat)
    requires n > 0
    ensures Value4(x, n) / 2 == Value4(x >> 1, n - 1) && (Value4(x, n) % 2 == 1 <==> x & 1 == 1)
  {
  }

  lemma SameHalves4(x: bv32, y: bv32, half: bv32, odd: bool)
    requires x >> 1 == half && y >> 1 == half && (x & 1 == 1) == odd && (y & 1 == 1) == odd
    ensures x == y
  {
  }

  /** The word of `n` bits with a given number, built up from the highest bit. */
  lemma {:induction false} WordFor4(v: nat, n: bv8, m: bv32) returns (x: bv32)
    requires v < Pow2(Count(n)) && n <= 32 && m == Mask4(Count(n))
    ensures x & m == 0 && Value4(x, Count(n)) == v
    decreases n
  {
    if n == 0 {
      x := 0;
    } else {
      var less := Mask4(Count(n - 1));
      var half := WordFor4(v / 2, n - 1, less);
      TopMasked4(n - 1, less);
      x := if v % 2 == 1 then (half << 1) | 1 else half << 1;
      WithBit4(half, less, v % 2 == 1, x);
      OneMoreBit4(v, Count(n), x, half);
    }
  }

  lemma EvenBits4(half: bv32, less: bv32, x: bv32)
    requires half & less == 0 && less >> 31 == 1 && x == half << 1
    ensures x & (less << 1) == 0 && x >> 1 == half && x & 1 != 1
  {
  }

  lemma OddBits4(half: bv32, less: bv32, x: bv32)
    requires half & less == 0 && less >> 31 == 1 && x == (half << 1) | 1
    ensures x & (less << 1) == 0 && x >> 1 == half && x & 1 == 1
  {
  }

  lemma WithBit4(half: bv32, less: bv32, odd: bool, x: bv32)
    requires half & less == 0 && less >> 31 == 1 && x == if odd then (half << 1) | 1 else half << 1
    ensures x & (less << 1) == 0 && x >> 1 == half && (x & 1 == 1) == odd
  {
    if odd {
      OddBits4(half, less, x);
    } else {
      EvenBits4(half, less, x);
    }
  }

  lemma OneMoreBit4(v: nat, n: nat, x: bv32, half: bv32)
    requires n > 0 && x >> 1 == half && (x & 1 == 1) == (v % 2 == 1) && Value4(half, n - 1) == v / 2
    ensures Value4(x, n) == v
  {
    Value4Parity(x, n);
  }

  /** Below the width, the mask has the highest bit. */
  lemma TopMasked4(k: bv8, m: bv32)
    requires k < 32 && m == Mask4(Count(k))
    ensures m >> 31 == 1
  {
    ShiftIsMask4(k);
    TopShifted4(k, m);
  }

  lemma TopShifted4(k: bv8, m: bv32)
    requires k < 32 && m == !(0 as bv32) << k
    ensures m >> 31 == 1
  {
  }

  lemma WholeMask4()
    ensures Count(32) == 32 && Mask4(32) == 0
  {
    CountIs(32);
    ShiftIsMask4(32);
  }

  /** Different words stand for different numbers. */
  lemma Number4Injective(x: bv32, y: bv32)
    ensures Number4(x) == Number4(y) <==> x == y
  {
    if Number4(x) == Number4(y) {
      WholeMask4();
      SameValue4(x, y, 0, 32);
    }
  }

  /** And every number of that many bits is one that a word stands for. */
  lemma Number4Onto(v: nat) returns (x: bv32)
    requires v < Pow2(32)
    ensures Number4(x) == v
  {
    WholeMask4();
    x := WordFor4(v, 32, 0);
  }

  /** The address that a word is. */
  function Addr4(x: bv32): IpAddr {
    IpAddr(V4, Number4(x))
  }

  /** The valid addresses are exactly the words. */
  lemma Valid4IffWord(a: IpAddr)
    requires a.family == V4
    ensures a.Valid() <==> exists x :: a == Addr4(x)
  {
    if a.Valid() {
      var x := Number4Onto(a.bits);
      assert a == Addr4(x);
    }
  }

  /** A prefix is accepted exactly up to the width of a word. */
  lemma New4Accepts(a: bv32, len: nat)
    ensures New(Addr4(a), len).Some? <==> len <= 32
  {
  }

  lemma NewNumber4(x: nat, len: nat)
    requires len <= 32
    ensures New(IpAddr(V4, x), len) == Some(IpPrefix(IpAddr(V4, Cleared(x, 32 - len)), len))
  {
  }

  /** Its address is then the word with the mask applied. */
  lemma New4Masks(a: bv32, len: bv8)
    requires len <= 32
    ensures New(Addr4(a), len as nat) == Some(IpPrefix(Addr4(a & V4Mask(len)), len as nat))
  {
    V4MaskIs(len);
    V4MaskClears(a, len);
    NewNumber4(Number4(a), len as nat);
  }

  lemma ContainsNumber4(x: nat, len: nat, y: nat)
    requires len <= 32 && x < Pow2(32)
    ensures var p := IpPrefix(IpAddr(V4, x), len);
      p.Valid() && (ContainsIp(p, IpAddr(V4, y)) <==> Cleared(x, 32 - len) == Cleared(y, 32 - len))
  {
  }

  lemma Narrow4(len: bv8)
    requires len <= 32
    ensures len as nat <= 32
  {
    V4MaskIs(len);
  }

  lemma ContainsCleared4(a: bv32, n: nat, b: bv32, ma: bv32, mb: bv32)
    requires n <= 32 && Number4(ma) == Cleared(Number4(a), 32 - n) && Number4(mb) == Cleared(Number4(b), 32 - n)
    ensures var p := IpPrefix(Addr4(a), n); p.Valid() && (ContainsIp(p, Addr4(b)) <==> ma == mb)
  {
    ContainsNumber4(Number4(a), n, Number4(b));
    Number4Injective(ma, mb);
  }

  /** An address is in a prefix exactly when the mask leaves the same of both words. */
  lemma Contains4Masks(a: bv32, len: bv8, b: bv32)
    requires len <= 32
    ensures var p := IpPrefix(Addr4(a), len as nat);
      p.Valid() && (ContainsIp(p, Addr4(b)) <==> a & V4Mask(len) == b & V4Mask(len))
  {
    Narrow4(len);
    V4MaskClears(a, len);
    V4MaskClears(b, len);
    ContainsCleared4(a, len as nat, b, a & V4Mask(len), b & V4Mask(len));
  }

  /** Words without bits from the `n`th on are the same if their values are. */
  lemma {:induction false} SameValue6(x: bv128, y: bv128, m: bv128, n: nat)
    requires m == Mask6(n) && x & m == 0 && y & m == 0 && Value6(x, n) == Value6(y, n)
    ensures x == y
    decreases n
  {
    if n == 0 {
      NoBits6(x);
      NoBits6(y);
    } else {
      var less := Mask6(n - 1);
      var a, b, odd := SameStep6(x, y, less, n);
      SameValue6(a, b, less, n - 1);
      SameHalves6(x, y, a, odd);
    }
  }

  lemma NoBits6(x: bv128)
    requires x & Mask6(0) == 0
    ensures x == 0
  {
  }

  lemma SameStep6(x: bv128, y: bv128, less: bv128, n: nat) returns (a: bv128, b: bv128, odd: bool)
    requires n > 0 && x & (less << 1) == 0 && y & (less << 1) == 0 && Value6(x, n) == Value6(y, n)
    ensures a == x >> 1 && b == y >> 1 && a & less == 0 && b & less == 0 && Value6(a, n - 1) == Value6(b, n - 1)
    ensures (x & 1 == 1) == odd && (y & 1 == 1) == odd
  {
    a, b, odd := x >> 1, y >> 1, x & 1 == 1;
    HalfIsSmall6(x, less);
    HalfIsSmall6(y, less);
    Value6Parity(x, n);
    Value6Parity(y, n);
  }

  lemma HalfIsSmall6(x: bv128, m: bv128)
    requires x & (m << 1) == 0
    ensures (x >> 1) & m == 0
  {
  }

  lemma Value6Parity(x: bv128, n: nat)
    requires n > 0
    ensures Value6(x, n) / 2 == Value6(x >> 1, n - 1) && (Value6(x, n) % 2 == 1 <==> x & 1 == 1)
  {
  }

  lemma SameHalves6(x: bv128, y: bv128, half: bv128, odd: bool)
    requires x >> 1 == half && y >> 1 == half && (x & 1 == 1) == odd && (y & 1 == 1) == odd
    ensures x == y
  {
  }

  /** The word of `n` bits with a given number, built up from the highest bit. */
  lemma {:induction false} WordFor6(v: nat, n: bv8, m: bv128) returns (x: bv128)
    requires v < Pow2(Count(n)) && n <= 128 && m == Mask6(Count(n))
    ensures x & m == 0 && Value6(x, Count(n)) == v
    decreases n
  {
    if n == 0 {
      x := 0;
    } else {
      var less := Mask6(Count(n - 1));
      var half := WordFor6(v / 2, n - 1, less);
      TopMasked6(n - 1, less);
      x := if v % 2 == 1 then (half << 1) | 1 else half << 1;
      WithBit6(half, less, v % 2 == 1, x);
      OneMoreBit6(v, Count(n), x, half);
    }
  }

  lemma EvenBits6(half: bv128, less: bv128, x: bv128)
    requires half & less == 0 && less >> 127 == 1 && x == half << 1
    ensures x & (less << 1) == 0 && x >> 1 == half && x & 1 != 1
  {
  }

  lemma OddBits6(half: bv128, less: bv128, x: bv128)
    requires half & less == 0 && less >> 127 == 1 && x == (half << 1) | 1
    ensures x & (less << 1) == 0 && x >> 1 == half && x & 1 == 1
  {
  }

  lemma WithBit6(half: bv128, less: bv128, odd: bool, x: bv128)
    requires half & less == 0 && less >> 127 == 1 && x == if odd then (half << 1) | 1 else half << 1
    ensures x & (less << 1) == 0 && x >> 1 == half && (x & 1 == 1) == odd
  {
    if odd {
      OddBits6(half, less, x);
    } else {
      EvenBits6(half, less, x);
    }
  }

  lemma OneMoreBit6(v: nat, n: nat, x: bv128, half: bv128)
    requires n > 0 && x >> 1 == half && (x & 1 == 1) == (v % 2 == 1) && Value6(half, n - 1) == v / 2
    ensures Value6(x, n) == v
  {
    Value6Parity(x, n);
  }

  /** Below the width, the mask has the highest bit. */
  lemma TopMasked6(k: bv8, m: bv128)
    requires k < 128 && m == Mask6(Count(k))
    ensures m >> 127 == 1
  {
    ShiftIsMask6(k);
    TopShifted6(k, m);
  }

  lemma TopShifted6(k: bv8, m: bv128)
    requires k < 128 && m == !(0 as bv128) << k
    ensures m >> 127 == 1
  {
  }

  lemma WholeMask6()
    ensures Count(128) == 128 && Mask6(128) == 0
  {
    CountIs(128);
    ShiftIsMask6(128);
  }

  /** Different words stand for different numbers. */
  lemma Number6Injective(x: bv128, y: bv128)
    ensures Number6(x) == Number6(y) <==> x == y
  {
    if Number6(x) == Number6(y) {
      WholeMask6();
      SameValue6(x, y, 0, 128);
    }
  }

  /** And every number of that many bits is one that a word stands for. */
  lemma Number6Onto(v: nat) returns (x: bv128)
    requires v < Pow2(128)
    ensures Number6(x) == v
  {
    WholeMask6();
    x := WordFor6(v, 128, 0);
  }

  /** The address that a word is. */
  function Addr6(x: bv128): IpAddr {
    IpAddr(V6, Number6(x))
  }

  /** The valid addresses are exactly the words. */
  lemma Valid6IffWord(a: IpAddr)
    requires a.family == V6
    ensures a.Valid() <==> exists x :: a == Addr6(x)
  {
    if a.Valid() {
      var x := Number6Onto(a.bits);
      assert a == Addr6(x);
    }
  }

  /** A prefix is accepted exactly up to the width of a word. */
  lemma New6Accepts(a: bv128, len: nat)
    ensures New(Addr6(a), len).Some? <==> len <= 128
  {
  }

  lemma NewNumber6(x: nat, len: nat)
    requires len <= 128
    ensures New(IpAddr(V6, x), len) == Some(IpPrefix(IpAddr(V6, Cleared(x, 128 - len)), len))
  {
  }

  /** Its address is then the word with the mask applied. */
  lemma New6Masks(a: bv128, len: bv8)
    requires len <= 128
    ensures New(Addr6(a), len as nat) == Some(IpPrefix(Addr6(a & V6Mask(len)), len as nat))
  {
    V6MaskIs(len);
    V6MaskClears(a, len);
    NewNumber6(Number6(a), len as nat);
  }

  lemma ContainsNumber6(x: nat, len: nat, y: nat)
    requires len <= 128 && x < Pow2(128)
    ensures var p := IpPrefix(IpAddr(V6, x), len);
      p.Valid() && (ContainsIp(p, IpAddr(V6, y)) <==> Cleared(x, 128 - len) == Cleared(y, 128 - len))
  {
  }

  lemma Narrow6(len: bv8)
    requires len <= 128
    ensures len as nat <= 128
  {
    V6MaskIs(len);
  }

  lemma ContainsCleared6(a: bv128, n: nat, b: bv128, ma: bv128, mb: bv128)
    requires n <= 128 && Number6(ma) == Cleared(Number6(a), 128 - n) && Number6(mb) == Cleared(Number6(b), 128 - n)
    ensures var p := IpPrefix(Addr6(a), n); p.Valid() && (ContainsIp(p, Addr6(b)) <==> ma == mb)
  {
    ContainsNumber6(Number6(a), n, Number6(b));
    Number6Injective(ma, mb);
  }

  /** An address is in a prefix exactly when the mask leaves the same of both words. */
  lemma Contains6Masks(a: bv128, len: bv8, b: bv128)
    requires len <= 128
    ensures var p := IpPrefix(Addr6(a), len as nat);
      p.Valid() && (ContainsIp(p, Addr6(b)) <==> a & V6Mask(len) == b & V6Mask(len))
  {
    Narrow6(len);
    V6MaskClears(a, len);
    V6MaskClears(b, len);
    ContainsCleared6(a, len as nat, b, a & V6Mask(len), b & V6Mask(len));
  }
}
