/** Numbered room ids: `str(n).zfill(width)`, and the largest number in use, in `scripts/area_files_budgetfill.py`. */
module RoomNumbers {
  import opened Prelude
  import opened Names

  predicate IsDigit(c: char) {
    '0' <= c <= '9'
  }

  /** `str.isdigit`, for the ASCII digits. */
  predicate AllDigits(s: string) {
    s != [] && forall i :: 0 <= i < |s| ==> IsDigit(s[i])
  }

  function DigitValue(c: char): nat
    requires IsDigit(c)
  {
    c as int - '0' as int
  }

  function DigitChar(d: nat): (c: char)
    requires d < 10
    ensures IsDigit(c) && DigitValue(c) == d
  {
    (d + '0' as int) as char
  }

  /** `str(n)`. */
  function Digits(n: nat): string {
    if n < 10 then [DigitChar(n)] else Digits(n / 10) + [DigitChar(n % 10)]
  }

  /** The ten digits, and a number's last one: the others are those of a tenth of it, and no zero leads. */
  lemma DigitsMean(n: nat)
    ensures forall d: nat :: d < 10 ==> DigitChar(d) == DIGITS[d]
    ensures forall c: char :: IsDigit(c) <==> c in DIGITS
    ensures n < 10 ==> Digits(n) == [DigitChar(n)]
    ensures n >= 10 ==> Digits(n) == Digits(n / 10) + [DigitChar(n % 10)]
    ensures n > 0 ==> Digits(n)[0] != '0'
  {
    NoLeadingZero(n);
    forall c: char
      ensures IsDigit(c) <==> c in DIGITS
    {
      NamedDigit(c);
    }
  }

  lemma {:induction false} NoLeadingZero(n: nat)
    ensures Digits(n) != [] && (n > 0 ==> Digits(n)[0] != '0')
  {
    if n >= 10 {
      NoLeadingZero(n / 10);
    }
  }

  /** `int(s)`. */
  function Value(s: string): nat
    requires forall i :: 0 <= i < |s| ==> IsDigit(s[i])
  {
    if s == [] then 0 else 10 * Value(s[..|s| - 1]) + DigitValue(s[|s| - 1])
  }

  function Zeros(n: nat): string {
    seq(n, _ => '0')
  }

  function ZFill(s: string, width: nat): string {
    if |s| >= width then s else Zeros(width - |s|) + s
  }

  /** Zeros in front, as many as the width needs. */
  lemma ZFillMeans(s: string, width: nat)
    ensures |ZFill(s, width)| == if |s| < width then width else |s|
    ensures var k := |ZFill(s, width)| - |s|;
      ZFill(s, width)[k..] == s && forall i :: 0 <= i < k ==> ZFill(s, width)[i] == '0'
  {
  }

  function Numbered(prefix: string, n: nat, width: nat): string {
    prefix + ZFill(Digits(n), width)
  }

  lemma {:induction false} ValueInvertsDigits(n: nat)
    ensures AllDigits(Digits(n)) && Value(Digits(n)) == n
  {
    if n >= 10 {
      ValueInvertsDigits(n / 10);
      assert Digits(n)[..|Digits(n)| - 1] == Digits(n / 10);
    }
  }

  lemma {:induction false} ZerosAddNothing(k: nat, s: string)
    requires forall i :: 0 <= i < |s| ==> IsDigit(s[i])
    ensures Value(Zeros(k) + s) == Value(s)
    decreases |s|, k
  {
    if s != [] {
      var init := s[..|s| - 1];
      assert (Zeros(k) + s)[..|Zeros(k) + s| - 1] == Zeros(k) + init;
      ZerosAddNothing(k, init);
    } else if k > 0 {
      assert Zeros(k) + s == Zeros(k - 1) + ['0'];
      assert (Zeros(k) + s)[..k - 1] == Zeros(k - 1) + [];
      ZerosAddNothing(k - 1, []);
    }
  }

  /** The number can be read back from an id, so different numbers give different ids. */
  lemma NumberReadsBack(prefix: string, n: nat, width: nat)
    ensures var rid := Numbered(prefix, n, width);
      prefix <= rid && AllDigits(rid[|prefix|..]) && Value(rid[|prefix|..]) == n
  {
    var s := Digits(n);
    ValueInvertsDigits(n);
    assert Numbered(prefix, n, width)[|prefix|..] == ZFill(s, width);
    if |s| < width {
      ZerosAddNothing(width - |s|, s);
    }
  }

  lemma {:induction false} LongerNumbers(m: nat, n: nat)
    requires m <= n
    ensures 0 < |Digits(m)| <= |Digits(n)| && (|Digits(n)| == 1 <==> n < 10)
  {
    NoLeadingZero(n / 10);
    if m >= 10 {
      LongerNumbers(m / 10, n / 10);
    }
  }

  /** Padded for the largest, ids have equal lengths; the largest has no zero in front, but one if a single digit. */
  lemma PaddedAlike(prefix: string, n: nat, top: nat)
    requires n <= top
    ensures var width := Max(2, |Digits(top)|);
      && |Numbered(prefix, n, width)| == |prefix| + width
      && Numbered(prefix, top, width) == prefix + (if top < 10 then "0" else "") + Digits(top)
  {
    LongerNumbers(n, top);
    if top < 10 {
      PaddedDigit(Digits(top), prefix);
    } else {
      assert prefix + "" == prefix;
    }
  }

  lemma PaddedDigit(s: string, prefix: string)
    requires |s| == 1
    ensures prefix + ZFill(s, 2) == prefix + "0" + s
  {
    ZFillMeans(s, 2);
    assert ZFill(s, 2) == ['0'] + s == "0" + s;
    assert prefix + ("0" + s) == prefix + "0" + s;
  }

  /** No id with the prefix has a number above `mx`. */
  ghost predicate Bounds(mx: nat, prefix: string, ids: set<string>) {
    forall rid :: rid in ids && prefix <= rid && AllDigits(rid[|prefix|..]) ==> Value(rid[|prefix|..]) <= mx
  }

  lemma NumberedIsNew(mx: nat, prefix: string, ids: set<string>, n: nat, width: nat)
    requires Bounds(mx, prefix, ids) && n > mx
    ensures Numbered(prefix, n, width) !in ids
  {
    NumberReadsBack(prefix, n, width);
  }

  lemma NumberedApart(prefix: string, m: nat, n: nat, width: nat)
    requires m != n
    ensures Numbered(prefix, m, width) != Numbered(prefix, n, width)
  {
    NumberReadsBack(prefix, m, width);
    NumberReadsBack(prefix, n, width);
  }

  predicate HasNumber(rid: string, prefix: string, n: nat) {
    prefix <= rid && AllDigits(rid[|prefix|..]) && Value(rid[|prefix|..]) == n
  }

  /** The largest number in use with a prefix: it bounds them all, and is one of them unless it is zero. */
  method MaxNumericSuffix(prefix: string, ids: set<string>) returns (mx: nat)
    ensures Bounds(mx, prefix, ids)
    ensures mx > 0 ==> exists rid :: rid in ids && HasNumber(rid, prefix, mx)
  {
    mx := 0;
    var todo := ids;
    while todo != {}
      invariant todo <= ids && Bounds(mx, prefix, ids - todo)
      invariant mx > 0 ==> exists rid :: rid in ids && HasNumber(rid, prefix, mx)
      decreases |todo|
    {
      var rid :| rid in todo;
      todo := todo - {rid};
      if prefix <= rid {
        var suffix := rid[|prefix|..];
        if AllDigits(suffix) && Value(suffix) > mx {
          mx := Value(suffix);
          assert HasNumber(rid, prefix, mx);
        }
      }
    }
    assert ids - {} == ids;
  }

  /** The search for the number of a seed room ends, with an id that is new. */
  method SeedNumber(mx: nat, prefix: string, width: nat, ids: set<string>) returns (n: nat)
    requires Bounds(mx, prefix, ids)
    ensures n == mx + 1 && Numbered(prefix, n, width) !in ids
  {
    n := mx + 1;
    while Numbered(prefix, n, width) in ids
      invariant n > mx && (n > mx + 1 ==> Numbered(prefix, mx + 1, width) in ids)
      decreases if Numbered(prefix, n, width) in ids then 1 else 0
    {
      n := n + 1;
      NumberedIsNew(mx, prefix, ids, n, width);
    }
    NumberedIsNew(mx, prefix, ids, mx + 1, width);
  }

  function Members<T(==)>(s: seq<T>): set<T> {
    set x | x in s
  }

  ghost predicate Fresh(fillers: seq<string>, prefix: string, ids: set<string>) {
    && (forall k :: 0 <= k < |fillers| ==> fillers[k] !in ids && prefix <= fillers[k])
    && (forall j, k :: 0 <= j < k < |fillers| ==> fillers[j] != fillers[k])
  }

  /** The ids numbered from `from` on. */
  function FillerNames(prefix: string, from: nat, width: nat, need: nat): seq<string> {
    seq(need, k requires 0 <= k < need => Numbered(prefix, from + k, width))
  }

  /** The names are numbered from `from` on, and in use besides the ids. */
  predicate Claimed(names: seq<string>, all: set<string>, prefix: string, from: nat, width: nat, ids: set<string>) {
    names == FillerNames(prefix, from, width, |names|) && all == ids + Members(names)
  }

  /** The largest number in use with a prefix, or zero. */
  ghost predicate IsMaxSuffix(mx: nat, prefix: string, ids: set<string>) {
    Bounds(mx, prefix, ids) && (mx > 0 ==> exists rid :: rid in ids && HasNumber(rid, prefix, mx))
  }

  /** There is only one. */
  lemma MaxSuffixIsOne(mx: nat, mx': nat, prefix: string, ids: set<string>)
    requires IsMaxSuffix(mx, prefix, ids) && IsMaxSuffix(mx', prefix, ids)
    ensures mx == mx'
  {
  }

  lemma NamesAreFresh(prefix: string, from: nat, width: nat, need: nat, top: nat, ids: set<string>)
    requires Bounds(top, prefix, ids) && from > top
    ensures Fresh(FillerNames(prefix, from, width, need), prefix, ids)
  {
    var names := FillerNames(prefix, from, width, need);
    forall k | 0 <= k < need
      ensures names[k] !in ids && prefix <= names[k]
    {
      NumberedIsNew(top, prefix, ids, from + k, width);
    }
    forall j, k | 0 <= j < k < need
      ensures names[j] != names[k]
    {
      NumberedApart(prefix, from + j, from + k, width);
    }
  }

  /** The id after the largest number in use is not new when it is the seed's; each one after that is. */
  lemma NextIsClaimed(prefix: string, width: nat, names: seq<string>, top: nat, ids: set<string>, all: set<string>,
                      n: nat)
    requires Bounds(top, prefix, ids) && Claimed(names, all, prefix, top + 1, width, ids)
    requires n == top + 1 + |names| || (n == top && Numbered(prefix, top, width) in ids)
    ensures var next := Numbered(prefix, n, width);
      && (next !in all <==> n > top)
      && (n > top ==> Claimed(names + [next], all + {next}, prefix, top + 1, width, ids))
  {
    if n > top {
      NumberedIsNew(top, prefix, ids, n, width);
      forall k | 0 <= k < |names|
        ensures names[k] != Numbered(prefix, n, width)
      {
        NumberedApart(prefix, top + 1 + k, n, width);
      }
      MembersNext(names, Numbered(prefix, n, width));
    }
  }

  lemma MembersNext(names: seq<string>, next: string)
    ensures Members(names + [next]) == Members(names) + {next}
  {
    assert next == (names + [next])[|names|];
  }

  /**
   * The search for filler ids ends with the ids that follow the numbers in use: `top` is the largest of
   * these, a seed's by then if one was added after `mx` was found.
   */
  method FillerIds(need: nat, mx: nat, ghost top: nat, prefix: string, width: nat, ids: set<string>)
    returns (fillers: seq<string>, all: set<string>)
    requires Bounds(top, prefix, ids)
    requires top == mx || (top == mx + 1 && Numbered(prefix, top, width) in ids)
    ensures fillers == FillerNames(prefix, top + 1, width, need) && Fresh(fillers, prefix, ids)
    ensures all == ids + Members(fillers)
  {
    fillers, all := [], ids;
    var next: nat := mx + 1;
    while |fillers| < need
      invariant |fillers| <= need && Claimed(fillers, all, prefix, top + 1, width, ids)
      invariant next == top + 1 + |fillers| || (next == top == mx + 1 && fillers == [])
      decreases need - |fillers|, if next <= top then top + 1 - next else 0
    {
      var rid := Numbered(prefix, next, width);
      NextIsClaimed(prefix, width, fillers, top, ids, all, next);
      if rid !in all {
        fillers, all := fillers + [rid], all + {rid};
      }
      next := next + 1;
    }
    NamesAreFresh(prefix, top + 1, width, need, top, ids);
  }
}
