/** The scrollback ring on disk: `crates/slopmud/src/nearline.rs`. */
module Nearline {
  import opened Prelude
  import opened Names

  /** One record; `size` is the length of its line in the file, newline included. */
  datatype Record = Record(id: string, name: string, text: string, size: nat) {
    predicate Valid() {
      size >= 1
    }
  }

  function Bytes(seg: seq<Record>): nat {
    if seg == [] then 0 else Bytes(seg[..|seg| - 1]) + seg[|seg| - 1].size
  }

  function Flat(segs: seq<seq<Record>>): seq<Record> {
    if segs == [] then [] else Flat(segs[..|segs| - 1]) + segs[|segs| - 1]
  }

  function TotalBytes(segs: seq<seq<Record>>): nat {
    if segs == [] then 0 else TotalBytes(segs[..|segs| - 1]) + Bytes(segs[|segs| - 1])
  }

  /** A file that does not exist holds nothing. */
  function File(files: map<nat, seq<Record>>, seg: nat): seq<Record> {
    if seg in files then files[seg] else []
  }

  /** `x % m` for the values that occur: see `WrapIsMod`. */
  function Wrap(x: nat, m: nat): nat
    requires x < 2 * m
  {
    if x < m then x else x - m
  }

  lemma WrapIsMod(x: nat, m: nat)
    requires x < 2 * m
    ensures x % m == Wrap(x, m)
  {
    if x >= m {
      assert x == m + (x - m);
    }
  }

  /** The segments from oldest to newest: the one after `cur`, wrapping, comes first. */
  function Segments(files: map<nat, seq<Record>>, cur: nat, max: nat): seq<seq<Record>>
    requires cur < max
  {
    seq(max, i requires 0 <= i < max => File(files, Wrap(cur + 1 + i, max)))
  }

  /** Whether `rec` opens a new segment: the newest one is not empty and would grow too big. */
  predicate Rotates(newest: seq<Record>, rec: Record, segMax: nat) {
    SatAdd(Bytes(newest), rec.size) > segMax && Bytes(newest) > 0
  }

  /** The ring as a list of segments: a rotation forgets the oldest one. */
  function Appended(segs: seq<seq<Record>>, rec: Record, segMax: nat): seq<seq<Record>>
    requires segs != []
  {
    var last := |segs| - 1;
    if Rotates(segs[last], rec, segMax) then segs[1..] + [[rec]] else segs[..last] + [segs[last] + [rec]]
  }

  /** Segments fill up in order, and one was only left when the next record did not fit. */
  ghost predicate Packed(segs: seq<seq<Record>>, segMax: nat) {
    forall i :: 0 <= i < |segs| - 1 && segs[i] != [] ==>
      segs[i + 1] != [] && SatAdd(Bytes(segs[i]), segs[i + 1][0].size) > segMax
  }

  ghost predicate AllValid(segs: seq<seq<Record>>) {
    forall i, j :: 0 <= i < |segs| && 0 <= j < |segs[i]| ==> segs[i][j].Valid()
  }

  ghost predicate WithinBound(seg: seq<Record>, segMax: nat) {
    Bytes(seg) <= segMax || |seg| == 1
  }

  ghost predicate AllBounded(segs: seq<seq<Record>>, segMax: nat) {
    forall i :: 0 <= i < |segs| ==> WithinBound(segs[i], segMax)
  }

  /** The ring against the whole append history. */
  ghost predicate RingInv(segs: seq<seq<Record>>, history: seq<Record>, segMax: nat) {
    && segs != []
    && AllValid(segs)
    && IsSuffix(Flat(segs), history)
    && Packed(segs, segMax)
    && (|Flat(segs)| < |history| ==> segs[0] != [])
    && (segMax < U64_MAX ==> AllBounded(segs, segMax))
  }

  lemma FlatLast(segs: seq<seq<Record>>, seg: seq<Record>)
    ensures Flat(segs + [seg]) == Flat(segs) + seg
  {
    assert (segs + [seg])[..|segs|] == segs;
  }

  lemma {:induction false} FlatFirst(segs: seq<seq<Record>>)
    requires segs != []
    ensures Flat(segs) == segs[0] + Flat(segs[1..])
  {
    var n := |segs| - 1;
    if n > 0 {
      FlatFirst(segs[..n]);
      assert segs[..n][1..] == segs[1..][..n - 1];
    }
  }

  lemma BytesLast(seg: seq<Record>, rec: Record)
    ensures Bytes(seg + [rec]) == Bytes(seg) + rec.size
  {
    assert (seg + [rec])[..|seg|] == seg;
  }

  lemma {:induction false} EmptyIsZero(seg: seq<Record>)
    requires forall j :: 0 <= j < |seg| ==> seg[j].Valid()
    ensures Bytes(seg) == 0 <==> seg == []
    ensures seg != [] ==> Bytes(seg) >= seg[0].size
  {
    if seg != [] {
      EmptyIsZero(seg[..|seg| - 1]);
    }
  }

  lemma SuffixPush<T>(drop: seq<T>, a: seq<T>, b: seq<T>, x: T)
    requires IsSuffix(drop + a, b)
    ensures IsSuffix(a + [x], b + [x])
  {
    assert (b + [x])[|b| - |a|..] == b[|b| - |a|..] + [x];
    assert b[|b| - |drop + a|..][|drop|..] == b[|b| - |a|..];
  }

  /** A rotation loses the oldest segment and nothing else; otherwise nothing is lost. */
  lemma AppendedFlat(segs: seq<seq<Record>>, rec: Record, segMax: nat) returns (gone: seq<Record>, kept: seq<Record>)
    requires segs != []
    ensures gone == if Rotates(segs[|segs| - 1], rec, segMax) then segs[0] else []
    ensures Flat(segs) == gone + kept && Flat(Appended(segs, rec, segMax)) == kept + [rec]
  {
    var last := |segs| - 1;
    if Rotates(segs[last], rec, segMax) {
      gone, kept := segs[0], Flat(segs[1..]);
      FlatFirst(segs);
      FlatLast(segs[1..], [rec]);
    } else {
      gone, kept := [], Flat(segs);
      FlatLast(segs[..last], segs[last] + [rec]);
      assert kept == Flat(segs[..last]) + segs[last];
    }
  }

  lemma AppendedIsPacked(segs: seq<seq<Record>>, rec: Record, segMax: nat)
    requires segs != [] && AllValid(segs) && Packed(segs, segMax)
    ensures Packed(Appended(segs, rec, segMax), segMax)
  {
    var last := |segs| - 1;
    EmptyIsZero(segs[last]);
    var next: seq<seq<Record>> := Appended(segs, rec, segMax);
    forall i | 0 <= i < last && next[i] != []
      ensures next[i + 1] != [] && SatAdd(Bytes(next[i]), next[i + 1][0].size) > segMax
    {
      if Rotates(segs[last], rec, segMax) {
        assert next[i] == segs[i + 1];
        assert i + 1 < last ==> next[i + 1] == segs[i + 2];
      } else {
        assert next[i] == segs[i];
      }
    }
  }

  lemma AppendedIsBounded(segs: seq<seq<Record>>, rec: Record, segMax: nat)
    requires segs != [] && AllValid(segs) && segMax < U64_MAX
    requires AllBounded(segs, segMax)
    ensures AllBounded(Appended(segs, rec, segMax), segMax)
  {
    var last := |segs| - 1;
    EmptyIsZero(segs[last]);
    BytesLast(segs[last], rec);
  }

  /** Appending a record keeps the ring a suffix of the history, packed and within bounds. */
  lemma AppendedKeepsInv(segs: seq<seq<Record>>, history: seq<Record>, rec: Record, segMax: nat)
    requires RingInv(segs, history, segMax) && rec.Valid()
    ensures RingInv(Appended(segs, rec, segMax), history + [rec], segMax)
    ensures |Appended(segs, rec, segMax)| == |segs|
  {
    var gone, kept := AppendedFlat(segs, rec, segMax);
    SuffixPush(gone, kept, history, rec);
    AppendedIsPacked(segs, rec, segMax);
    if segMax < U64_MAX {
      AppendedIsBounded(segs, rec, segMax);
    }
    OldestStaysInUse(segs, history, rec, segMax);
    AppendedIsValid(segs, rec, segMax);
  }

  /** If anything has been forgotten after the append, the oldest segment is in use. */
  lemma OldestStaysInUse(segs: seq<seq<Record>>, history: seq<Record>, rec: Record, segMax: nat)
    requires segs != [] && Packed(segs, segMax) && |Flat(segs)| <= |history|
    requires |Flat(segs)| < |history| ==> segs[0] != []
    ensures |Flat(Appended(segs, rec, segMax))| < |history| + 1 ==> Appended(segs, rec, segMax)[0] != []
  {
    var gone, kept := AppendedFlat(segs, rec, segMax);
    assert gone != [] ==> gone == segs[0];
    if segs[0] != [] {
      NeverEmptyAgain(segs, rec, segMax);
    }
  }

  lemma AppendedIsValid(segs: seq<seq<Record>>, rec: Record, segMax: nat)
    requires segs != [] && AllValid(segs) && rec.Valid()
    ensures AllValid(Appended(segs, rec, segMax))
  {
    var next: seq<seq<Record>> := Appended(segs, rec, segMax);
    forall i, j | 0 <= i < |next| && 0 <= j < |next[i]| ensures next[i][j].Valid() {
      assert next[i][j] == rec || (exists k :: 0 <= k < |segs| && j < |segs[k]| && next[i][j] == segs[k][j]);
    }
  }

  /** Once the oldest segment is in use it stays so. */
  lemma NeverEmptyAgain(segs: seq<seq<Record>>, rec: Record, segMax: nat)
    requires segs != [] && Packed(segs, segMax) && segs[0] != []
    ensures Appended(segs, rec, segMax)[0] != []
  {
  }

  /** Two neighbouring segments that are both in use hold more than one full segment. */
  lemma PairIsFull(segs: seq<seq<Record>>, segMax: nat, i: nat)
    requires AllValid(segs) && Packed(segs, segMax) && i + 1 < |segs| && segs[i] != []
    ensures Bytes(segs[i]) + Bytes(segs[i + 1]) > segMax
  {
    EmptyIsZero(segs[i + 1]);
  }

  lemma {:induction false} AllInUse(segs: seq<seq<Record>>, segMax: nat, i: nat)
    requires Packed(segs, segMax) && i < |segs| && segs[0] != []
    ensures segs[i] != []
  {
    if i > 0 {
      AllInUse(segs, segMax, i - 1);
    }
  }

  lemma {:induction false} PairsAddUp(segs: seq<seq<Record>>, segMax: nat, pairs: nat)
    requires AllValid(segs) && Packed(segs, segMax) && 2 * pairs <= |segs| && segs != [] && segs[0] != []
    ensures TotalBytes(segs) >= pairs * segMax
    decreases pairs
  {
    if pairs > 0 {
      var n := |segs|;
      AllInUse(segs, segMax, n - 2);
      PairIsFull(segs, segMax, n - 2);
      var front := segs[..n - 2];
      assert segs[..n - 1][..n - 2] == front;
      assert TotalBytes(segs) == TotalBytes(front) + Bytes(segs[n - 2]) + Bytes(segs[n - 1]);
      if pairs > 1 {
        PairsAddUp(front, segMax, pairs - 1);
      }
      OneMoreTimes(pairs - 1, segMax);
    }
  }

  /** Once a record has been forgotten, about half the configured space is in use or more. */
  lemma RetainedSpace(segs: seq<seq<Record>>, history: seq<Record>, segMax: nat)
    requires RingInv(segs, history, segMax) && |Flat(segs)| < |history|
    ensures TotalBytes(segs) >= |segs| / 2 * segMax
  {
    PairsAddUp(segs, segMax, |segs| / 2);
  }

  /** The space in use never exceeds the configured space when single records fit a segment. */
  lemma {:induction false} UsedSpace(segs: seq<seq<Record>>, segMax: nat)
    requires forall i :: 0 <= i < |segs| ==> WithinBound(segs[i], segMax)
    requires forall i, j :: 0 <= i < |segs| && 0 <= j < |segs[i]| ==> segs[i][j].size <= segMax
    ensures TotalBytes(segs) <= |segs| * segMax
  {
    if segs != [] {
      var n := |segs| - 1;
      var last := segs[n];
      SegmentFits(last, segMax);
      UsedSpace(segs[..n], segMax);
      OneMoreTimes(n, segMax);
    }
  }

  lemma SegmentFits(seg: seq<Record>, segMax: nat)
    requires WithinBound(seg, segMax) && forall j :: 0 <= j < |seg| ==> seg[j].size <= segMax
    ensures Bytes(seg) <= segMax
  {
    if |seg| == 1 {
      BytesLast([], seg[0]);
      assert seg == [] + [seg[0]];
    }
  }

  lemma OneMoreTimes(n: nat, k: nat)
    ensures (n + 1) * k == n * k + k
  {
  }

  // The ring order.

  /** Starting the next file over shifts every segment one place older. */
  lemma RotateShifts(files: map<nat, seq<Record>>, cur: nat, max: nat, seg: seq<Record>)
    requires cur < max
    ensures var next := Wrap(cur + 1, max);
      Segments(files[next := seg], next, max) == Segments(files, cur, max)[1..] + [seg]
  {
    var next := Wrap(cur + 1, max);
    var a, b := Segments(files[next := seg], next, max), Segments(files, cur, max)[1..] + [seg];
    forall i | 0 <= i < max ensures a[i] == b[i] {
      assert a[i] == File(files[next := seg], Wrap(next + 1 + i, max));
      if i < max - 1 {
        assert b[i] == Segments(files, cur, max)[i + 1] == File(files, Wrap(cur + 1 + (i + 1), max));
        assert Wrap(next + 1 + i, max) == Wrap(cur + 1 + (i + 1), max) != next;
      } else {
        assert Wrap(next + 1 + i, max) == next;
      }
    }
  }

  lemma AppendInPlace(files: map<nat, seq<Record>>, cur: nat, max: nat, seg: seq<Record>)
    requires cur < max
    ensures Segments(files[cur := seg], cur, max) == Segments(files, cur, max)[..max - 1] + [seg]
    ensures Segments(files, cur, max)[max - 1] == File(files, cur)
  {
    var a, b := Segments(files[cur := seg], cur, max), Segments(files, cur, max)[..max - 1] + [seg];
    forall i | 0 <= i < max ensures a[i] == b[i] {
      assert Wrap(cur + 1 + i, max) == cur <==> i == max - 1;
      assert a[i] == File(files[cur := seg], Wrap(cur + 1 + i, max));
      assert i < max - 1 ==> b[i] == Segments(files, cur, max)[i] == File(files, Wrap(cur + 1 + i, max));
    }
    assert Wrap(cur + 1 + (max - 1), max) == cur;
  }

  /** The file operations of one append, seen on the list of segments. */
  lemma AppendMovesSegments(files: map<nat, seq<Record>>, cur: nat, max: nat, rec: Record, segMax: nat)
    requires cur < max
    ensures var next := Wrap(cur + 1, max);
      Appended(Segments(files, cur, max), rec, segMax)
      == if Rotates(File(files, cur), rec, segMax)
         then Segments(files[next := []][next := [] + [rec]], next, max)
         else Segments(files[cur := File(files, cur) + [rec]], cur, max)
  {
    var next := Wrap(cur + 1, max);
    RotateShifts(files, cur, max, [rec]);
    AppendInPlace(files, cur, max, File(files, cur) + [rec]);
    assert [] + [rec] == [rec];
    assert files[next := []][next := [rec]] == files[next := [rec]];
  }

  /** Both walks visit the segments of `Segments`, one forwards and one backwards. */
  lemma WalksAgree(cur: nat, max: nat, i: nat)
    requires cur < max && i < max
    ensures (cur + 1 + i) % max == Wrap(cur + 1 + i, max)
    ensures i % max == i && (cur + max - i) % max == Wrap(cur + 1 + (max - 1 - i), max)
  {
    WrapIsMod(cur + 1 + i, max);
    WrapIsMod(i, max);
    WrapIsMod(cur + max - i, max);
  }

  // Queries, over the retained records in append order.

  function Select(s: seq<Record>, p: Record -> bool): seq<Record> {
    if s == [] then []
    else Select(s[..|s| - 1], p) + if p(s[|s| - 1]) then [s[|s| - 1]] else []
  }

  lemma {:induction false} SelectSplits(a: seq<Record>, b: seq<Record>, p: Record -> bool)
    ensures Select(a + b, p) == Select(a, p) + Select(b, p)
  {
    if b == [] {
      assert a + b == a;
    } else {
      assert (a + b)[..|a + b| - 1] == a + b[..|b| - 1];
      SelectSplits(a, b[..|b| - 1], p);
    }
  }

  lemma {:induction false} FlatSplits(segs: seq<seq<Record>>, i: nat)
    requires i <= |segs|
    ensures Flat(segs) == Flat(segs[..i]) + Flat(segs[i..])
  {
    if i == |segs| {
      assert segs[..i] == segs;
    } else {
      var n := |segs| - 1;
      FlatSplits(segs[..n], i);
      assert segs[..n][..i] == segs[..i] && segs[..n][i..] == segs[i..][..n - i];
      assert segs[i..][n - i] == segs[n];
    }
  }

  /** What is selected are the records at some positions, in order, and those are the ones with the property. */
  ghost predicate Selects(selected: seq<Record>, s: seq<Record>, p: Record -> bool, at: seq<nat>) {
    && |selected| == |at|
    && (forall k :: 0 <= k < |at| ==> at[k] < |s| && p(s[at[k]]) && selected[k] == s[at[k]])
    && (forall j, k :: 0 <= j < k < |at| ==> at[j] < at[k])
    && (forall n :: 0 <= n < |s| && p(s[n]) ==> n in at)
  }

  lemma OneMoreSelected(selected: seq<Record>, s: seq<Record>, rec: Record, p: Record -> bool, at: seq<nat>)
    requires Selects(selected, s, p, at)
    ensures if p(rec) then Selects(selected + [rec], s + [rec], p, at + [|s|]) else Selects(selected, s + [rec], p, at)
  {
    if p(rec) {
      assert (at + [|s|])[|at|] == |s|;
    }
  }

  /** The selection takes each record that has the property, once and in order, and no other. */
  lemma {:induction false} SelectMeans(s: seq<Record>, p: Record -> bool) returns (at: seq<nat>)
    ensures Selects(Select(s, p), s, p, at)
  {
    if s == [] {
      at := [];
    } else {
      var last := |s| - 1;
      var front := SelectMeans(s[..last], p);
      assert s == s[..last] + [s[last]];
      OneMoreSelected(Select(s[..last], p), s[..last], s[last], p, front);
      at := if p(s[last]) then front + [last] else front;
    }
  }

  /** The selected records, newest first. */
  function Backwards(s: seq<Record>, p: Record -> bool): seq<Record> {
    if s == [] then []
    else (if p(s[|s| - 1]) then [s[|s| - 1]] else []) + Backwards(s[..|s| - 1], p)
  }

  lemma {:induction false} BackwardsSplits(a: seq<Record>, b: seq<Record>, p: Record -> bool)
    ensures Backwards(a + b, p) == Backwards(b, p) + Backwards(a, p)
  {
    if b == [] {
      assert a + b == a;
    } else {
      var last, init := b[|b| - 1], b[..|b| - 1];
      assert (a + b)[..|a + b| - 1] == a + init && (a + b)[|a + b| - 1] == last;
      BackwardsSplits(a, init, p);
      var head := if p(last) then [last] else [];
      assert Backwards(a + b, p) == head + (Backwards(init, p) + Backwards(a, p));
      assert Backwards(b, p) == head + Backwards(init, p);
    }
  }

  function Reverse<T>(s: seq<T>): (r: seq<T>)
    ensures |r| == |s| && forall k :: 0 <= k < |s| ==> r[k] == s[|s| - 1 - k]
  {
    if s == [] then [] else [s[|s| - 1]] + Reverse(s[..|s| - 1])
  }

  lemma ReverseLast<T>(s: seq<T>, x: T)
    ensures Reverse(s + [x]) == [x] + Reverse(s)
  {
    assert (s + [x])[..|s|] == s;
  }

  lemma {:induction false} BackwardsIsReverse(s: seq<Record>, p: Record -> bool)
    ensures Backwards(s, p) == Reverse(Select(s, p))
  {
    if s != [] {
      var n := |s| - 1;
      BackwardsIsReverse(s[..n], p);
      if p(s[n]) {
        ReverseLast(Select(s[..n], p), s[n]);
      } else {
        assert Select(s, p) == Select(s[..n], p);
        assert Backwards(s, p) == Backwards(s[..n], p);
      }
    }
  }

  /** The first `n` elements, or all of them when there are fewer. */
  function First<T>(s: seq<T>, n: nat): seq<T> {
    if |s| <= n then s else s[..n]
  }

  lemma ReverseFirst<T>(s: seq<T>, n: nat)
    ensures Reverse(First(Reverse(s), n)) == Newest(s, n)
  {
    var a, b := Reverse(First(Reverse(s), n)), Newest(s, n);
    assert |a| == |b|;
    forall k | 0 <= k < |a| ensures a[k] == b[k] {
    }
  }

  predicate Contains(s: string, q: string) {
    exists i :: 0 <= i <= |s| - |q| && q <= s[i..]
  }

  function Named(name: string): Record -> bool {
    (r: Record) => r.name == name
  }

  function Matching(name: string, query: string): Record -> bool {
    (r: Record) => r.name == name && Contains(Lower(r.text), query)
  }

  /** A record is searched for by its name, and by its text in any of ASCII's cases. */
  lemma MatchingMeans(name: string, query: string, r: Record)
    ensures Matching(name, query)(r) <==> r.name == name && IsPart(Lower(r.text), query)
  {
    ContainsIff(Lower(r.text), query);
  }

  /** The string is the query with something, or nothing, before it and behind it. */
  ghost predicate IsPart(s: string, query: string) {
    exists a, b :: s == a + query + b
  }

  lemma ContainsIff(s: string, query: string)
    ensures Contains(s, query) <==> IsPart(s, query)
  {
    if Contains(s, query) {
      var i :| 0 <= i <= |s| - |query| && query <= s[i..];
      assert s == s[..i] + query + s[i + |query|..];
    }
    if IsPart(s, query) {
      var a, b :| s == a + query + b;
      PartAt(s, a, query, b);
    }
  }

  lemma PartAt(s: string, a: string, query: string, b: string)
    requires s == a + query + b
    ensures Contains(s, query)
  {
    assert s[|a|..] == query + b;
    assert 0 <= |a| <= |s| - |query| && query <= s[|a|..];
  }

  lemma FirstIs<T>(s: seq<T>, n: nat)
    ensures First(s, n) <= s && |First(s, n)| == if |s| < n then |s| else n
  {
  }

  /** Position of the first record with the id. */
  function FirstAt(s: seq<Record>, id: string): (r: Option<nat>)
    ensures r.Some? ==> r.value < |s| && s[r.value].id == id
    ensures forall k :: 0 <= k < |s| && s[k].id == id ==> r.Some? && r.value <= k
  {
    if s == [] then None
    else
      var r := FirstAt(s[..|s| - 1], id);
      if r.Some? then r else if s[|s| - 1].id == id then Some(|s| - 1) else None
  }

  /** The record and its neighbours, when enough records follow it. */
  function Found(s: seq<Record>, id: string, ctx: nat): Option<(Record, seq<Record>)> {
    var at := FirstAt(s, id);
    if at.None? || at.value + ctx >= |s| then None
    else Some((s[at.value], s[if at.value < ctx then 0 else at.value - ctx..at.value + ctx + 1]))
  }

  lemma FirstAtIs(s: seq<Record>, id: string, n: nat)
    requires n < |s| && s[n].id == id && forall k :: 0 <= k < n ==> s[k].id != id
    ensures FirstAt(s, id) == Some(n)
  {
    assert FirstAt(s, id).Some? && FirstAt(s, id).value <= n;
    assert s[FirstAt(s, id).value].id == id;
  }

  /** A record found is the first with the id, with `ctx` records after it and as many before it, or all there are. */
  lemma FoundMeans(before: seq<Record>, rec: Record, after: seq<Record>, id: string, ctx: nat)
    requires rec.id == id && forall k :: 0 <= k < |before| ==> before[k].id != id
    ensures Found(before + [rec] + after, id, ctx)
         == if |after| < ctx then None else Some((rec, Newest(before, ctx) + [rec] + after[..ctx]))
  {
    var s := before + [rec] + after;
    assert s[|before|] == rec && forall k :: 0 <= k < |before| ==> s[k] == before[k];
    FirstAtIs(s, id, |before|);
    if |after| >= ctx {
      var lo := if |before| < ctx then 0 else |before| - ctx;
      Across(before, rec, after, lo, ctx);
    }
  }

  lemma Across(before: seq<Record>, rec: Record, after: seq<Record>, lo: nat, n: nat)
    requires lo <= |before| && n <= |after|
    ensures (before + [rec] + after)[lo..|before| + n + 1] == before[lo..] + [rec] + after[..n]
  {
    var s, t := before + [rec] + after, before[lo..] + [rec] + after[..n];
    forall k | 0 <= k < |t|
      ensures s[lo..|before| + n + 1][k] == t[k]
    {
      assert s[lo..|before| + n + 1][k] == s[lo + k];
    }
  }

  /** Nothing is found when no record has the id. */
  lemma NotFound(s: seq<Record>, id: string, ctx: nat)
    requires forall k :: 0 <= k < |s| ==> s[k].id != id
    ensures Found(s, id, ctx) == None
  {
  }

  /** The state after a prefix of the records decides the answer once enough have followed the match. */
  lemma FoundEarly(a: seq<Record>, b: seq<Record>, id: string, ctx: nat)
    requires Found(a, id, ctx).Some?
    ensures Found(a + b, id, ctx) == Found(a, id, ctx)
  {
    FirstInPrefix(a, b, id);
    var at := FirstAt(a, id).value;
    var lo := if at < ctx then 0 else at - ctx;
    assert (a + b)[lo..at + ctx + 1] == a[lo..at + ctx + 1];
  }

  lemma FirstInPrefix(a: seq<Record>, b: seq<Record>, id: string)
    requires FirstAt(a, id).Some?
    ensures FirstAt(a + b, id) == FirstAt(a, id)
  {
    assert (a + b)[FirstAt(a, id).value].id == id;
    if FirstAt(a + b, id).value < |a| {
      assert a[FirstAt(a + b, id).value].id == id;
    }
  }

  /** What a context scan carries along: a window of predecessors, then the match and its neighbours. */
  datatype Scan = Scan(prev: seq<Record>, found: Option<Record>, context: seq<Record>, after: nat)

  function Advance(sc: Scan, rec: Record, want: string, ctx: nat): Scan {
    if sc.found.Some? then
      if sc.after > 0 then sc.(context := sc.context + [rec], after := sc.after - 1) else sc
    else if rec.id == want then Scan([], Some(rec), sc.prev + [rec], ctx)
    else if ctx > 0 then sc.(prev := Newest(sc.prev + [rec], ctx))
    else sc
  }

  predicate Decided(sc: Scan) {
    sc.found.Some? && sc.after == 0
  }

  /** The scan after the records `seen`, while the answer is still open. */
  ghost predicate Undecided(seen: seq<Record>, want: string, ctx: nat, sc: Scan) {
    var at := FirstAt(seen, want);
    if at.None? then sc == Scan(Newest(seen, ctx), None, [], 0)
    else
      && sc.found == Some(seen[at.value])
      && sc.context == seen[if at.value < ctx then 0 else at.value - ctx..]
      && sc.after > 0 && sc.after + |seen| == ctx + 1 + at.value
  }

  lemma FirstAtNext(seen: seq<Record>, rec: Record, want: string)
    ensures FirstAt(seen + [rec], want)
         == if FirstAt(seen, want).Some? then FirstAt(seen, want) else if rec.id == want then Some(|seen|) else None
  {
    assert (seen + [rec])[..|seen|] == seen;
  }

  lemma DropThenAppend<T>(s: seq<T>, lo: nat, x: T)
    requires lo <= |s|
    ensures s[lo..] + [x] == (s + [x])[lo..] == (s + [x])[lo..|s| + 1]
  {
  }

  lemma NewestNext<T>(s: seq<T>, x: T, n: nat)
    requires n > 0
    ensures Newest(Newest(s, n) + [x], n) == Newest(s + [x], n)
  {
  }

  /** One more record of the name keeps the scan right, and decides it when the last neighbour comes. */
  lemma AdvanceKeeps(seen: seq<Record>, sc: Scan, rec: Record, want: string, ctx: nat)
    requires Undecided(seen, want, ctx, sc)
    ensures var next := Advance(sc, rec, want, ctx);
      if Decided(next) then Found(seen + [rec], want, ctx) == Some((next.found.value, next.context))
      else Undecided(seen + [rec], want, ctx, next)
  {
    FirstAtNext(seen, rec, want);
    if FirstAt(seen, want).Some? {
      AdvanceAfterMatch(seen, sc, rec, want, ctx);
    } else if rec.id == want {
      AdvanceAtMatch(seen, sc, rec, want, ctx);
    } else if ctx > 0 {
      NewestNext(seen, rec, ctx);
    }
  }

  lemma AdvanceAfterMatch(seen: seq<Record>, sc: Scan, rec: Record, want: string, ctx: nat)
    requires Undecided(seen, want, ctx, sc) && FirstAt(seen, want).Some?
    ensures var next := Advance(sc, rec, want, ctx);
      if Decided(next) then Found(seen + [rec], want, ctx) == Some((next.found.value, next.context))
      else Undecided(seen + [rec], want, ctx, next)
  {
    FirstAtNext(seen, rec, want);
    var at := FirstAt(seen, want).value;
    WindowGrows(seen, sc, rec, ctx, at);
    if sc.after == 1 {
      LastNeighbour(seen, sc, rec, want, ctx, at);
    } else {
      StillOpen(seen + [rec], want, ctx, sc.(context := sc.context + [rec], after := sc.after - 1), at);
    }
  }

  lemma StillOpen(s: seq<Record>, want: string, ctx: nat, sc: Scan, at: nat)
    requires at < |s| && FirstAt(s, want) == Some(at) && sc.found == Some(s[at])
    requires sc.context == s[if at < ctx then 0 else at - ctx..] && sc.after > 0 && sc.after + |s| == ctx + 1 + at
    ensures Undecided(s, want, ctx, sc)
  {
  }

  lemma LastNeighbour(seen: seq<Record>, sc: Scan, rec: Record, want: string, ctx: nat, at: nat)
    requires at < |seen| && FirstAt(seen + [rec], want) == Some(at) && sc.found == Some((seen + [rec])[at])
    requires at + ctx + 1 == |seen + [rec]|
    requires sc.context + [rec] == (seen + [rec])[if at < ctx then 0 else at - ctx..at + ctx + 1]
    ensures Found(seen + [rec], want, ctx) == Some((sc.found.value, sc.context + [rec]))
  {
    FoundAt(seen + [rec], want, ctx, at);
  }

  lemma WindowGrows(seen: seq<Record>, sc: Scan, rec: Record, ctx: nat, at: nat)
    requires at < |seen| && sc.found == Some(seen[at]) && sc.context == seen[if at < ctx then 0 else at - ctx..]
    requires sc.after > 0 && sc.after + |seen| == ctx + 1 + at
    ensures var all, lo := seen + [rec], if at < ctx then 0 else at - ctx;
      && sc.found == Some(all[at]) && sc.context + [rec] == all[lo..]
      && (sc.after == 1 ==> at + ctx + 1 == |all| && sc.context + [rec] == all[lo..at + ctx + 1])
  {
    DropThenAppend(seen, if at < ctx then 0 else at - ctx, rec);
  }

  lemma FoundAt(s: seq<Record>, id: string, ctx: nat, at: nat)
    requires FirstAt(s, id) == Some(at) && at + ctx < |s|
    ensures Found(s, id, ctx) == Some((s[at], s[if at < ctx then 0 else at - ctx..at + ctx + 1]))
  {
  }

  lemma AdvanceAtMatch(seen: seq<Record>, sc: Scan, rec: Record, want: string, ctx: nat)
    requires Undecided(seen, want, ctx, sc) && FirstAt(seen, want).None? && rec.id == want
    ensures var next := Advance(sc, rec, want, ctx);
      if Decided(next) then Found(seen + [rec], want, ctx) == Some((next.found.value, next.context))
      else Undecided(seen + [rec], want, ctx, next)
  {
    FirstAtNext(seen, rec, want);
    DropThenAppend(seen, if |seen| < ctx then 0 else |seen| - ctx, rec);
  }

  /** Scans one segment forwards, after the records `older`, and stops when the answer is known. */
  method ScanForward(lines: seq<Record>, key: string, want: string, ctx: nat, scan: Scan, ghost older: seq<Record>)
    returns (out: Scan)
    requires Undecided(Select(older, Named(key)), want, ctx, scan)
    ensures if Decided(out)
            then Found(Select(older + lines, Named(key)), want, ctx) == Some((out.found.value, out.context))
            else Undecided(Select(older + lines, Named(key)), want, ctx, out)
  {
    out := scan;
    assert older + lines[..0] == older;
    for j := 0 to |lines|
      invariant Undecided(Select(older + lines[..j], Named(key)), want, ctx, out)
    {
      SelectNext(older, lines, j, Named(key));
      if lines[j].name == key {
        ghost var seen := Select(older + lines[..j], Named(key));
        AdvanceKeeps(seen, out, lines[j], want, ctx);
        out := Advance(out, lines[j], want, ctx);
        if Decided(out) {
          FoundEarly(seen + [lines[j]], Select(lines[j + 1..], Named(key)), want, ctx);
          return;
        }
      }
    }
    assert lines[..|lines|] == lines;
  }

  lemma SelectNext(older: seq<Record>, lines: seq<Record>, j: nat, p: Record -> bool)
    requires j < |lines|
    ensures var seen := Select(older + lines[..j], p);
      var next := if p(lines[j]) then seen + [lines[j]] else seen;
      Select(older + lines[..j + 1], p) == next && Select(older + lines, p) == next + Select(lines[j + 1..], p)
  {
    var seen := older + lines[..j];
    assert older + lines[..j + 1] == seen + [lines[j]];
    assert (seen + [lines[j]])[..|seen|] == seen;
    assert older + lines == (seen + [lines[j]]) + lines[j + 1..];
    SelectSplits(seen + [lines[j]], lines[j + 1..], p);
  }

  /** The segment that `oldest_to_newest` visits at step `i`. */
  method ReadUp(files: map<nat, seq<Record>>, cur: nat, max: nat, i: nat) returns (lines: seq<Record>)
    requires cur < max && i < max
    ensures lines == Segments(files, cur, max)[i]
  {
    WalksAgree(cur, max, i);
    lines := File(files, (cur + 1 + i) % max);
  }

  /** The segment that `newest_to_oldest` visits at step `i`. */
  method ReadDown(files: map<nat, seq<Record>>, cur: nat, max: nat, i: nat) returns (lines: seq<Record>)
    requires cur < max && i < max
    ensures lines == Segments(files, cur, max)[max - 1 - i]
  {
    WalksAgree(cur, max, i);
    lines := File(files, (cur + max - (i % max)) % max);
  }

  /** The walk over the segment files from oldest to newest. */
  method FindIn(files: map<nat, seq<Record>>, cur: nat, max: nat, key: string, want: string, ctx: nat)
    returns (r: Option<(Record, seq<Record>)>)
    requires cur < max
    ensures r == Found(Select(Flat(Segments(files, cur, max)), Named(key)), want, ctx)
  {
    ghost var segs := Segments(files, cur, max);
    var scan := Scan([], None, [], 0);
    for i := 0 to max
      invariant Undecided(Select(Flat(segs[..i]), Named(key)), want, ctx, scan)
    {
      FlatNext(segs, i);
      var lines := ReadUp(files, cur, max, i);
      scan := ScanForward(lines, key, want, ctx, scan, Flat(segs[..i]));
      if Decided(scan) {
        SelectSplits(Flat(segs[..i + 1]), Flat(segs[i + 1..]), Named(key));
        FoundEarly(Select(Flat(segs[..i + 1]), Named(key)), Select(Flat(segs[i + 1..]), Named(key)), want, ctx);
        return Some((scan.found.value, scan.context));
      }
    }
    assert segs[..max] == segs;
    r := None;
  }

  lemma FlatNext(segs: seq<seq<Record>>, i: nat)
    requires i < |segs|
    ensures Flat(segs[..i + 1]) == Flat(segs[..i]) + segs[i]
    ensures Flat(segs) == Flat(segs[..i + 1]) + Flat(segs[i + 1..]) == Flat(segs[..i]) + Flat(segs[i..])
    ensures Flat(segs[i..]) == segs[i] + Flat(segs[i + 1..])
  {
    assert segs[..i + 1][..i] == segs[..i];
    FlatSplits(segs, i);
    FlatSplits(segs, i + 1);
    FlatFirst(segs[i..]);
    assert segs[i..][1..] == segs[i + 1..];
  }

  /** Scans one segment backwards and adds its matches to `acc` until there are `limit` of them. */
  method ScanBack(lines: seq<Record>, p: Record -> bool, limit: nat, acc: seq<Record>) returns (out: seq<Record>)
    requires |acc| < limit
    ensures out == First(acc + Backwards(lines, p), limit)
  {
    out := acc;
    for j := |lines| downto 0
      invariant out == acc + Backwards(lines[j..], p) && |out| < limit
    {
      BackwardsNext(lines, j, p);
      if p(lines[j]) {
        out := out + [lines[j]];
        assert out == acc + Backwards(lines[j..], p);
        if |out| >= limit {
          BackwardsOfSuffix(lines, j, p);
          assert out <= acc + Backwards(lines, p);
          return;
        }
      }
    }
    assert lines[0..] == lines;
  }

  lemma BackwardsNext(lines: seq<Record>, j: nat, p: Record -> bool)
    requires j < |lines|
    ensures Backwards(lines[j..], p) == Backwards(lines[j + 1..], p) + if p(lines[j]) then [lines[j]] else []
  {
    assert lines[j..] == [lines[j]] + lines[j + 1..];
    BackwardsSplits([lines[j]], lines[j + 1..], p);
    BackwardsOne(lines[j], p);
  }

  lemma BackwardsOne(rec: Record, p: Record -> bool)
    ensures Backwards([rec], p) == if p(rec) then [rec] else []
  {
    assert [rec][..0] == [];
  }

  lemma BackwardsOfSuffix(lines: seq<Record>, j: nat, p: Record -> bool)
    requires j <= |lines|
    ensures Backwards(lines[j..], p) <= Backwards(lines, p)
  {
    assert lines == lines[..j] + lines[j..];
    BackwardsSplits(lines[..j], lines[j..], p);
  }

  /** The walk over the segment files from newest to oldest. */
  method Collect(files: map<nat, seq<Record>>, cur: nat, max: nat, p: Record -> bool, limit: nat)
    returns (out: seq<Record>)
    requires cur < max && limit > 0
    ensures out == First(Reverse(Select(Flat(Segments(files, cur, max)), p)), limit)
  {
    ghost var segs := Segments(files, cur, max);
    BackwardsIsReverse(Flat(segs), p);
    out := [];
    for i := 0 to max
      invariant out == Backwards(Flat(segs[max - i..]), p) && |out| < limit
    {
      FlatNext(segs, max - 1 - i);
      BackwardsSplits(segs[max - 1 - i], Flat(segs[max - i..]), p);
      var lines := ReadDown(files, cur, max, i);
      out := ScanBack(lines, p, limit, out);
      if |out| >= limit {
        BackwardsSplits(Flat(segs[..max - 1 - i]), Flat(segs[max - 1 - i..]), p);
        return;
      }
    }
    assert segs[0..] == segs;
  }

  method Following(cur: nat, max: nat) returns (next: nat)
    requires cur < max
    ensures next == Wrap(cur + 1, max)
  {
    WrapIsMod(cur + 1, max);
    next := (cur + 1) % max;
  }

  lemma SameFiles(a: map<nat, seq<Record>>, b: map<nat, seq<Record>>, cur: nat, max: nat)
    requires cur < max && forall seg :: File(a, seg) == File(b, seg)
    ensures Segments(a, cur, max) == Segments(b, cur, max)
  {
    forall i | 0 <= i < max ensures Segments(a, cur, max)[i] == Segments(b, cur, max)[i] {
      assert File(a, Wrap(cur + 1 + i, max)) == File(b, Wrap(cur + 1 + i, max));
    }
  }

  /** The body of the writer's loop: where the record goes, and the counters after it. */
  method WriteRecord(files: map<nat, seq<Record>>, cur: nat, bytes: nat, max: nat, segMax: nat, rec: Record)
    returns (files': map<nat, seq<Record>>, cur': nat, bytes': nat)
    requires cur < max && bytes == SatAdd(0, Bytes(File(files, cur)))
    ensures cur' < max && bytes' == SatAdd(0, Bytes(File(files', cur')))
    ensures Segments(files', cur', max) == Appended(Segments(files, cur, max), rec, segMax)
  {
    AppendMovesSegments(files, cur, max, rec, segMax);
    ghost var base := if Rotates(File(files, cur), rec, segMax) then [] else File(files, cur);
    CountNext(base, rec);
    files', cur', bytes' := files, cur, bytes;
    if SatAdd(bytes, rec.size) > segMax && bytes > 0 {
      cur' := Following(cur, max);
      files' := files'[cur' := []];
      bytes' := 0;
    }
    assert File(files', cur') == base && bytes' == SatAdd(0, Bytes(base));
    files' := files'[cur' := File(files', cur') + [rec]];
    bytes' := SatAdd(bytes', rec.size);
  }

  lemma CountNext(seg: seq<Record>, rec: Record)
    ensures SatAdd(SatAdd(0, Bytes(seg)), rec.size) == SatAdd(0, Bytes(seg + [rec]))
  {
    BytesLast(seg, rec);
  }

  lemma {:induction false} AllEmpty(segs: seq<seq<Record>>)
    requires forall i :: 0 <= i < |segs| ==> segs[i] == []
    ensures Flat(segs) == []
  {
    if segs != [] {
      AllEmpty(segs[..|segs| - 1]);
    }
  }

  lemma EmptyRing(segs: seq<seq<Record>>, segMax: nat)
    requires segs != [] && forall i :: 0 <= i < |segs| ==> segs[i] == []
    ensures RingInv(segs, [], segMax)
  {
    AllEmpty(segs);
  }

  /** The directory and its writer. */
  class Ring {
    const max: nat
    const segMax: nat
    var files: map<nat, seq<Record>>
    var meta: Option<nat>
    var curSeg: nat
    var curBytes: nat
    ghost var history: seq<Record>

    ghost predicate Valid()
      reads this
    {
      && curSeg < max
      && meta == Some(curSeg)
      && curBytes == SatAdd(0, Bytes(File(files, curSeg)))
      && RingInv(Segments(files, curSeg, max), history, segMax)
    }

    ghost function Segs(): seq<seq<Record>>
      requires curSeg < max
      reads this
    {
      Segments(files, curSeg, max)
    }

    ghost function Retained(): seq<Record>
      requires curSeg < max
      reads this
    {
      Flat(Segs())
    }

    /** A writer on an empty directory; zero segments and tiny segments are raised to the minimum. */
    constructor (maxSegments: nat, segmentMaxBytes: nat)
      ensures Valid() && history == []
      ensures max == (if maxSegments < 1 then 1 else maxSegments)
      ensures segMax == (if segmentMaxBytes < 256 then 256 else segmentMaxBytes)
    {
      max := if maxSegments < 1 then 1 else maxSegments;
      segMax := if segmentMaxBytes < 256 then 256 else segmentMaxBytes;
      files, meta, curSeg, curBytes := map[0 := []], Some(0), 0, 0;
      history := [];
      new;
      EmptyRing(Segs(), segMax);
    }

    /** A clean restart of the writer with the same configuration forgets nothing. */
    method Restart()
      requires Valid()
      modifies this
      ensures Valid() && Segs() == old(Segs()) && history == old(history)
    {
      var m := if meta.Some? then meta.value else 0;
      if m >= max {
        m := 0;
      }
      meta := Some(m);
      curSeg := m;
      CreateIfMissing(curSeg);
      SameFiles(old(files), files, curSeg, max);
      curBytes := SatAdd(0, Bytes(files[curSeg]));
    }

    /** Opening a segment's file creates it if there is none; its bytes are counted after. */
    method CreateIfMissing(seg: nat)
      modifies this`files
      ensures seg in files && forall s :: File(files, s) == File(old(files), s)
    {
      if seg !in files {
        files := files[seg := []];
      }
    }

    /** One record through `writer_task`. */
    method Append(rec: Record)
      requires Valid() && rec.Valid()
      modifies this
      ensures Valid()
      ensures Segs() == Appended(old(Segs()), rec, segMax)
      ensures history == old(history) + [rec]
    {
      AppendedKeepsInv(Segs(), history, rec, segMax);
      files, curSeg, curBytes := WriteRecord(files, curSeg, curBytes, max, segMax, rec);
      meta := Some(curSeg);
      history := history + [rec];
    }

    /** The last `n` retained records of a name, oldest first. */
    method LastN(name: string, n: nat) returns (out: seq<Record>)
      requires Valid()
      ensures out == if n == 0 || Trim(name) == "" then [] else Newest(Select(Retained(), Named(Trim(name))), n)
    {
      var key := Trim(name);
      if n == 0 || key == "" {
        return [];
      }
      out := Collect(files, meta.value, max, Named(key), n);
      ReverseFirst(Select(Retained(), Named(key)), n);
      out := Reverse(out);
    }

    /** The newest retained records of a name whose text contains the query in any case, newest first. */
    method Search(name: string, query: string, limit: nat) returns (out: seq<Record>)
      requires Valid()
      ensures out == if Trim(query) == "" || limit == 0 || Trim(name) == "" then []
                     else First(Reverse(Select(Retained(), Matching(Trim(name), Normal(query)))), limit)
    {
      var key := Trim(name);
      if Trim(query) == "" || limit == 0 || key == "" {
        return [];
      }
      out := Collect(files, meta.value, max, Matching(key, Normal(query)), limit);
    }

    /** The first retained record of a name with the id, and its neighbours of that name. */
    method FindWithContext(name: string, id: string, ctx: nat) returns (r: Option<(Record, seq<Record>)>)
      requires Valid()
      ensures r == if Trim(id) == "" || Trim(name) == "" then None
                   else Found(Select(Retained(), Named(Trim(name))), Trim(id), ctx)
    {
      if Trim(id) == "" || Trim(name) == "" {
        return None;
      }
      r := FindIn(files, meta.value, max, Trim(name), Trim(id), ctx);
    }
  }
}
