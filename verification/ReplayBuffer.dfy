/**
 * The output a web session keeps for the next websocket that attaches: `WebSessionState` in
 * `apps/slopmud_web/src/main.rs`.
 */
module ReplayBuffers {
  import opened Prelude
  import opened Streams

  const MAX_BYTES := 65536

  function Size(chunks: seq<seq<byte>>): nat {
    if chunks == [] then 0 else |chunks[0]| + Size(chunks[1..])
  }

  /** `b.split_off(b.len() - MAX_BYTES)` on a chunk that is too long. */
  function Tail(output: seq<byte>): seq<byte> {
    if |output| > MAX_BYTES then output[|output| - MAX_BYTES..] else output
  }

  /** What the buffer takes of one output: nothing of an empty one, the tail of an oversized one. */
  function Taken(output: seq<byte>): seq<seq<byte>> {
    if output == [] then [] else [Tail(output)]
  }

  function AllTaken(outputs: seq<seq<byte>>): seq<seq<byte>> {
    if outputs == [] then [] else AllTaken(outputs[..|outputs| - 1]) + Taken(outputs[|outputs| - 1])
  }

  /** `kept` is the end of `chunks`, fits in the buffer, and would not fit with one chunk more. */
  ghost predicate LongestThatFits(kept: seq<seq<byte>>, chunks: seq<seq<byte>>) {
    && IsSuffix(kept, chunks)
    && Size(kept) <= MAX_BYTES
    && (|kept| < |chunks| ==> Size(chunks[|chunks| - |kept| - 1..]) > MAX_BYTES)
  }

  lemma {:induction false} SizeSplits(a: seq<seq<byte>>, b: seq<seq<byte>>)
    ensures Size(a + b) == Size(a) + Size(b)
  {
    if a == [] {
      assert a + b == b;
    } else {
      assert (a + b)[1..] == a[1..] + b;
      SizeSplits(a[1..], b);
    }
  }

  lemma {:induction false} SizeIsLength(chunks: seq<seq<byte>>)
    ensures Size(chunks) == |Concat(chunks)|
  {
    if chunks != [] {
      SizeIsLength(chunks[1..]);
    }
  }

  /** Dropping chunks from the front never makes what is left larger. */
  lemma SuffixIsSmaller(chunks: seq<seq<byte>>, i: nat, j: nat)
    requires i <= j <= |chunks|
    ensures Size(chunks[j..]) <= Size(chunks[i..])
    ensures NonEmpty(chunks) && i < j ==> Size(chunks[j..]) < Size(chunks[i..])
  {
    assert chunks[i..] == chunks[i..j] + chunks[j..];
    SizeSplits(chunks[i..j], chunks[j..]);
  }

  /** The chunks kept are the longest suffix that fits: a suffix fits exactly when it is no longer. */
  lemma KeptIsLongest(kept: seq<seq<byte>>, chunks: seq<seq<byte>>, j: nat)
    requires LongestThatFits(kept, chunks) && j <= |chunks|
    ensures Size(chunks[j..]) <= MAX_BYTES <==> |chunks| - j <= |kept|
  {
    var from := |chunks| - |kept|;
    if j >= from {
      SuffixIsSmaller(chunks, from, j);
    } else {
      SuffixIsSmaller(chunks, j, from - 1);
    }
  }

  lemma SuffixOfSuffix<T>(tail: seq<T>, s: seq<T>, x: T, k: nat)
    requires IsSuffix(tail, s) && k <= |tail| + 1
    ensures (s + [x])[|s| - |tail| + k..] == (tail + [x])[k..]
  {
    assert s == s[..|s| - |tail|] + tail;
    assert s + [x] == s[..|s| - |tail|] + (tail + [x]);
  }

  /** Nothing dropped earlier is missed later: the longest suffix of what was kept is the longest of all. */
  lemma LongestNext(kept: seq<seq<byte>>, chunks: seq<seq<byte>>, c: seq<byte>, k: nat)
    requires LongestThatFits(kept, chunks) && k <= |kept| + 1
    requires Size((kept + [c])[k..]) <= MAX_BYTES
    requires k > 0 ==> Size((kept + [c])[k - 1..]) > MAX_BYTES
    ensures LongestThatFits((kept + [c])[k..], chunks + [c])
  {
    SuffixOfSuffix(kept, chunks, c, k);
    if k > 0 {
      SuffixOfSuffix(kept, chunks, c, k - 1);
    } else if |kept| < |chunks| {
      var from := |chunks| - |kept| - 1;
      assert (chunks + [c])[from..] == chunks[from..] + [c];
      SizeSplits(chunks[from..], [c]);
    }
  }

  lemma ConcatOfSuffix(all: seq<seq<byte>>, k: nat, total: seq<byte>)
    requires k <= |all| && IsSuffix(Concat(all), total)
    ensures IsSuffix(Concat(all[k..]), total)
  {
    assert all == all[..k] + all[k..];
    ConcatSplits(all[..k], all[k..]);
    var skip := |total| - |Concat(all)|;
    assert total == total[..skip] + (Concat(all[..k]) + Concat(all[k..]));
  }

  lemma SuffixGrows<T>(tail: seq<T>, s: seq<T>, more: seq<T>)
    requires IsSuffix(tail, s)
    ensures IsSuffix(tail + more, s + more)
  {
    assert s == s[..|s| - |tail|] + tail;
  }

  /** A chunk as large as the buffer leaves no room for any other. */
  lemma OversizedFillsBuffer(all: seq<seq<byte>>, k: nat)
    requires NonEmpty(all) && k < |all| && |all[|all| - 1]| == MAX_BYTES && Size(all[k..]) <= MAX_BYTES
    ensures k == |all| - 1
  {
    SuffixIsSmaller(all, k, |all| - 1);
    assert all[|all| - 1..] == [all[|all| - 1]];
  }

  /** When all the output fits, nothing is cut. */
  lemma {:induction false} NothingCut(outputs: seq<seq<byte>>)
    requires |Concat(outputs)| <= MAX_BYTES
    ensures Concat(AllTaken(outputs)) == Concat(outputs)
  {
    if outputs != [] {
      var n := |outputs| - 1;
      ConcatNext(outputs, n);
      assert outputs[..n + 1] == outputs;
      NothingCut(outputs[..n]);
      ConcatSplits(AllTaken(outputs[..n]), Taken(outputs[n]));
      TakenWhole(outputs[n]);
    }
  }

  lemma AllTakenNext(before: seq<seq<byte>>, output: seq<byte>)
    ensures AllTaken(before + [output]) == AllTaken(before) + Taken(output)
    ensures Concat(before + [output]) == Concat(before) + output
  {
    assert (before + [output])[..|before|] == before;
    ConcatSplits(before, [output]);
    assert Concat([output]) == output + Concat([]);
  }

  lemma TakenWhole(output: seq<byte>)
    requires |output| <= MAX_BYTES
    ensures Concat(Taken(output)) == output
  {
    assert output != [] ==> Concat([output]) == output + Concat([]);
  }

  /** Whatever is dropped to fit one more output, the chunks left join to the end of all the output. */
  lemma KeptText(kept: seq<seq<byte>>, k: nat, before: seq<byte>, output: seq<byte>)
    requires NonEmpty(kept) && IsSuffix(Concat(kept), before)
    requires k <= |kept| && Size((kept + [Tail(output)])[k..]) <= MAX_BYTES
    ensures IsSuffix(Concat((kept + [Tail(output)])[k..]), before + output)
  {
    if |output| > MAX_BYTES {
      OversizedFillsBuffer(kept + [Tail(output)], k);
      OversizedText(kept, before, output);
    } else {
      AppendedText(kept, before, output);
      ConcatOfSuffix(kept + [output], k, before + output);
    }
  }

  lemma ConcatOne(b: seq<byte>)
    ensures Concat([b]) == b
  {
    assert b + Concat([]) == b;
  }

  lemma OversizedText(kept: seq<seq<byte>>, before: seq<byte>, output: seq<byte>)
    requires |output| > MAX_BYTES
    ensures IsSuffix(Concat((kept + [Tail(output)])[|kept|..]), before + output)
  {
    assert (kept + [Tail(output)])[|kept|..] == [Tail(output)];
    ConcatOne(Tail(output));
  }

  lemma AppendedText(kept: seq<seq<byte>>, before: seq<byte>, output: seq<byte>)
    requires IsSuffix(Concat(kept), before)
    ensures IsSuffix(Concat(kept + [output]), before + output)
  {
    ConcatSplits(kept, [output]);
    ConcatOne(output);
    SuffixGrows(Concat(kept), before, output);
  }

  /** `kept` is what the buffer should hold after these outputs. */
  ghost predicate Replays(kept: seq<seq<byte>>, outputs: seq<seq<byte>>) {
    && NonEmpty(kept)
    && LongestThatFits(kept, AllTaken(outputs))
    && IsSuffix(Concat(kept), Concat(outputs))
  }

  /** What is kept is all the output exactly when all of it fits. */
  lemma WholeIff(kept: seq<seq<byte>>, outputs: seq<seq<byte>>)
    requires Replays(kept, outputs)
    ensures Concat(kept) == Concat(outputs) <==> |Concat(outputs)| <= MAX_BYTES
  {
    SizeIsLength(kept);
    if |Concat(outputs)| <= MAX_BYTES {
      NothingCut(outputs);
      SizeIsLength(AllTaken(outputs));
      KeptIsLongest(kept, AllTaken(outputs), 0);
      assert AllTaken(outputs)[0..] == AllTaken(outputs);
    }
  }

  lemma LastChunkFits(kept: seq<seq<byte>>, chunks: seq<seq<byte>>, c: seq<byte>)
    requires LongestThatFits(kept, chunks + [c]) && |c| <= MAX_BYTES
    ensures kept != []
  {
    assert (chunks + [c])[|chunks|..] == [c];
    SizeOne(c);
  }

  /** The last output is always kept, or its tail. */
  lemma LastIsKept(kept: seq<seq<byte>>, before: seq<seq<byte>>, output: seq<byte>)
    requires LongestThatFits(kept, AllTaken(before + [output])) && output != []
    ensures kept != []
  {
    AllTakenNext(before, output);
    assert Taken(output) == [Tail(output)];
    LastChunkFits(kept, AllTaken(before), Tail(output));
  }

  lemma SizeOne(b: seq<byte>)
    ensures Size([b]) == |b|
  {
    assert Size([b]) == |b| + Size([]);
  }

  /** Chunks are dropped from the front until the rest fits. */
  function Dropped(chunks: seq<seq<byte>>): seq<seq<byte>> {
    if Size(chunks) <= MAX_BYTES then chunks else Dropped(chunks[1..])
  }

  /** The buffer after one more output. */
  function Pushed(kept: seq<seq<byte>>, output: seq<byte>): seq<seq<byte>> {
    if output == [] then kept else Dropped(kept + [Tail(output)])
  }

  lemma {:induction false} DroppedAt(all: seq<seq<byte>>) returns (k: nat)
    ensures k <= |all| && Dropped(all) == all[k..] && Size(all[k..]) <= MAX_BYTES
    ensures k > 0 ==> Size(all[k - 1..]) > MAX_BYTES
  {
    if Size(all) <= MAX_BYTES {
      k := 0;
      assert all[0..] == all;
    } else {
      var j := DroppedAt(all[1..]);
      k := j + 1;
      assert all[1..][j..] == all[k..];
      assert if j > 0 then all[1..][j - 1..] == all[k - 1..] else all[k - 1..] == all;
    }
  }

  /** The chunk pushed last always fits. */
  lemma LastStays(kept: seq<seq<byte>>, b: seq<byte>, k: nat)
    requires |b| <= MAX_BYTES && k <= |kept| + 1
    requires k > 0 ==> Size((kept + [b])[k - 1..]) > MAX_BYTES
    ensures k <= |kept|
  {
    assert (kept + [b])[|kept|..] == [b];
    assert Size([b]) == |b| + Size([]);
  }

  /** An empty output changes nothing. */
  lemma ReplaysEmpty(kept: seq<seq<byte>>, before: seq<seq<byte>>)
    requires Replays(kept, before)
    ensures Replays(kept, before + [[]])
  {
    AllTakenNext(before, []);
    assert AllTaken(before + [[]]) == AllTaken(before);
    assert Concat(before + [[]]) == Concat(before);
  }

  lemma ReplaysNext(before: seq<seq<byte>>, output: seq<byte>, next: seq<seq<byte>>)
    requires output != [] && NonEmpty(next) && LongestThatFits(next, AllTaken(before) + [Tail(output)])
    requires IsSuffix(Concat(next), Concat(before) + output)
    ensures Replays(next, before + [output])
  {
    AllTakenNext(before, output);
    assert Taken(output) == [Tail(output)];
  }

  /** Where pushing a chunk cuts the buffer. */
  lemma PushedAt(kept: seq<seq<byte>>, output: seq<byte>) returns (k: nat)
    requires output != []
    ensures var all := kept + [Tail(output)];
      && k <= |kept| && Pushed(kept, output) == all[k..]
      && Size(all[k..]) <= MAX_BYTES && (k > 0 ==> Size(all[k - 1..]) > MAX_BYTES)
  {
    k := DroppedAt(kept + [Tail(output)]);
    LastStays(kept, Tail(output), k);
  }

  /** The old chunks from the `k`th on and the output fit, and would not with one chunk more. */
  ghost predicate KeptFrom(next: seq<seq<byte>>, kept: seq<seq<byte>>, output: seq<byte>, k: nat) {
    && k <= |kept| && next == kept[k..] + [output] && |Concat(next)| <= 65536
    && (k > 0 ==> |Concat(kept[k - 1..])| + |output| > 65536)
  }

  /**
   * What is left after an output, in terms of the bytes: of an output of 64 KiB or more its last 64 KiB
   * alone, and else the output behind as many of the last chunks as fit beside it.
   */
  lemma PushedMeans(kept: seq<seq<byte>>, output: seq<byte>)
    requires NonEmpty(kept)
    ensures output == [] ==> Pushed(kept, output) == kept
    ensures |output| >= 65536 ==> Pushed(kept, output) == [output[|output| - 65536..]]
    ensures 0 < |output| <= 65536 ==> exists k :: KeptFrom(Pushed(kept, output), kept, output, k)
  {
    if output != [] {
      var k := PushedAt(kept, output);
      var all, next := kept + [Tail(output)], Pushed(kept, output);
      if |output| >= 65536 {
        assert NonEmpty(all);
        OversizedFillsBuffer(all, k);
        assert all[|kept|..] == [Tail(output)];
      }
      if |output| <= 65536 {
        KeptAt(kept, output, k);
        assert KeptFrom(next, kept, output, k);
      }
    }
  }

  lemma KeptAt(kept: seq<seq<byte>>, b: seq<byte>, k: nat)
    requires k <= |kept|
    ensures (kept + [b])[k..] == kept[k..] + [b] && |Concat(kept[k..] + [b])| == Size((kept + [b])[k..])
    ensures k > 0 ==> |Concat(kept[k - 1..])| + |b| == Size((kept + [b])[k - 1..])
  {
    SizeIsLength(kept[k..] + [b]);
    if k > 0 {
      SizeIsLength(kept[k - 1..]);
      SizeSplits(kept[k - 1..], [b]);
      SizeOne(b);
      assert (kept + [b])[k - 1..] == kept[k - 1..] + [b];
    }
  }

  lemma NonEmptyEnd(chunks: seq<seq<byte>>, b: seq<byte>, k: nat)
    requires NonEmpty(chunks) && b != [] && k <= |chunks|
    ensures NonEmpty((chunks + [b])[k..])
  {
  }

  /** Pushing an output keeps the buffer right. */
  lemma PushedReplays(kept: seq<seq<byte>>, before: seq<seq<byte>>, output: seq<byte>)
    requires Replays(kept, before)
    ensures Replays(Pushed(kept, output), before + [output])
  {
    if output == [] {
      ReplaysEmpty(kept, before);
    } else {
      PushedChunkReplays(kept, before, output);
    }
  }

  lemma PushedChunkReplays(kept: seq<seq<byte>>, before: seq<seq<byte>>, output: seq<byte>)
    requires Replays(kept, before) && output != []
    ensures Replays(Pushed(kept, output), before + [output])
  {
    var k := PushedAt(kept, output);
    var b, next := Tail(output), Pushed(kept, output);
    LongestNext(kept, AllTaken(before), b, k);
    KeptText(kept, k, Concat(before), output);
    NonEmptyEnd(kept, b, k);
    assert NonEmpty(next) && LongestThatFits(next, AllTaken(before) + [b]);
    assert IsSuffix(Concat(next), Concat(before) + output);
    ReplaysNext(before, output, next);
  }

  class ReplayBuffer {
    var buffer: seq<seq<byte>>
    var bufferBytes: nat
    ghost var outputs: seq<seq<byte>>

    /**
     * The buffer is the longest suffix that fits, its chunks join to the last bytes of everything
     * that was output, and the counter is their number.
     */
    ghost predicate Valid()
      reads this
    {
      && bufferBytes == Size(buffer) <= MAX_BYTES
      && Replays(buffer, outputs)
    }

    constructor ()
      ensures Valid() && outputs == []
    {
      buffer, bufferBytes, outputs := [], 0, [];
    }

    method Push(output: seq<byte>)
      requires Valid()
      modifies this
      ensures Valid() && outputs == old(outputs) + [output]
      ensures output == [] ==> buffer == old(buffer)
      ensures |output| >= 65536 ==> buffer == [output[|output| - 65536..]]
      ensures 0 < |output| <= 65536 ==> exists k :: KeptFrom(buffer, old(buffer), output, k)
      ensures buffer == Pushed(old(buffer), output)
    {
      PushedReplays(buffer, outputs, output);
      PushedMeans(buffer, output);
      PushChunk(output);
      outputs := outputs + [output];
    }

    method PushChunk(output: seq<byte>)
      requires bufferBytes == Size(buffer) <= MAX_BYTES
      modifies this`buffer, this`bufferBytes
      ensures buffer == Pushed(old(buffer), output) && bufferBytes == Size(buffer) <= MAX_BYTES
    {
      if output == [] {
        return;
      }
      var b := output;
      if |b| > MAX_BYTES {
        b := b[|b| - MAX_BYTES..];
      }
      TrimTo(b);
    }

    /** Appends a chunk, then drops chunks from the front until the rest fits. */
    method TrimTo(b: seq<byte>)
      requires |b| <= MAX_BYTES && bufferBytes == Size(buffer) <= MAX_BYTES
      modifies this`buffer, this`bufferBytes
      ensures buffer == Dropped(old(buffer) + [b]) && bufferBytes == Size(buffer) <= MAX_BYTES
    {
      SizeSplits(buffer, [b]);
      assert Size([b]) == |b| + Size([]);
      bufferBytes := SatAdd(bufferBytes, |b|);
      buffer := buffer + [b];
      while bufferBytes > MAX_BYTES
        invariant bufferBytes == Size(buffer) && Dropped(buffer) == Dropped(old(buffer) + [b])
        decreases |buffer|
      {
        var front := buffer[0];
        buffer := buffer[1..];
        bufferBytes := bufferBytes - |front|;
      }
    }

    /** What a websocket that attaches is sent first: all the output exactly when all of it fits. */
    method Snapshot() returns (chunks: seq<seq<byte>>)
      requires Valid()
      ensures chunks == buffer
      ensures IsSuffix(Concat(chunks), Concat(outputs)) && |Concat(chunks)| <= 65536
      ensures Concat(chunks) == Concat(outputs) <==> |Concat(outputs)| <= 65536
    {
      chunks := buffer;
      SizeIsLength(buffer);
      WholeIff(buffer, outputs);
    }
  }
}
