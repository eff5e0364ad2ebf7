/** The append-only log of a shard: `apps/shard_01/src/raftlog.rs`. */
module RaftLogs {
  import opened Prelude

  datatype Envelope<E> = Envelope(index: nat, ms: nat, entry: E)

  const RECENT_CAP := 200

  function MaxIndex<E>(lines: seq<Envelope<E>>): nat {
    if lines == [] then 0
    else
      var m, i := MaxIndex(lines[..|lines| - 1]), lines[|lines| - 1].index;
      if m < i then i else m
  }

  /** The index given to the next entry of a log with these lines. */
  function NextIndex<E>(lines: seq<Envelope<E>>): nat {
    SatAdd(MaxIndex(lines), 1)
  }

  function Entries<E>(lines: seq<Envelope<E>>): seq<E> {
    seq(|lines|, n requires 0 <= n < |lines| => lines[n].entry)
  }

  ghost predicate InRange<E>(lines: seq<Envelope<E>>) {
    forall n :: 0 <= n < |lines| ==> lines[n].index <= U64_MAX
  }

  ghost predicate Increasing<E>(lines: seq<Envelope<E>>) {
    forall m, n :: 0 <= m < n < |lines| ==> lines[m].index < lines[n].index
  }

  /** The largest index bounds every index, and `at` is where it is. */
  lemma {:induction false} MaxIndexBounds<E>(lines: seq<Envelope<E>>) returns (at: nat)
    ensures forall n :: 0 <= n < |lines| ==> lines[n].index <= MaxIndex(lines)
    ensures lines != [] ==> at < |lines| && lines[at].index == MaxIndex(lines)
  {
    at := 0;
    if lines != [] {
      var last := |lines| - 1;
      var before := MaxIndexBounds(lines[..last]);
      assert last > 0 ==> lines[..last][before] == lines[before];
      assert forall n :: 0 <= n < last ==> lines[..last][n] == lines[n];
      at := if lines[last].index == MaxIndex(lines) then last else before;
    }
  }

  /** A new entry's index is above every index in the log exactly when the counter has room. */
  lemma NextIndexIsNewIff<E>(lines: seq<Envelope<E>>)
    requires InRange(lines)
    ensures (forall n :: 0 <= n < |lines| ==> lines[n].index < NextIndex(lines)) <==> MaxIndex(lines) < U64_MAX
  {
    var at := MaxIndexBounds(lines);
  }

  /** Indices stay strictly increasing exactly while the counter has room. */
  lemma IncreasingIff<E>(lines: seq<Envelope<E>>, env: Envelope<E>)
    requires InRange(lines) && Increasing(lines) && env.index == NextIndex(lines)
    ensures Increasing(lines + [env]) <==> MaxIndex(lines) < U64_MAX
  {
    NextIndexIsNewIff(lines);
    var at := MaxIndexBounds(lines);
    if MaxIndex(lines) >= U64_MAX && lines != [] {
      assert (lines + [env])[at].index == (lines + [env])[|lines|].index;
    }
  }

  lemma AppendedIsLargest<E>(lines: seq<Envelope<E>>, env: Envelope<E>)
    requires InRange(lines) && env.index == NextIndex(lines)
    ensures InRange(lines + [env]) && MaxIndex(lines + [env]) == env.index
  {
    assert (lines + [env])[..|lines|] == lines;
    if lines != [] {
      var at := MaxIndexBounds(lines);
      assert lines[at].index <= U64_MAX;
    }
  }

  lemma NewestPops<T>(s: seq<T>, x: T, n: nat)
    requires n > 0
    ensures Newest(s + [x], n) == (if |Newest(s, n)| >= n then Newest(s, n)[1..] else Newest(s, n)) + [x]
    ensures |Newest(s, n)| <= n
  {
  }

  /** The file, which outlives the process. */
  class LogFile<E> {
    var lines: seq<Envelope<E>>

    constructor ()
      ensures lines == []
    {
      lines := [];
    }
  }

  class RaftLog<E> {
    const file: LogFile<E>
    var nextIndex: nat
    var recent: seq<Envelope<E>>

    /** The counter and the tail in memory are functions of the file alone. */
    ghost predicate Valid()
      reads this, file
    {
      InRange(file.lines) && nextIndex == NextIndex(file.lines) && recent == Newest(file.lines, RECENT_CAP)
    }

    constructor (file: LogFile<E>)
      ensures this.file == file && nextIndex == 1 && recent == []
    {
      this.file, nextIndex, recent := file, 1, [];
    }

    /** Opening a log, after any number of earlier runs, gives back every entry in order. */
    static method Open(file: LogFile<E>) returns (log: RaftLog<E>, replay: seq<Envelope<E>>)
      requires InRange(file.lines)
      ensures fresh(log) && log.file == file && log.Valid()
      ensures replay == file.lines
    {
      log := new RaftLog(file);
      replay := log.LoadReplay();
    }

    method LoadReplay() returns (out: seq<Envelope<E>>)
      requires InRange(file.lines) && recent == []
      modifies this
      ensures Valid() && out == file.lines
    {
      out := [];
      var max := 0;
      for n := 0 to |file.lines|
        invariant out == file.lines[..n] && max == MaxIndex(out) && recent == Newest(out, RECENT_CAP)
      {
        var env := file.lines[n];
        assert (out + [env])[..n] == out;
        if max < env.index {
          max := env.index;
        }
        PushRecent(env, out);
        out := out + [env];
        assert file.lines[..n + 1] == out;
      }
      assert file.lines[..|file.lines|] == file.lines;
      nextIndex := SatAdd(max, 1);
    }

    method PushRecent(env: Envelope<E>, ghost before: seq<Envelope<E>>)
      requires recent == Newest(before, RECENT_CAP)
      modifies this`recent
      ensures recent == Newest(before + [env], RECENT_CAP)
    {
      NewestPops(before, env, RECENT_CAP);
      while |recent| >= RECENT_CAP
        invariant recent == (if |Newest(before, RECENT_CAP)| >= RECENT_CAP && |recent| < RECENT_CAP
                             then Newest(before, RECENT_CAP)[1..] else Newest(before, RECENT_CAP))
        decreases |recent|
      {
        recent := recent[1..];
      }
      recent := recent + [env];
    }

    method Append(ms: nat, entry: E) returns (env: Envelope<E>)
      requires Valid()
      modifies this, file
      ensures Valid()
      ensures env == Envelope(old(nextIndex), ms, entry)
      ensures old(MaxIndex(file.lines)) < U64_MAX ==> env.index == old(MaxIndex(file.lines)) + 1
      ensures file.lines == old(file.lines) + [env]
      ensures old(Increasing(file.lines)) ==> (Increasing(file.lines) <==> old(MaxIndex(file.lines)) < U64_MAX)
    {
      env := Envelope(nextIndex, ms, entry);
      nextIndex := SatAdd(nextIndex, 1);
      AppendedIsLargest(file.lines, env);
      if Increasing(file.lines) {
        IncreasingIff(file.lines, env);
      }
      PushRecent(env, file.lines);
      file.lines := file.lines + [env];
    }

    /** The last `n` lines, at least one and at most the tail kept in memory. */
    method RecentLines(n: nat) returns (out: seq<Envelope<E>>)
      requires Valid()
      ensures out == Newest(file.lines, if n < 1 then 1 else if n < 200 then n else 200)
    {
      var k := if n < 1 then 1 else n;
      if |recent| < k {
        k := |recent|;
      }
      out := recent[|recent| - k..];
    }
  }
}
