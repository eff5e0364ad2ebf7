/**
 * Replicating a map from a snapshot and a stream of per-key changes.
 *
 * A change sets one key, deletes one key or concerns something else. `log` holds all
 * changes in the order the leader made them; a replica starts from the leader's map after
 * `snap` changes and then receives the changes at positions `got`, in that order.
 */
module KeyedLog {
  import opened Prelude

  datatype Op<K, V> = Put(key: K, value: V) | Del(key: K) | Skip

  function KeyOf<K, V>(op: Op<K, V>): Option<K> {
    match op
    case Put(k, _) => Some(k)
    case Del(k) => Some(k)
    case Skip => None
  }

  function Keys<K, V>(log: seq<Op<K, V>>): seq<Option<K>> {
    seq(|log|, n requires 0 <= n < |log| => KeyOf(log[n]))
  }

  function Apply<K, V>(m: map<K, V>, op: Op<K, V>): map<K, V> {
    match op
    case Put(k, v) => m[k := v]
    case Del(k) => m - {k}
    case Skip => m
  }

  function Replay<K, V>(m: map<K, V>, ops: seq<Op<K, V>>): map<K, V> {
    if ops == [] then m else Apply(Replay(m, ops[..|ops| - 1]), ops[|ops| - 1])
  }

  lemma {:induction false} ReplayAppend<K, V>(m: map<K, V>, a: seq<Op<K, V>>, b: seq<Op<K, V>>)
    ensures Replay(m, a + b) == Replay(Replay(m, a), b)
  {
    if b == [] {
      assert a + b == a;
    } else {
      var n := |b| - 1;
      assert (a + b)[..|a + b| - 1] == a + b[..n];
      ReplayAppend(m, a, b[..n]);
    }
  }

  /** The received changes, in order of receipt. */
  function Pick<T>(log: seq<T>, got: seq<nat>): seq<T>
    requires Within(got, |log|)
  {
    seq(|got|, p requires 0 <= p < |got| => log[got[p]])
  }

  predicate Within(got: seq<nat>, n: nat) {
    forall p :: 0 <= p < |got| ==> got[p] < n
  }

  /** Position of the last element equal to `Some(k)`, if any. */
  function LastAt<K(==)>(keys: seq<Option<K>>, k: K): (r: Option<nat>)
    ensures r.Some? ==> r.value < |keys| && keys[r.value] == Some(k)
    ensures forall n :: 0 <= n < |keys| && keys[n] == Some(k) ==> r.Some? && n <= r.value
  {
    if keys == [] then None
    else if keys[|keys| - 1] == Some(k) then Some(|keys| - 1)
    else LastAt(keys[..|keys| - 1], k)
  }

  function Effect<K, V>(op: Op<K, V>): Option<V> {
    if op.Put? then Some(op.value) else None
  }

  /** What replay leaves at a key is decided by the last change to that key. */
  lemma {:induction false} ReplayAt<K, V>(m: map<K, V>, ops: seq<Op<K, V>>, k: K)
    ensures Get(Replay(m, ops), k)
         == var last := LastAt(Keys(ops), k); if last.Some? then Effect(ops[last.value]) else Get(m, k)
  {
    if ops != [] {
      var n := |ops| - 1;
      assert Keys(ops)[..n] == Keys(ops[..n]);
      ReplayAt(m, ops[..n], k);
    }
  }

  /** A key that no change concerns keeps what it had. */
  lemma ReplayLeavesAlone<K, V>(m: map<K, V>, ops: seq<Op<K, V>>, k: K)
    requires Some(k) !in Keys(ops)
    ensures Get(Replay(m, ops), k) == Get(m, k)
  {
    ReplayAt(m, ops, k);
  }

  lemma SameLookups<K, V>(a: map<K, V>, b: map<K, V>)
    requires forall k :: Get(a, k) == Get(b, k)
    ensures a == b
  {
    forall k ensures k in a <==> k in b
    ensures k in a && k in b ==> a[k] == b[k] {
      assert Get(a, k) == Get(b, k);
    }
  }

  /** The newest change to `k` among those received is the newest there is; or the snapshot has it. */
  ghost predicate NewestArrives<K(!new)>(keys: seq<Option<K>>, snap: nat, got: seq<nat>, k: K)
    requires Within(got, |keys|)
  {
    var newest, seen := LastAt(keys, k), LastAt(Pick(keys, got), k);
    if seen.Some? then newest == Some(got[seen.value]) else newest.Some? ==> newest.value < snap
  }

  ghost predicate Delivered<K(!new)>(keys: seq<Option<K>>, snap: nat, got: seq<nat>)
    requires Within(got, |keys|)
  {
    forall k :: NewestArrives(keys, snap, got, k)
  }

  ghost predicate Converges<K, V>(m: map<K, V>, log: seq<Op<K, V>>, snap: nat, got: seq<nat>)
    requires snap <= |log| && Within(got, |log|)
  {
    Replay(Replay(m, log[..snap]), Pick(log, got)) == Replay(m, log)
  }

  lemma DeliveredConverges<K(!new), V>(m: map<K, V>, log: seq<Op<K, V>>, snap: nat, got: seq<nat>)
    requires snap <= |log| && Within(got, |log|)
    requires Delivered(Keys(log), snap, got)
    ensures Converges(m, log, snap, got)
  {
    var base := Replay(m, log[..snap]);
    forall k
      ensures Get(Replay(base, Pick(log, got)), k) == Get(Replay(m, log), k)
    {
      assert NewestArrives(Keys(log), snap, got, k);
      assert Keys(Pick(log, got)) == Pick(Keys(log), got);
      ReplayAt(base, Pick(log, got), k);
      ReplayAt(m, log, k);
      ReplayAt(m, log[..snap], k);
      assert Keys(log[..snap]) == Keys(log)[..snap];
      if LastAt(Pick(Keys(log), got), k).None? {
        LastInPrefix(Keys(log), snap, k);
      }
    }
    SameLookups(Replay(base, Pick(log, got)), Replay(m, log));
  }

  lemma LastInPrefix<K>(keys: seq<Option<K>>, snap: nat, k: K)
    requires snap <= |keys|
    requires LastAt(keys, k).Some? ==> LastAt(keys, k).value < snap
    ensures LastAt(keys[..snap], k) == LastAt(keys, k)
  {
    var whole, part := LastAt(keys, k), LastAt(keys[..snap], k);
    if part.Some? {
      assert keys[part.value] == Some(k);
    }
    if whole.Some? {
      assert keys[..snap][whole.value] == Some(k);
    }
  }

  /** A log with the given keys that sets only position `at` and deletes everywhere else. */
  ghost function OnePut<K, V>(keys: seq<Option<K>>, at: nat, v: V): seq<Op<K, V>> {
    seq(|keys|, n requires 0 <= n < |keys| =>
      if keys[n].None? then Skip else if n == at then Put(keys[n].value, v) else Del(keys[n].value))
  }

  /**
   * A delivery pattern brings the replica to the leader's map whatever the changes contain
   * exactly when the newest change to each key arrives last or was already in the snapshot.
   */
  lemma ConvergesIffDelivered<K(!new), V(!new)>(keys: seq<Option<K>>, snap: nat, got: seq<nat>, v: V)
    requires snap <= |keys| && Within(got, |keys|)
    ensures Delivered(keys, snap, got)
       <==> forall m: map<K, V>, log: seq<Op<K, V>> :: Keys(log) == keys ==> Converges(m, log, snap, got)
  {
    if Delivered(keys, snap, got) {
      forall m: map<K, V>, log: seq<Op<K, V>> | Keys(log) == keys
        ensures Converges(m, log, snap, got)
      {
        DeliveredConverges(m, log, snap, got);
      }
    } else {
      var k :| !NewestArrives(keys, snap, got, k);
      var log := MissedLog(keys, snap, got, k, v);
      assert !Converges(map[], log, snap, got);
    }
  }

  /** When the newest change to `k` is missed, setting `k` there and nowhere else shows it. */
  lemma MissedLog<K(!new), V>(keys: seq<Option<K>>, snap: nat, got: seq<nat>, k: K, v: V) returns (log: seq<Op<K, V>>)
    requires snap <= |keys| && Within(got, |keys|)
    requires !NewestArrives(keys, snap, got, k)
    ensures Keys(log) == keys && !Converges(map[], log, snap, got)
  {
    var newest, seen := LastAt(keys, k), LastAt(Pick(keys, got), k);
    assert seen.Some? ==> keys[got[seen.value]] == Some(k);
    log := OnePut(keys, newest.value, v);
    assert Keys(log) == keys;
    var base := Replay(map[], log[..snap]);
    assert Keys(Pick(log, got)) == Pick(keys, got) && Keys(log[..snap]) == keys[..snap];
    ReplayAt(map[], log, k);
    assert Get(Replay(map[], log), k) == Some(v);
    ReplayAt(map[], log[..snap], k);
    ReplayAt(base, Pick(log, got), k);
    assert Get(Replay(base, Pick(log, got)), k) == None;
  }

  /** `got` covers positions `from..` and keeps changes to one key in order; repeats are allowed. */
  ghost predicate KeyOrderedFrom<K>(keys: seq<Option<K>>, from: nat, got: seq<nat>) {
    && (forall p :: 0 <= p < |got| ==> from <= got[p] < |keys|)
    && (forall n :: from <= n < |keys| ==> n in got)
    && (forall p, q :: 0 <= p < q < |got| && keys[got[p]] == keys[got[q]] && keys[got[p]].Some? ==> got[p] <= got[q])
  }

  /** Overlapping the snapshot is harmless, and so is any order that keeps each key's own order. */
  lemma KeyOrderIsDelivered<K(!new)>(keys: seq<Option<K>>, from: nat, snap: nat, got: seq<nat>)
    requires from <= snap <= |keys| && KeyOrderedFrom(keys, from, got)
    ensures Within(got, |keys|) && Delivered(keys, snap, got)
  {
    forall k ensures NewestArrives(keys, snap, got, k) {
      var newest, seen := LastAt(keys, k), LastAt(Pick(keys, got), k);
      if newest.Some? && from <= newest.value {
        assert newest.value in got;
        var p :| 0 <= p < |got| && got[p] == newest.value;
        assert Pick(keys, got)[p] == Some(k);
        assert seen.Some? && p <= seen.value && keys[got[seen.value]] == Some(k);
      }
    }
  }

  function TailFrom(from: nat, to: nat): seq<nat>
    requires from <= to
  {
    seq(to - from, p requires 0 <= p < to - from => from + p)
  }

  lemma {:induction false} LastInTail<K>(keys: seq<Option<K>>, sub: nat, k: K)
    requires sub <= |keys|
    ensures var newest, seen := LastAt(keys, k), LastAt(keys[sub..], k);
      if seen.Some? then newest == Some(sub + seen.value) else newest.Some? ==> newest.value < sub
  {
    if |keys| > sub && keys[|keys| - 1] != Some(k) {
      var front := keys[..|keys| - 1];
      assert front[sub..] == keys[sub..][..|keys| - 1 - sub];
      LastInTail(front, sub, k);
    }
  }

  lemma GapHeard<K(!new)>(keys: seq<Option<K>>, snap: nat, sub: nat, got: seq<nat>, tail: seq<Option<K>>, k: K)
    requires sub <= |keys| && tail == keys[sub..] && got == TailFrom(sub, |keys|)
    requires Within(got, |keys|) && Pick(keys, got) == tail && LastAt(tail, k).Some?
    ensures NewestArrives(keys, snap, got, k)
  {
    LastInTail(keys, sub, k);
  }

  lemma GapUnheard<K(!new)>(keys: seq<Option<K>>, snap: nat, sub: nat, got: seq<nat>, tail: seq<Option<K>>, k: K)
    requires sub <= |keys| && tail == keys[sub..]
    requires Within(got, |keys|) && Pick(keys, got) == tail && LastAt(tail, k).None?
    ensures NewestArrives(keys, snap, got, k) <==> (LastAt(keys, k).Some? ==> LastAt(keys, k).value < snap)
  {
  }

  lemma GapAt<K(!new)>(keys: seq<Option<K>>, snap: nat, sub: nat, k: K)
    requires snap <= sub <= |keys|
    ensures Within(TailFrom(sub, |keys|), |keys|)
    ensures NewestArrives(keys, snap, TailFrom(sub, |keys|), k)
       <==> (Some(k) in keys[snap..sub] ==> Some(k) in keys[sub..])
  {
    var got, tail := TailFrom(sub, |keys|), keys[sub..];
    assert Pick(keys, got) == tail;
    if LastAt(tail, k).Some? {
      GapHeard(keys, snap, sub, got, tail, k);
    } else {
      GapUnheard(keys, snap, sub, got, tail, k);
      LastInTail(keys, sub, k);
      if Some(k) in keys[snap..sub] {
        var n :| 0 <= n < sub - snap && keys[snap..sub][n] == Some(k);
        assert keys[snap + n] == Some(k);
      }
    }
  }

  /**
   * A replica that takes the snapshot after `snap` changes and hears only the changes from
   * `sub` on converges exactly when every key changed in between is changed again later.
   */
  lemma SubscribeGap<K(!new)>(keys: seq<Option<K>>, snap: nat, sub: nat)
    requires snap <= sub <= |keys|
    ensures Within(TailFrom(sub, |keys|), |keys|)
    ensures Delivered(keys, snap, TailFrom(sub, |keys|))
       <==> forall k :: Some(k) in keys[snap..sub] ==> Some(k) in keys[sub..]
  {
    forall k
      ensures NewestArrives(keys, snap, TailFrom(sub, |keys|), k)
         <==> (Some(k) in keys[snap..sub] ==> Some(k) in keys[sub..])
    {
      GapAt(keys, snap, sub, k);
    }
  }
}
