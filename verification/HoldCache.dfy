/** The legal-hold replica: `crates/slopmud/src/hold.rs`. */
module HoldReplica {
  import opened Prelude
  import opened KeyedLog
  import opened Names
  import opened BanLeader

  datatype Cache = Cache(holds: map<string, HoldEntry>, lastIndex: nat)

  function Load(hs: seq<HoldEntry>): map<string, HoldEntry> {
    if hs == [] then map[]
    else
      var m, h := Load(hs[..|hs| - 1]), hs[|hs| - 1];
      if Normal(h.nameLc) == "" then m else m[Normal(h.nameLc) := h]
  }

  /** What one event does to the cache; events without a usable name do not count as seen. */
  function Received(c: Cache, env: Envelope): Cache {
    match env.event
    case Snapshot(_, hs) => Cache(Load(hs), Max(c.lastIndex, env.index))
    case LegalHoldUpserted(h) =>
      if Normal(h.nameLc) == "" then c
      else Cache(c.holds[Normal(h.nameLc) := h], Max(c.lastIndex, env.index))
    case LegalHoldDeleted(n) =>
      if Normal(n) == "" then c else Cache(c.holds - {Normal(n)}, Max(c.lastIndex, env.index))
    case _ => c
  }

  /** Which holds one event changes, and when its index counts as seen. */
  lemma ReceivedMeans(c: Cache, env: Envelope)
    ensures var next := Received(c, env);
      && (env.event.LegalHoldUpserted? && Trim(env.event.hold.nameLc) != "" ==>
            next.holds == c.holds[Normal(env.event.hold.nameLc) := env.event.hold])
      && (env.event.LegalHoldDeleted? && Trim(env.event.nameLc) != "" ==>
            next.holds == c.holds - {Normal(env.event.nameLc)})
      && (if env.event.Snapshot?
            || (env.event.LegalHoldUpserted? && Trim(env.event.hold.nameLc) != "")
            || (env.event.LegalHoldDeleted? && Trim(env.event.nameLc) != "")
          then
            && next.lastIndex >= c.lastIndex && next.lastIndex >= env.index
            && next.lastIndex in {c.lastIndex, env.index}
          else next == c)
  {
  }

  /** Of a snapshot the last entry of each name is kept, under the name in normal form; blank names are not. */
  lemma {:induction false} LoadMeans(hs: seq<HoldEntry>, name: string) returns (at: nat)
    ensures name in Load(hs) ==>
      && name != "" && at < |hs| && Normal(hs[at].nameLc) == name && Load(hs)[name] == hs[at]
      && forall n :: at < n < |hs| ==> Normal(hs[n].nameLc) != name
    ensures name !in Load(hs) ==> name == "" || forall n :: 0 <= n < |hs| ==> Normal(hs[n].nameLc) != name
  {
    at := 0;
    if hs != [] {
      var last := |hs| - 1;
      at := LoadMeans(hs[..last], name);
      if Normal(hs[last].nameLc) == name {
        at := last;
      }
    }
  }

  function ReceivedAll(c: Cache, envs: seq<Envelope>): Cache {
    if envs == [] then c else Received(ReceivedAll(c, envs[..|envs| - 1]), envs[|envs| - 1])
  }

  /** `order` lists the values of the map, in the order the hash map yields them. */
  ghost predicate Lists<T(!new)>(order: seq<T>, m: map<string, T>, name: T -> string) {
    && (forall n :: 0 <= n < |order| ==> name(order[n]) in m && m[name(order[n])] == order[n])
    && (forall k :: k in m ==> m[k] in order && name(m[k]) == k)
  }

  function HoldName(h: HoldEntry): string {
    h.nameLc
  }

  ghost predicate FoundIn(hs: seq<HoldEntry>, m: map<string, HoldEntry>) {
    forall n :: 0 <= n < |hs| ==> hs[n].nameLc in m && m[hs[n].nameLc] == hs[n]
  }

  lemma {:induction false} LoadOnlyFinds(hs: seq<HoldEntry>, m: map<string, HoldEntry>)
    requires HoldsNormal(m) && FoundIn(hs, m)
    ensures forall k :: k in Load(hs) ==> k in m && Load(hs)[k] == m[k]
  {
    if hs != [] {
      LoadOnlyFinds(hs[..|hs| - 1], m);
      LoadNext(hs, m);
    }
  }

  lemma {:induction false} LoadFindsAll(hs: seq<HoldEntry>, m: map<string, HoldEntry>, n: nat)
    requires HoldsNormal(m) && FoundIn(hs, m) && n < |hs|
    ensures hs[n].nameLc in Load(hs)
  {
    var last := |hs| - 1;
    LoadNext(hs, m);
    if n < last {
      LoadFindsAll(hs[..last], m, n);
    }
  }

  /** Loading a part of the leader's holds gives exactly that part. */
  lemma LoadFinds(hs: seq<HoldEntry>, m: map<string, HoldEntry>)
    requires HoldsNormal(m) && FoundIn(hs, m)
    ensures forall k :: k in Load(hs) ==> k in m && Load(hs)[k] == m[k]
    ensures forall n :: 0 <= n < |hs| ==> hs[n].nameLc in Load(hs)
  {
    LoadOnlyFinds(hs, m);
    forall n | 0 <= n < |hs|
      ensures hs[n].nameLc in Load(hs)
    {
      LoadFindsAll(hs, m, n);
    }
  }

  lemma LoadNext(hs: seq<HoldEntry>, m: map<string, HoldEntry>)
    requires HoldsNormal(m) && hs != [] && hs[|hs| - 1].nameLc in m
    ensures var h := hs[|hs| - 1]; Load(hs) == Load(hs[..|hs| - 1])[h.nameLc := h]
  {
    var name := hs[|hs| - 1].nameLc;
    assert Normal(name) == name && name != "";
  }

  /** A snapshot brings the cache to the leader's holds. */
  lemma SnapshotLoads(order: seq<HoldEntry>, m: map<string, HoldEntry>)
    requires HoldsNormal(m) && Lists(order, m, HoldName)
    ensures Load(order) == m
  {
    LoadFinds(order, m);
    forall k | k in m ensures k in Load(order) {
      var n :| 0 <= n < |order| && order[n] == m[k];
      assert order[n].nameLc == k;
    }
  }

  /** On the leader's events the cache replays changes by name. */
  lemma {:induction false} ReceivedReplays(c: Cache, envs: seq<Envelope>)
    requires NamesOk(envs)
    ensures ReceivedAll(c, envs).holds == Replay(c.holds, HoldOps(envs))
  {
    if envs != [] {
      var n := |envs| - 1;
      ReceivedReplays(c, envs[..n]);
      assert HoldOps(envs)[..n] == HoldOps(envs[..n]);
      assert NameOk(envs[n].event);
    }
  }

  /**
   * From a snapshot taken after the events of `t`, and the events at `got` among all those of
   * `u`, in order of receipt, the cache reaches the leader's holds of `u`.
   */
  lemma HoldsConverge(c: Cache, t: Trace, u: Trace, order: seq<HoldEntry>, index: nat, got: seq<nat>)
    requires TraceInv(t) && TraceInv(u) && t.first == u.first && t.log <= u.log
    requires Lists(order, t.s.holds, HoldName)
    requires Within(got, |u.log|) && Delivered(Keys(HoldOps(u.log)), |t.log|, got)
    ensures ReceivedAll(Received(c, Envelope(index, Snapshot([], order))), Pick(u.log, got)).holds == u.s.holds
  {
    SnapshotLoads(order, t.s.holds);
    ReceivedReplays(Received(c, Envelope(index, Snapshot([], order))), Pick(u.log, got));
    assert HoldOps(Pick(u.log, got)) == Pick(HoldOps(u.log), got);
    DeliveredConverges(u.first.holds, HoldOps(u.log), |t.log|, got);
    assert HoldOps(u.log)[..|t.log|] == HoldOps(t.log);
  }

  class HoldCache {
    var holds: map<string, HoldEntry>
    var lastIndex: nat

    ghost function Contents(): Cache
      reads this
    {
      Cache(holds, lastIndex)
    }

    constructor ()
      ensures Contents() == Cache(map[], 0)
    {
      holds, lastIndex := map[], 0;
    }

    method ApplySnapshot(index: nat, bans: seq<BanEntry>, entries: seq<HoldEntry>)
      modifies this
      ensures Contents() == Received(old(Contents()), Envelope(index, Snapshot(bans, entries)))
    {
      var m := map[];
      for n := 0 to |entries|
        invariant m == Load(entries[..n])
      {
        assert entries[..n + 1][..n] == entries[..n];
        var k := Normal(entries[n].nameLc);
        if k != "" {
          m := m[k := entries[n]];
        }
      }
      assert entries[..|entries|] == entries;
      holds := m;
      lastIndex := Max(lastIndex, index);
    }

    method ApplyUpsert(index: nat, entry: HoldEntry)
      modifies this
      ensures Contents() == Received(old(Contents()), Envelope(index, LegalHoldUpserted(entry)))
    {
      var k := Normal(entry.nameLc);
      if k == "" {
        return;
      }
      holds := holds[k := entry];
      lastIndex := Max(lastIndex, index);
    }

    method ApplyDelete(index: nat, nameLc: string)
      modifies this
      ensures Contents() == Received(old(Contents()), Envelope(index, LegalHoldDeleted(nameLc)))
    {
      var k := Normal(nameLc);
      if k == "" {
        return;
      }
      holds := holds - {k};
      lastIndex := Max(lastIndex, index);
    }

    /** A name is looked up in its normal form, so case and outer white space do not matter. */
    method IsHeld(name: string) returns (r: Option<HoldEntry>)
      ensures r == if Normal(name) != "" then Get(holds, Normal(name)) else None
    {
      var k := Normal(name);
      if k == "" {
        return None;
      }
      r := if k in holds then Some(holds[k]) else None;
    }
  }
}
