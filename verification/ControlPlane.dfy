/**
 * Leader and enforcer together: every interleaving of leader steps, snapshots, deliveries,
 * DNS checks and time. A delivery may hand over anything ever sent, in any order and any
 * number of times, because the leader sends after releasing its lock, subscribes a replica
 * after writing its snapshot and drops events for replicas that lag.
 */
module ControlPlane {
  import opened Prelude
  import opened IpPrefixes
  import opened KeyedLog
  import opened BanLeader
  import opened BanEnforcer
  import opened HoldReplica

  datatype World = World(leader: Trace, sent: set<Envelope>, enforcer: Enforcement, now: nat)

  datatype Move =
    | Lead(step: Step)
    | TakeSnapshot(bans: seq<BanEntry>, holds: seq<HoldEntry>)
    | Deliver(env: Envelope)
    | CheckName(enabled: bool, err: Option<string>)
    | Wait(until: nat)

  ghost predicate Allowed(w: World, m: Move) {
    match m
    case Lead(step) => StepOk(w.leader, step)
    case TakeSnapshot(bans, holds) => Lists(bans, w.leader.s.bans, BanName) && Lists(holds, w.leader.s.holds, HoldName)
    case Deliver(env) => env in w.sent
    case CheckName(_, _) => true
    case Wait(until) => w.now <= until
  }

  function SnapshotOf(s: State, bans: seq<BanEntry>, holds: seq<HoldEntry>): Envelope {
    Envelope(if s.nextIndex == 0 then 0 else s.nextIndex - 1, Snapshot(bans, holds))
  }

  /** A snapshot carries the index of the last event before it, or 0 before any. */
  lemma SnapshotIndexIsLast(t: Trace, bans: seq<BanEntry>, holds: seq<HoldEntry>)
    requires TraceInv(t) && t.first == EMPTY && |t.log| < U64_MAX
    ensures SnapshotOf(t.s, bans, holds).index == if t.log == [] then 0 else t.log[|t.log| - 1].index
  {
  }

  ghost function Moved(w: World, m: Move, exempt: seq<IpPrefix>): World
    requires AllValid(exempt)
  {
    match m
    case Lead(step) =>
      w.(leader := Next(w.leader, step), sent := w.sent + set env | env in BanLeader.After(w.leader.s, step).1)
    case TakeSnapshot(bans, holds) => w.(sent := w.sent + {SnapshotOf(w.leader.s, bans, holds)})
    case Deliver(env) => w.(enforcer := BanEnforcer.Received(w.enforcer, env, w.now, exempt))
    case CheckName(enabled, err) => w.(enforcer := Checked(w.enforcer, enabled, err, w.now, exempt))
    case Wait(until) => w.(now := until)
  }

  ghost predicate WorldInv(w: World, exempt: seq<IpPrefix>)
    requires AllValid(exempt)
  {
    && TraceInv(w.leader)
    && (forall env :: env in w.sent ==> EventAgrees(env.event, w.leader.issued))
    && EnforcementInv(w.enforcer, w.now, exempt, w.leader.issued)
  }

  lemma LeadKeepsWorldInv(w: World, step: Step, exempt: seq<IpPrefix>)
    requires AllValid(exempt) && WorldInv(w, exempt) && StepOk(w.leader, step)
    ensures WorldInv(Moved(w, Lead(step), exempt), exempt)
  {
    NextKeepsTraceInv(w.leader, step);
    var t, evs := Next(w.leader, step), BanLeader.After(w.leader.s, step).1;
    LaterKeepsInv(w.enforcer, w.now, w.now, exempt, w.leader.issued, t.issued);
    forall env | env in w.sent || env in evs ensures EventAgrees(env.event, t.issued) {
      if env in evs {
        var n :| 0 <= n < |evs| && evs[n] == env;
        assert t.log[|w.leader.log| + n] == env;
        assert NameOk(env.event);
      } else {
        assert EventAgrees(env.event, w.leader.issued);
      }
    }
  }

  /** Every move keeps the invariant: the enforcer's part rests on the leader's stable ids. */
  lemma MoveKeepsWorldInv(w: World, m: Move, exempt: seq<IpPrefix>)
    requires AllValid(exempt) && WorldInv(w, exempt) && Allowed(w, m)
    ensures WorldInv(Moved(w, m, exempt), exempt)
  {
    match m {
      case Lead(step) => LeadKeepsWorldInv(w, step, exempt);
      case TakeSnapshot(bans, holds) =>
        assert forall n :: 0 <= n < |bans| ==> BanAgrees(bans[n], w.leader.issued);
      case Deliver(env) => ReceivedKeepsInv(w.enforcer, env, w.now, exempt, w.leader.issued);
      case CheckName(enabled, err) => CheckedKeepsInv(w.enforcer, enabled, err, w.now, exempt, w.leader.issued);
      case Wait(until) => LaterKeepsInv(w.enforcer, w.now, until, exempt, w.leader.issued, w.leader.issued);
    }
  }

  const GENESIS := World(Trace(EMPTY, EMPTY, [], map[]), {}, START, 0)

  ghost function After(moves: seq<Move>, exempt: seq<IpPrefix>): World
    requires AllValid(exempt)
  {
    if moves == [] then GENESIS else Moved(After(moves[..|moves| - 1], exempt), moves[|moves| - 1], exempt)
  }

  ghost predicate AllAllowed(moves: seq<Move>, exempt: seq<IpPrefix>)
    requires AllValid(exempt)
  {
    moves == []
    || (AllAllowed(moves[..|moves| - 1], exempt) && Allowed(After(moves[..|moves| - 1], exempt), moves[|moves| - 1]))
  }

  /** In every reachable world the applied bans are right and rest on stable ids. */
  lemma {:induction false} EveryWorldInv(moves: seq<Move>, exempt: seq<IpPrefix>)
    requires AllValid(exempt) && AllAllowed(moves, exempt)
    ensures WorldInv(After(moves, exempt), exempt)
  {
    if moves == [] {
      EmptyLeaderInv();
    } else {
      EveryWorldInv(moves[..|moves| - 1], exempt);
      MoveKeepsWorldInv(After(moves[..|moves| - 1], exempt), moves[|moves| - 1], exempt);
    }
  }

  /** The snapshot that the leader wrote at move `k`. */
  ghost predicate SnapshotAt(moves: seq<Move>, k: nat, env: Envelope, exempt: seq<IpPrefix>)
    requires AllValid(exempt)
  {
    && k < |moves| && moves[k].TakeSnapshot?
    && env == SnapshotOf(After(moves[..k], exempt).leader.s, moves[k].bans, moves[k].holds)
  }

  ghost predicate SnapshotTaken(moves: seq<Move>, env: Envelope, exempt: seq<IpPrefix>)
    requires AllValid(exempt)
  {
    exists k :: SnapshotAt(moves, k, env, exempt)
  }

  lemma SnapshotTakenNext(moves: seq<Move>, env: Envelope, exempt: seq<IpPrefix>)
    requires AllValid(exempt) && moves != []
    ensures var n := |moves| - 1;
      SnapshotTaken(moves, env, exempt) <==> SnapshotTaken(moves[..n], env, exempt) || SnapshotAt(moves, n, env, exempt)
  {
    var n := |moves| - 1;
    forall k: nat | k < n
      ensures SnapshotAt(moves, k, env, exempt) <==> SnapshotAt(moves[..n], k, env, exempt)
    {
      assert moves[..n][..k] == moves[..k];
    }
    if SnapshotTaken(moves, env, exempt) {
      var k: nat :| SnapshotAt(moves, k, env, exempt);
      assert k < n ==> SnapshotAt(moves[..n], k, env, exempt);
    }
    if SnapshotTaken(moves[..n], env, exempt) {
      var k: nat :| SnapshotAt(moves[..n], k, env, exempt);
      assert SnapshotAt(moves, k, env, exempt);
    }
  }

  /** What can still be delivered is every event ever logged and every snapshot ever written, and nothing else. */
  lemma {:induction false} SentIff(moves: seq<Move>, exempt: seq<IpPrefix>, env: Envelope)
    requires AllValid(exempt)
    ensures env in After(moves, exempt).sent
       <==> env in After(moves, exempt).leader.log || SnapshotTaken(moves, env, exempt)
  {
    if moves != [] {
      var n := |moves| - 1;
      SentIff(moves[..n], exempt, env);
      SnapshotTakenNext(moves, env, exempt);
      var w, v := After(moves[..n], exempt), After(moves, exempt);
      if moves[n].Lead? {
        assert v.leader.log == w.leader.log + BanLeader.After(w.leader.s, moves[n].step).1;
      } else {
        assert v.leader == w.leader;
      }
    }
  }

  lemma RunNext(moves: seq<Move>, m: Move, exempt: seq<IpPrefix>)
    requires AllValid(exempt)
    ensures After(moves + [m], exempt) == Moved(After(moves, exempt), m, exempt)
    ensures AllAllowed(moves + [m], exempt) <==> AllAllowed(moves, exempt) && Allowed(After(moves, exempt), m)
  {
    assert (moves + [m])[..|moves|] == moves;
  }

  /** A first ban, made at `now`. */
  function FirstBan(req: AdminReq, now: nat, newId: string): BanEntry
    requires req.UpsertBan? && New(req.addr, req.len).Some?
  {
    NewBan(EMPTY, New(req.addr, req.len).value, req, now, newId)
  }

  /** The leader is asked for a ban, and an enforcer that a DNS check has turned on hears of it. */
  function BanRun(req: AdminReq, now: nat, newId: string, env: Envelope): seq<Move>
    requires req.UpsertBan? && New(req.addr, req.len).Some?
  {
    [Wait(now)] + [Lead(Request(req, now, newId))] + [TakeSnapshot([FirstBan(req, now, newId)], [])] + [Deliver(env)]
    + [CheckName(true, None)]
  }

  lemma BanIsLogged(req: AdminReq, now: nat, newId: string, exempt: seq<IpPrefix>)
    requires AllValid(exempt) && req.UpsertBan? && ValidReq(req) && New(req.addr, req.len).Some?
    ensures var moves, b := [Wait(now)] + [Lead(Request(req, now, newId))], FirstBan(req, now, newId);
      var w := After(moves, exempt);
      && AllAllowed(moves, exempt) && w.now == now && w.enforcer == START
      && w.leader.s.bans == map[newId := b] && w.leader.s.holds == map[] && w.leader.s.nextIndex == 2
      && w.sent == {Envelope(1, BanUpserted(b))}
  {
    var step := Request(req, now, newId);
    RunNext([], Wait(now), exempt);
    RunNext([Wait(now)], Lead(step), exempt);
    assert [] + [Wait(now)] == [Wait(now)];
    var evs := BanLeader.After(EMPTY, step).1;
    assert evs == [Envelope(1, BanUpserted(FirstBan(req, now, newId)))];
    assert (set env | env in evs) == {evs[0]};
  }

  lemma BanIsSent(req: AdminReq, now: nat, newId: string, exempt: seq<IpPrefix>)
    requires AllValid(exempt) && req.UpsertBan? && ValidReq(req) && New(req.addr, req.len).Some?
    ensures var b := FirstBan(req, now, newId);
      var moves := [Wait(now)] + [Lead(Request(req, now, newId))] + [TakeSnapshot([b], [])];
      var w := After(moves, exempt);
      && AllAllowed(moves, exempt) && w.now == now && w.enforcer == START
      && w.sent == {Envelope(1, BanUpserted(b)), Envelope(1, Snapshot([b], []))}
  {
    var b := FirstBan(req, now, newId);
    var moves := [Wait(now)] + [Lead(Request(req, now, newId))];
    BanIsLogged(req, now, newId, exempt);
    RunNext(moves, TakeSnapshot([b], []), exempt);
    assert [b][0] == b && BanName(b) == newId;
    assert Lists([b], After(moves, exempt).leader.s.bans, BanName);
    assert Lists([], After(moves, exempt).leader.s.holds, HoldName);
  }

  /** End to end: a ban reaches an enforcing enforcer, by its event or by a snapshot, exactly when it is not exempt. */
  lemma BanReachesEnforcer(req: AdminReq, now: nat, newId: string, env: Envelope, exempt: seq<IpPrefix>)
    requires AllValid(exempt) && req.UpsertBan? && ValidReq(req) && New(req.addr, req.len).Some? && now < U64_MAX
    requires var b := FirstBan(req, now, newId);
      env == Envelope(1, BanUpserted(b)) || env == Envelope(1, Snapshot([b], []))
    ensures var moves, key := BanRun(req, now, newId, env), New(req.addr, req.len).value;
      var e := After(moves, exempt).enforcer;
      && AllAllowed(moves, exempt) && e.enforcing
      && (newId in e.applied <==> !ExemptPrefix(exempt, key)) && (newId in e.applied ==> e.applied[newId].key == key)
  {
    var b := FirstBan(req, now, newId);
    var moves := [Wait(now)] + [Lead(Request(req, now, newId))] + [TakeSnapshot([b], [])];
    BanIsSent(req, now, newId, exempt);
    RunNext(moves, Deliver(env), exempt);
    RunNext(moves + [Deliver(env)], CheckName(true, None), exempt);
    assert [b][..0] == [] && Wanted([], now) == map[];
    assert Wanted([b], now) == map[newId := b];
    assert After(moves + [Deliver(env)], exempt).enforcer.desired == map[newId := b];
  }

  /** An address is blocked when an applied ban covers it. */
  ghost predicate Blocked(e: Enforcement, ip: IpAddr) {
    exists id :: id in e.applied && e.applied[id].key.Valid() && ContainsIp(e.applied[id].key, ip)
  }

  /**
   * In every reachable world an exempt address is blocked exactly when some applied ban
   * covers a whole entry of the exemption list; the exemption check looks only the other way.
   */
  lemma ExemptBlockedIff(moves: seq<Move>, exempt: seq<IpPrefix>)
    requires AllValid(exempt) && AllAllowed(moves, exempt)
    ensures var e := After(moves, exempt).enforcer;
      (exists ip: IpAddr :: ip.Valid() && ExemptIp(exempt, ip) && Blocked(e, ip))
      <==> (exists id, i :: id in e.applied && 0 <= i < |exempt|
                            && e.applied[id].key.Valid() && ContainsPrefix(e.applied[id].key, exempt[i]))
  {
    EveryWorldInv(moves, exempt);
    var applied := After(moves, exempt).enforcer.applied;
    forall id | id in applied
      ensures applied[id].key.Valid()
      ensures (exists ip: IpAddr :: ip.Valid() && ContainsIp(applied[id].key, ip) && ExemptIp(exempt, ip))
         <==> (exists i :: 0 <= i < |exempt| && ContainsPrefix(applied[id].key, exempt[i]))
    {
      ExemptAddressInside(exempt, applied[id].key);
    }
  }

  // Convergence.

  /** The replica set equals the leader's, apart from entries that had expired by `at`. */
  ghost predicate SameButExpired(replica: map<string, BanEntry>, bans: map<string, BanEntry>, at: nat) {
    && (forall id :: id in replica ==> id in bans && replica[id] == bans[id])
    && (forall id :: id in bans && id !in replica ==> Expired(bans[id], at))
  }

  lemma StartsFromUnexpired(order: seq<BanEntry>, bans: map<string, BanEntry>, at: nat)
    requires Lists(order, bans, BanName)
    ensures Wanted(order, at) == Unexpired(bans, at)
  {
    WantedFinds(order, at, bans);
    forall id | id in bans && !Expired(bans[id], at) ensures id in Wanted(order, at) {
      var n :| 0 <= n < |order| && order[n] == bans[id];
    }
  }

  lemma ReplayOverUnexpired(bans: map<string, BanEntry>, at: nat, ops: seq<Op<string, BanEntry>>)
    ensures SameButExpired(Replay(Unexpired(bans, at), ops), Replay(bans, ops), at)
  {
    var part, whole := Replay(Unexpired(bans, at), ops), Replay(bans, ops);
    forall id
      ensures Get(part, id) == Get(whole, id) || (Get(part, id).None? && Get(whole, id).Some? && Expired(whole[id], at))
    {
      ReplayAt(Unexpired(bans, at), ops, id);
      ReplayAt(bans, ops, id);
      assert Get(Unexpired(bans, at), id) == Get(bans, id) || (id in bans && Expired(bans[id], at));
    }
    forall id | id in part ensures id in whole && part[id] == whole[id] {
      assert Get(part, id) == Get(whole, id);
    }
    forall id | id in whole && id !in part ensures Expired(whole[id], at) {
      assert Get(part, id) != Get(whole, id);
    }
  }

  /**
   * From the snapshot of trace `t`, and the events at `got` among all those of `u` mixed with
   * DNS checks at any times, the enforcer wants the leader's bans of `u`, apart from entries
   * that had expired when it took the snapshot.
   */
  lemma DesiredConverges(e: Enforcement, t: Trace, u: Trace, order: seq<BanEntry>, holds: seq<HoldEntry>, at: nat,
                         inputs: seq<Input>, got: seq<nat>, exempt: seq<IpPrefix>)
    requires AllValid(exempt) && TraceInv(t) && TraceInv(u) && t.first == u.first && t.log <= u.log
    requires Lists(order, t.s.bans, BanName)
    requires Within(got, |u.log|) && Delivered(Keys(BanOps(u.log)), |t.log|, got)
    requires Events(inputs) == Pick(u.log, got)
    ensures var e1 := BanEnforcer.Received(e, SnapshotOf(t.s, order, holds), at, exempt);
      SameButExpired(Fed(e1, inputs, exempt).desired, u.s.bans, at)
  {
    var e1 := BanEnforcer.Received(e, SnapshotOf(t.s, order, holds), at, exempt);
    StartsFromUnexpired(order, t.s.bans, at);
    FedReplays(e1, inputs, exempt);
    var ops := BanOps(Pick(u.log, got));
    ReplayOverUnexpired(t.s.bans, at, ops);
    assert ops == Pick(BanOps(u.log), got);
    DeliveredConverges(u.first.bans, BanOps(u.log), |t.log|, got);
    assert BanOps(u.log)[..|t.log|] == BanOps(t.log);
  }

  /** An overlapping window in per-ban order is enough, so replayed events are harmless. */
  lemma OverlapConverges(e: Enforcement, t: Trace, u: Trace, order: seq<BanEntry>, holds: seq<HoldEntry>, at: nat,
                         inputs: seq<Input>, from: nat, got: seq<nat>, exempt: seq<IpPrefix>)
    requires AllValid(exempt) && TraceInv(t) && TraceInv(u) && t.first == u.first && t.log <= u.log
    requires Lists(order, t.s.bans, BanName)
    requires from <= |t.log| && KeyOrderedFrom(Keys(BanOps(u.log)), from, got)
    requires Events(inputs) == Pick(u.log, got)
    ensures var e1 := BanEnforcer.Received(e, SnapshotOf(t.s, order, holds), at, exempt);
      SameButExpired(Fed(e1, inputs, exempt).desired, u.s.bans, at)
  {
    KeyOrderIsDelivered(Keys(BanOps(u.log)), from, |t.log|, got);
    DesiredConverges(e, t, u, order, holds, at, inputs, got, exempt);
  }

  /** Enforcing and converged: a live leader ban is applied exactly when it is not exempt, and nothing else is. */
  lemma EnforcedIsLeaderMinusExempt(e: Enforcement, u: Trace, at: nat, now: nat, exempt: seq<IpPrefix>)
    requires AllValid(exempt) && TraceInv(u) && EnforcementInv(e, now, exempt, u.issued)
    requires e.enforcing && at <= now && SameButExpired(e.desired, u.s.bans, at)
    ensures forall id :: id in e.applied ==> id in u.s.bans && e.applied[id] == u.s.bans[id]
    ensures forall id :: id in u.s.bans && !Expired(u.s.bans[id], now) ==>
              (id in e.applied <==> !ExemptPrefix(exempt, u.s.bans[id].key))
  {
  }

  /** An enforcer that starts from a snapshot without an id, and hears nothing of it, does not want it. */
  lemma UnheardIsUnwanted(e: Enforcement, inputs: seq<Input>, exempt: seq<IpPrefix>, id: string)
    requires AllValid(exempt) && NamesOk(Events(inputs))
    requires Some(id) !in Keys(BanOps(Events(inputs))) && id !in e.desired
    ensures id !in Fed(e, inputs, exempt).desired
  {
    FedReplays(e, inputs, exempt);
    ReplayLeavesAlone(e.desired, BanOps(Events(inputs)), id);
  }

  /** Some of the events after a point of the log, in any order: their names are good, and they concern no other ban. */
  lemma HeardLater(log: seq<Envelope>, n: nat, got: seq<nat>, id: string)
    requires NamesOk(log) && n <= |log| && Within(got, |log| - n)
    requires Some(id) !in Keys(BanOps(log[n..]))
    ensures NamesOk(Pick(log[n..], got)) && Some(id) !in Keys(BanOps(Pick(log[n..], got)))
  {
    var later := log[n..];
    forall m | 0 <= m < |got|
      ensures NameOk(Pick(later, got)[m].event) && Keys(BanOps(Pick(later, got)))[m] != Some(id)
    {
      assert later[got[m]] == log[n + got[m]];
      assert Keys(BanOps(later))[got[m]] != Some(id);
    }
  }

  /** A new prefix is banned under the new id. */
  lemma NewBanIsMade(t: Trace, step: Step)
    requires TraceInv(t) && StepOk(t, step) && step.Request? && step.req.UpsertBan?
    requires New(step.req.addr, step.req.len).Some? && New(step.req.addr, step.req.len).value !in t.s.banByKey
    ensures step.newId !in t.s.bans && step.newId in Next(t, step).s.bans
  {
  }

  /**
   * The leader subscribes a replica only after writing its snapshot. A ban made in between, and not
   * touched again, is in force at the leader and unknown to the enforcer, whatever later events it
   * receives, in whatever order and however often.
   */
  lemma BanLostInSubscribeGap(t: Trace, step: Step, u: Trace, e: Enforcement, order: seq<BanEntry>,
                              holds: seq<HoldEntry>, at: nat, inputs: seq<Input>, got: seq<nat>, exempt: seq<IpPrefix>)
    requires AllValid(exempt) && TraceInv(t) && StepOk(t, step) && step.Request? && step.req.UpsertBan?
    requires New(step.req.addr, step.req.len).Some? && New(step.req.addr, step.req.len).value !in t.s.banByKey
    requires TraceInv(u) && u.first == t.first && Next(t, step).log <= u.log
    requires Some(step.newId) !in Keys(BanOps(u.log[|Next(t, step).log|..]))
    requires Lists(order, t.s.bans, BanName) && Within(got, |u.log| - |Next(t, step).log|)
    requires Events(inputs) == Pick(u.log[|Next(t, step).log|..], got)
    ensures step.newId in u.s.bans
    ensures var e1 := BanEnforcer.Received(e, SnapshotOf(t.s, order, holds), at, exempt);
      step.newId !in Fed(e1, inputs, exempt).desired
  {
    var next := Next(t, step);
    NextKeepsTraceInv(t, step);
    NewBanIsMade(t, step);
    UntouchedStays(next, u, step.newId);
    StartsFromUnexpired(order, t.s.bans, at);
    HeardLater(u.log, |next.log|, got, step.newId);
    UnheardIsUnwanted(BanEnforcer.Received(e, SnapshotOf(t.s, order, holds), at, exempt), inputs, exempt, step.newId);
  }

  /** It does happen: a ban that is not exempt, and wider than an exempt entry, blocks that entry's address. */
  lemma WiderBanBlocksExempt(e: Enforcement, index: nat, ban: BanEntry, now: nat, exempt: seq<IpPrefix>, i: nat)
    requires AllValid(exempt) && i < |exempt| && e.enforcing
    requires ban.key.Valid() && !ExemptPrefix(exempt, ban.key) && ContainsPrefix(ban.key, exempt[i])
    ensures var next := BanEnforcer.Received(e, Envelope(index, BanUpserted(ban)), now, exempt);
      ExemptIp(exempt, exempt[i].addr) && Blocked(next, exempt[i].addr)
  {
    var next := BanEnforcer.Received(e, Envelope(index, BanUpserted(ban)), now, exempt);
    assert ContainsIp(exempt[i], exempt[i].addr);
    assert next.applied[ban.banId] == ban;
  }
}
