/** The ban leader: `apps/sbc_raftd/src/main.rs` over the messages of `crates/sbc_core/src/lib.rs`. */
module BanLeader {
  import opened Prelude
  import opened IpPrefixes
  import opened KeyedLog
  import opened Names

  datatype BanEntry = BanEntry(
    banId: string, key: IpPrefix, createdAt: nat, createdBy: string, reason: string, expiresAt: nat)

  datatype HoldEntry = HoldEntry(nameLc: string, createdAt: nat, createdBy: string, reason: string)

  datatype EnforcementStatus = EnforcementStatus(
    nodeId: string, dnsName: string, dnsEnabled: bool, dnsLastError: Option<string>,
    backend: string, backendAttached: bool, enforcementMode: string, reportedAt: nat)

  datatype ApplyReport = ApplyReport(
    nodeId: string, banId: string, op: string, result: string, error: Option<string>, reportedAt: nat)

  datatype AdminReq =
    | UpsertBan(addr: IpAddr, len: nat, ttl: nat, createdBy: string, reason: string)
    | DeleteBan(banId: string)
    | UpsertLegalHold(name: string, createdBy: string, reason: string)
    | DeleteLegalHold(name: string)
    | ReportEnforcementStatus(status: EnforcementStatus)
    | ReportBanApplyResult(report: ApplyReport)
    | GetState

  datatype AdminResp =
    | Ok(index: nat)
    | OkBan(index: nat, ban: BanEntry)
    | OkLegalHold(index: nat, hold: HoldEntry)
    | OkState(index: nat, bans: map<string, BanEntry>, holds: map<string, HoldEntry>)
    | Err
    | Dropped // the handler fails before it answers: the key is not a prefix

  datatype Event =
    | Snapshot(bans: seq<BanEntry>, holds: seq<HoldEntry>)
    | BanUpserted(ban: BanEntry)
    | BanDeleted(banId: string)
    | LegalHoldUpserted(hold: HoldEntry)
    | LegalHoldDeleted(nameLc: string)
    | StatusReported(status: EnforcementStatus)
    | ApplyReported(report: ApplyReport)

  datatype Envelope = Envelope(index: nat, event: Event)

  /** The fields of the leader that its requests read and write. */
  datatype State = State(
    nextIndex: nat,
    bans: map<string, BanEntry>,
    banByKey: map<IpPrefix, string>,
    holds: map<string, HoldEntry>,
    lastStatus: map<string, EnforcementStatus>,
    lastApply: map<(string, string, string), ApplyReport>)

  const EMPTY := State(1, map[], map[], map[], map[], map[])

  /** A ban whose time has come; zero means that it never does. */
  predicate Expired(b: BanEntry, now: nat) {
    b.expiresAt != 0 && b.expiresAt <= now
  }

  function Expiry(ttl: nat, now: nat): nat {
    if ttl == 0 then 0 else SatAdd(now, ttl)
  }

  function Emit(s: State, e: Event): (State, seq<Envelope>) {
    (s.(nextIndex := SatAdd(s.nextIndex, 1)), [Envelope(s.nextIndex, e)])
  }

  /** The entry a ban request creates; `newId` is used when the prefix has no ban yet. */
  function NewBan(s: State, key: IpPrefix, req: AdminReq, now: nat, newId: string): BanEntry
    requires req.UpsertBan?
  {
    BanEntry(if key in s.banByKey then s.banByKey[key] else newId, key, now,
             req.createdBy, req.reason, Expiry(req.ttl, now))
  }

  function Unlink(s: State, id: string): State {
    if id !in s.bans then s
    else s.(bans := s.bans - {id}, banByKey := s.banByKey - {s.bans[id].key})
  }

  /** One admin request, at time `now`, with `newId` the next random id. */
  function Requested(s: State, req: AdminReq, now: nat, newId: string): (r: (State, seq<Envelope>)) {
    match req
    case UpsertBan(addr, len, _, _, _) =>
      (match New(addr, len)
       case None => (s, [])
       case Some(key) =>
         var b := NewBan(s, key, req, now, newId);
         Emit(s.(bans := s.bans[b.banId := b], banByKey := s.banByKey[key := b.banId]), BanUpserted(b)))
    case DeleteBan(id) => Emit(Unlink(s, id), BanDeleted(id))
    case UpsertLegalHold(name, who, reason) =>
      if Normal(name) == "" then (s, [])
      else
        var h := HoldEntry(Normal(name), now, who, reason);
        Emit(s.(holds := s.holds[h.nameLc := h]), LegalHoldUpserted(h))
    case DeleteLegalHold(name) =>
      if Normal(name) == "" then (s, [])
      else Emit(s.(holds := s.holds - {Normal(name)}), LegalHoldDeleted(Normal(name)))
    case ReportEnforcementStatus(st) =>
      Emit(s.(lastStatus := s.lastStatus[st.nodeId := st]), StatusReported(st))
    case ReportBanApplyResult(rep) =>
      Emit(s.(lastApply := s.lastApply[(rep.nodeId, rep.banId, rep.op) := rep]), ApplyReported(rep))
    case GetState => (s, [])
  }

  /** The answer to a request. */
  function Answer(s: State, req: AdminReq, now: nat, newId: string): AdminResp {
    var i := s.nextIndex;
    match req
    case UpsertBan(addr, len, _, _, _) =>
      (match New(addr, len)
       case None => Dropped
       case Some(key) => OkBan(i, NewBan(s, key, req, now, newId)))
    case UpsertLegalHold(name, who, reason) =>
      if Normal(name) == "" then Err else OkLegalHold(i, HoldEntry(Normal(name), now, who, reason))
    case DeleteLegalHold(name) => if Normal(name) == "" then Err else Ok(i)
    case GetState => OkState(if i == 0 then 0 else i - 1, s.bans, s.holds)
    case _ => Ok(i)
  }

  /** Removes the listed bans one by one, each with its own event. */
  function Reaped(s: State, ids: seq<string>): (State, seq<Envelope>) {
    if ids == [] then (s, [])
    else
      var (s1, evs) := Reaped(s, ids[..|ids| - 1]);
      var (s2, ev) := Emit(Unlink(s1, ids[|ids| - 1]), BanDeleted(ids[|ids| - 1]));
      (s2, evs + ev)
  }

  /** The ids of `order` whose ban has expired. */
  function ExpiredIn(bans: map<string, BanEntry>, order: seq<string>, now: nat): (ids: seq<string>)
    ensures forall id :: id in ids <==> id in order && id in bans && Expired(bans[id], now)
  {
    if order == [] then []
    else
      var ids, id := ExpiredIn(bans, order[..|order| - 1], now), order[|order| - 1];
      if id in bans && Expired(bans[id], now) then ids + [id] else ids
  }

  // Events as changes to one map.

  function BanOp(e: Event): Op<string, BanEntry> {
    match e
    case BanUpserted(b) => Put(b.banId, b)
    case BanDeleted(id) => Del(id)
    case _ => Skip
  }

  function HoldOp(e: Event): Op<string, HoldEntry> {
    match e
    case LegalHoldUpserted(h) => Put(h.nameLc, h)
    case LegalHoldDeleted(n) => Del(n)
    case _ => Skip
  }

  function BanOps(log: seq<Envelope>): seq<Op<string, BanEntry>> {
    seq(|log|, n requires 0 <= n < |log| => BanOp(log[n].event))
  }

  function HoldOps(log: seq<Envelope>): seq<Op<string, HoldEntry>> {
    seq(|log|, n requires 0 <= n < |log| => HoldOp(log[n].event))
  }

  // Invariants of one state.

  /** The two maps are inverse: one ban per canonical prefix, each under its own id. */
  ghost predicate Inverse(bans: map<string, BanEntry>, byKey: map<IpPrefix, string>) {
    && (forall id :: id in bans ==>
          && bans[id].banId == id
          && Canonical(bans[id].key)
          && bans[id].key in byKey
          && byKey[bans[id].key] == id)
    && (forall k :: k in byKey ==> byKey[k] in bans && bans[byKey[k]].key == k)
  }

  ghost predicate HoldsNormal(holds: map<string, HoldEntry>) {
    forall n :: n in holds ==> n != "" && Normal(n) == n && holds[n].nameLc == n
  }

  ghost predicate Inv(s: State) {
    Inverse(s.bans, s.banByKey) && HoldsNormal(s.holds)
  }

  predicate ValidReq(req: AdminReq) {
    req.UpsertBan? ==> req.addr.Valid()
  }

  /** The events account for the whole step: both maps, and indices without gaps or repeats up to the cap. */
  ghost predicate Explains(s: State, evs: seq<Envelope>, t: State) {
    && t.bans == Replay(s.bans, BanOps(evs))
    && t.holds == Replay(s.holds, HoldOps(evs))
    && t.nextIndex == SatAdd(s.nextIndex, |evs|)
    && forall n :: 0 <= n < |evs| ==> evs[n].index == SatAdd(s.nextIndex, n)
  }

  lemma ExplainsChains(s: State, a: seq<Envelope>, t: State, b: seq<Envelope>, u: State)
    requires Explains(s, a, t) && Explains(t, b, u)
    ensures Explains(s, a + b, u)
  {
    assert BanOps(a + b) == BanOps(a) + BanOps(b) && HoldOps(a + b) == HoldOps(a) + HoldOps(b);
    ReplayAppend(s.bans, BanOps(a), BanOps(b));
    ReplayAppend(s.holds, HoldOps(a), HoldOps(b));
  }

  lemma OneOp<K, V>(m: map<K, V>, op: Op<K, V>)
    ensures Replay(m, [op]) == Apply(m, op)
  {
    assert [op][..0] == [];
  }

  lemma OneEventExplains(s: State, e: Event, t: State, i: nat)
    requires s.nextIndex <= U64_MAX && i == s.nextIndex && t.nextIndex == SatAdd(s.nextIndex, 1)
    requires t.bans == Apply(s.bans, BanOp(e)) && t.holds == Apply(s.holds, HoldOp(e))
    ensures Explains(s, [Envelope(i, e)], t)
  {
    assert BanOps([Envelope(i, e)]) == [BanOp(e)] && HoldOps([Envelope(i, e)]) == [HoldOp(e)];
    OneOp(s.bans, BanOp(e));
    OneOp(s.holds, HoldOp(e));
  }

  lemma UnlinkExplains(s: State, id: string)
    requires s.nextIndex <= U64_MAX
    ensures var (t, evs) := Emit(Unlink(s, id), BanDeleted(id)); Explains(s, evs, t)
  {
    var (t, evs) := Emit(Unlink(s, id), BanDeleted(id));
    OneEventExplains(s, BanDeleted(id), t, s.nextIndex);
  }

  lemma RequestExplains(s: State, req: AdminReq, now: nat, newId: string)
    requires s.nextIndex <= U64_MAX
    ensures var (t, evs) := Requested(s, req, now, newId); Explains(s, evs, t)
  {
    var (t, evs) := Requested(s, req, now, newId);
    if evs != [] {
      assert evs == [Envelope(s.nextIndex, evs[0].event)];
      OneEventExplains(s, evs[0].event, t, s.nextIndex);
    }
  }

  lemma {:induction false} ReapExplains(s: State, ids: seq<string>)
    requires s.nextIndex <= U64_MAX
    ensures var (t, evs) := Reaped(s, ids); Explains(s, evs, t) && |evs| == |ids|
  {
    if ids != [] {
      var n := |ids| - 1;
      var (s1, evs) := Reaped(s, ids[..n]);
      ReapExplains(s, ids[..n]);
      UnlinkExplains(s1, ids[n]);
      var (s2, ev) := Emit(Unlink(s1, ids[n]), BanDeleted(ids[n]));
      ExplainsChains(s, evs, s1, ev, s2);
    }
  }

  lemma LinkKeepsInverse(bans: map<string, BanEntry>, byKey: map<IpPrefix, string>, b: BanEntry)
    requires Inverse(bans, byKey) && Canonical(b.key)
    requires if b.key in byKey then b.banId == byKey[b.key] else b.banId !in bans
    ensures Inverse(bans[b.banId := b], byKey[b.key := b.banId])
  {
    forall id | id in bans && id != b.banId
      ensures bans[id].key != b.key
    {
      assert byKey[bans[id].key] == id;
    }
  }

  /** Every request keeps the maps inverse, given a fresh id. */
  lemma RequestKeepsInv(s: State, req: AdminReq, now: nat, newId: string)
    requires Inv(s) && ValidReq(req) && newId !in s.bans
    ensures Inv(Requested(s, req, now, newId).0)
  {
    match req {
      case UpsertBan(addr, len, _, _, _) =>
        if New(addr, len).Some? {
          BanKeepsInv(s, req, now, newId);
        }
      case UpsertLegalHold(name, _, _) =>
        NormalIsStable(name);
      case _ =>
    }
  }

  lemma BanKeepsInv(s: State, req: AdminReq, now: nat, newId: string)
    requires Inv(s) && ValidReq(req) && newId !in s.bans && req.UpsertBan? && New(req.addr, req.len).Some?
    ensures Inv(Requested(s, req, now, newId).0)
  {
    NewKeepsAddresses(req.addr, req.len);
    var b := NewBan(s, New(req.addr, req.len).value, req, now, newId);
    LinkKeepsInverse(s.bans, s.banByKey, b);
    var next := Requested(s, req, now, newId).0;
    assert next.bans == s.bans[b.banId := b] && next.banByKey == s.banByKey[b.key := b.banId];
  }

  lemma {:induction false} ReapKeepsInv(s: State, ids: seq<string>)
    requires Inv(s)
    ensures Inv(Reaped(s, ids).0)
  {
    if ids != [] {
      ReapKeepsInv(s, ids[..|ids| - 1]);
    }
  }

  /** Reaping removes exactly the listed bans and touches no hold. */
  lemma {:induction false} ReapRemoves(s: State, ids: seq<string>)
    ensures Reaped(s, ids).0.bans == map id | id in s.bans && id !in ids :: s.bans[id]
    ensures Reaped(s, ids).0.holds == s.holds
  {
    if ids != [] {
      ReapRemoves(s, ids[..|ids| - 1]);
      assert forall id :: id in ids <==> id in ids[..|ids| - 1] || id == ids[|ids| - 1];
    }
  }

  /** After the reaper no expired ban is left, and every other ban is untouched. */
  lemma ReapLeavesTheLiving(s: State, order: seq<string>, now: nat)
    requires forall id :: id in s.bans ==> id in order
    ensures Reaped(s, ExpiredIn(s.bans, order, now)).0.bans
         == map id | id in s.bans && !Expired(s.bans[id], now) :: s.bans[id]
  {
    ReapRemoves(s, ExpiredIn(s.bans, order, now));
  }

  // Whole runs.

  datatype Step = Request(req: AdminReq, now: nat, newId: string) | ReapAll(order: seq<string>, now: nat)

  /** A run so far: where it began, the state, all events, and the prefix of every id ever issued. */
  datatype Trace = Trace(first: State, s: State, log: seq<Envelope>, issued: map<string, IpPrefix>)

  /** Ids are random; the model takes each new one to differ from all earlier ones. */
  predicate StepOk(t: Trace, step: Step) {
    step.Request? ==> ValidReq(step.req) && step.newId !in t.issued
  }

  function After(s: State, step: Step): (State, seq<Envelope>) {
    match step
    case Request(req, now, newId) => Requested(s, req, now, newId)
    case ReapAll(order, now) => Reaped(s, ExpiredIn(s.bans, order, now))
  }

  function Issue(issued: map<string, IpPrefix>, evs: seq<Envelope>): map<string, IpPrefix> {
    if |evs| == 1 && evs[0].event.BanUpserted? then issued[evs[0].event.ban.banId := evs[0].event.ban.key] else issued
  }

  function Next(t: Trace, step: Step): Trace {
    var (s, evs) := After(t.s, step);
    Trace(t.first, s, t.log + evs, Issue(t.issued, evs))
  }

  ghost predicate RunOk(t: Trace, steps: seq<Step>)
    decreases |steps|
  {
    steps == [] || (RunOk(t, steps[..|steps| - 1]) && StepOk(Run(t, steps[..|steps| - 1]), steps[|steps| - 1]))
  }

  ghost function Run(t: Trace, steps: seq<Step>): Trace {
    if steps == [] then t else Next(Run(t, steps[..|steps| - 1]), steps[|steps| - 1])
  }

  /** The prefix of a ban id never changes: not in the maps, not in any event. */
  ghost predicate IdsKeepTheirPrefix(t: Trace) {
    && (forall id :: id in t.issued ==> Canonical(t.issued[id]))
    && (forall id :: id in t.s.bans ==> id in t.issued && t.issued[id] == t.s.bans[id].key)
    && (forall n :: 0 <= n < |t.log| && t.log[n].event.BanUpserted? ==>
          var b := t.log[n].event.ban; b.banId in t.issued && t.issued[b.banId] == b.key)
  }

  /** What the leader broadcasts: changes only, with hold names in normal form. */
  predicate NameOk(e: Event) {
    match e
    case Snapshot(_, _) => false
    case LegalHoldUpserted(h) => h.nameLc != "" && Normal(h.nameLc) == h.nameLc
    case LegalHoldDeleted(n) => n != "" && Normal(n) == n
    case _ => true
  }

  ghost predicate NamesOk(log: seq<Envelope>) {
    forall n :: 0 <= n < |log| ==> NameOk(log[n].event)
  }

  ghost predicate TraceInv(t: Trace) {
    && t.first.nextIndex <= U64_MAX
    && Inv(t.s)
    && Explains(t.first, t.log, t.s)
    && IdsKeepTheirPrefix(t)
    && NamesOk(t.log)
  }

  lemma EmptyLeaderInv()
    ensures TraceInv(Trace(EMPTY, EMPTY, [], map[]))
  {}

  ghost predicate Keeps(a: map<string, IpPrefix>, b: map<string, IpPrefix>) {
    forall id :: id in a ==> id in b && b[id] == a[id]
  }

  lemma BanKeepsIds(t: Trace, b: BanEntry, i: nat, u: Trace)
    requires IdsKeepTheirPrefix(t) && Inv(t.s) && Canonical(b.key)
    requires if b.key in t.s.banByKey then b.banId == t.s.banByKey[b.key] else b.banId !in t.issued
    requires u.log == t.log + [Envelope(i, BanUpserted(b))]
    requires u.s.bans == t.s.bans[b.banId := b] && u.issued == t.issued[b.banId := b.key]
    ensures IdsKeepTheirPrefix(u) && Keeps(t.issued, u.issued)
  {
    SameIdSamePrefix(t, b);
    forall id | id in u.s.bans
      ensures id in u.issued && u.issued[id] == u.s.bans[id].key
    {
    }
    forall n | 0 <= n < |u.log| && u.log[n].event.BanUpserted?
      ensures var e := u.log[n].event.ban; e.banId in u.issued && u.issued[e.banId] == e.key
    {
      assert n < |t.log| ==> u.log[n] == t.log[n];
    }
  }

  lemma SameIdSamePrefix(t: Trace, b: BanEntry)
    requires IdsKeepTheirPrefix(t) && Inv(t.s)
    requires if b.key in t.s.banByKey then b.banId == t.s.banByKey[b.key] else b.banId !in t.issued
    ensures b.banId in t.issued ==> t.issued[b.banId] == b.key
  {
  }

  lemma OthersKeepIds(t: Trace, evs: seq<Envelope>, u: Trace)
    requires IdsKeepTheirPrefix(t)
    requires u.log == t.log + evs && u.issued == t.issued
    requires forall n :: 0 <= n < |evs| ==> !evs[n].event.BanUpserted?
    requires forall id :: id in u.s.bans ==> id in t.s.bans && u.s.bans[id] == t.s.bans[id]
    ensures IdsKeepTheirPrefix(u)
  {
  }

  lemma OtherRequests(s: State, req: AdminReq, now: nat, newId: string)
    requires !req.UpsertBan? || New(req.addr, req.len).None?
    ensures var (t, evs) := Requested(s, req, now, newId);
      && (evs != [] ==> |evs| == 1 && !evs[0].event.BanUpserted?)
      && forall id :: id in t.bans ==> id in s.bans && t.bans[id] == s.bans[id]
  {
  }

  lemma RequestNamesOk(s: State, req: AdminReq, now: nat, newId: string)
    ensures NamesOk(Requested(s, req, now, newId).1)
  {
    match req {
      case UpsertLegalHold(name, _, _) => NormalIsStable(name);
      case DeleteLegalHold(name) => NormalIsStable(name);
      case _ =>
    }
  }

  lemma RequestKeepsIds(t: Trace, step: Step)
    requires TraceInv(t) && StepOk(t, step) && step.Request?
    ensures IdsKeepTheirPrefix(Next(t, step)) && Keeps(t.issued, Next(t, step).issued)
    ensures step.req.UpsertBan? && New(step.req.addr, step.req.len).Some? ==>
      var key, byKey := New(step.req.addr, step.req.len).value, Next(t, step).s.banByKey;
      key in byKey && byKey[key] == if key in t.s.banByKey then t.s.banByKey[key] else step.newId
  {
    var (s, evs) := After(t.s, step);
    if step.req.UpsertBan? && New(step.req.addr, step.req.len).Some? {
      NewKeepsAddresses(step.req.addr, step.req.len);
      var b := NewBan(t.s, New(step.req.addr, step.req.len).value, step.req, step.now, step.newId);
      BanKeepsIds(t, b, t.s.nextIndex, Next(t, step));
    } else {
      OtherRequests(t.s, step.req, step.now, step.newId);
      OthersKeepIds(t, evs, Next(t, step));
    }
  }

  /** Every step of a run keeps the invariant. */
  lemma NextKeepsTraceInv(t: Trace, step: Step)
    requires TraceInv(t) && StepOk(t, step)
    ensures TraceInv(Next(t, step))
    ensures t.log <= Next(t, step).log && Next(t, step).first == t.first
    ensures Keeps(t.issued, Next(t, step).issued)
  {
    if step.Request? {
      RequestKeepsTraceInv(t, step);
    } else {
      ReapKeepsTraceInv(t, step);
    }
  }

  lemma RequestKeepsTraceInv(t: Trace, step: Step)
    requires TraceInv(t) && StepOk(t, step) && step.Request?
    ensures TraceInv(Next(t, step)) && Keeps(t.issued, Next(t, step).issued)
  {
    var (s, evs) := After(t.s, step);
    RequestExplains(t.s, step.req, step.now, step.newId);
    RequestKeepsInv(t.s, step.req, step.now, step.newId);
    RequestKeepsIds(t, step);
    RequestNamesOk(t.s, step.req, step.now, step.newId);
    ExplainsChains(t.first, t.log, t.s, evs, s);
  }

  lemma ReapKeepsTraceInv(t: Trace, step: Step)
    requires TraceInv(t) && step.ReapAll?
    ensures TraceInv(Next(t, step)) && Keeps(t.issued, Next(t, step).issued)
  {
    var (s, evs) := After(t.s, step);
    var ids := ExpiredIn(t.s.bans, step.order, step.now);
    ReapExplains(t.s, ids);
    ReapKeepsInv(t.s, ids);
    ReapRemoves(t.s, ids);
    ReapEvents(t.s, ids);
    OthersKeepIds(t, evs, Next(t, step));
    ExplainsChains(t.first, t.log, t.s, evs, s);
  }

  lemma {:induction false} ReapEvents(s: State, ids: seq<string>)
    ensures |Reaped(s, ids).1| == |ids|
    ensures forall n :: 0 <= n < |ids| ==> Reaped(s, ids).1[n].event == BanDeleted(ids[n])
  {
    if ids != [] {
      var m := |ids| - 1;
      ReapEvents(s, ids[..m]);
      var evs := Reaped(s, ids[..m]).1;
      forall n | 0 <= n < |ids| ensures Reaped(s, ids).1[n].event == BanDeleted(ids[n]) {
        assert n < m ==> Reaped(s, ids).1[n] == evs[n] && evs[n].event == BanDeleted(ids[..m][n]);
      }
    }
  }

  /** In every reachable state the maps are inverse, the log explains them and ids keep their prefixes. */
  lemma {:induction false} RunKeepsTraceInv(t: Trace, steps: seq<Step>)
    requires TraceInv(t) && RunOk(t, steps)
    ensures TraceInv(Run(t, steps))
    ensures t.log <= Run(t, steps).log && Run(t, steps).first == t.first
    ensures Keeps(t.issued, Run(t, steps).issued)
  {
    if steps != [] {
      RunKeepsTraceInv(t, steps[..|steps| - 1]);
      NextKeepsTraceInv(Run(t, steps[..|steps| - 1]), steps[|steps| - 1]);
    }
  }

  /** What the leader has after `u`, in terms of what it had after a prefix of the log. */
  lemma LeaderReplays(t: Trace, u: Trace)
    requires TraceInv(t) && TraceInv(u) && t.first == u.first && t.log <= u.log
    ensures u.s.bans == Replay(t.s.bans, BanOps(u.log[|t.log|..]))
  {
    assert u.log == t.log + u.log[|t.log|..];
    assert BanOps(u.log) == BanOps(t.log) + BanOps(u.log[|t.log|..]);
    ReplayAppend(t.first.bans, BanOps(t.log), BanOps(u.log[|t.log|..]));
  }

  /** A ban that no later event concerns stays as it was. */
  lemma UntouchedStays(t: Trace, u: Trace, id: string)
    requires TraceInv(t) && TraceInv(u) && t.first == u.first && t.log <= u.log
    requires Some(id) !in Keys(BanOps(u.log[|t.log|..])) && id in t.s.bans
    ensures id in u.s.bans && u.s.bans[id] == t.s.bans[id]
  {
    LeaderReplays(t, u);
    ReplayLeavesAlone(t.s.bans, BanOps(u.log[|t.log|..]), id);
  }

  lemma ReapedIff(s: State, order: seq<string>, at: nat, id: string)
    requires id in s.bans && forall k :: k in s.bans ==> k in order
    ensures var left := After(s, ReapAll(order, at)).0.bans;
      && (id in left <==> s.bans[id].expiresAt == 0 || at < s.bans[id].expiresAt)
      && (id in left ==> left[id] == s.bans[id])
  {
    ReapLeavesTheLiving(s, order, at);
  }

  /** The entry says what the request says. */
  ghost predicate Carries(b: BanEntry, id: string, key: IpPrefix, req: AdminReq, now: nat)
    requires req.UpsertBan?
  {
    && b.banId == id && b.key == key && b.createdBy == req.createdBy && b.reason == req.reason && b.createdAt == now
    && (req.ttl == 0 ==> b.expiresAt == 0)
    && (req.ttl > 0 ==> b.expiresAt == if now + req.ttl <= U64_MAX then now + req.ttl else U64_MAX)
  }

  /**
   * A ban lasts exactly for its time to live: made at `step.now` and not touched since, it is still there
   * after a round of the reaper at `at` exactly while less than `ttl` seconds have passed, and forever
   * when `ttl` is zero. It carries what the request said.
   */
  lemma BanLasts(t: Trace, step: Step, u: Trace, order: seq<string>, at: nat)
    requires TraceInv(t) && StepOk(t, step) && step.Request? && step.req.UpsertBan?
    requires New(step.req.addr, step.req.len).Some?
    requires TraceInv(u) && u.first == t.first && Next(t, step).log <= u.log
    requires var key := New(step.req.addr, step.req.len).value;
      Some(if key in t.s.banByKey then t.s.banByKey[key] else step.newId)
        !in Keys(BanOps(u.log[|Next(t, step).log|..]))
    requires forall id :: id in u.s.bans ==> id in order
    ensures var key, req := New(step.req.addr, step.req.len).value, step.req;
      var id := if key in t.s.banByKey then t.s.banByKey[key] else step.newId;
      var left := Next(u, ReapAll(order, at)).s.bans;
      && id in u.s.bans
      && var b := u.s.bans[id];
      && b.banId == id && b.key == key
      && b.createdBy == req.createdBy && b.reason == req.reason && b.createdAt == step.now
      && (req.ttl == 0 ==> id in left)
      && (req.ttl > 0 && step.now + req.ttl <= U64_MAX ==> (id in left <==> at < step.now + req.ttl))
      && (req.ttl > 0 && step.now + req.ttl > U64_MAX ==> (id in left <==> at < U64_MAX))
      && (id in left ==> left[id] == b)
  {
    var key := New(step.req.addr, step.req.len).value;
    var id := if key in t.s.banByKey then t.s.banByKey[key] else step.newId;
    var next := Next(t, step);
    NextKeepsTraceInv(t, step);
    BanIsEntered(t.s, step.req, step.now, step.newId);
    assert id in next.s.bans && Carries(next.s.bans[id], id, key, step.req, step.now);
    UntouchedStays(next, u, id);
    ReapedIff(u.s, order, at, id);
  }

  lemma BanIsEntered(s: State, req: AdminReq, now: nat, newId: string)
    requires req.UpsertBan? && New(req.addr, req.len).Some?
    ensures var key, bans := New(req.addr, req.len).value, Requested(s, req, now, newId).0.bans;
      var id := if key in s.banByKey then s.banByKey[key] else newId;
      id in bans && Carries(bans[id], id, key, req, now)
  {
  }

  /** What the answer says is so: the entry it carries is the one stored and sent, under the index it gives. */
  lemma AnswersMean(s: State, req: AdminReq, now: nat, newId: string)
    ensures var ((t, evs), resp) := (Requested(s, req, now, newId), Answer(s, req, now, newId));
      match resp
      case OkBan(i, b) =>
        && i == s.nextIndex && evs == [Envelope(i, BanUpserted(b))] && b.banId in t.bans && t.bans[b.banId] == b
      case OkLegalHold(i, h) =>
        && i == s.nextIndex && evs == [Envelope(i, LegalHoldUpserted(h))]
        && h.nameLc in t.holds && t.holds[h.nameLc] == h
      case OkState(i, bans, holds) =>
        t == s && evs == [] && bans == s.bans && holds == s.holds && (i == 0 || i + 1 == s.nextIndex)
      case Ok(i) => i == s.nextIndex && |evs| == 1 && evs[0].index == i && t.nextIndex == SatAdd(i, 1)
      case Err => t == s && evs == []
      case Dropped => t == s && evs == []
  {
  }

  /** Which bans and holds a request changes, and to what; a ban without a prefix and a blank name change nothing. */
  lemma RequestsMean(s: State, req: AdminReq, now: nat, newId: string)
    ensures var (t, _) := Requested(s, req, now, newId);
      && (!req.UpsertBan? && !req.DeleteBan? ==> t.bans == s.bans && t.banByKey == s.banByKey)
      && (!req.UpsertLegalHold? && !req.DeleteLegalHold? ==> t.holds == s.holds)
      && (req.DeleteBan? ==> t.bans == s.bans - {req.banId})
      && (req.UpsertLegalHold? && Trim(req.name) != "" ==>
            t.holds == s.holds[Normal(req.name) := HoldEntry(Normal(req.name), now, req.createdBy, req.reason)])
      && (req.DeleteLegalHold? ==> t.holds == s.holds - {Normal(req.name)} || Trim(req.name) == "")
      && (req.ReportEnforcementStatus? ==> t.lastStatus == s.lastStatus[req.status.nodeId := req.status])
      && (req.ReportBanApplyResult? ==>
            t.lastApply == s.lastApply[(req.report.nodeId, req.report.banId, req.report.op) := req.report])
    ensures req.UpsertBan? || req.UpsertLegalHold? || req.DeleteLegalHold? || req.GetState?
      || Answer(s, req, now, newId) == Ok(s.nextIndex)
    ensures req.UpsertLegalHold? || req.DeleteLegalHold? ==>
      (Answer(s, req, now, newId) == Err <==> Trim(req.name) == "")
    ensures req.UpsertBan? ==> (Answer(s, req, now, newId) == Dropped <==> New(req.addr, req.len).None?)
    ensures req.GetState? ==> Answer(s, req, now, newId).OkState?
  {
  }

  /** Events carry each index once exactly when the 64-bit counter does not reach its cap too early. */
  lemma IndicesDistinctIffNoOverflow(t: Trace)
    requires TraceInv(t)
    ensures (forall m, n :: 0 <= m < n < |t.log| ==> t.log[m].index != t.log[n].index)
       <==> (|t.log| <= 1 || t.first.nextIndex + |t.log| - 1 <= U64_MAX)
    ensures t.first.nextIndex + |t.log| <= U64_MAX ==>
              && t.s.nextIndex == t.first.nextIndex + |t.log|
              && forall n :: 0 <= n < |t.log| ==> t.log[n].index == t.first.nextIndex + n
  {
    var base := t.first.nextIndex;
    if |t.log| > 1 && base + |t.log| - 1 > U64_MAX {
      var n := |t.log| - 1;
      assert t.log[n - 1].index == t.log[n].index == U64_MAX;
    }
  }

  /** The leader process: its state is changed in place under a lock. */
  class Leader {
    var nextIndex: nat
    var bans: map<string, BanEntry>
    var banByKey: map<IpPrefix, string>
    var holds: map<string, HoldEntry>
    var lastStatus: map<string, EnforcementStatus>
    var lastApply: map<(string, string, string), ApplyReport>

    ghost function Contents(): State
      reads this
    {
      State(nextIndex, bans, banByKey, holds, lastStatus, lastApply)
    }

    constructor ()
      ensures Contents() == EMPTY && nextIndex == 1 && bans == map[] && banByKey == map[] && holds == map[]
    {
      nextIndex := 1;
      bans, banByKey, holds, lastStatus, lastApply := map[], map[], map[], map[], map[];
    }

    method Publish(e: Event) returns (ev: Envelope)
      modifies this`nextIndex
      ensures (Contents(), [ev]) == Emit(old(Contents()), e)
    {
      ev := Envelope(nextIndex, e);
      nextIndex := SatAdd(nextIndex, 1);
    }

    method Drop(id: string)
      modifies this`bans, this`banByKey
      ensures Contents() == Unlink(old(Contents()), id)
    {
      if id in bans {
        var key := bans[id].key;
        bans := bans - {id};
        banByKey := banByKey - {key};
      }
    }

    /** The request match of `handle_admin_conn`. */
    method Request(req: AdminReq, now: nat, newId: string) returns (resp: AdminResp, event: Option<Envelope>)
      modifies this
      ensures (Contents(), if event.Some? then [event.value] else []) == Requested(old(Contents()), req, now, newId)
      ensures resp == Answer(old(Contents()), req, now, newId)
    {
      event := None;
      match req
      case UpsertBan(addr, len, ttl, createdBy, reason) =>
        var parsed := New(addr, len);
        if parsed.None? {
          return Dropped, None;
        }
        var key := parsed.value;
        var banId;
        if key in banByKey {
          banId := banByKey[key];
        } else {
          banId := newId;
          banByKey := banByKey[key := banId];
        }
        var entry := BanEntry(banId, key, now, createdBy, reason, Expiry(ttl, now));
        bans := bans[banId := entry];
        var ev := Publish(BanUpserted(entry));
        assert banByKey == old(banByKey)[key := banId];
        resp, event := OkBan(ev.index, entry), Some(ev);
      case DeleteBan(banId) =>
        Drop(banId);
        var ev := Publish(BanDeleted(banId));
        resp, event := Ok(ev.index), Some(ev);
      case UpsertLegalHold(name, createdBy, reason) =>
        var nameLc := Normal(name);
        if nameLc == "" {
          return Err, None;
        }
        var entry := HoldEntry(nameLc, now, createdBy, reason);
        holds := holds[nameLc := entry];
        var ev := Publish(LegalHoldUpserted(entry));
        resp, event := OkLegalHold(ev.index, entry), Some(ev);
      case DeleteLegalHold(name) =>
        var nameLc := Normal(name);
        if nameLc == "" {
          return Err, None;
        }
        holds := holds - {nameLc};
        var ev := Publish(LegalHoldDeleted(nameLc));
        resp, event := Ok(ev.index), Some(ev);
      case ReportEnforcementStatus(status) =>
        lastStatus := lastStatus[status.nodeId := status];
        var ev := Publish(StatusReported(status));
        resp, event := Ok(ev.index), Some(ev);
      case ReportBanApplyResult(report) =>
        lastApply := lastApply[(report.nodeId, report.banId, report.op) := report];
        var ev := Publish(ApplyReported(report));
        resp, event := Ok(ev.index), Some(ev);
      case GetState =>
        resp := OkState(if nextIndex == 0 then 0 else nextIndex - 1, bans, holds);
    }

    /** One round of the TTL reaper; `order` is the order in which the hash map yields its ids. */
    method ReapExpired(now: nat, order: seq<string>) returns (events: seq<Envelope>)
      requires forall id :: id in bans <==> id in order
      modifies this
      ensures (Contents(), events) == Reaped(old(Contents()), ExpiredIn(old(bans), order, now))
      ensures bans == map id | id in old(bans) && !Expired(old(bans)[id], now) :: old(bans)[id]
    {
      ghost var start := Contents();
      var expired := [];
      for n := 0 to |order|
        invariant Contents() == start
        invariant expired == ExpiredIn(start.bans, order[..n], now)
      {
        assert order[..n + 1][..n] == order[..n];
        if Expired(bans[order[n]], now) {
          expired := expired + [order[n]];
        }
      }
      assert order[..|order|] == order;
      events := [];
      for n := 0 to |expired|
        invariant (Contents(), events) == Reaped(start, expired[..n])
      {
        assert expired[..n + 1][..n] == expired[..n];
        Drop(expired[n]);
        var ev := Publish(BanDeleted(expired[n]));
        events := events + [ev];
      }
      assert expired[..|expired|] == expired;
      ReapLeavesTheLiving(start, order, now);
    }
  }
}
