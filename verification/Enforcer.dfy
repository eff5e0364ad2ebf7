/** The enforcing replica: `apps/sbc_enforcerd/src/main.rs`, with its no-op backend. */
module BanEnforcer {
  import opened Prelude
  import opened IpPrefixes
  import opened KeyedLog
  import opened BanLeader

  datatype Reason = Startup | DnsEnabled | DnsDisabled | DnsError

  /** The shared state that the DNS task and the events task change under its lock. */
  datatype Enforcement = Enforcement(
    dnsEnabled: bool, dnsLastError: Option<string>,
    enforcing: bool, reason: Reason, attached: bool,
    desired: map<string, BanEntry>, applied: map<string, BanEntry>, lastIndex: nat)

  const START := Enforcement(false, None, false, Startup, false, map[], map[], 0)

  function NotExempt(bans: map<string, BanEntry>, exempt: seq<IpPrefix>): map<string, BanEntry>
    requires AllValid(exempt)
  {
    map id | id in bans && !ExemptPrefix(exempt, bans[id].key) :: bans[id]
  }

  function Unexpired(bans: map<string, BanEntry>, now: nat): map<string, BanEntry> {
    map id | id in bans && !Expired(bans[id], now) :: bans[id]
  }

  function WantReason(enabled: bool, err: Option<string>): Reason {
    if enabled then DnsEnabled else if err.Some? then DnsError else DnsDisabled
  }

  /** A DNS check: the mode follows the result, and the applied bans are rebuilt or cleared on a change. */
  function Checked(e: Enforcement, enabled: bool, err: Option<string>, now: nat, exempt: seq<IpPrefix>): Enforcement
    requires AllValid(exempt)
  {
    e.(dnsEnabled := enabled, dnsLastError := err, enforcing := enabled, reason := WantReason(enabled, err),
       attached := enabled,
       applied := if e.attached == enabled then e.applied
                  else if enabled then NotExempt(Unexpired(e.desired, now), exempt)
                  else map[])
  }

  /** The bans of a snapshot that have not expired, later entries replacing earlier ones. */
  function Wanted(bans: seq<BanEntry>, now: nat): map<string, BanEntry> {
    if bans == [] then map[]
    else
      var m, b := Wanted(bans[..|bans| - 1], now), bans[|bans| - 1];
      if Expired(b, now) then m else m[b.banId := b]
  }

  function Received(e: Enforcement, env: Envelope, now: nat, exempt: seq<IpPrefix>): Enforcement
    requires AllValid(exempt)
  {
    var e := e.(lastIndex := Max(e.lastIndex, env.index));
    match env.event
    case Snapshot(bans, _) =>
      var d := Wanted(bans, now);
      e.(desired := d, applied := if e.enforcing then NotExempt(d, exempt) else e.applied)
    case BanUpserted(b) =>
      e.(desired := e.desired[b.banId := b],
         applied := if e.enforcing && !ExemptPrefix(exempt, b.key) then e.applied[b.banId := b] else e.applied)
    case BanDeleted(id) =>
      e.(desired := e.desired - {id}, applied := if e.enforcing then e.applied - {id} else e.applied)
    case _ => e
  }

  /** The report sent back for an event: an applied change is `ok`, anything else says why not. */
  function Report(e: Enforcement, env: Envelope, now: nat, exempt: seq<IpPrefix>, node: string): Option<ApplyReport>
    requires AllValid(exempt)
  {
    match env.event
    case BanUpserted(b) =>
      Some(if !e.enforcing then ApplyReport(node, b.banId, "upsert", "skipped", Some("enforcement_disabled"), now)
           else if ExemptPrefix(exempt, b.key) then
             ApplyReport(node, b.banId, "upsert", "skipped", Some("exempt_prefix"), now)
           else ApplyReport(node, b.banId, "upsert", "ok", None, now))
    case BanDeleted(id) =>
      Some(if e.enforcing then ApplyReport(node, id, "delete", "ok", None, now)
           else ApplyReport(node, id, "delete", "skipped", Some("enforcement_disabled"), now))
    case _ => None
  }

  /**
   * A report tells what became of its change: `ok` exactly when the enforcer enforces and the ban is then
   * applied as asked, or taken out; and why not otherwise. Only changes of one ban are reported.
   */
  lemma ReportTells(e: Enforcement, env: Envelope, now: nat, exempt: seq<IpPrefix>, node: string)
    requires AllValid(exempt)
    ensures var next, r := Received(e, env, now, exempt), Report(e, env, now, exempt, node);
      && (r.Some? <==> env.event.BanUpserted? || env.event.BanDeleted?)
      && (r.Some? ==>
            && r.value.nodeId == node && r.value.reportedAt == now
            && r.value.op == (if env.event.BanUpserted? then "upsert" else "delete")
            && r.value.banId == (if env.event.BanUpserted? then env.event.ban.banId else env.event.banId)
            && r.value.result == (if r.value.error.None? then "ok" else "skipped")
            && (r.value.error == Some("enforcement_disabled") <==> !e.enforcing)
            && (r.value.error == Some("exempt_prefix") <==>
                  e.enforcing && env.event.BanUpserted? && ExemptPrefix(exempt, env.event.ban.key))
            && (r.value.error.None? ==>
                  if env.event.BanUpserted?
                  then env.event.ban.banId in next.applied && next.applied[env.event.ban.banId] == env.event.ban
                  else env.event.banId !in next.applied)
            && (r.value.error.Some? ==>
                  next.applied == e.applied && r.value.error.value in {"enforcement_disabled", "exempt_prefix"}))
  {
  }

  /** What an event does to the desired bans, and that nothing but the event's own bans is touched. */
  lemma ReceivedMeans(e: Enforcement, env: Envelope, now: nat, exempt: seq<IpPrefix>)
    requires AllValid(exempt)
    ensures var next := Received(e, env, now, exempt);
      && next.lastIndex >= e.lastIndex && next.lastIndex >= env.index && next.lastIndex in {e.lastIndex, env.index}
      && next.enforcing == e.enforcing && next.attached == e.attached && next.reason == e.reason
      && next.dnsEnabled == e.dnsEnabled && next.dnsLastError == e.dnsLastError
      && (env.event.BanUpserted? ==> next.desired == e.desired[env.event.ban.banId := env.event.ban])
      && (env.event.BanDeleted? ==> next.desired == e.desired - {env.event.banId})
      && (!env.event.BanUpserted? && !env.event.BanDeleted? && !env.event.Snapshot? ==>
            next.desired == e.desired && next.applied == e.applied)
      && (!e.enforcing ==> next.applied == e.applied)
  {
  }

  /** Of a snapshot the last entry of each id that has not expired is wanted, and nothing else. */
  lemma {:induction false} WantedMeans(bans: seq<BanEntry>, now: nat, id: string) returns (at: nat)
    ensures id in Wanted(bans, now) ==>
      && at < |bans| && bans[at].banId == id && !Expired(bans[at], now) && Wanted(bans, now)[id] == bans[at]
      && forall n :: at < n < |bans| ==> bans[n].banId != id || Expired(bans[n], now)
    ensures id !in Wanted(bans, now) ==>
      forall n :: 0 <= n < |bans| ==> bans[n].banId != id || Expired(bans[n], now)
  {
    at := 0;
    if bans != [] {
      var last := |bans| - 1;
      at := WantedMeans(bans[..last], now, id);
      if bans[last].banId == id && !Expired(bans[last], now) {
        at := last;
      }
    }
  }

  /** Enforcement follows the DNS result, and the reason says which result it was. */
  lemma CheckedMeans(e: Enforcement, enabled: bool, err: Option<string>, now: nat, exempt: seq<IpPrefix>)
    requires AllValid(exempt)
    ensures var next := Checked(e, enabled, err, now, exempt);
      && (next.enforcing <==> enabled) && (next.dnsEnabled <==> enabled) && (next.attached <==> enabled)
      && next.dnsLastError == err && next.desired == e.desired && next.lastIndex == e.lastIndex
      && (next.reason == DnsEnabled <==> enabled)
      && (next.reason == DnsError <==> !enabled && err.Some?)
      && (next.reason == DnsDisabled <==> !enabled && err.None?)
      && (e.attached == enabled ==> next.applied == e.applied)
      && (e.attached && !enabled ==> next.applied == map[])
      && (!e.attached && enabled ==> forall id :: id in next.applied <==>
            id in e.desired && !Expired(e.desired[id], now) && !ExemptPrefix(exempt, e.desired[id].key))
      && (!e.attached && enabled ==> forall id :: id in next.applied ==> next.applied[id] == e.desired[id])
  {
  }

  /** Every ban id belongs to the prefix it was issued for. */
  ghost predicate Agrees(bans: map<string, BanEntry>, issued: map<string, IpPrefix>) {
    forall id :: id in bans ==> bans[id].banId == id && id in issued && issued[id] == bans[id].key
  }

  ghost predicate BanAgrees(b: BanEntry, issued: map<string, IpPrefix>) {
    b.banId in issued && issued[b.banId] == b.key
  }

  ghost predicate EventAgrees(e: Event, issued: map<string, IpPrefix>) {
    match e
    case Snapshot(bans, _) => forall n :: 0 <= n < |bans| ==> BanAgrees(bans[n], issued)
    case BanUpserted(b) => BanAgrees(b, issued)
    case _ => true
  }

  /** What is applied, as a function of what is desired, the mode, the exemptions and the time. */
  ghost predicate AppliedRight(e: Enforcement, now: nat, exempt: seq<IpPrefix>)
    requires AllValid(exempt)
  {
    if !e.enforcing then e.applied == map[]
    else
      && (forall id :: id in e.applied ==>
            id in e.desired && e.applied[id] == e.desired[id] && !ExemptPrefix(exempt, e.applied[id].key))
      && (forall id :: id in e.desired && !ExemptPrefix(exempt, e.desired[id].key) && !Expired(e.desired[id], now) ==>
            id in e.applied)
  }

  ghost predicate EnforcementInv(e: Enforcement, now: nat, exempt: seq<IpPrefix>, issued: map<string, IpPrefix>)
    requires AllValid(exempt)
  {
    && e.dnsEnabled == e.enforcing == e.attached
    && Agrees(e.desired, issued)
    && AppliedRight(e, now, exempt)
  }

  lemma CheckedKeepsInv(e: Enforcement, enabled: bool, err: Option<string>, now: nat,
                        exempt: seq<IpPrefix>, issued: map<string, IpPrefix>)
    requires AllValid(exempt) && EnforcementInv(e, now, exempt, issued)
    ensures EnforcementInv(Checked(e, enabled, err, now, exempt), now, exempt, issued)
  {
  }

  lemma {:induction false} WantedAgrees(bans: seq<BanEntry>, now: nat, issued: map<string, IpPrefix>)
    requires forall n :: 0 <= n < |bans| ==> BanAgrees(bans[n], issued)
    ensures Agrees(Wanted(bans, now), issued)
  {
    if bans != [] {
      WantedAgrees(bans[..|bans| - 1], now, issued);
    }
  }

  /** No event that carries the leader's ids breaks the invariant, whatever its order or repetition. */
  lemma ReceivedKeepsInv(e: Enforcement, env: Envelope, now: nat, exempt: seq<IpPrefix>, issued: map<string, IpPrefix>)
    requires AllValid(exempt) && EnforcementInv(e, now, exempt, issued) && EventAgrees(env.event, issued)
    ensures EnforcementInv(Received(e, env, now, exempt), now, exempt, issued)
  {
    if env.event.Snapshot? {
      WantedAgrees(env.event.bans, now, issued);
    }
  }

  /** The clock may move on, and more ids may be issued. */
  lemma LaterKeepsInv(e: Enforcement, now: nat, later: nat,
                      exempt: seq<IpPrefix>, issued: map<string, IpPrefix>, more: map<string, IpPrefix>)
    requires AllValid(exempt) && EnforcementInv(e, now, exempt, issued) && now <= later && Keeps(issued, more)
    ensures EnforcementInv(e, later, exempt, more)
  {
  }

  /**
   * Stable ids are needed: if an id could move to an exempt prefix, the old ban would stay
   * applied although it is no longer desired.
   */
  lemma MovedIdBreaksInv(e: Enforcement, was: BanEntry, moved: BanEntry, now: nat, exempt: seq<IpPrefix>)
    requires AllValid(exempt) && e.enforcing && AppliedRight(e, now, exempt)
    requires moved.banId == was.banId && moved.key != was.key && ExemptPrefix(exempt, moved.key)
    requires was.banId in e.applied && e.applied[was.banId] == was
    ensures !AppliedRight(Received(e, Envelope(0, BanUpserted(moved)), now, exempt), now, exempt)
  {
    var e' := Received(e, Envelope(0, BanUpserted(moved)), now, exempt);
    assert e'.applied[was.banId] == was && e'.desired[was.banId] == moved;
  }

  // The desired set as a replica of the leader's bans.

  datatype Input = Dns(enabled: bool, err: Option<string>, at: nat) | Event(env: Envelope, at: nat)

  function Fed(e: Enforcement, inputs: seq<Input>, exempt: seq<IpPrefix>): Enforcement
    requires AllValid(exempt)
  {
    if inputs == [] then e
    else
      var e', i := Fed(e, inputs[..|inputs| - 1], exempt), inputs[|inputs| - 1];
      match i
      case Dns(enabled, err, at) => Checked(e', enabled, err, at, exempt)
      case Event(env, at) => Received(e', env, at, exempt)
  }

  function Events(inputs: seq<Input>): seq<Envelope> {
    if inputs == [] then []
    else
      var i := inputs[|inputs| - 1];
      Events(inputs[..|inputs| - 1]) + if i.Event? then [i.env] else []
  }

  /** DNS checks never touch the desired set, and events replay on it by ban id. */
  lemma {:induction false} FedReplays(e: Enforcement, inputs: seq<Input>, exempt: seq<IpPrefix>)
    requires AllValid(exempt) && NamesOk(Events(inputs))
    ensures Fed(e, inputs, exempt).desired == Replay(e.desired, BanOps(Events(inputs)))
  {
    if inputs != [] {
      var n := |inputs| - 1;
      var before, i := Events(inputs[..n]), inputs[n];
      EventsSplit(inputs);
      FedReplays(e, inputs[..n], exempt);
      if i.Event? {
        assert NameOk(Events(inputs)[|before|].event);
        assert BanOps(Events(inputs))[..|before|] == BanOps(before);
      }
    }
  }

  lemma EventsSplit(inputs: seq<Input>)
    requires inputs != []
    ensures var before, i := Events(inputs[..|inputs| - 1]), inputs[|inputs| - 1];
      && Events(inputs) == if i.Event? then before + [i.env] else before
    ensures NamesOk(Events(inputs)) ==> NamesOk(Events(inputs[..|inputs| - 1]))
  {
    var before := Events(inputs[..|inputs| - 1]);
    assert forall m :: 0 <= m < |before| ==> before[m] == Events(inputs)[m];
  }

  function BanName(b: BanEntry): string {
    b.banId
  }

  lemma {:induction false} WantedFinds(bans: seq<BanEntry>, now: nat, m: map<string, BanEntry>)
    requires forall n :: 0 <= n < |bans| ==> bans[n].banId in m && m[bans[n].banId] == bans[n]
    ensures forall id :: id in Wanted(bans, now) ==> id in m && Wanted(bans, now)[id] == m[id] && !Expired(m[id], now)
    ensures forall n :: 0 <= n < |bans| && !Expired(bans[n], now) ==> bans[n].banId in Wanted(bans, now)
  {
    if bans != [] {
      WantedFinds(bans[..|bans| - 1], now, m);
    }
  }

  /** The enforcer process. */
  class Enforcer {
    const node: string
    const exempt: seq<IpPrefix>
    var dnsEnabled: bool
    var dnsLastError: Option<string>
    var enforcing: bool
    var reason: Reason
    var attached: bool
    var desired: map<string, BanEntry>
    var applied: map<string, BanEntry>
    var lastIndex: nat

    ghost function Contents(): Enforcement
      reads this
    {
      Enforcement(dnsEnabled, dnsLastError, enforcing, reason, attached, desired, applied, lastIndex)
    }

    constructor (node: string, exempt: seq<IpPrefix>)
      requires AllValid(exempt)
      ensures this.node == node && this.exempt == exempt
      ensures Contents() == START && EnforcementInv(Contents(), 0, exempt, map[])
      ensures !enforcing && reason == Startup && !attached && desired == map[] && applied == map[] && lastIndex == 0
    {
      this.node, this.exempt := node, exempt;
      dnsEnabled, dnsLastError, enforcing, reason, attached := false, None, false, Startup, false;
      desired, applied, lastIndex := map[], map[], 0;
    }

    /** The bans of `order` that are not exempt, by id. */
    method Rebuild(order: seq<string>) returns (m: map<string, BanEntry>)
      requires AllValid(exempt) && forall id :: id in desired <==> id in order
      ensures m == NotExempt(desired, exempt)
    {
      m := map[];
      for n := 0 to |order|
        invariant m == map id | id in desired && id in order[..n] &&
            !ExemptPrefix(exempt, desired[id].key) :: desired[id]
      {
        var b := desired[order[n]];
        if !ExemptPrefix(exempt, b.key) {
          m := m[order[n] := b];
        }
      }
    }

    /** Records a DNS result and the mode that follows from it, and says whether anything changed. */
    method SetMode(enabled: bool, err: Option<string>) returns (changed: bool)
      modifies this`dnsEnabled, this`dnsLastError, this`enforcing, this`reason
      ensures Contents() == old(Contents()).(dnsEnabled := enabled, dnsLastError := err,
                                             enforcing := enabled, reason := WantReason(enabled, err))
      ensures changed <==> Contents() != old(Contents())
    {
      changed := false;
      if dnsEnabled != enabled {
        dnsEnabled, changed := enabled, true;
      }
      if dnsLastError != err {
        dnsLastError, changed := err, true;
      }
      if enforcing != dnsEnabled {
        enforcing, changed := dnsEnabled, true;
      }
      var want := WantReason(dnsEnabled, dnsLastError);
      if reason != want {
        reason, changed := want, true;
      }
    }

    /** The locked part of `dns_task`; `order` is the order in which the desired set is walked. */
    method CheckDns(enabled: bool, err: Option<string>, now: nat, order: seq<string>)
      returns (changed: bool, reports: seq<ApplyReport>)
      requires AllValid(exempt)
      requires forall id :: id in desired ==> desired[id].banId == id
      requires forall id :: id in desired <==> id in order
      modifies this
      ensures Contents() == Checked(old(Contents()), enabled, err, now, exempt)
      ensures old(attached) == attached ==> reports == [] && (changed <==> Contents() != old(Contents()))
      ensures old(attached) != attached ==> changed
      ensures old(attached) && !attached ==> reports == []
      ensures !old(attached) && attached ==> ReportsMatch(reports, applied) && SyncReported(reports, desired, node, now)
    {
      changed := SetMode(enabled, err);
      reports := [];
      if attached != enforcing {
        attached, changed := enforcing, true;
        if !attached {
          applied := map[];
        } else {
          applied, reports := Sync(now, order);
        }
      }
    }

    /** Every applied ban has a report, and a report says `ok` exactly when its ban is applied. */
    static ghost predicate ReportsMatch(reports: seq<ApplyReport>, applied: map<string, BanEntry>) {
      && (forall n :: 0 <= n < |reports| ==>
            reports[n].op == "sync" && (reports[n].result == "ok" <==> reports[n].banId in applied))
      && (forall id :: id in applied ==> exists n :: 0 <= n < |reports| && reports[n].banId == id)
    }

    /** A report says who made it and when, and why a ban is skipped; every unexpired desired ban has one. */
    static ghost predicate SyncReported(reports: seq<ApplyReport>, desired: map<string, BanEntry>, node: string,
                                        now: nat) {
      && (forall n :: 0 <= n < |reports| ==> SyncReport(reports[n], node, now))
      && (forall id :: id in desired && !Expired(desired[id], now) ==>
            HasReport(reports, id))
    }

    static ghost predicate HasReport(reports: seq<ApplyReport>, id: string) {
      exists n :: 0 <= n < |reports| && reports[n].banId == id
    }

    static lemma StillReported(reports: seq<ApplyReport>, report: ApplyReport, id: string)
      requires HasReport(reports, id) || report.banId == id
      ensures HasReport(reports + [report], id)
    {
      if HasReport(reports, id) {
        var n :| 0 <= n < |reports| && reports[n].banId == id;
        assert (reports + [report])[n].banId == id;
      } else {
        assert (reports + [report])[|reports|].banId == id;
      }
    }

    /** The reports made for the ids walked so far. */
    static ghost predicate ReportedFor(reports: seq<ApplyReport>, ids: seq<string>, desired: map<string, BanEntry>,
                                       node: string, now: nat) {
      && (forall n :: 0 <= n < |reports| ==> SyncReport(reports[n], node, now))
      && (forall id :: id in ids && id in desired && !Expired(desired[id], now) ==> HasReport(reports, id))
    }

    static lemma ReportedNext(reports: seq<ApplyReport>, report: ApplyReport, order: seq<string>, k: nat,
                              desired: map<string, BanEntry>, node: string, now: nat)
      requires k < |order| && ReportedFor(reports, order[..k], desired, node, now)
      requires SyncReport(report, node, now) && report.banId == order[k]
      ensures ReportedFor(reports + [report], order[..k + 1], desired, node, now)
    {
      assert order[..k + 1] == order[..k] + [order[k]];
      forall id | HasReport(reports, id) || report.banId == id
        ensures HasReport(reports + [report], id)
      {
        StillReported(reports, report, id);
      }
    }

    static lemma ReportedPast(reports: seq<ApplyReport>, order: seq<string>, k: nat,
                              desired: map<string, BanEntry>, node: string, now: nat)
      requires k < |order| && ReportedFor(reports, order[..k], desired, node, now)
      requires order[k] in desired && Expired(desired[order[k]], now)
      ensures ReportedFor(reports, order[..k + 1], desired, node, now)
    {
      assert order[..k + 1] == order[..k] + [order[k]];
    }

    static predicate SyncReport(r: ApplyReport, node: string, now: nat) {
      && r.nodeId == node && r.reportedAt == now && r.op == "sync"
      && if r.error.None? then r.result == "ok" else r.result == "skipped" && r.error.value == "exempt_prefix"
    }

    static lemma ReportsGrow(reports: seq<ApplyReport>, m: map<string, BanEntry>, report: ApplyReport, b: BanEntry)
      requires ReportsMatch(reports, m) && report.op == "sync" && report.banId == b.banId
      requires if report.result == "ok"
               then b.banId !in m ==> forall n :: 0 <= n < |reports| ==> reports[n].banId != b.banId
               else b.banId !in m
      ensures ReportsMatch(reports + [report], if report.result == "ok" then m[b.banId := b] else m)
    {
      var m' := if report.result == "ok" then m[b.banId := b] else m;
      forall id | id in m'
        ensures exists n :: 0 <= n < |reports| + 1 && (reports + [report])[n].banId == id
      {
        if id == b.banId {
          assert (reports + [report])[|reports|].banId == id;
        } else {
          var n :| 0 <= n < |reports| && reports[n].banId == id;
          assert (reports + [report])[n].banId == id;
        }
      }
    }

    /** What the walk has reported when it has come past the ids. */
    static ghost predicate Walked(reports: seq<ApplyReport>, ids: seq<string>, m: map<string, BanEntry>,
                                  desired: map<string, BanEntry>, node: string, now: nat) {
      && ReportsMatch(reports, m) && ReportedFor(reports, ids, desired, node, now)
      && forall n :: 0 <= n < |reports| ==> reports[n].banId in ids
    }

    static lemma WalkedNext(reports: seq<ApplyReport>, report: ApplyReport, order: seq<string>, k: nat,
                            m: map<string, BanEntry>, desired: map<string, BanEntry>, node: string, now: nat)
      requires k < |order| && Walked(reports, order[..k], m, desired, node, now)
      requires order[k] in desired && desired[order[k]].banId == order[k]
      requires SyncReport(report, node, now) && report.banId == order[k]
      requires if report.error.Some? then order[k] !in m else order[k] in order[..k] ==> order[k] in m
      ensures Walked(reports + [report], order[..k + 1],
                     if report.error.None? then m[order[k] := desired[order[k]]] else m, desired, node, now)
    {
      ReportsGrow(reports, m, report, desired[order[k]]);
      ReportedNext(reports, report, order, k, desired, node, now);
      assert order[..k + 1] == order[..k] + [order[k]];
    }

    static lemma WalkedPast(reports: seq<ApplyReport>, order: seq<string>, k: nat, m: map<string, BanEntry>,
                            desired: map<string, BanEntry>, node: string, now: nat)
      requires k < |order| && Walked(reports, order[..k], m, desired, node, now)
      requires order[k] in desired && Expired(desired[order[k]], now)
      ensures Walked(reports, order[..k + 1], m, desired, node, now)
    {
      ReportedPast(reports, order, k, desired, node, now);
      assert order[..k + 1] == order[..k] + [order[k]];
    }

    /** The bans to apply among the ids walked so far. */
    ghost function SyncedTo(ids: seq<string>, now: nat): map<string, BanEntry>
      requires AllValid(exempt)
      reads this
    {
      map id | id in desired && id in ids && !Expired(desired[id], now) && !ExemptPrefix(exempt, desired[id].key)
        :: desired[id]
    }

    lemma SyncedNext(order: seq<string>, k: nat, now: nat)
      requires AllValid(exempt) && k < |order| && order[k] in desired
      ensures var b, was := desired[order[k]], SyncedTo(order[..k], now);
        SyncedTo(order[..k + 1], now)
        == if Expired(b, now) || ExemptPrefix(exempt, b.key) then was else was[order[k] := b]
    {
      assert order[..k + 1] == order[..k] + [order[k]];
    }

    /** (Re)applies the desired bans: expired ones are passed over, exempt ones reported as skipped. */
    method Sync(now: nat, order: seq<string>) returns (m: map<string, BanEntry>, reports: seq<ApplyReport>)
      requires AllValid(exempt)
      requires forall id :: id in desired ==> desired[id].banId == id
      requires forall id :: id in desired <==> id in order
      ensures m == NotExempt(Unexpired(desired, now), exempt)
      ensures ReportsMatch(reports, m) && SyncReported(reports, desired, node, now)
    {
      m, reports := map[], [];
      for k := 0 to |order|
        invariant m == SyncedTo(order[..k], now) && Walked(reports, order[..k], m, desired, node, now)
      {
        var b := desired[order[k]];
        SyncedNext(order, k, now);
        if !Expired(b, now) {
          var report := SyncReportOf(b, now);
          WalkedNext(reports, report, order, k, m, desired, node, now);
          if report.error.None? {
            m := m[b.banId := b];
          }
          reports := reports + [report];
        } else {
          WalkedPast(reports, order, k, m, desired, node, now);
        }
      }
      assert order[..|order|] == order;
    }

    method SyncReportOf(b: BanEntry, now: nat) returns (report: ApplyReport)
      requires AllValid(exempt)
      ensures SyncReport(report, node, now) && report.banId == b.banId
      ensures report.error.Some? <==> ExemptPrefix(exempt, b.key)
    {
      if ExemptPrefix(exempt, b.key) {
        report := ApplyReport(node, b.banId, "sync", "skipped", Some("exempt_prefix"), now);
      } else {
        report := ApplyReport(node, b.banId, "sync", "ok", None, now);
      }
    }

    /** The event match of `events_task`; `order` is the order in which a new desired set is walked. */
    method Receive(env: Envelope, now: nat, order: seq<string>) returns (report: Option<ApplyReport>)
      requires AllValid(exempt)
      requires env.event.Snapshot? ==> forall id :: id in Wanted(env.event.bans, now) <==> id in order
      modifies this
      ensures Contents() == Received(old(Contents()), env, now, exempt)
      ensures report == Report(old(Contents()), env, now, exempt, node)
    {
      lastIndex := Max(lastIndex, env.index);
      report := None;
      match env.event
      case Snapshot(bans, _) =>
        desired := map[];
        for n := 0 to |bans|
          invariant desired == Wanted(bans[..n], now)
          modifies this`desired
        {
          assert bans[..n + 1][..n] == bans[..n];
          if !Expired(bans[n], now) {
            desired := desired[bans[n].banId := bans[n]];
          }
        }
        assert bans[..|bans|] == bans;
        if enforcing {
          applied := Rebuild(order);
        }
      case BanUpserted(entry) =>
        desired := desired[entry.banId := entry];
        if enforcing {
          if ExemptPrefix(exempt, entry.key) {
            report := Some(ApplyReport(node, entry.banId, "upsert", "skipped", Some("exempt_prefix"), now));
          } else {
            applied := applied[entry.banId := entry];
            report := Some(ApplyReport(node, entry.banId, "upsert", "ok", None, now));
          }
        } else {
          report := Some(ApplyReport(node, entry.banId, "upsert", "skipped", Some("enforcement_disabled"), now));
        }
      case BanDeleted(id) =>
        desired := desired - {id};
        if enforcing {
          applied := applied - {id};
          report := Some(ApplyReport(node, id, "delete", "ok", None, now));
        } else {
          report := Some(ApplyReport(node, id, "delete", "skipped", Some("enforcement_disabled"), now));
        }
      case _ =>
    }
  }
}
