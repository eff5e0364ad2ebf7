/**
 * Websockets attaching to a resumable session and losing it again: `WebSession` in
 * `apps/slopmud_web/src/main.rs`. Calls run concurrently; each region that holds the session's
 * lock, and each cancellation, is one step.
 */
module WebAttach {
  import opened Prelude
  import opened ReplayBuffers
  import opened Streams

  type Caller = nat

  /** A websocket in the session: the id it was given, and the call that attached it, whose token cancels it. */
  datatype Attachment = Attachment(id: nat, who: Caller)

  /** What the lock protects. */
  datatype Core = Core(attached: Option<Attachment>, attachSeq: nat, tcpAlive: bool)

  const NEW := Core(None, 0, true)

  function Joined(core: Core, who: Caller): Core {
    var id := SatAdd(core.attachSeq, 1);
    core.(attachSeq := id, attached := Some(Attachment(id, who)))
  }

  function Left(core: Core, id: nat): Core {
    if core.attached.Some? && core.attached.value.id == id then core.(attached := None) else core
  }

  /** The session state as it is kept, and the regions of code that hold its lock. */
  class WebSession {
    var attached: Option<Attachment>
    var attachSeq: nat
    var tcpAlive: bool
    const replay: ReplayBuffer

    ghost function Contents(): Core
      reads this
    {
      Core(attached, attachSeq, tcpAlive)
    }

    constructor ()
      ensures Contents() == NEW && attached == None && attachSeq == 0 && tcpAlive
      ensures fresh(replay) && replay.Valid() && replay.outputs == []
    {
      attached, attachSeq, tcpAlive := None, 0, true;
      replay := new ReplayBuffer();
    }

    /** The region of `attach`: whom to cancel, and what to send the websocket first. */
    method Join(who: Caller) returns (id: nat, prev: Option<Caller>, buffered: seq<seq<byte>>)
      requires replay.Valid()
      modifies this
      ensures Contents() == Joined(old(Contents()), who) && attached == Some(Attachment(id, who))
      ensures prev == if old(attached).Some? then Some(old(attached).value.who) else None
      ensures buffered == replay.buffer && IsSuffix(Concat(buffered), Concat(replay.outputs))
    {
      prev := if attached.Some? then Some(attached.value.who) else None;
      attachSeq := SatAdd(attachSeq, 1);
      id := attachSeq;
      buffered := replay.Snapshot();
      attached := Some(Attachment(id, who));
    }

    method DetachWs(id: nat)
      modifies this
      ensures Contents() == Left(old(Contents()), id)
    {
      if attached.Some? && attached.value.id == id {
        attached := None;
      }
    }

    /** The region of `mark_tcp_dead`: only the first call takes the websocket, to cancel it after. */
    method MarkTcpDead() returns (taken: Option<Caller>)
      modifies this
      ensures !tcpAlive && attachSeq == old(attachSeq)
      ensures if old(tcpAlive) then attached == None else attached == old(attached)
      ensures taken == if old(tcpAlive && attached.Some?) then Some(old(attached).value.who) else None
    {
      taken := None;
      if tcpAlive {
        tcpAlive := false;
        taken := if attached.Some? then Some(attached.value.who) else None;
        attached := None;
      }
    }

    /** The region of `shutdown`: if the lock is free at once, whoever is attached is taken and cancelled. */
    method Shutdown(locked: bool) returns (taken: Option<Caller>)
      modifies this
      ensures Contents() == if locked then old(Contents()).(attached := None) else old(Contents())
      ensures taken == if locked && old(attached).Some? then Some(old(attached).value.who) else None
    {
      taken := None;
      if locked {
        taken := if attached.Some? then Some(attached.value.who) else None;
        attached := None;
      }
    }

    /** Output is buffered before it is sent to whoever is attached. */
    method DeliverOutput(data: seq<byte>) returns (to: Option<Caller>)
      requires replay.Valid()
      modifies replay
      ensures replay.Valid() && replay.outputs == old(replay.outputs) + [data]
      ensures replay.buffer == Pushed(old(replay.buffer), data)
      ensures to == if attached.Some? then Some(attached.value.who) else None
    {
      replay.Push(data);
      to := if attached.Some? then Some(attached.value.who) else None;
    }
  }

  // Calls, step by step.

  datatype Pc =
    // attach
    | Checking
    | Joining
    | Replacing(id: nat, prev: Option<Caller>)
    | Serving(id: nat)
    | Leaving(id: nat)
    | Gone(id: nat)
    // mark_tcp_dead
    | Dying
    | Cancelling(taken: Caller)
    // shutdown
    | Shutting
    // a call that ended without attaching
    | Ended

  datatype State = State(core: Core, calls: map<Caller, Pc>, cancelled: set<Caller>, joins: seq<Caller>)

  const START := State(NEW, map[], {}, [])

  /** A call begins, or takes its next step; a websocket may close, and `try_lock` may fail, at any time. */
  datatype Action = Begin(who: Caller, pc: Pc) | Step(who: Caller, choice: bool)

  predicate Allowed(s: State, a: Action) {
    match a
    case Begin(who, pc) => who !in s.calls && (pc.Checking? || pc.Dying? || pc.Shutting?)
    case Step(who, _) => who in s.calls
  }

  function Cancelled(s: State, who: Option<Caller>): set<Caller> {
    if who.Some? then s.cancelled + {who.value} else s.cancelled
  }

  function Holder(core: Core): Option<Caller> {
    if core.attached.Some? then Some(core.attached.value.who) else None
  }

  function At(s: State, who: Caller, pc: Pc): State {
    s.(calls := s.calls[who := pc])
  }

  function Next(s: State, who: Caller, choice: bool): State
    requires who in s.calls
  {
    match s.calls[who]
    case Checking => At(s, who, if s.core.tcpAlive then Joining else Ended)
    case Joining =>
      At(s, who, Replacing(SatAdd(s.core.attachSeq, 1), Holder(s.core))).(
        core := Joined(s.core, who), joins := s.joins + [who])
    case Replacing(id, prev) => At(s, who, Serving(id)).(cancelled := Cancelled(s, prev))
    case Serving(id) =>
      if who in s.cancelled || choice
      then At(s, who, Leaving(id)).(cancelled := s.cancelled + {who})
      else s
    case Leaving(id) => At(s, who, Gone(id)).(core := Left(s.core, id))
    case Dying =>
      if !s.core.tcpAlive then At(s, who, Ended)
      else At(s, who, if Holder(s.core).Some? then Cancelling(Holder(s.core).value) else Ended).(
        core := s.core.(tcpAlive := false, attached := None))
    case Cancelling(taken) => At(s, who, Ended).(cancelled := s.cancelled + {taken})
    case Shutting =>
      if choice then At(s, who, Ended).(core := s.core.(attached := None), cancelled := Cancelled(s, Holder(s.core)))
      else At(s, who, Ended)
    case Gone(_) => s
    case Ended => s
  }

  function Acted(s: State, a: Action): State
    requires Allowed(s, a)
  {
    match a
    case Begin(who, pc) => At(s, who, pc)
    case Step(who, choice) => Next(s, who, choice)
  }

  /** The id of a call that has attached. */
  predicate Has(pc: Pc) {
    pc.Replacing? || pc.Serving? || pc.Leaving? || pc.Gone?
  }

  /** The id given to the attachment at a position in the order of attaching. */
  function NthId(n: nat): nat {
    if n + 1 <= U64_MAX then n + 1 else U64_MAX
  }

  /** Ids rise with each attachment up to a position exactly when the counter did not run out before it. */
  lemma IdsRiseIff(m: nat, n: nat)
    requires m < n
    ensures NthId(m) < NthId(n) <==> m + 1 < U64_MAX
    ensures NthId(m) <= NthId(n)
  {
  }

  /** The calls that attached, in order, each once and with the id of its position. */
  ghost predicate OrderInv(s: State) {
    && s.core.attachSeq == (if s.joins == [] then 0 else NthId(|s.joins| - 1))
    && (forall m, n :: 0 <= m < n < |s.joins| ==> s.joins[m] != s.joins[n])
    && (forall n :: 0 <= n < |s.joins| ==>
          s.joins[n] in s.calls && Has(s.calls[s.joins[n]]) && s.calls[s.joins[n]].id == NthId(n))
    && (forall who :: who in s.calls && Has(s.calls[who]) ==> who in s.joins)
  }

  /** Whoever is attached was the last to attach, has not left, and has the counter's value as its id. */
  ghost predicate CurrentInv(s: State) {
    s.core.attached.Some? ==>
      && s.joins != [] && s.core.attached.value.who == s.joins[|s.joins| - 1]
      && s.core.attached.value.id == s.core.attachSeq
      && s.core.attached.value.who in s.calls && !s.calls[s.core.attached.value.who].Gone?
  }

  ghost predicate IdsInv(s: State) {
    OrderInv(s) && CurrentInv(s)
  }

  /** Only a call that joins changes the order, the counter, or which calls have which ids. */
  lemma OthersKeepIds(s: State, a: Action, who: Caller)
    requires Allowed(s, a) && (a.Step? ==> !s.calls[a.who].Joining?) && who in s.calls
    ensures var next := Acted(s, a);
      && next.joins == s.joins && next.core.attachSeq == s.core.attachSeq
      && who in next.calls && Has(next.calls[who]) == Has(s.calls[who])
      && (Has(s.calls[who]) ==> next.calls[who].id == s.calls[who].id)
  {
  }

  lemma JoinKeepsOrder(s: State, who: Caller)
    requires OrderInv(s) && who in s.calls && s.calls[who].Joining?
    ensures OrderInv(Next(s, who, true))
  {
    var next := Next(s, who, true);
    assert next.joins == s.joins + [who] && who !in s.joins;
    forall n | 0 <= n < |next.joins|
      ensures next.joins[n] in next.calls && Has(next.calls[next.joins[n]])
      ensures next.calls[next.joins[n]].id == NthId(n)
    {
      if n < |s.joins| {
        assert next.joins[n] == s.joins[n] && s.joins[n] != who;
      }
    }
    forall c | c in next.calls && Has(next.calls[c])
      ensures c in next.joins
    {
      assert c != who ==> c in s.joins;
    }
  }

  lemma ActedKeepsOrder(s: State, a: Action)
    requires OrderInv(s) && Allowed(s, a)
    ensures OrderInv(Acted(s, a))
  {
    if a.Step? && s.calls[a.who].Joining? {
      JoinKeepsOrder(s, a.who);
      assert Acted(s, a) == Next(s, a.who, true);
    } else {
      OthersKeepOrder(s, a);
    }
  }

  lemma OthersKeepOrder(s: State, a: Action)
    requires OrderInv(s) && Allowed(s, a) && (a.Step? ==> !s.calls[a.who].Joining?)
    ensures OrderInv(Acted(s, a))
  {
    var next := Acted(s, a);
    forall who | who in next.calls
      ensures next.joins == s.joins && next.core.attachSeq == s.core.attachSeq
      ensures who in s.calls ==> Has(next.calls[who]) == Has(s.calls[who])
      ensures who in s.calls && Has(s.calls[who]) ==> next.calls[who].id == s.calls[who].id
      ensures who !in s.calls ==> !Has(next.calls[who])
    {
      if who in s.calls {
        OthersKeepIds(s, a, who);
      }
    }
    assert a.who in next.calls;
  }

  lemma ActedKeepsCurrent(s: State, a: Action)
    requires IdsInv(s) && Allowed(s, a)
    ensures CurrentInv(Acted(s, a))
  {
    if a.Step? && s.calls[a.who].Leaving? && Holder(s.core) == Some(a.who) {
      assert s.calls[a.who].id == s.core.attachSeq;
    }
  }

  /**
   * The detach of an attachment that has been replaced takes away the one that replaced it exactly
   * when its own id is the counter's last value: every earlier id is its alone.
   */
  lemma LateDetachRemovesNewerIff(s: State, who: Caller)
    requires IdsInv(s) && who in s.calls && s.calls[who].Leaving?
    requires s.core.attached.Some? && s.core.attached.value.who != who
    ensures Next(s, who, true).core.attached == None <==> s.calls[who].id == U64_MAX
    ensures s.calls[who].id != U64_MAX ==> Next(s, who, true).core == s.core
  {
    var n :| 0 <= n < |s.joins| && s.joins[n] == who;
    assert n != |s.joins| - 1;
    IdsRiseIff(n, |s.joins| - 1);
  }

  /** The attachment that a call is about to cancel. */
  function Target(pc: Pc): Option<Caller> {
    if pc.Replacing? then pc.prev else if pc.Cancelling? then Some(pc.taken) else None
  }

  ghost predicate AboutToBeCancelled(s: State, who: Caller) {
    exists by_ :: by_ in s.calls && Target(s.calls[by_]) == Some(who)
  }

  ghost predicate LetGo(s: State, who: Caller)
    requires who in s.calls
  {
    Holder(s.core) == Some(who) || s.calls[who].Gone? || who in s.cancelled || AboutToBeCancelled(s, who)
  }

  /** Every attachment that is no longer current has left, been cancelled, or is about to be. */
  ghost predicate Superseded(s: State) {
    forall who :: who in s.calls && Has(s.calls[who]) ==> LetGo(s, who)
  }

  /** Who was attached stays so, or the step that takes its place will cancel it, or it has left. */
  lemma HolderIsLetGo(s: State, a: Action, who: Caller)
    requires IdsInv(s) && Allowed(s, a) && |s.joins| <= U64_MAX
    requires who in s.calls && Holder(s.core) == Some(who)
    ensures LetGo(Acted(s, a), who)
  {
    var next := Acted(s, a);
    if a.Step? {
      if s.calls[a.who].Leaving? && a.who != who {
        LateDetachRemovesNewerIff(s, a.who);
        var n :| 0 <= n < |s.joins| && s.joins[n] == a.who;
        assert n < |s.joins| - 1;
      } else if Target(next.calls[a.who]) == Some(who) {
        assert AboutToBeCancelled(next, who);
      }
    }
  }

  lemma StaysLetGo(s: State, a: Action, who: Caller)
    requires IdsInv(s) && Allowed(s, a) && |s.joins| <= U64_MAX
    requires who in s.calls && Has(s.calls[who]) && LetGo(s, who)
    ensures LetGo(Acted(s, a), who)
  {
    var next := Acted(s, a);
    if Holder(s.core) == Some(who) {
      HolderIsLetGo(s, a, who);
    } else if AboutToBeCancelled(s, who) {
      var c :| c in s.calls && Target(s.calls[c]) == Some(who);
      TargetsAreCancelled(s, a, c);
      assert AboutToBeCancelled(next, who) || who in next.cancelled;
    }
  }

  /** The call that is about to cancel an attachment does so in its next step. */
  lemma TargetsAreCancelled(s: State, a: Action, c: Caller)
    requires Allowed(s, a) && c in s.calls && Target(s.calls[c]).Some?
    ensures var next := Acted(s, a);
      && c in next.calls
      && (if a.Step? && a.who == c then Target(s.calls[c]).value in next.cancelled
          else Target(next.calls[c]) == Target(s.calls[c]))
  {
  }

  lemma ActedKeepsSuperseded(s: State, a: Action)
    requires IdsInv(s) && Superseded(s) && Allowed(s, a) && |s.joins| <= U64_MAX
    ensures Superseded(Acted(s, a))
  {
    var next := Acted(s, a);
    forall who | who in next.calls && Has(next.calls[who])
      ensures LetGo(next, who)
    {
      if who in s.calls && Has(s.calls[who]) {
        StaysLetGo(s, a, who);
      }
    }
  }

  ghost predicate AllAllowed(s: State, run: seq<Action>)
    decreases |run|
  {
    run == [] || (Allowed(s, run[0]) && AllAllowed(Acted(s, run[0]), run[1..]))
  }

  ghost function After(s: State, run: seq<Action>): State
    requires AllAllowed(s, run)
    decreases |run|
  {
    if run == [] then s else After(Acted(s, run[0]), run[1..])
  }

  lemma JoinsGrow(s: State, a: Action)
    requires Allowed(s, a)
    ensures |s.joins| <= |Acted(s, a).joins|
  {
  }

  lemma {:induction false} RunKeepsIds(s: State, run: seq<Action>)
    requires IdsInv(s) && AllAllowed(s, run)
    ensures IdsInv(After(s, run)) && |s.joins| <= |After(s, run).joins|
    decreases |run|
  {
    if run != [] {
      JoinsGrow(s, run[0]);
      ActedKeepsOrder(s, run[0]);
      ActedKeepsCurrent(s, run[0]);
      RunKeepsIds(Acted(s, run[0]), run[1..]);
    }
  }

  lemma {:induction false} RunKeepsSuperseded(s: State, run: seq<Action>)
    requires IdsInv(s) && Superseded(s) && AllAllowed(s, run) && |After(s, run).joins| <= U64_MAX
    ensures Superseded(After(s, run))
    decreases |run|
  {
    if run != [] {
      RunKeepsIds(s, run);
      ActedKeepsOrder(s, run[0]);
      ActedKeepsCurrent(s, run[0]);
      ActedKeepsSuperseded(s, run[0]);
      RunKeepsSuperseded(Acted(s, run[0]), run[1..]);
    }
  }

  /**
   * However the calls interleave, the websocket attached is the last that attached, and its id is
   * `attach_seq`; ids rise in the order of attaching until the counter runs out.
   */
  lemma IdsFollowAttaching(run: seq<Action>, m: nat, n: nat)
    requires AllAllowed(START, run) && m < n < |After(START, run).joins|
    ensures var s := After(START, run);
      && (s.core.attached.Some? ==>
            s.core.attached.value == Attachment(s.core.attachSeq, s.joins[|s.joins| - 1]))
      && s.joins[m] in s.calls && Has(s.calls[s.joins[m]]) && s.joins[n] in s.calls && Has(s.calls[s.joins[n]])
      && (s.calls[s.joins[m]].id < s.calls[s.joins[n]].id <==> m + 1 < U64_MAX)
  {
    RunKeepsIds(START, run);
    IdsRiseIff(m, n);
  }

  /**
   * Until the counter runs out, each attachment that is not the current one has left, has been
   * cancelled, or is about to be cancelled by the call that took its place.
   */
  lemma EveryAttachmentIsLetGo(run: seq<Action>, who: Caller)
    requires AllAllowed(START, run) && |After(START, run).joins| <= U64_MAX
    requires who in After(START, run).calls && Has(After(START, run).calls[who])
    requires Holder(After(START, run).core) != Some(who)
    ensures var s := After(START, run);
      s.calls[who].Gone? || who in s.cancelled || AboutToBeCancelled(s, who)
  {
    RunKeepsSuperseded(START, run);
    assert LetGo(After(START, run), who);
  }

  // A websocket that joins when the connection has died.

  /** The call attaches its websocket although the connection died after it checked. */
  predicate JoinsDead(s: State, a: Action, who: Caller)
    requires Allowed(s, a)
  {
    a.Step? && a.who == who && s.calls[who].Joining? && !s.core.tcpAlive
  }

  ghost predicate JoinedDead(s: State, run: seq<Action>, who: Caller)
    requires AllAllowed(s, run)
    decreases |run|
  {
    run != [] && (JoinsDead(s, run[0], who) || JoinedDead(Acted(s, run[0]), run[1..], who))
  }

  predicate HoldsDead(s: State, who: Caller) {
    Holder(s.core) == Some(who) && !s.core.tcpAlive
  }

  lemma DeadHolderNext(s: State, a: Action, who: Caller)
    requires Allowed(s, a)
    ensures HoldsDead(Acted(s, a), who) ==> JoinsDead(s, a, who) || HoldsDead(s, who)
    ensures JoinsDead(s, a, who) || !s.core.tcpAlive ==> !Acted(s, a).core.tcpAlive
  {
  }

  lemma {:induction false} RunDeadHolder(s: State, run: seq<Action>, who: Caller)
    requires AllAllowed(s, run)
    ensures HoldsDead(After(s, run), who) ==> JoinedDead(s, run, who) || HoldsDead(s, who)
    ensures JoinedDead(s, run, who) || !s.core.tcpAlive ==> !After(s, run).core.tcpAlive
    decreases |run|
  {
    if run != [] {
      DeadHolderNext(s, run[0], who);
      RunDeadHolder(Acted(s, run[0]), run[1..], who);
    }
  }

  /** A websocket is attached to a session whose connection is dead exactly when it joined after the death. */
  lemma DeadHolderIff(run: seq<Action>, who: Caller)
    requires AllAllowed(START, run) && Holder(After(START, run).core) == Some(who)
    ensures !After(START, run).core.tcpAlive <==> JoinedDead(START, run, who)
  {
    RunDeadHolder(START, run, who);
  }

  /** Whoever is about to be cancelled has attached and is not attached any more; who leaves is cancelled. */
  ghost predicate TargetInv(s: State) {
    && (forall c :: c in s.calls && Target(s.calls[c]).Some? ==>
          Target(s.calls[c]).value in s.joins && Holder(s.core) != Target(s.calls[c]))
    && (forall c :: c in s.calls && (s.calls[c].Leaving? || s.calls[c].Gone?) ==> c in s.cancelled)
  }

  /** A call that has yet to join is none of those that have, and whoever is attached is one. */
  lemma JoiningIsNew(s: State, who: Caller)
    requires IdsInv(s)
    ensures who in s.calls && s.calls[who].Joining? ==> who !in s.joins
    ensures Holder(s.core).Some? ==> Holder(s.core).value in s.joins
  {
  }

  /** A step makes whoever joins the one attached, or leaves it, or leaves none. */
  lemma HolderNext(s: State, a: Action)
    requires Allowed(s, a)
    ensures var next := Acted(s, a);
      || Holder(next.core) == Holder(s.core) || Holder(next.core) == None
      || (a.Step? && s.calls[a.who].Joining? && Holder(next.core) == Some(a.who))
  {
  }

  /** Only the call that steps gets a target, and then it is whoever was attached and is not any more. */
  lemma TargetNext(s: State, a: Action, c: Caller)
    requires Allowed(s, a) && c in Acted(s, a).calls && Target(Acted(s, a).calls[c]).Some?
    ensures var next := Acted(s, a); var target := Target(next.calls[c]);
      || (c in s.calls && target == Target(s.calls[c]))
      || (target == Holder(s.core)
          && (Holder(next.core) == None || (c in s.calls && s.calls[c].Joining? && a == Step(c, a.choice))))
  {
  }

  lemma TargetStaysOff(s: State, a: Action, c: Caller)
    requires IdsInv(s) && TargetInv(s) && Allowed(s, a)
    requires c in Acted(s, a).calls && Target(Acted(s, a).calls[c]).Some?
    ensures var next := Acted(s, a);
      Target(next.calls[c]).value in s.joins && Holder(next.core) != Target(next.calls[c])
  {
    TargetNext(s, a, c);
    HolderNext(s, a);
    JoiningIsNew(s, a.who);
  }

  lemma LeaversAreCancelled(s: State, a: Action, c: Caller)
    requires TargetInv(s) && Allowed(s, a) && c in Acted(s, a).calls
    requires Acted(s, a).calls[c].Leaving? || Acted(s, a).calls[c].Gone?
    ensures c in Acted(s, a).cancelled
  {
  }

  lemma JoinsOnlyGrow(s: State, a: Action, who: Caller)
    requires Allowed(s, a) && who in s.joins
    ensures who in Acted(s, a).joins
  {
  }

  lemma ActedKeepsTargets(s: State, a: Action)
    requires IdsInv(s) && TargetInv(s) && Allowed(s, a)
    ensures TargetInv(Acted(s, a))
  {
    var next := Acted(s, a);
    forall c | c in next.calls && Target(next.calls[c]).Some?
      ensures Target(next.calls[c]).value in next.joins && Holder(next.core) != Target(next.calls[c])
    {
      TargetStaysOff(s, a, c);
      JoinsOnlyGrow(s, a, Target(next.calls[c]).value);
    }
    forall c | c in next.calls && (next.calls[c].Leaving? || next.calls[c].Gone?)
      ensures c in next.cancelled
    {
      LeaversAreCancelled(s, a, c);
    }
  }

  lemma {:induction false} RunKeepsTargets(s: State, run: seq<Action>)
    requires IdsInv(s) && TargetInv(s) && AllAllowed(s, run)
    ensures IdsInv(After(s, run)) && TargetInv(After(s, run))
    decreases |run|
  {
    if run != [] {
      ActedKeepsOrder(s, run[0]);
      ActedKeepsCurrent(s, run[0]);
      ActedKeepsTargets(s, run[0]);
      RunKeepsTargets(Acted(s, run[0]), run[1..]);
    }
  }

  /** The websocket closes, another takes its place, the session is shut down, or a detach comes late. */
  predicate LetsGo(s: State, a: Action, who: Caller)
    requires Allowed(s, a)
  {
    a.Step? &&
    var pc := s.calls[a.who];
    if a.who == who then pc.Serving? && a.choice
    else pc.Joining? || (pc.Shutting? && a.choice) || (pc.Leaving? && pc.id == U64_MAX)
  }

  /**
   * No death lets go of a websocket that joined after one: it stays attached, and is not cancelled,
   * exactly until a step of another kind lets go of it.
   */
  lemma LateJoinStays(run: seq<Action>, a: Action, who: Caller)
    requires AllAllowed(START, run) && Allowed(After(START, run), a)
    requires HoldsDead(After(START, run), who) && who !in After(START, run).cancelled
    ensures var next := Acted(After(START, run), a);
      (HoldsDead(next, who) && who !in next.cancelled) <==> !LetsGo(After(START, run), a, who)
  {
    RunKeepsTargets(START, run);
    var s := After(START, run);
    if a.Step? && a.who != who && s.calls[a.who].Leaving? {
      LateDetachRemovesNewerIff(s, a.who);
    }
  }

  lemma AfterOne(s: State, a: Action, rest: seq<Action>)
    requires Allowed(s, a) && AllAllowed(Acted(s, a), rest)
    ensures AllAllowed(s, [a] + rest) && After(s, [a] + rest) == After(Acted(s, a), rest)
  {
    assert ([a] + rest)[1..] == rest;
  }

  lemma AfterThree(s: State, a: Action, b: Action, c: Action)
    requires Allowed(s, a) && Allowed(Acted(s, a), b) && Allowed(Acted(Acted(s, a), b), c)
    ensures AllAllowed(s, [a, b, c]) && After(s, [a, b, c]) == Acted(Acted(Acted(s, a), b), c)
  {
    var t := Acted(s, a);
    AfterOne(Acted(t, b), c, []);
    AfterOne(t, b, [c]);
    AfterOne(s, a, [b, c]);
    assert [a] + [b, c] == [a, b, c] && [b] + [c] == [b, c] && [c] + [] == [c];
  }

  lemma {:induction false} AfterMore(s: State, run: seq<Action>, more: seq<Action>)
    requires AllAllowed(s, run) && AllAllowed(After(s, run), more)
    ensures AllAllowed(s, run + more) && After(s, run + more) == After(After(s, run), more)
    decreases |run|
  {
    if run == [] {
      assert run + more == more;
    } else {
      AfterMore(Acted(s, run[0]), run[1..], more);
      AfterOne(s, run[0], run[1..] + more);
      assert [run[0]] + (run[1..] + more) == run + more;
    }
  }

  /** It does happen: the check, the death and then the join, and the websocket outlives the call that noticed. */
  lemma LateJoinHappens() returns (run: seq<Action>)
    ensures AllAllowed(START, run)
    ensures var s := After(START, run);
      && HoldsDead(s, 0) && s.calls == map[0 := Replacing(1, None), 1 := Ended] && s.cancelled == {}
  {
    var first := [Begin(0, Checking), Step(0, true), Begin(1, Dying)];
    AfterThree(START, first[0], first[1], first[2]);
    var s := After(START, first);
    var dead := Acted(s, Step(1, true));
    AfterOne(dead, Step(0, true), []);
    AfterOne(s, Step(1, true), [Step(0, true)] + []);
    AfterMore(START, first, [Step(1, true)] + ([Step(0, true)] + []));
    run := first + ([Step(1, true)] + ([Step(0, true)] + []));
  }

  // Runs that use up the ids.

  /** The first `n` callers have attached, one after the other, and none has gone on from there. */
  ghost predicate JoinedInTurn(s: State, n: nat) {
    && s.core.tcpAlive && |s.joins| == n && (forall c: Caller :: c in s.calls <==> c < n)
    && (forall c: Caller :: c < n ==> s.joins[c] == c && s.calls[c].Replacing?)
    && (n > 0 ==> Holder(s.core) == Some(n - 1))
  }

  lemma JoinNext(s: State, n: nat) returns (next: State)
    requires JoinedInTurn(s, n)
    ensures JoinedInTurn(next, n + 1)
    ensures var run := [Begin(n, Checking), Step(n, true), Step(n, true)];
      AllAllowed(s, run) && After(s, run) == next
  {
    AfterThree(s, Begin(n, Checking), Step(n, true), Step(n, true));
    next := After(s, [Begin(n, Checking), Step(n, true), Step(n, true)]);
    assert next.joins == s.joins + [n];
  }

  lemma {:induction false} JoinMany(n: nat) returns (run: seq<Action>)
    ensures AllAllowed(START, run) && JoinedInTurn(After(START, run), n)
  {
    if n == 0 {
      run := [];
    } else {
      var most := JoinMany(n - 1);
      var last := [Begin(n - 1, Checking), Step(n - 1, true), Step(n - 1, true)];
      var next := JoinNext(After(START, most), n - 1);
      AfterMore(START, most, last);
      run := most + last;
    }
  }

  /** The last but one to attach goes on until it is about to leave. */
  lemma ReplacedLeaves(s: State, n: nat) returns (run: seq<Action>)
    requires JoinedInTurn(s, n) && n >= 2
    ensures AllAllowed(s, run)
    ensures var t := After(s, run);
      t.core == s.core && n - 2 in t.calls && t.calls[n - 2] == Leaving(s.calls[n - 2].id)
  {
    var step := Step(n - 2, true);
    AfterOne(Acted(s, step), step, []);
    AfterOne(s, step, [step] + []);
    run := [step] + ([step] + []);
  }

  /** The ids do run out: after 2^64 joins a websocket that was replaced removes the one that replaced it. */
  lemma LateDetachHappens() returns (run: seq<Action>, who: Caller)
    ensures AllAllowed(START, run)
    ensures var s := After(START, run);
      && who in s.calls && s.calls[who].Leaving? && s.core.attached.Some? && s.core.attached.value.who != who
      && Next(s, who, true).core.attached == None
  {
    var joins := JoinMany(U64_MAX + 1);
    RunKeepsIds(START, joins);
    var s := After(START, joins);
    who := U64_MAX - 1;
    assert s.joins[who] == who && s.calls[who].id == NthId(who);
    var more := ReplacedLeaves(s, U64_MAX + 1);
    AfterMore(START, joins, more);
    run := joins + more;
    RunKeepsIds(START, run);
    LateDetachRemovesNewerIff(After(START, run), who);
  }
}
