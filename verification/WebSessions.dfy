/**
 * The manager of resumable web sessions, `WebSessionManager` in `apps/slopmud_web/src/main.rs`, as
 * its operations interleave: one step for each region of code that holds a lock, or that touches
 * one session, and one program counter for each operation under way.
 */
module WebSessions {
  import opened Prelude
  import opened Names

  type Token = string
  type Sid = nat
  type OpId = nat

  /** A line given to `send_or_defer`; the call that brought it tells two equal lines apart. */
  datatype Line = Line(call: OpId, token: Token, bytes: seq<byte>)

  /** A deferred line, with the moment it joined its token's queue. */
  datatype Waiting = Waiting(line: Line, stamp: nat)

  datatype Delivery = Direct(direct: Line) | Flushed(waiting: Waiting)

  /** A session that was connected: for which token, by which call, and all it has been sent. */
  datatype Conn = Conn(token: Token, maker: OpId, alive: bool, shut: bool, got: seq<Delivery>)

  datatype Op =
    // get_or_create
    | Lookup(token: Token)
    | CheckAlive(token: Token, sid: Sid)
    | RemoveDead(token: Token, sid: Sid)
    | ShutDead(token: Token, sid: Sid, removed: bool)
    | Connect(token: Token)
    | Insert(token: Token, sid: Sid)
    | TakePending(token: Token, sid: Sid)
    | Flush(token: Token, sid: Sid, lines: seq<Waiting>, sent: nat)
    // sweep_once
    | Snapshot
    | Examine(items: seq<(Token, Sid)>, remove: seq<(Token, Sid)>)
    | Remove(remove: seq<(Token, Sid)>)
    | ShutSwept(sid: Sid, remove: seq<(Token, Sid)>)
    // logout
    | DropPending(token: Token)
    | RemoveSession(token: Token)
    | ShutLoggedOut(sid: Sid)
    // send_or_defer
    | Find(line: Line)
    | Hand(sid: Sid, line: Line)
    | Defer(line: Line)
    // finished
    | Got(token: Token, sid: Sid)
    | Returned(ok: bool)

  datatype Call =
    | GetOrCreate(resume: string)
    | SweepOnce
    | Logout(resume: string)
    | SendOrDefer(resume: string, bytes: seq<byte>)

  /** What the environment decides in a step: a connection's fate, a listing order, who is idle. */
  datatype Choice = Connected(sid: Sid) | Refused | Listed(items: seq<(Token, Sid)>) | Expired(expired: bool) | Free

  datatype Action =
    | Begin(o: OpId, call: Call)
    | Step(o: OpId, choice: Choice)
    | TcpDies(sid: Sid)
    | ReaderEnds(sid: Sid)

  datatype State = State(
    sessions: map<Token, Sid>, pending: map<Token, seq<Waiting>>, conns: map<Sid, Conn>,
    ops: map<OpId, Op>, discarded: seq<Waiting>, stamp: nat)

  const EMPTY := State(map[], map[], map[], map[], [], 0)

  /** The one change a step makes to what the operations share. */
  datatype Change =
    | Nothing
    | Unmap(token: Token)
    | Map(token: Token, sid: Sid)
    | ShutDown(sid: Sid)
    | Open(token: Token, sid: Sid)
    | Deliver(sid: Sid, delivery: Delivery)
    | Drain(token: Token)
    | Discard(token: Token)
    | Enqueue(line: Line)

  datatype Effect = Effect(op: Op, change: Change)

  predicate TokenChar(c: char) {
    'a' <= c <= 'z' || 'A' <= c <= 'Z' || '0' <= c <= '9' || c == '_' || c == '-'
  }

  predicate ValidToken(resume: string) {
    var s := Trim(resume);
    16 <= |s| <= 128 && forall i :: 0 <= i < |s| ==> TokenChar(s[i])
  }

  /** A token is made of 16 to 128 letters of ASCII, digits, underscores and hyphens, with any space around it. */
  lemma ValidTokenIff(resume: string)
    ensures ValidToken(resume) <==>
      && 16 <= |Trim(resume)| <= 128
      && forall c :: c in Trim(resume) ==> c in UPPER || c in LOWER || c in DIGITS || c == '_' || c == '-'
  {
    forall c: char
      ensures TokenChar(c) <==> c in UPPER || c in LOWER || c in DIGITS || c == '_' || c == '-'
    {
      Alphanumeric(c);
    }
  }

  /** Where a call starts; a call whose token is not valid ends at once. */
  function Start(o: OpId, call: Call): Op {
    match call
    case GetOrCreate(resume) => if ValidToken(resume) then Lookup(Trim(resume)) else Returned(false)
    case SweepOnce => Snapshot
    case Logout(resume) => if ValidToken(resume) then DropPending(Trim(resume)) else Returned(false)
    case SendOrDefer(resume, bytes) =>
      if !ValidToken(resume) then Returned(false)
      else if bytes == [] then Returned(true)
      else Find(Line(o, Trim(resume), bytes))
  }

  /** A call that brings a token fails at once exactly when it is not valid, and else is about the token trimmed. */
  lemma StartsRefused(o: OpId, call: Call)
    ensures Start(o, call) == Returned(false) <==> !call.SweepOnce? && !ValidToken(call.resume)
    ensures Start(o, call) == Returned(true) <==> call.SendOrDefer? && ValidToken(call.resume) && call.bytes == []
    ensures Start(o, call).Lookup? || Start(o, call).DropPending? ==> Start(o, call).token == Trim(call.resume)
    ensures Start(o, call).Find? ==> Start(o, call).line == Line(o, Trim(call.resume), call.bytes)
  {
  }

  predicate Maps(sessions: map<Token, Sid>, token: Token, sid: Sid) {
    token in sessions && sessions[token] == sid
  }

  function Queue(s: State, token: Token): seq<Waiting> {
    if token in s.pending then s.pending[token] else []
  }

  /** The next step of an operation. */
  function Move(s: State, op: Op, c: Choice): Effect {
    match op
    case Lookup(t) =>
      Effect(if t in s.sessions then CheckAlive(t, s.sessions[t]) else Connect(t), Nothing)
    case CheckAlive(t, sid) =>
      Effect(if sid in s.conns && s.conns[sid].alive then Got(t, sid) else RemoveDead(t, sid), Nothing)
    case RemoveDead(t, sid) =>
      if Maps(s.sessions, t, sid) then Effect(ShutDead(t, sid, true), Unmap(t))
      else Effect(ShutDead(t, sid, false), Nothing)
    case ShutDead(t, sid, _) =>
      Effect(Connect(t), ShutDown(sid))
    case Connect(t) =>
      if c.Connected? then Effect(Insert(t, c.sid), Open(t, c.sid)) else Effect(Returned(false), Nothing)
    case Insert(t, sid) =>
      if t in s.sessions then Effect(Got(t, s.sessions[t]), ShutDown(sid))
      else Effect(TakePending(t, sid), Map(t, sid))
    case TakePending(t, sid) =>
      Effect(Flush(t, sid, Queue(s, t), 0), Drain(t))
    case Flush(t, sid, lines, sent) =>
      if sent < |lines| then Effect(Flush(t, sid, lines, sent + 1), Deliver(sid, Flushed(lines[sent])))
      else Effect(Got(t, sid), Nothing)
    case Snapshot =>
      Effect(Examine(if c.Listed? then c.items else [], []), Nothing)
    case Examine(items, remove) =>
      if items == [] then Effect(Remove(remove), Nothing)
      else Effect(Examine(items[1..], if c == Expired(true) then remove + [items[0]] else remove), Nothing)
    case Remove(remove) =>
      if remove == [] then Effect(Returned(true), Nothing)
      else if Maps(s.sessions, remove[0].0, remove[0].1)
      then Effect(ShutSwept(remove[0].1, remove[1..]), Unmap(remove[0].0))
      else Effect(Remove(remove[1..]), Nothing)
    case ShutSwept(sid, remove) =>
      Effect(Remove(remove), ShutDown(sid))
    case DropPending(t) =>
      Effect(RemoveSession(t), Discard(t))
    case RemoveSession(t) =>
      if t in s.sessions then Effect(ShutLoggedOut(s.sessions[t]), Unmap(t))
      else Effect(Returned(false), Nothing)
    case ShutLoggedOut(sid) =>
      Effect(Returned(true), ShutDown(sid))
    case Find(line) =>
      Effect(if line.token in s.sessions then Hand(s.sessions[line.token], line) else Defer(line), Nothing)
    case Hand(sid, line) =>
      Effect(Returned(true), Deliver(sid, Direct(line)))
    case Defer(line) =>
      Effect(Returned(true), Enqueue(line))
    case Got(_, _) => Effect(op, Nothing)
    case Returned(_) => Effect(op, Nothing)
  }

  function Changed(s: State, o: OpId, change: Change): State {
    match change
    case Nothing => s
    case Unmap(t) => s.(sessions := s.sessions - {t})
    case Map(t, sid) => s.(sessions := s.sessions[t := sid])
    case ShutDown(sid) => if sid in s.conns then s.(conns := s.conns[sid := s.conns[sid].(shut := true)]) else s
    case Open(t, sid) => s.(conns := s.conns[sid := Conn(t, o, true, false, [])])
    case Deliver(sid, d) =>
      if sid in s.conns then s.(conns := s.conns[sid := s.conns[sid].(got := s.conns[sid].got + [d])]) else s
    case Drain(t) => s.(pending := s.pending - {t})
    case Discard(t) => s.(pending := s.pending - {t}, discarded := s.discarded + Queue(s, t))
    case Enqueue(line) =>
      s.(pending := s.pending[line.token := Queue(s, line.token) + [Waiting(line, s.stamp)]], stamp := s.stamp + 1)
  }

  function Done(s: State, o: OpId, e: Effect): State {
    var next := Changed(s, o, e.change);
    next.(ops := next.ops[o := e.op])
  }

  /** A new call has a new number, a new connection a new identity, and a listing is the map's. */
  predicate Allowed(s: State, a: Action) {
    match a
    case Begin(o, _) => o !in s.ops
    case Step(o, c) =>
      && o in s.ops
      && (c.Connected? ==> c.sid !in s.conns)
      && (c.Listed? ==> forall n :: 0 <= n < |c.items| ==> Maps(s.sessions, c.items[n].0, c.items[n].1))
    case TcpDies(sid) => sid in s.conns
    case ReaderEnds(sid) => sid in s.conns && !s.conns[sid].alive
  }

  function EffectOf(s: State, a: Action): Effect
    requires (a.Begin? || a.Step?) && Allowed(s, a)
  {
    if a.Begin? then Effect(Start(a.o, a.call), Nothing) else Move(s, s.ops[a.o], a.choice)
  }

  function Acted(s: State, a: Action): State
    requires Allowed(s, a)
  {
    match a
    case Begin(o, _) => Done(s, o, EffectOf(s, a))
    case Step(o, _) => Done(s, o, EffectOf(s, a))
    case TcpDies(sid) => s.(conns := s.conns[sid := s.conns[sid].(alive := false)])
    case ReaderEnds(sid) => s.(conns := s.conns[sid := s.conns[sid].(shut := true)])
  }

  // No session is ever orphaned.

  /** The session that an operation alone is responsible for: it will insert it or shut it down. */
  function Owned(op: Op): Option<Sid> {
    match op
    case ShutDead(_, sid, removed) => if removed then Some(sid) else None
    case Insert(_, sid) => Some(sid)
    case ShutSwept(sid, _) => Some(sid)
    case ShutLoggedOut(sid) => Some(sid)
    case _ => None
  }

  function OwnedBy(s: State, o: OpId): Option<Sid> {
    if o in s.ops then Owned(s.ops[o]) else None
  }

  predicate InMap(s: State, sid: Sid) {
    sid in s.conns && Maps(s.sessions, s.conns[sid].token, sid)
  }

  ghost predicate MapIsSound(s: State) {
    forall t :: t in s.sessions ==> s.sessions[t] in s.conns && s.conns[s.sessions[t]].token == t
  }

  ghost predicate OwnersAreSound(s: State) {
    && (forall o :: OwnedBy(s, o).Some? ==> OwnedBy(s, o).value in s.conns && !InMap(s, OwnedBy(s, o).value))
    && (forall o, p :: OwnedBy(s, o).Some? && OwnedBy(s, p) == OwnedBy(s, o) ==> o == p)
  }

  ghost predicate HasOwner(s: State, sid: Sid) {
    exists o :: OwnedBy(s, o) == Some(sid)
  }

  ghost predicate NoOrphans(s: State) {
    forall sid :: sid in s.conns ==> s.conns[sid].shut || InMap(s, sid) || HasOwner(s, sid)
  }

  predicate Making(op: Op) {
    op.Insert? || op.TakePending? || op.Flush?
  }

  /** The session an operation is setting up carries the operation's number and token. */
  predicate MadeBy(s: State, o: OpId, op: Op) {
    Making(op) ==> op.sid in s.conns && s.conns[op.sid].maker == o && s.conns[op.sid].token == op.token
  }

  ghost predicate MakersAreSound(s: State) {
    forall o :: o in s.ops ==> MadeBy(s, o, s.ops[o])
  }

  ghost predicate SessionsInv(s: State) {
    MapIsSound(s) && OwnersAreSound(s) && NoOrphans(s) && MakersAreSound(s)
  }

  /** A step takes a session out of the map, puts one in, opens one or shuts one, and says who owns it. */
  ghost predicate Careful(s: State, o: OpId, e: Effect) {
    var was, will := OwnedBy(s, o), Owned(e.op);
    match e.change
    case Unmap(t) => was.None? && t in s.sessions && will == Some(s.sessions[t])
    case Map(t, sid) => was == Some(sid) && will.None? && sid in s.conns && s.conns[sid].token == t && t !in s.sessions
    case Open(t, sid) => was.None? && will == Some(sid) && sid !in s.conns
    case ShutDown(sid) => (was.Some? ==> was == Some(sid)) && will.None?
    case _ => was.None? && will.None?
  }

  lemma MovesAreCareful(s: State, a: Action)
    requires Allowed(s, a) && (a.Begin? || a.Step?)
    requires a.o in s.ops ==> MadeBy(s, a.o, s.ops[a.o])
    ensures Careful(s, a.o, EffectOf(s, a))
  {
  }

  lemma MovesKeepMaker(s: State, o: OpId, op: Op, c: Choice)
    requires MadeBy(s, o, op)
    ensures MadeBy(Changed(s, o, Move(s, op, c).change), o, Move(s, op, c).op)
  {
    var e := Move(s, op, c);
    if Making(op) && Making(e.op) {
      ChangesKeepConns(s, o, e.change, op.sid);
    }
  }

  /** A change leaves the token and the maker of every session as they were. */
  lemma ChangesKeepConns(s: State, o: OpId, change: Change, sid: Sid)
    requires sid in s.conns && !(change.Open? && change.sid == sid)
    ensures var next := Changed(s, o, change);
      && sid in next.conns && next.conns[sid].token == s.conns[sid].token && next.conns[sid].maker == s.conns[sid].maker
      && (s.conns[sid].shut ==> next.conns[sid].shut)
      && (change == ShutDown(sid) ==> next.conns[sid].shut)
  {
  }

  lemma KeepsMap(s: State, o: OpId, e: Effect)
    requires MapIsSound(s) && Careful(s, o, e)
    ensures MapIsSound(Done(s, o, e))
  {
    var next := Done(s, o, e);
    forall t | t in next.sessions
      ensures next.sessions[t] in next.conns && next.conns[next.sessions[t]].token == t
    {
      var sid := next.sessions[t];
      assert sid in s.conns && s.conns[sid].token == t by {
        if !(e.change.Map? && e.change.token == t) {
          assert t in s.sessions && s.sessions[t] == sid;
        }
      }
      ChangesKeepConns(s, o, e.change, sid);
    }
  }

  lemma KeepsMakers(s: State, o: OpId, e: Effect)
    requires MakersAreSound(s) && Careful(s, o, e) && MadeBy(Changed(s, o, e.change), o, e.op)
    ensures MakersAreSound(Done(s, o, e))
  {
    var next := Done(s, o, e);
    forall p | p in next.ops
      ensures MadeBy(next, p, next.ops[p])
    {
      if p != o && Making(s.ops[p]) {
        assert MadeBy(s, p, s.ops[p]);
        ChangesKeepConns(s, o, e.change, s.ops[p].sid);
      }
    }
  }

  /** A session in the map before a step stays there unless the step takes it out, and no other gets in. */
  lemma WhoIsInMap(s: State, o: OpId, e: Effect, sid: Sid)
    requires MapIsSound(s) && Careful(s, o, e) && sid in s.conns
    ensures InMap(Done(s, o, e), sid) <==>
      (InMap(s, sid) && Owned(e.op) != Some(sid)) || (e.change.Map? && e.change.sid == sid)
  {
    ChangesKeepConns(s, o, e.change, sid);
  }

  lemma KeepsOwnersOut(s: State, o: OpId, e: Effect, p: OpId)
    requires MapIsSound(s) && OwnersAreSound(s) && Careful(s, o, e)
    requires OwnedBy(Done(s, o, e), p).Some?
    ensures var next := Done(s, o, e); var sid := OwnedBy(next, p).value;
      sid in next.conns && !InMap(next, sid) && (p != o ==> Owned(e.op) != Some(sid))
  {
    var sid := OwnedBy(Done(s, o, e), p).value;
    if p != o {
      assert OwnedBy(s, p) == Some(sid);
    }
    if sid in s.conns {
      WhoIsInMap(s, o, e, sid);
      ChangesKeepConns(s, o, e.change, sid);
    }
  }

  lemma KeepsOwners(s: State, o: OpId, e: Effect)
    requires MapIsSound(s) && OwnersAreSound(s) && Careful(s, o, e)
    ensures OwnersAreSound(Done(s, o, e))
  {
    var next := Done(s, o, e);
    forall p | OwnedBy(next, p).Some?
      ensures var sid := OwnedBy(next, p).value; sid in next.conns && !InMap(next, sid)
      ensures p != o ==> OwnedBy(next, o) != OwnedBy(next, p) == OwnedBy(s, p)
    {
      KeepsOwnersOut(s, o, e, p);
    }
  }

  lemma KeepsNoOrphans(s: State, o: OpId, e: Effect)
    requires MapIsSound(s) && NoOrphans(s) && Careful(s, o, e)
    ensures NoOrphans(Done(s, o, e))
  {
    var next := Done(s, o, e);
    forall sid | sid in next.conns
      ensures next.conns[sid].shut || InMap(next, sid) || HasOwner(next, sid)
    {
      if OwnedBy(next, o) != Some(sid) {
        ChangesKeepConns(s, o, e.change, sid);
        WhoIsInMap(s, o, e, sid);
        if !s.conns[sid].shut && !InMap(s, sid) {
          var p :| OwnedBy(s, p) == Some(sid);
          if p != o {
            assert OwnedBy(next, p) == Some(sid);
          }
        }
      }
    }
  }

  // Every line is in exactly one place.

  /** Every place where a line can be. */
  datatype Place =
    | Held(o: OpId)                    // by the `send_or_defer` that brought it
    | Waits(token: Token, n: nat)      // in the queue of its token
    | InFlush(o: OpId, n: nat)         // in the list of a `get_or_create` that is flushing the queue
    | Given(sid: Sid, n: nat)          // with a session
    | Thrown(n: nat)                   // discarded by a logout

  function Carried(op: Op): Option<Line> {
    if op.Find? || op.Hand? || op.Defer? then Some(op.line) else None
  }

  function LineOf(d: Delivery): Line {
    if d.Direct? then d.direct else d.waiting.line
  }

  function NthLine(q: seq<Waiting>, n: nat): Option<Line> {
    if n < |q| then Some(q[n].line) else None
  }

  /** The line that is at a place, if there is one. */
  function Occupant(s: State, p: Place): Option<Line> {
    match p
    case Held(o) => if o in s.ops then Carried(s.ops[o]) else None
    case Waits(t, n) => NthLine(Queue(s, t), n)
    case InFlush(o, n) =>
      if o in s.ops && s.ops[o].Flush? && s.ops[o].sent <= n then NthLine(s.ops[o].lines, n) else None
    case Given(sid, n) => if sid in s.conns && n < |s.conns[sid].got| then Some(LineOf(s.conns[sid].got[n])) else None
    case Thrown(n) => NthLine(s.discarded, n)
  }

  /** The places that `place` says are the ones occupied, and each by the line it says. */
  ghost predicate Locates(s: State, place: map<Line, Place>) {
    && (forall l :: l in place ==> Occupant(s, place[l]) == Some(l))
    && (forall p :: Occupant(s, p).Some? ==> Occupant(s, p).value in place && place[Occupant(s, p).value] == p)
  }

  /** Each accepted line is in exactly one place, and no other line is anywhere. */
  ghost predicate Accounted(s: State, accepted: set<Line>) {
    exists place :: Locates(s, place) && place.Keys == accepted
  }

  ghost predicate AreCalls(s: State, accepted: set<Line>) {
    forall l :: l in accepted ==> l.call in s.ops
  }

  /** What a step may do with lines: pass one on, take or throw a whole queue, or nothing. */
  predicate Tidy(s: State, op: Op, e: Effect) {
    match e.change
    case Deliver(sid, d) =>
      && sid in s.conns
      && if d.Direct? then Carried(op) == Some(d.direct) && Carried(e.op).None? && !e.op.Flush?
         else op.Flush? && op.sent < |op.lines| && op.lines[op.sent] == d.waiting && e.op == op.(sent := op.sent + 1)
    case Drain(t) =>
      Carried(op).None? && !op.Flush? && e.op.Flush? && e.op.lines == Queue(s, t) && e.op.sent == 0
    case Enqueue(line) =>
      Carried(op) == Some(line) && Carried(e.op).None? && !e.op.Flush?
    case _ =>
      Carried(op) == Carried(e.op) && (op.Flush? ==> op.sent >= |op.lines|) && !e.op.Flush?
  }

  /** A session that an operation looked up in the map exists, for the token it was looked up by. */
  predicate Refers(s: State, op: Op) {
    && (op.Hand? ==> op.sid in s.conns && s.conns[op.sid].token == op.line.token)
    && (op.CheckAlive? ==> op.sid in s.conns && s.conns[op.sid].token == op.token)
  }

  lemma MovesAreTidy(s: State, o: OpId, c: Choice)
    requires o in s.ops && MadeBy(s, o, s.ops[o]) && Refers(s, s.ops[o])
    ensures Tidy(s, s.ops[o], Move(s, s.ops[o], c))
  {
  }

  /** Where a step takes the line at `p`. */
  function Moved(s: State, o: OpId, e: Effect, p: Place): Place
    requires o in s.ops && Tidy(s, s.ops[o], e)
  {
    match e.change
    case Deliver(sid, d) =>
      if p == (if d.Direct? then Held(o) else InFlush(o, s.ops[o].sent)) then Given(sid, |s.conns[sid].got|) else p
    case Drain(t) => if p.Waits? && p.token == t then InFlush(o, p.n) else p
    case Discard(t) => if p.Waits? && p.token == t then Thrown(|s.discarded| + p.n) else p
    case Enqueue(line) => if p == Held(o) then Waits(line.token, |Queue(s, line.token)|) else p
    case _ => p
  }

  /** Where a step took the line at `p` from. */
  function Origin(s: State, o: OpId, e: Effect, p: Place): Place
    requires o in s.ops && Tidy(s, s.ops[o], e)
  {
    match e.change
    case Deliver(sid, d) =>
      if p == Given(sid, |s.conns[sid].got|) then (if d.Direct? then Held(o) else InFlush(o, s.ops[o].sent)) else p
    case Drain(t) => if p.InFlush? && p.o == o then Waits(t, p.n) else p
    case Discard(t) => if p.Thrown? && p.n >= |s.discarded| then Waits(t, p.n - |s.discarded|) else p
    case Enqueue(line) => if p == Waits(line.token, |Queue(s, line.token)|) then Held(o) else p
    case _ => p
  }

  lemma MovedKeepsLine(s: State, o: OpId, e: Effect, p: Place)
    requires o in s.ops && Tidy(s, s.ops[o], e) && (e.change.Open? ==> e.change.sid !in s.conns)
    requires Occupant(s, p).Some?
    ensures Occupant(Done(s, o, e), Moved(s, o, e, p)) == Occupant(s, p)
  {
  }

  lemma OriginKeepsLine(s: State, o: OpId, e: Effect, p: Place)
    requires o in s.ops && Tidy(s, s.ops[o], e) && (e.change.Open? ==> e.change.sid !in s.conns)
    requires Occupant(Done(s, o, e), p).Some?
    ensures Moved(s, o, e, Origin(s, o, e, p)) == p
    ensures Occupant(s, Origin(s, o, e, p)) == Occupant(Done(s, o, e), p)
  {
  }

  lemma MovedLocates(s: State, o: OpId, e: Effect, place: map<Line, Place>) returns (moved: map<Line, Place>)
    requires o in s.ops && Tidy(s, s.ops[o], e) && (e.change.Open? ==> e.change.sid !in s.conns)
    requires Locates(s, place)
    ensures Locates(Done(s, o, e), moved) && moved.Keys == place.Keys
  {
    var next := Done(s, o, e);
    moved := map l | l in place :: Moved(s, o, e, place[l]);
    forall l | l in moved
      ensures Occupant(next, moved[l]) == Some(l)
    {
      MovedKeepsLine(s, o, e, place[l]);
    }
    forall p | Occupant(next, p).Some?
      ensures Occupant(next, p).value in moved && moved[Occupant(next, p).value] == p
    {
      OriginKeepsLine(s, o, e, p);
    }
  }

  lemma KeepsAccounted(s: State, o: OpId, e: Effect, accepted: set<Line>)
    requires o in s.ops && Tidy(s, s.ops[o], e) && (e.change.Open? ==> e.change.sid !in s.conns)
    requires Accounted(s, accepted)
    ensures Accounted(Done(s, o, e), accepted)
  {
    var place :| Locates(s, place) && place.Keys == accepted;
    var moved := MovedLocates(s, o, e, place);
  }

  // Lines go where they were sent, and deferred lines in the order they were deferred.

  ghost predicate AllRefer(s: State) {
    forall o :: o in s.ops ==> Refers(s, s.ops[o])
  }

  /** A place is right for a line when it belongs to the token the line was sent to. */
  predicate Fits(s: State, p: Place, line: Line) {
    match p
    case Waits(t, _) => t == line.token
    case InFlush(o, _) => o in s.ops && s.ops[o].Flush? && s.ops[o].token == line.token
    case Given(sid, _) => sid in s.conns && s.conns[sid].token == line.token
    case _ => true
  }

  ghost predicate Routed(s: State) {
    forall p :: Occupant(s, p).Some? ==> Fits(s, p, Occupant(s, p).value)
  }

  lemma KeepsRefers(s: State, a: Action)
    requires MapIsSound(s) && AllRefer(s) && Allowed(s, a) && (a.Begin? || a.Step?)
    ensures AllRefer(Acted(s, a))
  {
    var e, next := EffectOf(s, a), Acted(s, a);
    forall p | p in next.ops
      ensures Refers(next, next.ops[p])
    {
      if p != a.o && (s.ops[p].Hand? || s.ops[p].CheckAlive?) {
        assert Refers(s, s.ops[p]);
        ChangesKeepConns(s, a.o, e.change, s.ops[p].sid);
      }
    }
  }

  /** A queue is taken for its own token, and flushed to the session the operation made. */
  predicate Aimed(op: Op, e: Effect) {
    match e.change
    case Drain(t) => op.TakePending? && e.op.Flush? && e.op.token == t && e.op.sid == op.sid
    case Deliver(sid, d) => if d.Direct? then op.Hand? && sid == op.sid && !Making(e.op) else op.Flush? && sid == op.sid
    case _ =>
      && !e.op.Flush?
      && (e.op.Insert? ==> e.change.Open? && e.change.sid == e.op.sid)
      && (e.op.TakePending? ==> e.change.Map? && op.Insert? && op.sid == e.op.sid)
  }

  lemma MovesAreAimed(s: State, op: Op, c: Choice)
    ensures Aimed(op, Move(s, op, c))
  {
  }

  lemma KeepsRouted(s: State, o: OpId, e: Effect)
    requires o in s.ops && Tidy(s, s.ops[o], e) && (e.change.Open? ==> e.change.sid !in s.conns)
    requires MadeBy(s, o, s.ops[o]) && Refers(s, s.ops[o]) && Aimed(s.ops[o], e) && Routed(s)
    ensures Routed(Done(s, o, e))
  {
    var next := Done(s, o, e);
    forall p | Occupant(next, p).Some?
      ensures Fits(next, p, Occupant(next, p).value)
    {
      OriginKeepsLine(s, o, e, p);
      var q := Origin(s, o, e, p);
      assert Fits(s, q, Occupant(s, q).value);
      if q.Given? {
        ChangesKeepConns(s, o, e.change, q.sid);
      }
    }
  }

  /** Stamps that rise, all below a bound. */
  ghost predicate Rising(q: seq<Waiting>, bound: nat) {
    && (forall m, n :: 0 <= m < n < |q| ==> q[m].stamp < q[n].stamp)
    && (forall n :: 0 <= n < |q| ==> q[n].stamp < bound)
  }

  /** The deferred lines among those a session was given are in the order they were deferred. */
  ghost predicate InOrder(got: seq<Delivery>) {
    forall m, n :: 0 <= m < n < |got| && got[m].Flushed? && got[n].Flushed? ==>
      got[m].waiting.stamp < got[n].waiting.stamp
  }

  /** A session being set up was flushed nothing yet but what comes before the rest of the list. */
  ghost predicate Ready(s: State, op: Op) {
    Making(op) && op.sid in s.conns ==>
      forall m :: 0 <= m < |s.conns[op.sid].got| && s.conns[op.sid].got[m].Flushed? ==>
        op.Flush? && Before(s.conns[op.sid].got[m].waiting, op)
  }

  ghost predicate Before(w: Waiting, op: Op)
    requires op.Flush?
  {
    forall n :: op.sent <= n < |op.lines| ==> w.stamp < op.lines[n].stamp
  }

  ghost predicate QueuesRise(s: State) {
    && (forall t :: t in s.pending ==> Rising(Queue(s, t), s.stamp))
    && (forall o :: o in s.ops && s.ops[o].Flush? ==> Rising(s.ops[o].lines, s.stamp))
  }

  ghost predicate AllReady(s: State) {
    forall o :: o in s.ops ==> Ready(s, s.ops[o])
  }

  ghost predicate AllInOrder(s: State) {
    forall sid :: sid in s.conns ==> InOrder(s.conns[sid].got)
  }

  ghost predicate OrderInv(s: State) {
    QueuesRise(s) && AllReady(s) && AllInOrder(s)
  }

  lemma RisingNext(q: seq<Waiting>, bound: nat, line: Line)
    requires Rising(q, bound)
    ensures Rising(q, bound + 1) && Rising(q + [Waiting(line, bound)], bound + 1)
  {
  }

  lemma KeepsQueue(s: State, o: OpId, e: Effect, t: Token)
    requires o in s.ops && Tidy(s, s.ops[o], e) && Rising(Queue(s, t), s.stamp)
    ensures Rising(Queue(Done(s, o, e), t), Done(s, o, e).stamp)
  {
    if e.change.Enqueue? {
      RisingNext(Queue(s, t), s.stamp, e.change.line);
    }
  }

  lemma KeepsQueues(s: State, o: OpId, e: Effect)
    requires o in s.ops && Tidy(s, s.ops[o], e) && QueuesRise(s)
    ensures QueuesRise(Done(s, o, e))
  {
    var next := Done(s, o, e);
    forall t
      ensures Rising(Queue(s, t), s.stamp) && Rising(Queue(next, t), next.stamp)
    {
      assert t in s.pending ==> Rising(Queue(s, t), s.stamp);
      KeepsQueue(s, o, e, t);
    }
    forall p | p in next.ops && next.ops[p].Flush?
      ensures Rising(next.ops[p].lines, next.stamp)
    {
      if p in s.ops && s.ops[p].Flush? {
        assert Rising(s.ops[p].lines, s.stamp);
      } else {
        assert next.ops[p].lines == Queue(s, e.change.token);
      }
    }
  }

  lemma KeepsInOrder(s: State, o: OpId, e: Effect)
    requires o in s.ops && Tidy(s, s.ops[o], e) && Aimed(s.ops[o], e) && OrderInv(s)
    ensures AllInOrder(Done(s, o, e))
  {
    if e.change.Deliver? {
      assert Ready(s, s.ops[o]);
    }
  }

  lemma KeepsOthersReady(s: State, o: OpId, e: Effect, p: OpId)
    requires o in s.ops && Tidy(s, s.ops[o], e) && Aimed(s.ops[o], e) && AllReady(s) && MakersAreSound(s)
    requires e.change.Open? ==> e.change.sid !in s.conns
    requires p in s.ops && p != o
    ensures Ready(Done(s, o, e), s.ops[p])
  {
    assert Ready(s, s.ops[p]) && MadeBy(s, p, s.ops[p]) && MadeBy(s, o, s.ops[o]);
  }

  lemma KeepsOwnReady(s: State, o: OpId, e: Effect)
    requires o in s.ops && Tidy(s, s.ops[o], e) && Aimed(s.ops[o], e) && QueuesRise(s) && Ready(s, s.ops[o])
    ensures Ready(Done(s, o, e), e.op)
  {
    var op, next := s.ops[o], Done(s, o, e);
    if op.Flush? && e.op.Flush? {
      var got := s.conns[op.sid].got;
      forall m | 0 <= m < |got| + 1 && next.conns[op.sid].got[m].Flushed?
        ensures Before(next.conns[op.sid].got[m].waiting, e.op)
      {
        if m < |got| {
          assert next.conns[op.sid].got[m] == got[m] && Before(got[m].waiting, op);
        }
      }
    } else if Making(e.op) && e.op.sid in s.conns && !e.change.Open? {
      assert next.conns[e.op.sid].got == s.conns[e.op.sid].got;
    }
  }

  lemma KeepsReady(s: State, o: OpId, e: Effect)
    requires o in s.ops && Tidy(s, s.ops[o], e) && Aimed(s.ops[o], e) && OrderInv(s) && MakersAreSound(s)
    requires e.change.Open? ==> e.change.sid !in s.conns
    ensures AllReady(Done(s, o, e))
  {
    assert Ready(s, s.ops[o]);
    KeepsOwnReady(s, o, e);
    forall p | p in s.ops && p != o
      ensures Ready(Done(s, o, e), s.ops[p])
    {
      KeepsOthersReady(s, o, e, p);
    }
  }

  // Every run.

  ghost predicate Inv(s: State, accepted: set<Line>) {
    && SessionsInv(s) && AllRefer(s)
    && AreCalls(s, accepted) && Accounted(s, accepted) && Routed(s) && OrderInv(s)
  }

  /** The line a call brings, if it is accepted. */
  function Accepts(a: Action): set<Line> {
    if a.Begin? && Start(a.o, a.call).Find? then {Start(a.o, a.call).line} else {}
  }

  lemma BeginOccupant(s: State, a: Action, p: Place)
    requires Allowed(s, a) && a.Begin?
    ensures Occupant(Acted(s, a), p) == if p == Held(a.o) then Carried(Start(a.o, a.call)) else Occupant(s, p)
  {
  }

  lemma BeginLocates(s: State, a: Action, place: map<Line, Place>)
    requires Locates(s, place) && AreCalls(s, place.Keys) && Allowed(s, a) && a.Begin?
    ensures var op := Start(a.o, a.call);
      Locates(Acted(s, a), if op.Find? then place[op.line := Held(a.o)] else place)
  {
    var next, op := Acted(s, a), Start(a.o, a.call);
    var placed := if op.Find? then place[op.line := Held(a.o)] else place;
    forall l | l in placed
      ensures Occupant(next, placed[l]) == Some(l)
    {
      BeginOccupant(s, a, placed[l]);
    }
    forall p | Occupant(next, p).Some?
      ensures Occupant(next, p).value in placed && placed[Occupant(next, p).value] == p
    {
      BeginOccupant(s, a, p);
      if p != Held(a.o) {
        assert Occupant(s, p).value in place;
      }
    }
  }

  lemma BeginKeepsAccounted(s: State, a: Action, accepted: set<Line>)
    requires AreCalls(s, accepted) && Accounted(s, accepted) && Allowed(s, a) && a.Begin?
    ensures Accounted(Acted(s, a), accepted + Accepts(a)) && AreCalls(Acted(s, a), accepted + Accepts(a))
  {
    var place :| Locates(s, place) && place.Keys == accepted;
    BeginLocates(s, a, place);
    var op := Start(a.o, a.call);
    var placed := if op.Find? then place[op.line := Held(a.o)] else place;
    assert Locates(Acted(s, a), placed) && placed.Keys == accepted + Accepts(a);
  }

  lemma BeginKeepsRest(s: State, a: Action)
    requires Routed(s) && OrderInv(s) && Allowed(s, a) && a.Begin?
    ensures Routed(Acted(s, a)) && OrderInv(Acted(s, a))
  {
    forall p | Occupant(Acted(s, a), p).Some?
      ensures Fits(Acted(s, a), p, Occupant(Acted(s, a), p).value)
    {
      BeginOccupant(s, a, p);
    }
  }

  lemma StepKeepsInv(s: State, a: Action, accepted: set<Line>)
    requires Inv(s, accepted) && Allowed(s, a) && a.Step?
    ensures Inv(Acted(s, a), accepted)
  {
    var o, op, e := a.o, s.ops[a.o], EffectOf(s, a);
    assert MadeBy(s, o, op) && Refers(s, op);
    MovesAreCareful(s, a);
    MovesKeepMaker(s, o, op, a.choice);
    MovesAreTidy(s, o, a.choice);
    MovesAreAimed(s, op, a.choice);
    KeepsMap(s, o, e);
    KeepsOwners(s, o, e);
    KeepsNoOrphans(s, o, e);
    KeepsMakers(s, o, e);
    KeepsRefers(s, a);
    KeepsAccounted(s, o, e, accepted);
    KeepsRouted(s, o, e);
    KeepsQueues(s, o, e);
    KeepsInOrder(s, o, e);
    KeepsReady(s, o, e);
  }

  lemma BeginKeepsInv(s: State, a: Action, accepted: set<Line>)
    requires Inv(s, accepted) && Allowed(s, a) && a.Begin?
    ensures Inv(Acted(s, a), accepted + Accepts(a))
  {
    var o, e := a.o, EffectOf(s, a);
    MovesAreCareful(s, a);
    KeepsMap(s, o, e);
    KeepsOwners(s, o, e);
    KeepsNoOrphans(s, o, e);
    KeepsMakers(s, o, e);
    KeepsRefers(s, a);
    BeginKeepsAccounted(s, a, accepted);
    BeginKeepsRest(s, a);
  }

  lemma EndOccupant(s: State, a: Action, p: Place)
    requires Allowed(s, a) && (a.TcpDies? || a.ReaderEnds?)
    ensures Occupant(Acted(s, a), p) == Occupant(s, p)
  {
  }

  lemma EndKeepsAccounted(s: State, a: Action, accepted: set<Line>)
    requires Accounted(s, accepted) && Allowed(s, a) && (a.TcpDies? || a.ReaderEnds?)
    ensures Accounted(Acted(s, a), accepted)
  {
    var place :| Locates(s, place) && place.Keys == accepted;
    forall l | l in place
      ensures Occupant(Acted(s, a), place[l]) == Some(l)
    {
      EndOccupant(s, a, place[l]);
    }
    forall p | Occupant(Acted(s, a), p).Some?
      ensures var l := Occupant(Acted(s, a), p).value; l in place && place[l] == p
    {
      EndOccupant(s, a, p);
      assert Occupant(s, p).value in place;
    }
    assert Locates(Acted(s, a), place);
  }

  lemma EndKeepsRouted(s: State, a: Action)
    requires Routed(s) && Allowed(s, a) && (a.TcpDies? || a.ReaderEnds?)
    ensures Routed(Acted(s, a))
  {
    forall p | Occupant(Acted(s, a), p).Some?
      ensures Fits(Acted(s, a), p, Occupant(Acted(s, a), p).value)
    {
      EndOccupant(s, a, p);
    }
  }

  lemma EndKeepsOrder(s: State, a: Action)
    requires AllRefer(s) && OrderInv(s) && Allowed(s, a) && (a.TcpDies? || a.ReaderEnds?)
    ensures AllRefer(Acted(s, a)) && OrderInv(Acted(s, a))
  {
    var next := Acted(s, a);
    assert forall sid :: sid in s.conns ==> next.conns[sid].got == s.conns[sid].got;
    assert forall o :: o in s.ops ==> Ready(s, s.ops[o]);
  }

  /** The connection ending, and the reader noticing, move no line and free no session. */
  lemma EndKeepsInv(s: State, a: Action, accepted: set<Line>)
    requires Inv(s, accepted) && Allowed(s, a) && (a.TcpDies? || a.ReaderEnds?)
    ensures Inv(Acted(s, a), accepted)
  {
    EndKeepsSessions(s, a);
    EndKeepsAccounted(s, a, accepted);
    EndKeepsRouted(s, a);
    EndKeepsOrder(s, a);
  }

  lemma EndKeepsSessions(s: State, a: Action)
    requires SessionsInv(s) && Allowed(s, a) && (a.TcpDies? || a.ReaderEnds?)
    ensures SessionsInv(Acted(s, a))
  {
    var next := Acted(s, a);
    forall o
      ensures OwnedBy(next, o) == OwnedBy(s, o)
    {
    }
    forall sid | sid in next.conns && !next.conns[sid].shut && !InMap(next, sid)
      ensures HasOwner(next, sid)
    {
      var o :| OwnedBy(s, o) == Some(sid);
      assert OwnedBy(next, o) == Some(sid);
    }
  }

  ghost predicate AllAllowed(s: State, run: seq<Action>)
    decreases |run|
  {
    run == [] || (Allowed(s, run[0]) && AllAllowed(Acted(s, run[0]), run[1..]))
  }

  ghost function After(s: State, run: seq<Action>): State
    requires AllAllowed(s, run)
    decreases |run|
  {
    if run == [] then s else After(Acted(s, run[0]), run[1..])
  }

  /** A connection keeps its token, and neither comes back to life nor opens again. */
  predicate Onward(c: Conn, d: Conn) {
    d.token == c.token && (d.alive ==> c.alive) && (c.shut ==> d.shut)
  }

  lemma ChangedGoesOn(s: State, o: OpId, change: Change, sid: Sid)
    requires sid in s.conns && (change.Open? ==> change.sid != sid)
    ensures sid in Changed(s, o, change).conns && Onward(s.conns[sid], Changed(s, o, change).conns[sid])
  {
  }

  lemma ActedGoesOn(s: State, a: Action, sid: Sid)
    requires sid in s.conns && Allowed(s, a)
    ensures sid in Acted(s, a).conns && Onward(s.conns[sid], Acted(s, a).conns[sid])
  {
    if a.Begin? || a.Step? {
      ChangedGoesOn(s, a.o, EffectOf(s, a).change, sid);
    }
  }

  /** A connection that has died stays dead, and a session that was shut down stays shut down. */
  lemma {:induction false} ClosedForGood(s: State, run: seq<Action>, sid: Sid)
    requires AllAllowed(s, run) && sid in s.conns
    ensures sid in After(s, run).conns && Onward(s.conns[sid], After(s, run).conns[sid])
    decreases |run|
  {
    if run != [] {
      ActedGoesOn(s, run[0], sid);
      ClosedForGood(Acted(s, run[0]), run[1..], sid);
    }
  }

  /** Whatever happens after a connection has died, `get_or_create` takes its session out instead of returning it. */
  lemma DeadIsReplaced(s: State, sid: Sid, run: seq<Action>, o: OpId, c: Choice)
    requires Allowed(s, TcpDies(sid)) && AllAllowed(Acted(s, TcpDies(sid)), run)
    requires var t := After(Acted(s, TcpDies(sid)), run);
      Allowed(t, Step(o, c)) && t.ops[o].CheckAlive? && t.ops[o].sid == sid
    ensures var t := After(Acted(s, TcpDies(sid)), run);
      Acted(t, Step(o, c)).ops[o] == RemoveDead(t.ops[o].token, sid)
  {
    ClosedForGood(Acted(s, TcpDies(sid)), run, sid);
  }

  /** The lines accepted in a run. */
  function Accepted(run: seq<Action>): set<Line> {
    if run == [] then {} else Accepts(run[0]) + Accepted(run[1..])
  }

  lemma {:induction false} RunKeepsInv(s: State, run: seq<Action>, accepted: set<Line>)
    requires Inv(s, accepted) && AllAllowed(s, run)
    ensures Inv(After(s, run), accepted + Accepted(run))
    decreases |run|
  {
    if run != [] {
      var a := run[0];
      if a.Begin? {
        BeginKeepsInv(s, a, accepted);
      } else if a.Step? {
        StepKeepsInv(s, a, accepted);
      } else {
        EndKeepsInv(s, a, accepted);
      }
      assert accepted + Accepts(a) + Accepted(run[1..]) == accepted + Accepted(run);
      assert !a.Begin? ==> accepted + Accepts(a) == accepted;
      RunKeepsInv(Acted(s, a), run[1..], accepted + Accepts(a));
    } else {
      assert accepted + Accepted(run) == accepted;
    }
  }

  /** Whatever calls are made and however their steps interleave, the invariant holds. */
  lemma EveryRunKeepsInv(run: seq<Action>)
    requires AllAllowed(EMPTY, run)
    ensures Inv(After(EMPTY, run), Accepted(run))
  {
    var nowhere: map<Line, Place> := map[];
    assert Locates(EMPTY, nowhere) && nowhere.Keys == {};
    RunKeepsInv(EMPTY, run, {});
    assert {} + Accepted(run) == Accepted(run);
  }

  /**
   * Every session ever connected is in the map under its own token, or has been shut down, or is
   * owned by one operation and no other.
   */
  lemma NoSessionIsOrphaned(run: seq<Action>, sid: Sid)
    requires AllAllowed(EMPTY, run) && sid in After(EMPTY, run).conns
    ensures var s := After(EMPTY, run);
      s.conns[sid].shut || InMap(s, sid) || exists o :: OwnedBy(s, o) == Some(sid)
    ensures var s := After(EMPTY, run);
      forall o :: OwnedBy(s, o) == Some(sid) ==> !InMap(s, sid) && forall p :: OwnedBy(s, p) == Some(sid) ==> p == o
  {
    EveryRunKeepsInv(run);
    var s := After(EMPTY, run);
    if !s.conns[sid].shut && !InMap(s, sid) {
      assert HasOwner(s, sid);
    }
  }

  /** The next step of the owner does put the session in the map, or shuts it down. */
  lemma OwnersSettle(s: State, o: OpId, c: Choice)
    requires SessionsInv(s) && Allowed(s, Step(o, c)) && OwnedBy(s, o).Some?
    ensures var next, sid := Acted(s, Step(o, c)), OwnedBy(s, o).value;
      OwnedBy(next, o).None? && (InMap(next, sid) || (sid in next.conns && next.conns[sid].shut))
  {
    var e, sid := Move(s, s.ops[o], c), OwnedBy(s, o).value;
    assert MadeBy(s, o, s.ops[o]);
    assert sid in s.conns && (e.change == ShutDown(sid) || (e.change.Map? && e.change.sid == sid));
    ChangesKeepConns(s, o, e.change, sid);
  }

  predicate Finished(op: Op) {
    op.Got? || op.Returned?
  }

  /** Once no operation is under way, a token has at most one session that is not shut down: the one in the map. */
  lemma AtRestOneSessionEach(run: seq<Action>, sid: Sid, other: Sid)
    requires AllAllowed(EMPTY, run)
    requires var s := After(EMPTY, run);
      && (forall o :: o in s.ops ==> Finished(s.ops[o]))
      && sid in s.conns && !s.conns[sid].shut && other in s.conns && !s.conns[other].shut
      && s.conns[sid].token == s.conns[other].token
    ensures InMap(After(EMPTY, run), sid) && sid == other
  {
    var s := After(EMPTY, run);
    NoSessionIsOrphaned(run, sid);
    NoSessionIsOrphaned(run, other);
    assert forall o :: OwnedBy(s, o).None?;
  }

  ghost predicate Somewhere(s: State, line: Line) {
    exists p :: Occupant(s, p) == Some(line)
  }

  /** An accepted line is in a place, no line is in two, and each place is right for the line's token. */
  lemma EveryLineInOnePlace(run: seq<Action>, line: Line)
    requires AllAllowed(EMPTY, run)
    ensures var s := After(EMPTY, run);
      && (line in Accepted(run) <==> Somewhere(s, line))
      && (forall p, q :: Occupant(s, p) == Some(line) && Occupant(s, q) == Some(line) ==> p == q)
      && (forall p :: Occupant(s, p) == Some(line) ==> Fits(s, p, line))
  {
    EveryRunKeepsInv(run);
    var s := After(EMPTY, run);
    LinesInOnePlace(s, Accepted(run), line);
  }

  lemma LinesInOnePlace(s: State, accepted: set<Line>, line: Line)
    requires Accounted(s, accepted) && Routed(s)
    ensures line in accepted <==> Somewhere(s, line)
    ensures forall p, q :: Occupant(s, p) == Some(line) && Occupant(s, q) == Some(line) ==> p == q
    ensures forall p :: Occupant(s, p) == Some(line) ==> Fits(s, p, line)
  {
    var place :| Locates(s, place) && place.Keys == accepted;
    if line in place {
      assert Occupant(s, place[line]) == Some(line);
    }
  }

  /** Queues, flush lists and what each session has been flushed are in the order the lines were deferred. */
  lemma DeferredLinesKeepOrder(run: seq<Action>)
    requires AllAllowed(EMPTY, run)
    ensures QueuesRise(After(EMPTY, run)) && AllInOrder(After(EMPTY, run))
  {
    EveryRunKeepsInv(run);
  }

  /** What `get_or_create` returns is a session of the token: found alive, another's now in the map, or its own. */
  lemma ReturnsSessionOfToken(s: State, o: OpId, c: Choice)
    requires MapIsSound(s) && AllRefer(s) && MakersAreSound(s) && Allowed(s, Step(o, c)) && !Finished(s.ops[o])
    requires Acted(s, Step(o, c)).ops[o].Got?
    ensures var got := Acted(s, Step(o, c)).ops[o];
      && got.sid in s.conns && s.conns[got.sid].token == got.token
      && (|| (s.ops[o].CheckAlive? && s.conns[got.sid].alive)
          || (s.ops[o].Insert? && Maps(s.sessions, got.token, got.sid))
          || (s.ops[o].Flush? && s.conns[got.sid].maker == o))
  {
    assert Refers(s, s.ops[o]) && MadeBy(s, o, s.ops[o]);
  }

  // When a deferred line is left behind.

  /** A call has put a session of the token in the map and is about to take the token's queue. */
  ghost predicate Draining(s: State, t: Token) {
    exists o :: Takes(s, o, t)
  }

  /** The token has a session in the map, lines in its queue, and no call about to take them. */
  ghost predicate Stranded(s: State, t: Token) {
    t in s.sessions && Queue(s, t) != [] && !Draining(s, t)
  }

  function ChangeOf(s: State, a: Action): Change
    requires Allowed(s, a)
  {
    if a.Begin? || a.Step? then EffectOf(s, a).change else Nothing
  }

  /** A line is deferred although its token has a session by now, whose maker has taken the queue already. */
  ghost predicate DefersLate(s: State, a: Action, t: Token)
    requires Allowed(s, a)
  {
    var change := ChangeOf(s, a);
    change.Enqueue? && change.line.token == t && t in s.sessions && !Draining(s, t)
  }

  /** The token's session is taken out of the map, or its queue is discarded. */
  predicate Frees(s: State, a: Action, t: Token)
    requires Allowed(s, a)
  {
    ChangeOf(s, a) == Unmap(t) || ChangeOf(s, a) == Discard(t)
  }

  lemma MapsThenDrains(s: State, op: Op, c: Choice)
    ensures var e := Move(s, op, c);
      && (e.op.TakePending? <==> e.change.Map?) && (e.change.Map? ==> e.op.token == e.change.token)
      && (op.TakePending? <==> e.change.Drain?) && (e.change.Drain? ==> op.token == e.change.token)
  {
  }

  predicate Takes(s: State, o: OpId, t: Token) {
    o in s.ops && s.ops[o].TakePending? && s.ops[o].token == t
  }

  lemma DoneTakes(s: State, o: OpId, e: Effect, p: OpId, t: Token)
    ensures Takes(Done(s, o, e), p, t) <==> if p == o then e.op.TakePending? && e.op.token == t else Takes(s, p, t)
  {
  }

  /** Which calls are about to take a queue changes only when one maps its session, and when it does take it. */
  lemma DrainingNext(s: State, a: Action, t: Token)
    requires Allowed(s, a)
    ensures var change := ChangeOf(s, a);
      && (change.Map? && change.token == t ==> Draining(Acted(s, a), t))
      && (change == Drain(t) ==> Draining(s, t))
      && (!(change.Map? && change.token == t) && change != Drain(t) ==> (Draining(Acted(s, a), t) <==> Draining(s, t)))
  {
    var next := Acted(s, a);
    if a.Begin? || a.Step? {
      if a.Step? {
        MapsThenDrains(s, s.ops[a.o], a.choice);
      }
      forall p
        ensures Takes(next, p, t) <==>
          if p == a.o then EffectOf(s, a).op.TakePending? && EffectOf(s, a).op.token == t else Takes(s, p, t)
      {
        DoneTakes(s, a.o, EffectOf(s, a), p, t);
      }
      assert Takes(next, a.o, t) <==> EffectOf(s, a).op.TakePending? && EffectOf(s, a).op.token == t;
      assert Takes(s, a.o, t) ==> Draining(s, t);
    } else {
      assert forall p :: Takes(next, p, t) <==> Takes(s, p, t);
    }
  }

  /** In a step, lines are left behind exactly by a late deferral, and stay so exactly until they are freed. */
  lemma StrandedIff(s: State, a: Action, t: Token)
    requires Allowed(s, a)
    ensures Stranded(Acted(s, a), t) <==> DefersLate(s, a, t) || (Stranded(s, t) && !Frees(s, a, t))
  {
    DrainingNext(s, a, t);
    var next, change := Acted(s, a), ChangeOf(s, a);
    match change {
      case Map(u, _) => assert u !in s.sessions;
      case Enqueue(line) => assert Queue(next, line.token) != [];
      case _ =>
    }
  }

  /** No step of the run takes the token's session out of the map or discards its queue. */
  ghost predicate NeverFrees(s: State, run: seq<Action>, t: Token)
    requires AllAllowed(s, run)
    decreases |run|
  {
    run == [] || (!Frees(s, run[0], t) && NeverFrees(Acted(s, run[0]), run[1..], t))
  }

  /** Some step of the run defers a line late, and no step after it frees the token. */
  ghost predicate LeavesBehind(s: State, run: seq<Action>, t: Token)
    requires AllAllowed(s, run)
    decreases |run|
  {
    run != [] &&
    var next := Acted(s, run[0]);
    || (DefersLate(s, run[0], t) && NeverFrees(next, run[1..], t))
    || LeavesBehind(next, run[1..], t)
  }

  lemma {:induction false} RunStrandedIff(s: State, run: seq<Action>, t: Token)
    requires AllAllowed(s, run)
    ensures Stranded(After(s, run), t) <==> LeavesBehind(s, run, t) || (Stranded(s, t) && NeverFrees(s, run, t))
    decreases |run|
  {
    if run != [] {
      StrandedIff(s, run[0], t);
      RunStrandedIff(Acted(s, run[0]), run[1..], t);
    }
  }

  /**
   * With nothing under way, a token with a session in the map has lines waiting exactly when one was
   * deferred late, and since then its session has neither been taken out nor its queue discarded.
   */
  lemma WaitingAtRestIff(run: seq<Action>, t: Token)
    requires AllAllowed(EMPTY, run) && t in After(EMPTY, run).sessions
    requires forall o :: o in After(EMPTY, run).ops ==> Finished(After(EMPTY, run).ops[o])
    ensures Queue(After(EMPTY, run), t) != [] <==> LeavesBehind(EMPTY, run, t)
  {
    RunStrandedIff(EMPTY, run, t);
    assert !Draining(After(EMPTY, run), t);
    assert !Stranded(EMPTY, t);
  }

  /** No step of the run defers a line of the token late. */
  ghost predicate NeverLate(s: State, run: seq<Action>, t: Token)
    requires AllAllowed(s, run)
    decreases |run|
  {
    run == [] || (!DefersLate(s, run[0], t) && NeverLate(Acted(s, run[0]), run[1..], t))
  }

  lemma {:induction false} NeverLateLeavesNothing(s: State, run: seq<Action>, t: Token)
    requires AllAllowed(s, run) && NeverLate(s, run, t)
    ensures !LeavesBehind(s, run, t)
    decreases |run|
  {
    if run != [] {
      NeverLateLeavesNothing(Acted(s, run[0]), run[1..], t);
    }
  }

  /** So if no line is deferred late, no token with a session has lines waiting once nothing is under way. */
  lemma NothingWaitsIfNeverLate(run: seq<Action>, t: Token)
    requires AllAllowed(EMPTY, run) && NeverLate(EMPTY, run, t) && t in After(EMPTY, run).sessions
    requires forall o :: o in After(EMPTY, run).ops ==> Finished(After(EMPTY, run).ops[o])
    ensures Queue(After(EMPTY, run), t) == []
  {
    NeverLateLeavesNothing(EMPTY, run, t);
    WaitingAtRestIff(run, t);
  }

  lemma OneStep(s: State, a: Action, rest: seq<Action>)
    requires Allowed(s, a) && AllAllowed(Acted(s, a), rest)
    ensures AllAllowed(s, [a] + rest) && After(s, [a] + rest) == After(Acted(s, a), rest)
  {
    assert ([a] + rest)[1..] == rest;
  }

  lemma TwoSteps(s: State, a: Action, b: Action)
    requires Allowed(s, a) && Allowed(Acted(s, a), b)
    ensures AllAllowed(s, [a, b]) && After(s, [a, b]) == Acted(Acted(s, a), b)
  {
    OneStep(Acted(s, a), b, []);
    OneStep(s, a, [b] + []);
    assert [a] + ([b] + []) == [a, b];
  }

  lemma ThreeSteps(s: State, a: Action, b: Action, c: Action)
    requires Allowed(s, a) && Allowed(Acted(s, a), b) && Allowed(Acted(Acted(s, a), b), c)
    ensures AllAllowed(s, [a, b, c]) && After(s, [a, b, c]) == Acted(Acted(Acted(s, a), b), c)
  {
    TwoSteps(Acted(s, a), b, c);
    OneStep(s, a, [b, c]);
    assert [a] + [b, c] == [a, b, c];
  }

  lemma {:induction false} RunThenRun(s: State, run: seq<Action>, more: seq<Action>)
    requires AllAllowed(s, run) && AllAllowed(After(s, run), more)
    ensures AllAllowed(s, run + more) && After(s, run + more) == After(After(s, run), more)
    decreases |run|
  {
    if run == [] {
      assert run + more == more;
    } else {
      RunThenRun(Acted(s, run[0]), run[1..], more);
      OneStep(s, run[0], run[1..] + more);
      assert [run[0]] + (run[1..] + more) == run + more;
    }
  }

  /** The line has found no session, and its token has a call under way that has connected one. */
  ghost function Racing(line: Line): State {
    State(map[], map[], map[0 := Conn(line.token, 1, true, false, [])],
          map[0 := Defer(line), 1 := Insert(line.token, 0)], [], 0)
  }

  /** That call has put the session in the map and taken the queue, which was empty. */
  ghost function Drained(line: Line): State {
    Racing(line).(sessions := map[line.token := 0], ops := map[0 := Defer(line), 1 := Flush(line.token, 0, [], 0)])
  }

  lemma ReachesRacing(resume: string, b: byte)
    requires ValidToken(resume)
    ensures exists run :: AllAllowed(EMPTY, run) && After(EMPTY, run) == Racing(Line(0, Trim(resume), [b]))
  {
    var line := Line(0, Trim(resume), [b]);
    var a, c := Begin(0, SendOrDefer(resume, [b])), Begin(1, GetOrCreate(resume));
    var found := State(map[], map[], map[], map[0 := Defer(line), 1 := Lookup(line.token)], [], 0);
    assert Acted(Acted(Acted(EMPTY, a), Step(0, Free)), c) == found;
    ThreeSteps(EMPTY, a, Step(0, Free), c);
    var connecting := found.(ops := map[0 := Defer(line), 1 := Connect(line.token)]);
    assert Acted(found, Step(1, Free)) == connecting;
    assert Acted(connecting, Step(1, Connected(0))) == Racing(line);
    TwoSteps(found, Step(1, Free), Step(1, Connected(0)));
    RunThenRun(EMPTY, [a, Step(0, Free), c], [Step(1, Free), Step(1, Connected(0))]);
  }

  lemma RacingLeavesLine(line: Line)
    ensures exists run :: AllAllowed(Racing(line), run) && LeftWaiting(After(Racing(line), run), line)
  {
    var s, t := Racing(line), line.token;
    var mapped := s.(sessions := map[t := 0], ops := map[0 := Defer(line), 1 := TakePending(t, 0)]);
    assert Acted(s, Step(1, Free)) == mapped;
    assert Acted(mapped, Step(1, Free)) == Drained(line);
    TwoSteps(s, Step(1, Free), Step(1, Free));
    var returned := Drained(line).(ops := map[0 := Defer(line), 1 := Got(t, 0)]);
    assert Acted(Drained(line), Step(1, Free)) == returned;
    assert LeftWaiting(Acted(returned, Step(0, Free)), line);
    TwoSteps(Drained(line), Step(1, Free), Step(0, Free));
    RunThenRun(s, [Step(1, Free), Step(1, Free)], [Step(1, Free), Step(0, Free)]);
  }

  /**
   * Late deferrals do occur: for every token there is a run that leaves a line waiting beside a live
   * session with nothing under way.
   */
  lemma LateDeferIsLeftWaiting(resume: string, b: byte)
    requires ValidToken(resume)
    ensures exists run :: AllAllowed(EMPTY, run) && LeftWaiting(After(EMPTY, run), Line(0, Trim(resume), [b]))
  {
    var line := Line(0, Trim(resume), [b]);
    ReachesRacing(resume, b);
    RacingLeavesLine(line);
    var run :| AllAllowed(EMPTY, run) && After(EMPTY, run) == Racing(line);
    var more :| AllAllowed(Racing(line), more) && LeftWaiting(After(Racing(line), more), line);
    RunThenRun(EMPTY, run, more);
  }

  /** Nothing is under way, the token has a live session, and yet the line waits in the queue. */
  ghost predicate LeftWaiting(s: State, line: Line) {
    && (forall o :: o in s.ops ==> Finished(s.ops[o]))
    && line.token in s.sessions && s.sessions[line.token] in s.conns && s.conns[s.sessions[line.token]].alive
    && Occupant(s, Waits(line.token, 0)) == Some(line)
  }
}
