/**
 * A call whose steps run with none of another call's in between does what the operations of
 * `WebManager` do: the step by step machine of `WebSessions` and the code as written agree.
 */
module WebAlone {
  import opened Prelude
  import opened Names
  import opened WebSessions
  import opened WebManager

  /** The state with one call at a point of its program. */
  function At(s: State, o: OpId, op: Op): State {
    s.(ops := s.ops[o := op])
  }

  /** The shared state and the program point after some steps of one call. */
  function Ran(s: State, o: OpId, op: Op, choices: seq<Choice>): (State, Op)
    decreases |choices|
  {
    if choices == [] then (s, op)
    else
      var e := Move(s, op, choices[0]);
      Ran(Changed(s, o, e.change), o, e.op, choices[1..])
  }

  predicate Open(s: State, c: Choice) {
    && (c.Connected? ==> c.sid !in s.conns)
    && (c.Listed? ==> forall n :: 0 <= n < |c.items| ==> Maps(s.sessions, c.items[n].0, c.items[n].1))
  }

  predicate AllOpen(s: State, o: OpId, op: Op, choices: seq<Choice>)
    decreases |choices|
  {
    choices == [] ||
    (var e := Move(s, op, choices[0]);
     Open(s, choices[0]) && AllOpen(Changed(s, o, e.change), o, e.op, choices[1..]))
  }

  /** All the steps of one call to its end, with no other call's in between. */
  predicate RunsAlone(s: State, o: OpId, op: Op, choices: seq<Choice>) {
    AllOpen(s, o, op, choices) && Finished(Ran(s, o, op, choices).1)
  }

  function Steps(o: OpId, choices: seq<Choice>): seq<Action> {
    seq(|choices|, n requires 0 <= n < |choices| => Step(o, choices[n]))
  }

  lemma OpsDoNotMatter(s: State, o: OpId, op: Op, c: Choice)
    ensures Move(At(s, o, op), op, c) == Move(s, op, c)
  {
  }

  lemma ChangedAt(s: State, o: OpId, op: Op, change: Change)
    ensures Changed(At(s, o, op), o, change) == At(Changed(s, o, change), o, op)
  {
    match change {
      case Discard(t) => assert Queue(At(s, o, op), t) == Queue(s, t);
      case Enqueue(line) => assert Queue(At(s, o, op), line.token) == Queue(s, line.token);
      case _ =>
    }
  }

  lemma AtTwice(s: State, o: OpId, op: Op, next: Op)
    ensures At(At(s, o, op), o, next) == At(s, o, next)
  {
    assert s.ops[o := op][o := next] == s.ops[o := next];
  }

  lemma DoneAt(s: State, o: OpId, op: Op, e: Effect)
    ensures Done(At(s, o, op), o, e) == At(Changed(s, o, e.change), o, e.op)
  {
    ChangedAt(s, o, op, e.change);
    AtTwice(Changed(s, o, e.change), o, op, e.op);
    assert Done(At(s, o, op), o, e) == At(Changed(At(s, o, op), o, e.change), o, e.op);
  }

  /** The steps of one call are a run of the machine. */
  lemma {:induction false} RanIsRun(s: State, o: OpId, op: Op, choices: seq<Choice>)
    requires AllOpen(s, o, op, choices)
    ensures AllAllowed(At(s, o, op), Steps(o, choices))
    ensures var (t, end) := Ran(s, o, op, choices); After(At(s, o, op), Steps(o, choices)) == At(t, o, end)
    decreases |choices|
  {
    if choices != [] {
      var c := choices[0];
      var e := Move(s, op, c);
      OpsDoNotMatter(s, o, op, c);
      DoneAt(s, o, op, e);
      RanIsRun(Changed(s, o, e.change), o, e.op, choices[1..]);
      assert Steps(o, choices) == [Step(o, c)] + Steps(o, choices[1..]);
      OneStep(At(s, o, op), Step(o, c), Steps(o, choices[1..]));
    }
  }

  /** A call that is not finished takes the first of its steps. */
  lemma Forward(s: State, o: OpId, op: Op, choices: seq<Choice>) returns (c: Choice, rest: seq<Choice>)
    requires !Finished(op) && RunsAlone(s, o, op, choices)
    ensures choices == [c] + rest && Open(s, c)
    ensures var e := Move(s, op, c); var t := Changed(s, o, e.change);
      RunsAlone(t, o, e.op, rest) && Ran(s, o, op, choices) == Ran(t, o, e.op, rest)
  {
    c, rest := choices[0], choices[1..];
  }

  /** A finished call stays as it is. */
  lemma {:induction false} FinishedStays(s: State, o: OpId, op: Op, choices: seq<Choice>)
    requires Finished(op)
    ensures Ran(s, o, op, choices) == (s, op)
    decreases |choices|
  {
    if choices != [] {
      assert Move(s, op, choices[0]) == Effect(op, Nothing);
      FinishedStays(s, o, op, choices[1..]);
    }
  }

  /** `send_or_defer` alone: compare `WebManager.WebSessionManager.SendOrDefer`. */
  lemma SendAlone(s: State, o: OpId, line: Line, choices: seq<Choice>)
    requires MapIsSound(s) && RunsAlone(s, o, Find(line), choices)
    ensures var (t, end) := Ran(s, o, Find(line), choices);
      && end == Returned(true) && t.sessions == s.sessions
      && if line.token in s.sessions then
           var sid := s.sessions[line.token];
           && t.pending == s.pending && t.stamp == s.stamp
           && t.conns == s.conns[sid := s.conns[sid].(got := s.conns[sid].got + [Direct(line)])]
         else
           && t.conns == s.conns && t.stamp == s.stamp + 1
           && t.pending == s.pending[line.token := Queue(s, line.token) + [Waiting(line, s.stamp)]]
  {
    var _, more := Forward(s, o, Find(line), choices);
    if line.token in s.sessions {
      HandAlone(s, o, s.sessions[line.token], line, more);
    } else {
      DeferAlone(s, o, line, more);
    }
  }

  lemma DeferAlone(s: State, o: OpId, line: Line, choices: seq<Choice>)
    requires RunsAlone(s, o, Defer(line), choices)
    ensures Ran(s, o, Defer(line), choices) == (Changed(s, o, Enqueue(line)), Returned(true))
  {
    var _, rest := Forward(s, o, Defer(line), choices);
    FinishedStays(Changed(s, o, Enqueue(line)), o, Returned(true), rest);
  }

  lemma HandAlone(s: State, o: OpId, sid: Sid, line: Line, choices: seq<Choice>)
    requires RunsAlone(s, o, Hand(sid, line), choices) && sid in s.conns
    ensures Ran(s, o, Hand(sid, line), choices)
         == (s.(conns := s.conns[sid := s.conns[sid].(got := s.conns[sid].got + [Direct(line)])]), Returned(true))
  {
    var _, rest := Forward(s, o, Hand(sid, line), choices);
    FinishedStays(Changed(s, o, Deliver(sid, Direct(line))), o, Returned(true), rest);
  }

  /** `logout` alone: compare `WebManager.WebSessionManager.Logout`. */
  lemma LogoutAlone(s: State, o: OpId, token: Token, choices: seq<Choice>)
    requires MapIsSound(s) && RunsAlone(s, o, DropPending(token), choices)
    ensures var (t, end) := Ran(s, o, DropPending(token), choices); var ok := token in s.sessions;
      && end == Returned(ok)
      && t.sessions == s.sessions - {token} && t.pending == s.pending - {token}
      && t.conns == ShutAll(s.conns, if ok then {s.sessions[token]} else {})
  {
    var _, more := Forward(s, o, DropPending(token), choices);
    RemoveSessionAlone(Changed(s, o, Discard(token)), o, token, more);
  }

  lemma RemoveSessionAlone(s: State, o: OpId, token: Token, choices: seq<Choice>)
    requires MapIsSound(s) && RunsAlone(s, o, RemoveSession(token), choices)
    ensures var (t, end) := Ran(s, o, RemoveSession(token), choices); var ok := token in s.sessions;
      && end == Returned(ok) && t.sessions == s.sessions - {token} && t.pending == s.pending
      && t.conns == ShutAll(s.conns, if ok then {s.sessions[token]} else {})
  {
    var _, more := Forward(s, o, RemoveSession(token), choices);
    if token in s.sessions {
      var sid := s.sessions[token];
      var t := Changed(s, o, Unmap(token));
      var _, rest := Forward(t, o, ShutLoggedOut(sid), more);
      FinishedStays(Changed(t, o, ShutDown(sid)), o, Returned(true), rest);
      assert Changed(t, o, ShutDown(sid)).conns == ShutAll(s.conns, {sid});
    } else {
      FinishedStays(s, o, Returned(false), more);
      assert s.conns == ShutAll(s.conns, {}) && s.sessions - {token} == s.sessions;
    }
  }

  /** The flush alone hands over the rest of its list, oldest first. */
  lemma {:induction false} FlushAlone(s: State, o: OpId, token: Token, sid: Sid, lines: seq<Waiting>, sent: nat,
                                      choices: seq<Choice>)
    requires sid in s.conns && sent <= |lines| && RunsAlone(s, o, Flush(token, sid, lines, sent), choices)
    ensures var got := s.conns[sid].got + AllFlushed(lines[sent..]);
      Ran(s, o, Flush(token, sid, lines, sent), choices)
      == (s.(conns := s.conns[sid := s.conns[sid].(got := got)]), Got(token, sid))
    decreases |lines| - sent
  {
    var _, rest := Forward(s, o, Flush(token, sid, lines, sent), choices);
    if sent == |lines| {
      FinishedStays(s, o, Got(token, sid), rest);
      assert s.conns[sid].got + AllFlushed(lines[sent..]) == s.conns[sid].got;
      assert s.conns[sid := s.conns[sid]] == s.conns;
    } else {
      var t := Changed(s, o, Deliver(sid, Flushed(lines[sent])));
      FlushAlone(t, o, token, sid, lines, sent + 1, rest);
      FlushedNext(s.conns[sid].got, lines, sent);
      var got := s.conns[sid].got + AllFlushed(lines[sent..]);
      assert t.conns[sid := t.conns[sid].(got := got)] == s.conns[sid := s.conns[sid].(got := got)];
    }
  }

  lemma FlushedNext(got: seq<Delivery>, lines: seq<Waiting>, sent: nat)
    requires sent < |lines|
    ensures got + AllFlushed(lines[sent..]) == (got + [Flushed(lines[sent])]) + AllFlushed(lines[sent + 1..])
  {
    assert AllFlushed(lines[sent..]) == [Flushed(lines[sent])] + AllFlushed(lines[sent + 1..]);
  }

  /** The new session is put in the map and given the queue. */
  lemma InsertAlone(s: State, o: OpId, token: Token, created: Sid, choices: seq<Choice>)
    requires token !in s.sessions && created in s.conns && s.conns[created] == Conn(token, o, true, false, [])
    requires RunsAlone(s, o, Insert(token, created), choices)
    ensures var (t, end) := Ran(s, o, Insert(token, created), choices);
      && end == Got(token, created)
      && t.sessions == s.sessions[token := created] && t.pending == s.pending - {token}
      && t.conns == s.conns[created := Conn(token, o, true, false, AllFlushed(Queue(s, token)))]
  {
    var _, more := Forward(s, o, Insert(token, created), choices);
    var s1 := Changed(s, o, Map(token, created));
    var _, rest := Forward(s1, o, TakePending(token, created), more);
    var q := Queue(s, token);
    assert q[0..] == q && [] + AllFlushed(q) == AllFlushed(q);
    FlushAlone(Changed(s1, o, Drain(token)), o, token, created, q, 0, rest);
  }

  /** What `get_or_create` leaves when it had to connect, with the sessions it shut down and the outcome. */
  ghost predicate Created(s: State, o: OpId, token: Token, dead: set<Sid>, connection: Option<Sid>, t: State, end: Op) {
    match connection
    case None =>
      && end == Returned(false) && t.sessions == s.sessions - {token} && t.pending == s.pending
      && t.conns == ShutAll(s.conns, dead)
    case Some(created) =>
      && end == Got(token, created) && t.sessions == s.sessions[token := created] && t.pending == s.pending - {token}
      && t.conns == ShutAll(s.conns, dead)[created := Conn(token, o, true, false, AllFlushed(Queue(s, token)))]
  }

  lemma ConnectAlone(s: State, o: OpId, token: Token, choices: seq<Choice>) returns (connection: Option<Sid>)
    requires token !in s.sessions && RunsAlone(s, o, WebSessions.Connect(token), choices)
    ensures connection.Some? ==> connection.value !in s.conns
    ensures var (t, end) := Ran(s, o, WebSessions.Connect(token), choices);
      Created(s, o, token, {}, connection, t, end)
  {
    var c, rest := Forward(s, o, WebSessions.Connect(token), choices);
    assert ShutAll(s.conns, {}) == s.conns;
    if c.Connected? {
      connection := Some(c.sid);
      InsertAlone(Changed(s, o, WebSessions.Open(token, c.sid)), o, token, c.sid, rest);
    } else {
      connection := None;
      FinishedStays(s, o, Returned(false), rest);
      assert s.sessions - {token} == s.sessions;
    }
  }

  /** `get_or_create` alone, on a live session. */
  lemma GetAlone(s: State, o: OpId, token: Token, choices: seq<Choice>)
    requires MapIsSound(s) && token in s.sessions && s.conns[s.sessions[token]].alive
    requires RunsAlone(s, o, Lookup(token), choices)
    ensures Ran(s, o, Lookup(token), choices) == (s, Got(token, s.sessions[token]))
  {
    var sid := s.sessions[token];
    var _, more := Forward(s, o, Lookup(token), choices);
    var _, rest := Forward(s, o, CheckAlive(token, sid), more);
    FinishedStays(s, o, Got(token, sid), rest);
  }

  /** `get_or_create` alone, without one: compare `WebManager.WebSessionManager.GetOrCreate`. */
  lemma CreateAlone(s: State, o: OpId, token: Token, choices: seq<Choice>) returns (connection: Option<Sid>)
    requires MapIsSound(s) && RunsAlone(s, o, Lookup(token), choices)
    requires token in s.sessions ==> !s.conns[s.sessions[token]].alive
    ensures connection.Some? ==> connection.value !in s.conns
    ensures var (t, end) := Ran(s, o, Lookup(token), choices);
      Created(s, o, token, if token in s.sessions then {s.sessions[token]} else {}, connection, t, end)
  {
    var _, more := Forward(s, o, Lookup(token), choices);
    if token in s.sessions {
      connection := ReplaceAlone(s, o, token, s.sessions[token], more);
    } else {
      connection := ConnectAlone(s, o, token, more);
    }
  }

  lemma ReplaceAlone(s: State, o: OpId, token: Token, sid: Sid, choices: seq<Choice>) returns (connection: Option<Sid>)
    requires Maps(s.sessions, token, sid) && sid in s.conns && !s.conns[sid].alive
    requires RunsAlone(s, o, CheckAlive(token, sid), choices)
    ensures connection.Some? ==> connection.value !in s.conns
    ensures var (t, end) := Ran(s, o, CheckAlive(token, sid), choices);
      Created(s, o, token, {sid}, connection, t, end)
  {
    var _, more := Forward(s, o, CheckAlive(token, sid), choices);
    var _, some := Forward(s, o, RemoveDead(token, sid), more);
    var s1 := Changed(s, o, Unmap(token));
    var _, rest := Forward(s1, o, ShutDead(token, sid, true), some);
    var s2 := Changed(s1, o, ShutDown(sid));
    connection := ConnectAlone(s2, o, token, rest);
    assert s2.conns == ShutAll(s.conns, {sid}) && ShutAll(s2.conns, {}) == s2.conns;
    SessionsAgain(s.sessions, token, connection);
  }

  lemma SessionsAgain(sessions: map<Token, Sid>, token: Token, connection: Option<Sid>)
    ensures (sessions - {token}) - {token} == sessions - {token}
    ensures connection.Some? ==> (sessions - {token})[token := connection.value] == sessions[token := connection.value]
  {
  }

  /** The listed sessions that a sweep finds stale. */
  function Picked(items: seq<(Token, Sid)>, stale: set<Sid>): seq<(Token, Sid)> {
    if items == [] then []
    else (if items[0].1 in stale then [items[0]] else []) + Picked(items[1..], stale)
  }

  lemma {:induction false} PickedSids(items: seq<(Token, Sid)>, stale: set<Sid>)
    ensures Sids(Picked(items, stale)) == Sids(items) * stale
    ensures forall x :: x in Picked(items, stale) ==> x in items
  {
    if items != [] {
      PickedSids(items[1..], stale);
      var first := if items[0].1 in stale then [items[0]] else [];
      assert Picked(items, stale) == first + Picked(items[1..], stale);
      assert items == [items[0]] + items[1..];
      SidsSplit(first, Picked(items[1..], stale));
      SidsSplit([items[0]], items[1..]);
    }
  }

  lemma SidsSplit(a: seq<(Token, Sid)>, b: seq<(Token, Sid)>)
    ensures Sids(a + b) == Sids(a) + Sids(b)
  {
    assert forall x :: x in a + b <==> x in a || x in b;
    assert forall sid :: sid in Sids(a) + Sids(b) ==> exists x :: x in a + b && x.1 == sid;
  }

  /** The choices made on examining the sessions listed are those of a sweep that finds these stale. */
  predicate Examined(items: seq<(Token, Sid)>, stale: set<Sid>, choices: seq<Choice>) {
    forall n :: 0 <= n < |items| && n < |choices| ==> choices[n] == Expired(items[n].1 in stale)
  }

  lemma {:induction false} ExamineAlone(s: State, o: OpId, items: seq<(Token, Sid)>, remove: seq<(Token, Sid)>,
                                        stale: set<Sid>, choices: seq<Choice>)
    returns (rest: seq<Choice>)
    requires RunsAlone(s, o, Examine(items, remove), choices) && Examined(items, stale, choices)
    ensures RunsAlone(s, o, Remove(remove + Picked(items, stale)), rest)
    ensures Ran(s, o, Examine(items, remove), choices) == Ran(s, o, Remove(remove + Picked(items, stale)), rest)
    decreases |items|
  {
    if items == [] {
      var _, more := Forward(s, o, Examine(items, remove), choices);
      assert remove + [] == remove;
      rest := more;
    } else {
      var first := if items[0].1 in stale then [items[0]] else [];
      var more := ExamineOne(s, o, items, remove, first, items[0].1 in stale, choices);
      rest := ExamineAlone(s, o, items[1..], remove + first, stale, more);
      assert (remove + first) + Picked(items[1..], stale) == remove + (first + Picked(items[1..], stale));
    }
  }

  lemma ExamineOne(s: State, o: OpId, items: seq<(Token, Sid)>, remove: seq<(Token, Sid)>, first: seq<(Token, Sid)>,
                   expired: bool, choices: seq<Choice>)
    returns (more: seq<Choice>)
    requires items != [] && first == if expired then [items[0]] else []
    requires RunsAlone(s, o, Examine(items, remove), choices) && (choices != [] ==> choices[0] == Expired(expired))
    ensures choices != [] && more == choices[1..] && RunsAlone(s, o, Examine(items[1..], remove + first), more)
    ensures Ran(s, o, Examine(items, remove), choices) == Ran(s, o, Examine(items[1..], remove + first), more)
  {
    var _, rest := Forward(s, o, Examine(items, remove), choices);
    assert remove + [] == remove;
    more := rest;
  }

  /** A session to remove is still its token's, or has been removed and shut down already. */
  predicate Removable(s: State, x: (Token, Sid)) {
    x.1 in s.conns && s.conns[x.1].token == x.0 && (Maps(s.sessions, x.0, x.1) || s.conns[x.1].shut)
  }

  lemma RemoveOne(s: State, o: OpId, x: (Token, Sid), rest: seq<(Token, Sid)>, choices: seq<Choice>)
    returns (more: seq<Choice>, t: State)
    requires MapIsSound(s) && Removable(s, x) && RunsAlone(s, o, Remove([x] + rest), choices)
    ensures t.sessions == Without(s.sessions, {x.1}) && t.conns == ShutAll(s.conns, {x.1}) && t.pending == s.pending
    ensures MapIsSound(t) && forall y :: Removable(s, y) ==> Removable(t, y)
    ensures RunsAlone(t, o, Remove(rest), more)
    ensures Ran(s, o, Remove([x] + rest), choices) == Ran(t, o, Remove(rest), more)
  {
    var _, some := Forward(s, o, Remove([x] + rest), choices);
    assert ([x] + rest)[1..] == rest;
    if Maps(s.sessions, x.0, x.1) {
      var s1 := Changed(s, o, Unmap(x.0));
      var _, last := Forward(s1, o, ShutSwept(x.1, rest), some);
      t, more := Changed(s1, o, ShutDown(x.1)), last;
    } else {
      t, more := s, some;
    }
  }

  lemma {:induction false} RemoveAlone(s: State, o: OpId, remove: seq<(Token, Sid)>, choices: seq<Choice>)
    requires MapIsSound(s) && (forall x :: x in remove ==> Removable(s, x)) && RunsAlone(s, o, Remove(remove), choices)
    ensures var (t, end) := Ran(s, o, Remove(remove), choices);
      && end == Returned(true) && t.pending == s.pending
      && t.sessions == Without(s.sessions, Sids(remove)) && t.conns == ShutAll(s.conns, Sids(remove))
    decreases |remove|
  {
    if remove == [] {
      var _, rest := Forward(s, o, Remove(remove), choices);
      FinishedStays(s, o, Returned(true), rest);
      assert Sids(remove) == {};
    } else {
      var x, rest := remove[0], remove[1..];
      assert remove == [x] + rest;
      var more, t := RemoveOne(s, o, x, rest, choices);
      RemoveAlone(t, o, rest, more);
      SidsSplit([x], rest);
      assert Sids([x]) == {x.1};
      BothGone(s.sessions, s.conns, {x.1}, Sids(rest));
    }
  }

  lemma BothGone(sessions: map<Token, Sid>, conns: map<Sid, Conn>, a: set<Sid>, b: set<Sid>)
    ensures Without(Without(sessions, a), b) == Without(sessions, a + b)
    ensures ShutAll(ShutAll(conns, a), b) == ShutAll(conns, a + b)
  {
  }

  /** `sweep_once` alone, on a listing of the map: compare `WebManager.WebSessionManager.SweepOnce`. */
  lemma SweepAlone(s: State, o: OpId, items: seq<(Token, Sid)>, idleness: Idleness, choices: seq<Choice>)
    requires MapIsSound(s) && forall t, sid: Sid :: (t, sid) in items <==> Maps(s.sessions, t, sid)
    requires RunsAlone(s, o, Snapshot, choices) && choices != []
    requires choices[0] == Listed(items) && Examined(items, StaleSids(s.sessions, idleness), choices[1..])
    ensures var (t, end) := Ran(s, o, Snapshot, choices); var gone := StaleSids(s.sessions, idleness);
      && end == Returned(true) && t.pending == s.pending
      && t.sessions == Without(s.sessions, gone) && t.conns == ShutAll(s.conns, gone)
  {
    var gone := StaleSids(s.sessions, idleness);
    var remove := Picked(items, gone);
    PickedSids(items, gone);
    ListedSids(s, items, idleness);
    forall x | x in remove
      ensures Removable(s, x)
    {
      assert Maps(s.sessions, x.0, x.1);
    }
    var _, more := Forward(s, o, Snapshot, choices);
    assert more == choices[1..] && [] + remove == remove;
    var rest := ExamineAlone(s, o, items, [], gone, more);
    RemoveAlone(s, o, remove, rest);
  }

  lemma ListedSids(s: State, items: seq<(Token, Sid)>, idleness: Idleness)
    requires forall t, sid: Sid :: (t, sid) in items <==> Maps(s.sessions, t, sid)
    ensures var gone := StaleSids(s.sessions, idleness); Sids(items) * gone == gone
  {
    forall sid | sid in StaleSids(s.sessions, idleness)
      ensures sid in Sids(items)
    {
      var t :| t in s.sessions && s.sessions[t] == sid;
      assert Maps(s.sessions, t, sid);
      assert (t, sid) in items;
    }
  }

  // Every call that runs alone ends.

  function Stage(op: Op): nat {
    match op
    case Lookup(_) => 9
    case CheckAlive(_, _) => 8
    case RemoveDead(_, _) => 7
    case ShutDead(_, _, _) => 6
    case Connect(_) => 5
    case Insert(_, _) => 4
    case TakePending(_, _) => 3
    case Flush(_, _, _, _) => 2
    case Snapshot => 5
    case Examine(_, _) => 4
    case Remove(_) => 3
    case ShutSwept(_, _) => 3
    case DropPending(_) => 3
    case RemoveSession(_) => 2
    case ShutLoggedOut(_) => 1
    case Find(_) => 2
    case Hand(_, _) => 1
    case Defer(_) => 1
    case Got(_, _) => 0
    case Returned(_) => 0
  }

  function Length(op: Op): nat {
    match op
    case Flush(_, _, lines, sent) => if sent <= |lines| then |lines| - sent else 0
    case Examine(items, _) => |items|
    case Remove(remove) => 2 * |remove|
    case ShutSwept(_, remove) => 2 * |remove| + 1
    case _ => 0
  }

  /** Each step brings a call nearer its end, whatever it finds. */
  lemma StepIsNearer(s: State, op: Op, c: Choice)
    requires !Finished(op)
    ensures var next := Move(s, op, c).op;
      Stage(next) < Stage(op) || (Stage(next) == Stage(op) && Length(next) < Length(op))
  {
  }

  /** So a call that is left alone ends, whatever it is told on the way. */
  lemma {:induction false} EndsAlone(s: State, o: OpId, op: Op, told: (State, Op) -> Choice)
    returns (choices: seq<Choice>)
    requires forall t, p :: Open(t, told(t, p))
    ensures RunsAlone(s, o, op, choices)
    ensures choices != [] ==> choices[0] == told(s, op)
    decreases Stage(op), Length(op)
  {
    choices := [];
    if !Finished(op) {
      var c := told(s, op);
      var e := Move(s, op, c);
      StepIsNearer(s, op, c);
      var rest := EndsAlone(Changed(s, o, e.change), o, e.op, told);
      choices := [c] + rest;
      assert choices[1..] == rest;
    }
  }
}
