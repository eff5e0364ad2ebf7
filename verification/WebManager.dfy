/**
 * The operations of `WebSessionManager` in `apps/slopmud_web/src/main.rs` as they are written, each
 * run with no other in between; module `WebSessions` has every interleaving of their steps.
 */
module WebManager {
  import opened Prelude
  import opened Names
  import opened WebSessions

  function AllFlushed(q: seq<Waiting>): seq<Delivery> {
    seq(|q|, n requires 0 <= n < |q| => Flushed(q[n]))
  }

  /** What is left of the map when these sessions go. */
  function Without(sessions: map<Token, Sid>, gone: set<Sid>): map<Token, Sid> {
    map t | t in sessions && sessions[t] !in gone :: sessions[t]
  }

  function ShutAll(conns: map<Sid, Conn>, gone: set<Sid>): map<Sid, Conn> {
    map sid | sid in conns :: if sid in gone then conns[sid].(shut := true) else conns[sid]
  }

  function Sids(items: seq<(Token, Sid)>): set<Sid> {
    set x | x in items :: x.1
  }

  lemma SidsNext(items: seq<(Token, Sid)>, x: (Token, Sid))
    ensures Sids(items + [x]) == Sids(items) + {x.1}
  {
    assert x in items + [x];
    assert forall y :: y in items ==> y in items + [x];
  }

  lemma TrimKeepsValid(resume: string)
    ensures ValidToken(Trim(resume)) <==> ValidToken(resume)
    ensures Trim(Trim(resume)) == Trim(resume)
  {
    NormalIsStable(resume);
  }

  /** A session as a sweep finds it when it holds the session's lock, and the time then. */
  datatype Reading = Reading(attached: bool, detachedAt: nat, alive: bool, now: nat)

  /** What a sweep reads, session by session. */
  datatype Idleness = Idleness(readings: map<Sid, Reading>, ttl: nat)

  /** `last_detached.elapsed()`. */
  function Elapsed(r: Reading): nat {
    if r.detachedAt <= r.now then r.now - r.detachedAt else 0
  }

  /** A sweep removes a session without a websocket that has been idle for long enough, or whose connection is dead. */
  predicate Stale(i: Idleness, sid: Sid) {
    sid in i.readings && var r := i.readings[sid]; !r.attached && (Elapsed(r) >= i.ttl || !r.alive)
  }

  /** In terms of what was read: with a websocket, never; without one, when dead or idle for the whole time to live. */
  lemma StaleMeans(i: Idleness, sid: Sid)
    requires sid in i.readings
    ensures i.readings[sid].attached ==> !Stale(i, sid)
    ensures !i.readings[sid].attached && !i.readings[sid].alive ==> Stale(i, sid)
    ensures var r := i.readings[sid];
      !r.attached && r.alive && r.detachedAt <= r.now ==> (Stale(i, sid) <==> r.detachedAt + i.ttl <= r.now)
    ensures var r := i.readings[sid];
      !r.attached && r.alive && r.detachedAt > r.now ==> (Stale(i, sid) <==> i.ttl == 0)
  {
  }

  function StaleSids(sessions: map<Token, Sid>, i: Idleness): set<Sid> {
    set t | t in sessions && Stale(i, sessions[t]) :: sessions[t]
  }

  /** Whether a session stays, in terms of what was read of it. */
  ghost predicate StaysMapped(r: Reading, ttl: nat) {
    r.attached || (r.alive && (if r.detachedAt <= r.now then r.now < r.detachedAt + ttl else ttl > 0))
  }

  /** The sessions that stay are as they were; the others are out of the map and shut down, and nothing else changes. */
  ghost predicate SweptRight(sessions: map<Token, Sid>, conns: map<Sid, Conn>, i: Idleness,
                             sessions': map<Token, Sid>, conns': map<Sid, Conn>) {
    && (forall t :: t in sessions && sessions[t] in i.readings ==>
          if StaysMapped(i.readings[sessions[t]], i.ttl)
          then t in sessions' && sessions'[t] == sessions[t]
          else t !in sessions' && (sessions[t] in conns ==>
                 sessions[t] in conns' && conns'[sessions[t]] == conns[sessions[t]].(shut := true)))
    && (forall t :: t in sessions' ==> t in sessions)
    && conns'.Keys == conns.Keys
    && (forall sid :: sid in conns && (forall t :: Maps(sessions, t, sid) ==> t in sessions') ==>
          conns'[sid] == conns[sid])
  }

  lemma SweepMeans(sessions: map<Token, Sid>, conns: map<Sid, Conn>, i: Idleness)
    requires forall t :: t in sessions ==> sessions[t] in i.readings
    ensures var gone := StaleSids(sessions, i);
      SweptRight(sessions, conns, i, Without(sessions, gone), ShutAll(conns, gone))
  {
    var gone := StaleSids(sessions, i);
    forall t | t in sessions
      ensures sessions[t] in gone <==> !StaysMapped(i.readings[sessions[t]], i.ttl)
    {
      StaleMeans(i, sessions[t]);
    }
    forall sid | sid in conns && (forall t :: Maps(sessions, t, sid) ==> t in Without(sessions, gone))
      ensures sid !in gone
    {
      if sid in gone {
        var t :| t in sessions && sessions[t] == sid;
        assert Maps(sessions, t, sid);
      }
    }
  }

  lemma SidsAreGone(sessions: map<Token, Sid>, i: Idleness, remove: seq<(Token, Sid)>)
    requires forall t, sid: Sid :: (t, sid) in remove <==> Maps(sessions, t, sid) && Stale(i, sid)
    ensures Sids(remove) == StaleSids(sessions, i)
  {
    var gone := StaleSids(sessions, i);
    forall sid | sid in gone
      ensures sid in Sids(remove)
    {
      var t :| t in sessions && sessions[t] == sid;
      assert Maps(sessions, t, sid);
      assert (t, sid) in remove;
    }
    forall sid | sid in Sids(remove)
      ensures sid in gone
    {
      var x :| x in remove && x.1 == sid;
      assert (x.0, sid) in remove;
    }
  }

  lemma NoneGone(sessions: map<Token, Sid>, conns: map<Sid, Conn>, i: Idleness)
    requires forall t, sid: Sid :: Maps(sessions, t, sid) ==> !Stale(i, sid)
    ensures StaleSids(sessions, i) == {}
    ensures Without(sessions, {}) == sessions && ShutAll(conns, {}) == conns
  {
    forall t | t in sessions
      ensures !Stale(i, sessions[t])
    {
      assert Maps(sessions, t, sessions[t]);
    }
  }

  lemma GoneInTwo(sessions: map<Token, Sid>, conns: map<Sid, Conn>, gone: set<Sid>, sid: Sid)
    ensures Without(Without(sessions, gone), {sid}) == Without(sessions, gone + {sid})
    ensures ShutAll(ShutAll(conns, gone), {sid}) == ShutAll(conns, gone + {sid})
  {
  }

  class WebSessionManager {
    var sessions: map<Token, Sid>
    var pending: map<Token, seq<Waiting>>
    var conns: map<Sid, Conn>
    var stamp: nat

    ghost predicate Valid()
      reads this
    {
      forall t :: t in sessions ==> sessions[t] in conns && conns[sessions[t]].token == t
    }

    constructor ()
      ensures Valid() && sessions == map[] && pending == map[] && conns == map[]
    {
      sessions, pending, conns, stamp := map[], map[], map[], 0;
    }

    method Shutdown(sid: Sid)
      requires sid in conns
      modifies this`conns
      ensures conns == ShutAll(old(conns), {sid})
    {
      conns := conns[sid := conns[sid].(shut := true)];
    }

    /**
     * A live session is returned as it is. A dead one is taken out and shut down, and the new one
     * put in its place is first given all the lines that waited for the token, oldest first.
     */
    method GetOrCreate(call: OpId, token: Token, connection: Option<Sid>) returns (r: Option<Sid>)
      requires Valid() && (connection.Some? ==> connection.value !in conns)
      modifies this
      ensures Valid() && stamp == old(stamp)
      ensures old(token in sessions && conns[sessions[token]].alive) ==>
        r == Some(old(sessions[token])) && sessions == old(sessions) && pending == old(pending) && conns == old(conns)
      ensures !old(token in sessions && conns[sessions[token]].alive) ==>
        && r == connection
        && var dead := if token in old(sessions) then {old(sessions)[token]} else {};
        if connection.None? then
          sessions == old(sessions) - {token} && pending == old(pending) && conns == ShutAll(old(conns), dead)
        else
          && sessions == old(sessions)[token := connection.value]
          && pending == old(pending) - {token}
          && var q := if token in old(pending) then old(pending)[token] else [];
             conns == ShutAll(old(conns), dead)[connection.value := Conn(token, call, true, false, AllFlushed(q))]
    {
      if token in sessions {
        var existing := sessions[token];
        if conns[existing].alive {
          return Some(existing);
        }
        sessions := sessions - {token};
        Shutdown(existing);
      }
      if connection.Some? {
        Register(call, token, connection.value);
      }
      return connection;
    }

    /** Puts a new session in the map and flushes the token's queue to it. */
    method Register(call: OpId, token: Token, created: Sid)
      requires Valid() && token !in sessions && created !in conns
      modifies this
      ensures Valid() && stamp == old(stamp)
      ensures sessions == old(sessions)[token := created] && pending == old(pending) - {token}
      ensures var q := if token in old(pending) then old(pending)[token] else [];
        conns == old(conns)[created := Conn(token, call, true, false, AllFlushed(q))]
    {
      conns := conns[created := Conn(token, call, true, false, [])];
      sessions := sessions[token := created];
      var q := if token in pending then pending[token] else [];
      pending := pending - {token};
      FlushInto(created, q);
      assert [] + AllFlushed(q) == AllFlushed(q);
    }

    method FlushInto(created: Sid, q: seq<Waiting>)
      requires created in conns
      modifies this`conns
      ensures conns == old(conns)[created := old(conns)[created].(got := old(conns)[created].got + AllFlushed(q))]
    {
      ghost var conn := conns[created];
      assert conn.got + AllFlushed(q[..0]) == conn.got;
      for n := 0 to |q|
        invariant conns == old(conns)[created := conn.(got := conn.got + AllFlushed(q[..n]))]
      {
        assert AllFlushed(q[..n + 1]) == AllFlushed(q[..n]) + [Flushed(q[n])];
        assert conn.got + (AllFlushed(q[..n]) + [Flushed(q[n])]) == (conn.got + AllFlushed(q[..n])) + [Flushed(q[n])];
        conns := conns[created := conns[created].(got := conns[created].got + [Flushed(q[n])])];
      }
      assert q[..|q|] == q;
    }

    /** A sweep takes out and shuts down exactly the sessions that were idle or dead. */
    method SweepOnce(order: seq<Token>, idleness: Idleness)
      requires Valid() && (forall t :: t in sessions <==> t in order)
      requires forall t :: t in sessions ==> sessions[t] in idleness.readings
      modifies this`sessions, this`conns
      ensures Valid()
      ensures var gone := StaleSids(old(sessions), idleness);
        sessions == Without(old(sessions), gone) && conns == ShutAll(old(conns), gone)
      ensures SweptRight(old(sessions), old(conns), idleness, sessions, conns)
    {
      SweepMeans(sessions, conns, idleness);
      var remove := Listed(order, idleness);
      if remove == [] {
        NoneGone(sessions, conns, idleness);
        return;
      }
      SidsAreGone(sessions, idleness, remove);
      for n := 0 to |remove|
        modifies this`sessions, this`conns
        invariant Valid()
        invariant sessions == Without(old(sessions), Sids(remove[..n]))
          && conns == ShutAll(old(conns), Sids(remove[..n]))
      {
        assert remove[..n + 1] == remove[..n] + [remove[n]];
        assert remove[n] in remove;
        SidsNext(remove[..n], remove[n]);
        GoneInTwo(old(sessions), old(conns), Sids(remove[..n]), remove[n].1);
        assert Maps(old(sessions), remove[n].0, remove[n].1);
        RemoveIfSame(remove[n].0, remove[n].1);
      }
      assert remove[..|remove|] == remove;
    }

    method Listed(order: seq<Token>, idleness: Idleness) returns (remove: seq<(Token, Sid)>)
      requires Valid() && (forall t :: t in sessions <==> t in order)
      requires forall t :: t in sessions ==> sessions[t] in idleness.readings
      ensures forall t, sid: Sid :: (t, sid) in remove <==> Maps(sessions, t, sid) && Stale(idleness, sid)
    {
      remove := [];
      for n := 0 to |order|
        invariant forall t, sid: Sid :: (t, sid) in remove <==>
                    t in order[..n] && Maps(sessions, t, sid) && Stale(idleness, sid)
      {
        var r := idleness.readings[sessions[order[n]]];
        var idle := !r.attached && Elapsed(r) >= idleness.ttl;
        var dead := !r.alive && !r.attached;
        if idle || dead {
          remove := remove + [(order[n], sessions[order[n]])];
        }
      }
      assert order[..|order|] == order;
    }

    /** Takes a session out of the map, and shuts it down, if the token is still its own. */
    method RemoveIfSame(token: Token, sid: Sid)
      requires Valid() && sid in conns && conns[sid].token == token && (conns[sid].shut || Maps(sessions, token, sid))
      modifies this`sessions, this`conns
      ensures Valid()
      ensures sessions == Without(old(sessions), {sid}) && conns == ShutAll(old(conns), {sid})
    {
      if token in sessions && sessions[token] == sid {
        sessions := sessions - {token};
        Shutdown(sid);
      }
    }

    /** Logging out discards what waits for the token and shuts its session down, if it has one. */
    method Logout(resume: string) returns (ok: bool)
      requires Valid()
      modifies this`sessions, this`pending, this`conns
      ensures Valid()
      ensures !ValidToken(resume) ==> !ok && sessions == old(sessions) && pending == old(pending) && conns == old(conns)
      ensures ValidToken(resume) ==> var token := Trim(resume);
        && (ok <==> token in old(sessions))
        && sessions == old(sessions) - {token} && pending == old(pending) - {token}
        && conns == ShutAll(old(conns), if ok then {old(sessions)[token]} else {})
    {
      var token := Trim(resume);
      TrimKeepsValid(resume);
      if !ValidToken(token) {
        return false;
      }
      pending := pending - {token};
      if token in sessions {
        var removed := sessions[token];
        sessions := sessions - {token};
        Shutdown(removed);
        return true;
      }
      return false;
    }

    /** A line goes to the session of its token, or to the end of the token's queue. */
    method SendOrDefer(call: OpId, resume: string, bytes: seq<byte>) returns (ok: bool)
      requires Valid()
      modifies this`pending, this`conns, this`stamp
      ensures Valid()
      ensures ok == ValidToken(resume)
      ensures !ok || bytes == [] ==> pending == old(pending) && conns == old(conns) && stamp == old(stamp)
      ensures ok && bytes != [] ==> var token := Trim(resume); var line := Line(call, token, bytes);
        if token in sessions then
          var sid := sessions[token];
          && pending == old(pending) && stamp == old(stamp)
          && conns == old(conns)[sid := old(conns)[sid].(got := old(conns)[sid].got + [Direct(line)])]
        else
          && conns == old(conns) && stamp == old(stamp) + 1
          && pending == old(pending)[token := (if token in old(pending) then old(pending)[token] else [])
                                              + [Waiting(line, old(stamp))]]
    {
      var token := Trim(resume);
      TrimKeepsValid(resume);
      if !ValidToken(token) {
        return false;
      }
      if bytes == [] {
        return true;
      }
      var line := Line(call, token, bytes);
      if token in sessions {
        var sid := sessions[token];
        conns := conns[sid := conns[sid].(got := conns[sid].got + [Direct(line)])];
        return true;
      }
      var q := if token in pending then pending[token] else [];
      pending := pending[token := q + [Waiting(line, stamp)]];
      stamp := stamp + 1;
      return true;
    }
  }
}
