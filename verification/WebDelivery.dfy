/**
 * What each websocket of a resumable session is sent: `deliver_output` and the flush in `attach`, in
 * `apps/slopmud_web/src/main.rs`, beside the steps of `WebAttach`. Output is buffered, and whoever is
 * attached noted, under the session's lock; the output is sent after the lock is released. A
 * websocket takes its snapshot of the buffer under the same lock and flushes it after.
 */
module WebDelivery {
  import opened Prelude
  import opened Streams
  import opened ReplayBuffers
  import A = WebAttach

  /** What is put on a websocket's channel: a buffered chunk, or output as it comes. */
  datatype Message = Replayed(chunk: seq<byte>) | Live(output: seq<byte>)

  /**
   * A websocket that attached: its snapshot, how many outputs there were when it attached and when it
   * ceased to be attached, how far the flush is, and all that it has been sent.
   */
  datatype Feed = Feed(snapshot: seq<seq<byte>>, from: nat, until: Option<nat>, flushed: nat, sent: seq<Message>)

  /** The one reader of the session delivers one output at a time: `pending` is what it has still to send. */
  datatype Session = Session(
    calls: A.State, outputs: seq<seq<byte>>, kept: seq<seq<byte>>,
    pending: Option<(A.Caller, seq<byte>)>, feeds: map<A.Caller, Feed>)

  const START := Session(A.START, [], [], None, map[])

  datatype Action = Call(action: A.Action) | Output(data: seq<byte>) | Send | Flush(who: A.Caller)

  predicate Allowed(s: Session, a: Action) {
    match a
    case Call(action) => A.Allowed(s.calls, action)
    case Output(data) => data != [] && s.pending.None?
    case Send => s.pending.Some? && s.pending.value.0 in s.feeds
    case Flush(who) =>
      && who in s.calls.calls && s.calls.calls[who].Serving?
      && who in s.feeds && s.feeds[who].flushed < |s.feeds[who].snapshot|
  }

  /** The feeds when the attached websocket changes: the old one's ends, and a new one starts with a snapshot. */
  function Handed(s: Session, was: Option<A.Caller>, now: Option<A.Caller>): map<A.Caller, Feed> {
    var ended := if was.Some? && was.value in s.feeds
                 then s.feeds[was.value := s.feeds[was.value].(until := Some(|s.outputs|))] else s.feeds;
    if was == now then s.feeds
    else if now.Some? then ended[now.value := Feed(s.kept, |s.outputs|, None, 0, [])]
    else ended
  }

  function Put(s: Session, who: A.Caller, m: Message): map<A.Caller, Feed>
    requires who in s.feeds
  {
    s.feeds[who := s.feeds[who].(sent := s.feeds[who].sent + [m])]
  }

  function Acted(s: Session, a: Action): Session
    requires Allowed(s, a)
  {
    match a
    case Call(action) =>
      var next := A.Acted(s.calls, action);
      s.(calls := next, feeds := Handed(s, A.Holder(s.calls.core), A.Holder(next.core)))
    case Output(data) =>
      var holder := A.Holder(s.calls.core);
      s.(outputs := s.outputs + [data], kept := Pushed(s.kept, data),
         pending := if holder.Some? then Some((holder.value, data)) else None)
    case Send => s.(pending := None, feeds := Put(s, s.pending.value.0, Live(s.pending.value.1)))
    case Flush(who) =>
      var f := s.feeds[who];
      s.(feeds := s.feeds[who := f.(flushed := f.flushed + 1, sent := f.sent + [Replayed(f.snapshot[f.flushed])])])
  }

  function ReplayedIn(sent: seq<Message>): seq<seq<byte>> {
    if sent == [] then []
    else
      var m := sent[|sent| - 1];
      ReplayedIn(sent[..|sent| - 1]) + if m.Replayed? then [m.chunk] else []
  }

  function LiveIn(sent: seq<Message>): seq<seq<byte>> {
    if sent == [] then []
    else
      var m := sent[|sent| - 1];
      LiveIn(sent[..|sent| - 1]) + if m.Live? then [m.output] else []
  }

  /** The output noted for a websocket and not yet sent to it. */
  function PendingFor(s: Session, who: A.Caller): seq<seq<byte>> {
    if s.pending.Some? && s.pending.value.0 == who then [s.pending.value.1] else []
  }

  function EndOf(s: Session, f: Feed): nat {
    if f.until.Some? then f.until.value else |s.outputs|
  }

  /** What a websocket is sent live, with what is still to be sent, is the outputs while it is attached. */
  ghost predicate FeedOk(s: Session, who: A.Caller, f: Feed) {
    && f.from <= EndOf(s, f) <= |s.outputs|
    && f.flushed <= |f.snapshot| && ReplayedIn(f.sent) == f.snapshot[..f.flushed]
    && LiveIn(f.sent) + PendingFor(s, who) == s.outputs[f.from..EndOf(s, f)]
  }

  /** A websocket's snapshot is the retained end of the outputs before it attached. */
  ghost predicate SnapshotOk(s: Session, f: Feed) {
    f.from <= |s.outputs| && Replays(f.snapshot, s.outputs[..f.from])
  }

  predicate Attached(calls: A.State, who: A.Caller) {
    who in calls.calls && A.Has(calls.calls[who])
  }

  /** The websockets with a feed are those that attached, and the one whose feed is open is the one attached. */
  ghost predicate Matches(s: Session) {
    && (forall who :: who in s.feeds <==> Attached(s.calls, who))
    && (forall who :: who in s.feeds ==> (s.feeds[who].until.None? <==> A.Holder(s.calls.core) == Some(who)))
    && (A.Holder(s.calls.core).Some? ==> A.Holder(s.calls.core).value in s.feeds)
    && (s.pending.Some? ==> s.pending.value.0 in s.feeds)
  }

  ghost predicate FeedsOk(s: Session) {
    forall who :: who in s.feeds ==> FeedOk(s, who, s.feeds[who])
  }

  ghost predicate SnapshotsOk(s: Session) {
    forall who :: who in s.feeds ==> SnapshotOk(s, s.feeds[who])
  }

  ghost predicate Inv(s: Session) {
    Matches(s) && FeedsOk(s) && SnapshotsOk(s) && Replays(s.kept, s.outputs) && NonEmpty(s.outputs)
  }

  lemma SentNext(sent: seq<Message>, m: Message)
    ensures ReplayedIn(sent + [m]) == ReplayedIn(sent) + if m.Replayed? then [m.chunk] else []
    ensures LiveIn(sent + [m]) == LiveIn(sent) + if m.Live? then [m.output] else []
  {
    assert (sent + [m])[..|sent|] == sent;
  }

  /** A step of the calls gives the session to another websocket only when that one joins. */
  lemma WhoHolds(calls: A.State, a: A.Action)
    requires A.Allowed(calls, a)
    requires A.Holder(calls.core).Some? ==> Attached(calls, A.Holder(calls.core).value)
    ensures var was, now := A.Holder(calls.core), A.Holder(A.Acted(calls, a).core);
      && (now == was || now == None || !Attached(calls, now.value))
      && (forall who: A.Caller :: Attached(A.Acted(calls, a), who) <==>
            Attached(calls, who) || (was != now && now == Some(who)))
  {
    var next := A.Acted(calls, a);
    forall who: A.Caller
      ensures Attached(next, who) <==>
        Attached(calls, who) || (A.Holder(calls.core) != A.Holder(next.core) && A.Holder(next.core) == Some(who))
    {
      assert who in calls.calls && who != a.who ==> next.calls[who] == calls.calls[who];
    }
  }

  lemma CallKeepsMatches(s: Session, a: A.Action)
    requires Matches(s) && A.Allowed(s.calls, a)
    ensures Matches(Acted(s, Call(a)))
  {
    WhoHolds(s.calls, a);
  }

  lemma FeedStays(s: Session, next: Session, who: A.Caller, f: Feed)
    requires FeedOk(s, who, f) && next.outputs == s.outputs && PendingFor(next, who) == PendingFor(s, who)
    ensures FeedOk(next, who, f)
    ensures f.until.None? ==> FeedOk(next, who, f.(until := Some(|s.outputs|)))
  {
  }

  lemma FeedStarts(s: Session, who: A.Caller, snapshot: seq<seq<byte>>)
    requires PendingFor(s, who) == []
    ensures FeedOk(s, who, Feed(snapshot, |s.outputs|, None, 0, []))
  {
  }

  lemma CallKeepsFeeds(s: Session, a: A.Action)
    requires Matches(s) && FeedsOk(s) && A.Allowed(s.calls, a)
    ensures FeedsOk(Acted(s, Call(a)))
  {
    var next := Acted(s, Call(a));
    WhoHolds(s.calls, a);
    forall who: A.Caller | who in next.feeds
      ensures FeedOk(next, who, next.feeds[who])
    {
      if who in s.feeds {
        FeedStays(s, next, who, s.feeds[who]);
      } else {
        FeedStarts(s, who, s.kept);
        FeedStays(s, next, who, next.feeds[who]);
      }
    }
  }

  /** One more output belongs to the feed that is open, if it is noted for it, and to no other. */
  lemma FeedGrows(s: Session, data: seq<byte>, who: A.Caller, f: Feed)
    requires FeedOk(s, who, f) && Allowed(s, Output(data))
    requires f.until.None? <==> A.Holder(s.calls.core) == Some(who)
    ensures FeedOk(Acted(s, Output(data)), who, f)
  {
    var next := Acted(s, Output(data));
    if f.until.Some? {
      assert next.outputs[f.from..f.until.value] == s.outputs[f.from..f.until.value];
    } else {
      assert next.outputs[f.from..|next.outputs|] == s.outputs[f.from..|s.outputs|] + [data];
      assert LiveIn(f.sent) + [] == LiveIn(f.sent);
    }
  }

  lemma OutputKeepsFeeds(s: Session, data: seq<byte>)
    requires Matches(s) && FeedsOk(s) && Allowed(s, Output(data))
    ensures FeedsOk(Acted(s, Output(data)))
  {
    forall who: A.Caller | who in s.feeds
      ensures FeedOk(Acted(s, Output(data)), who, s.feeds[who])
    {
      FeedGrows(s, data, who, s.feeds[who]);
    }
  }

  lemma FeedIsSent(s: Session)
    requires Allowed(s, Send) && FeedOk(s, s.pending.value.0, s.feeds[s.pending.value.0])
    ensures var to, next := s.pending.value.0, Acted(s, Send); FeedOk(next, to, next.feeds[to])
  {
    var (to, data) := s.pending.value;
    var sent := s.feeds[to].sent;
    SentNext(sent, Live(data));
    assert LiveIn(sent + [Live(data)]) + [] == LiveIn(sent) + [data];
    assert ReplayedIn(sent) + [] == ReplayedIn(sent);
  }

  lemma SendKeepsFeeds(s: Session)
    requires FeedsOk(s) && Allowed(s, Send)
    ensures FeedsOk(Acted(s, Send))
  {
    var next := Acted(s, Send);
    FeedIsSent(s);
    forall who: A.Caller | who in s.feeds && who != s.pending.value.0
      ensures FeedOk(next, who, next.feeds[who])
    {
      FeedStays(s, next, who, s.feeds[who]);
    }
  }

  lemma FeedIsFlushed(s: Session, who: A.Caller)
    requires Allowed(s, Flush(who)) && FeedOk(s, who, s.feeds[who])
    ensures FeedOk(Acted(s, Flush(who)), who, Acted(s, Flush(who)).feeds[who])
  {
    var f := s.feeds[who];
    var m := Replayed(f.snapshot[f.flushed]);
    SentNext(f.sent, m);
    assert LiveIn(f.sent) + [] == LiveIn(f.sent);
    assert f.snapshot[..f.flushed + 1] == f.snapshot[..f.flushed] + [f.snapshot[f.flushed]];
  }

  lemma FlushKeepsFeeds(s: Session, who: A.Caller)
    requires FeedsOk(s) && Allowed(s, Flush(who))
    ensures FeedsOk(Acted(s, Flush(who)))
  {
    var next := Acted(s, Flush(who));
    FeedIsFlushed(s, who);
    forall other: A.Caller | other in s.feeds && other != who
      ensures FeedOk(next, other, next.feeds[other])
    {
      FeedStays(s, next, other, s.feeds[other]);
    }
  }

  lemma SnapshotStays(s: Session, next: Session, f: Feed)
    requires SnapshotOk(s, f) && s.outputs <= next.outputs
    ensures SnapshotOk(next, f)
  {
    assert next.outputs[..f.from] == s.outputs[..f.from];
  }

  /** A feed keeps its snapshot and its start for good. */
  lemma FeedsKeepStart(s: Session, a: Action, who: A.Caller)
    requires Matches(s) && Allowed(s, a) && who in s.feeds
    ensures var next := Acted(s, a);
      && who in next.feeds && s.outputs <= next.outputs
      && next.feeds[who].snapshot == s.feeds[who].snapshot && next.feeds[who].from == s.feeds[who].from
  {
    if a.Call? {
      WhoHolds(s.calls, a.action);
    }
  }

  lemma NewFeeds(s: Session, a: Action, who: A.Caller)
    requires Allowed(s, a) && who in Acted(s, a).feeds && who !in s.feeds
    ensures Acted(s, a).outputs == s.outputs && Acted(s, a).feeds[who] == Feed(s.kept, |s.outputs|, None, 0, [])
  {
  }

  lemma ActedKeepsSnapshots(s: Session, a: Action)
    requires Matches(s) && SnapshotsOk(s) && Replays(s.kept, s.outputs) && Allowed(s, a)
    ensures SnapshotsOk(Acted(s, a))
  {
    var next := Acted(s, a);
    forall who: A.Caller | who in next.feeds
      ensures SnapshotOk(next, next.feeds[who])
    {
      if who in s.feeds {
        FeedsKeepStart(s, a, who);
        SnapshotStays(s, next, s.feeds[who]);
      } else {
        NewFeeds(s, a, who);
        assert s.outputs[..|s.outputs|] == s.outputs;
      }
    }
  }

  lemma OthersKeepMatches(s: Session, a: Action)
    requires Matches(s) && Allowed(s, a) && !a.Call?
    ensures Matches(Acted(s, a))
  {
  }

  lemma ActedKeepsInv(s: Session, a: Action)
    requires Inv(s) && Allowed(s, a)
    ensures Inv(Acted(s, a))
  {
    ActedKeepsSnapshots(s, a);
    match a {
      case Call(action) =>
        CallKeepsMatches(s, action);
        CallKeepsFeeds(s, action);
      case Output(data) =>
        OthersKeepMatches(s, a);
        OutputKeepsFeeds(s, data);
        PushedReplays(s.kept, s.outputs, data);
      case Send =>
        OthersKeepMatches(s, a);
        SendKeepsFeeds(s);
      case Flush(who) =>
        OthersKeepMatches(s, a);
        FlushKeepsFeeds(s, who);
    }
  }

  ghost predicate AllAllowed(s: Session, run: seq<Action>)
    decreases |run|
  {
    run == [] || (Allowed(s, run[0]) && AllAllowed(Acted(s, run[0]), run[1..]))
  }

  ghost function After(s: Session, run: seq<Action>): Session
    requires AllAllowed(s, run)
    decreases |run|
  {
    if run == [] then s else After(Acted(s, run[0]), run[1..])
  }

  lemma {:induction false} RunKeepsInv(s: Session, run: seq<Action>)
    requires Inv(s) && AllAllowed(s, run)
    ensures Inv(After(s, run))
    decreases |run|
  {
    if run != [] {
      ActedKeepsInv(s, run[0]);
      RunKeepsInv(Acted(s, run[0]), run[1..]);
    }
  }

  /**
   * However calls, outputs, sends and flushes interleave: a websocket's snapshot is the retained end of
   * the outputs before it attached; what it has been sent live, and the one still to be sent, are the
   * outputs while it was attached, each once and in order; and it has been sent a start of the snapshot.
   */
  lemma EachOutputOnce(run: seq<Action>, who: A.Caller)
    requires AllAllowed(START, run) && who in After(START, run).feeds
    ensures var s := After(START, run); var f := s.feeds[who];
      && f.from <= EndOf(s, f) <= |s.outputs| && (f.until.None? <==> A.Holder(s.calls.core) == Some(who))
      && Replays(f.snapshot, s.outputs[..f.from])
      && ReplayedIn(f.sent) <= f.snapshot
      && LiveIn(f.sent) + PendingFor(s, who) == s.outputs[f.from..EndOf(s, f)]
  {
    RunKeepsInv(START, run);
    var s := After(START, run);
    assert FeedOk(s, who, s.feeds[who]) && SnapshotOk(s, s.feeds[who]);
  }

  /** All that a websocket has been sent: what was replayed, and then what came live. */
  ghost function TextOf(f: Feed): seq<byte> {
    Concat(ReplayedIn(f.sent)) + Concat(LiveIn(f.sent))
  }

  /** The websocket attached, with its flush done and nothing pending for it. */
  ghost predicate UpToDate(s: Session, who: A.Caller) {
    && who in s.feeds && A.Holder(s.calls.core) == Some(who) && s.pending.None?
    && s.feeds[who].flushed == |s.feeds[who].snapshot|
  }

  lemma UpToDateFeed(s: Session, who: A.Caller)
    requires Matches(s) && UpToDate(s, who) && FeedOk(s, who, s.feeds[who])
    ensures var f := s.feeds[who];
      f.from <= |s.outputs| && ReplayedIn(f.sent) == f.snapshot && LiveIn(f.sent) == s.outputs[f.from..]
  {
    var f := s.feeds[who];
    assert f.until.None? && EndOf(s, f) == |s.outputs|;
    assert LiveIn(f.sent) + [] == LiveIn(f.sent);
    assert f.snapshot[..f.flushed] == f.snapshot;
  }

  /**
   * So a websocket that is up to date has been sent the end of all the output, and all of it exactly
   * when what came before it attached fits in the buffer.
   */
  lemma AttachedSeesTheEnd(run: seq<Action>, who: A.Caller)
    requires AllAllowed(START, run) && UpToDate(After(START, run), who)
    ensures var s := After(START, run); var f := s.feeds[who];
      && f.from <= |s.outputs| && IsSuffix(TextOf(f), Concat(s.outputs))
      && (TextOf(f) == Concat(s.outputs) <==> |Concat(s.outputs[..f.from])| <= MAX_BYTES)
  {
    RunKeepsInv(START, run);
    var s := After(START, run);
    assert FeedOk(s, who, s.feeds[who]) && SnapshotOk(s, s.feeds[who]);
    UpToDateFeed(s, who);
    SeesTheEnd(s.outputs, s.feeds[who].snapshot, s.feeds[who].from);
  }

  lemma SeesTheEnd(outputs: seq<seq<byte>>, snapshot: seq<seq<byte>>, from: nat)
    requires from <= |outputs| && Replays(snapshot, outputs[..from])
    ensures var text := Concat(snapshot) + Concat(outputs[from..]);
      && IsSuffix(text, Concat(outputs)) && (text == Concat(outputs) <==> |Concat(outputs[..from])| <= MAX_BYTES)
  {
    var before, since := Concat(outputs[..from]), Concat(outputs[from..]);
    assert outputs == outputs[..from] + outputs[from..];
    ConcatSplits(outputs[..from], outputs[from..]);
    SuffixGrows(Concat(snapshot), before, since);
    WholeIff(snapshot, outputs[..from]);
    AppendSame(Concat(snapshot), before, since);
  }

  lemma AppendSame<T>(a: seq<T>, b: seq<T>, c: seq<T>)
    ensures a + c == b + c <==> a == b
  {
    if a + c == b + c {
      assert a == (a + c)[..|a|] && b == (b + c)[..|b|];
    }
  }

  // Replay before new output.

  /** No new output is sent before the last buffered chunk. */
  ghost predicate ReplayFirst(sent: seq<Message>) {
    forall m, n :: 0 <= m < n < |sent| && sent[n].Replayed? ==> sent[m].Replayed?
  }

  lemma {:induction false} NoneReplayed(sent: seq<Message>)
    requires ReplayedIn(sent) == []
    ensures ReplayFirst(sent) && forall n :: 0 <= n < |sent| ==> sent[n].Live?
  {
    if sent != [] {
      NoneReplayed(sent[..|sent| - 1]);
    }
  }

  /** The buffer is empty exactly when there was no output. */
  lemma KeptIsEmptyIff(s: Session)
    requires Inv(s)
    ensures s.kept == [] <==> s.outputs == []
  {
    if s.outputs != [] {
      var n := |s.outputs| - 1;
      assert s.outputs == s.outputs[..n] + [s.outputs[n]];
      LastIsKept(s.kept, s.outputs[..n], s.outputs[n]);
    } else {
      assert AllTaken(s.outputs) == [];
    }
  }

  lemma {:induction false} RunKeepsStart(s: Session, run: seq<Action>, who: A.Caller)
    requires Inv(s) && AllAllowed(s, run) && who in s.feeds
    ensures who in After(s, run).feeds && After(s, run).feeds[who].snapshot == s.feeds[who].snapshot
    decreases |run|
  {
    if run != [] {
      FeedsKeepStart(s, run[0], who);
      ActedKeepsInv(s, run[0]);
      RunKeepsStart(Acted(s, run[0]), run[1..], who);
    }
  }

  lemma OneStep(s: Session, a: Action, rest: seq<Action>)
    requires Allowed(s, a) && AllAllowed(Acted(s, a), rest)
    ensures AllAllowed(s, [a] + rest) && After(s, [a] + rest) == After(Acted(s, a), rest)
  {
    assert ([a] + rest)[1..] == rest;
  }

  /** A run that lets one output overtake the whole replay. */
  ghost predicate Overtakes(s: Session, run: seq<Action>, who: A.Caller) {
    AllAllowed(s, run) && who in After(s, run).feeds && !ReplayFirst(After(s, run).feeds[who].sent)
  }

  /** A websocket that has just joined, with something to replay and nothing pending. */
  lemma CanOvertake(s: Session, who: A.Caller) returns (run: seq<Action>)
    requires who in s.feeds && who in s.calls.calls && s.calls.calls[who].Replacing?
    requires A.Holder(s.calls.core) == Some(who) && s.pending.None?
    requires s.feeds[who].snapshot != [] && s.feeds[who].flushed == 0 && s.feeds[who].sent == []
    ensures Overtakes(s, run, who)
  {
    var s1 := Acted(s, Output([0]));
    var s2 := Acted(s1, Send);
    var s3 := Acted(s2, Call(A.Step(who, true)));
    assert s3.feeds == s2.feeds && s3.calls.calls[who].Serving?;
    var s4 := Acted(s3, Flush(who));
    var chunk := s.feeds[who].snapshot[0];
    assert s4.feeds[who].sent == [Live([0]), Replayed(chunk)];
    assert s4.feeds[who].sent[1].Replayed? && !s4.feeds[who].sent[0].Replayed?;
    OneStep(s3, Flush(who), []);
    var r3 := [Flush(who)] + [];
    OneStep(s2, Call(A.Step(who, true)), r3);
    var r2 := [Call(A.Step(who, true))] + r3;
    OneStep(s1, Send, r2);
    OneStep(s, Output([0]), [Send] + r2);
    run := [Output([0])] + ([Send] + r2);
  }

  lemma OvertakesLater(s: Session, a: Action, run: seq<Action>, who: A.Caller)
    requires Allowed(s, a) && Overtakes(Acted(s, a), run, who)
    ensures Overtakes(s, [a] + run, who)
  {
    OneStep(s, a, run);
  }

  /** The session just after a call has joined it. */
  function JoinedBy(s: Session, who: A.Caller): Session
    requires who in s.calls.calls && s.calls.calls[who].Joining?
  {
    Acted(s, Call(A.Step(who, true)))
  }

  lemma JoinStartsFeed(s: Session, who: A.Caller)
    requires Matches(s) && who in s.calls.calls && s.calls.calls[who].Joining?
    ensures var joined := JoinedBy(s, who);
      && who !in s.feeds && who in joined.feeds && joined.feeds[who] == Feed(s.kept, |s.outputs|, None, 0, [])
      && joined.pending == s.pending && (s.pending.Some? ==> s.pending.value.0 != who)
      && A.Holder(joined.calls.core) == Some(who) && who in joined.calls.calls && joined.calls.calls[who].Replacing?
  {
  }

  lemma NothingToReplay(s: Session, run: seq<Action>, who: A.Caller)
    requires Inv(s) && AllAllowed(s, run) && who in s.feeds && s.feeds[who].snapshot == []
    ensures !Overtakes(s, run, who)
  {
    RunKeepsStart(s, run, who);
    RunKeepsInv(s, run);
    var f := After(s, run).feeds[who];
    assert FeedOk(After(s, run), who, f);
    assert f.snapshot[..f.flushed] == [];
    NoneReplayed(f.sent);
  }

  lemma SomethingToReplay(s: Session, who: A.Caller) returns (run: seq<Action>)
    requires Matches(s) && who in s.calls.calls && s.calls.calls[who].Joining? && s.kept != []
    ensures Overtakes(JoinedBy(s, who), run, who)
  {
    JoinStartsFeed(s, who);
    var joined := JoinedBy(s, who);
    if joined.pending.None? {
      run := CanOvertake(joined, who);
    } else {
      assert joined.pending.value.0 in joined.feeds;
      var rest := CanOvertake(Acted(joined, Send), who);
      OvertakesLater(joined, Send, rest, who);
      run := [Send] + rest;
    }
  }

  /**
   * When a websocket attaches, some schedule from then on sends it new output before what was buffered
   * exactly when the session has output something before; otherwise every schedule replays first.
   */
  lemma ReplayFirstIff(s: Session, who: A.Caller)
    requires Inv(s) && who in s.calls.calls && s.calls.calls[who].Joining?
    ensures (exists run :: Overtakes(JoinedBy(s, who), run, who)) <==> s.outputs != []
  {
    KeptIsEmptyIff(s);
    if s.outputs == [] {
      JoinStartsFeed(s, who);
      ActedKeepsInv(s, Call(A.Step(who, true)));
      forall run | AllAllowed(JoinedBy(s, who), run)
        ensures !Overtakes(JoinedBy(s, who), run, who)
      {
        NothingToReplay(JoinedBy(s, who), run, who);
      }
    } else {
      var run := SomethingToReplay(s, who);
    }
  }
}
