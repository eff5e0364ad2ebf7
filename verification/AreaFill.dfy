/** Filling an area up to its clusters' room budgets: `scripts/area_files_budgetfill.py`. */
module AreaFill {
  import opened Prelude
  import opened Names
  import opened AreaGraphs
  import opened RoomNumbers

  /** A key room of the zone's shape; `hub` when a tag of it starts with `HUB_`. */
  datatype KeyRoom = KeyRoom(id: string, cluster: string, hub: bool)

  // What filling keeps, and what it adds.

  /** The rooms of `a` are still there, in order, with at least the exits they had. */
  ghost predicate Extends(a: seq<Room>, b: seq<Room>) {
    && |a| <= |b|
    && forall i :: 0 <= i < |a| ==> b[i].id == a[i].id && b[i].cluster == a[i].cluster && a[i].exits <= b[i].exits
  }

  /** Two rooms from which one can walk to each other. */
  ghost predicate BothWays(rooms: seq<Room>, x: string, y: string) {
    Reaches(rooms, x, y) && Reaches(rooms, y, x)
  }

  ghost predicate TiedIn(a: seq<Room>, b: seq<Room>, i: nat)
    requires i < |b|
  {
    exists k :: 0 <= k < |a| && BothWays(b, b[i].id, a[k].id)
  }

  /** Each new room can be reached from an old room, and can walk back to it. */
  ghost predicate Tied(a: seq<Room>, b: seq<Room>) {
    forall i :: |a| <= i < |b| ==> TiedIn(a, b, i)
  }

  predicate Plain(s: string) {
    s != [] && !Space(s[0])
  }

  /** An exit of `b` was in `a`, or leads to a room of `b`: one of `hung`, or one with a plain id. */
  ghost predicate ExitKept(a: seq<Room>, b: seq<Room>, hung: set<string>, i: nat, j: nat)
    requires i < |b| && j < |b[i].exits|
  {
    || (i < |a| && j < |a[i].exits| && b[i].exits[j] == a[i].exits[j])
    || NewExitOk(b[i].exits[j], IdsOf(b), hung)
  }

  predicate NewExitOk(ex: Exit, ids: set<string>, hung: set<string>) {
    Plain(ex.dir) && ex.len >= 1 && ex.to in ids && (ex.to in hung || Plain(ex.to))
  }

  /** Some exit leads to a room. */
  ghost predicate IsLedTo(rooms: seq<Room>, to: string) {
    exists i: nat, j: nat :: ExitLeads(rooms, i, j, to)
  }

  /**
   * `b` is `a` with more rooms and exits: nothing is lost, ids stay unique if they were, every new room
   * is tied to an old one, and every new exit leads to a room; `hung` are the rooms hung new rooms on.
   */
  ghost predicate Sound(a: seq<Room>, b: seq<Room>, hung: set<string>) {
    && Extends(a, b) && (Unique(a) ==> Unique(b)) && Tied(a, b)
    && (forall i :: |a| <= i < |b| ==> Plain(b[i].id))
    && (forall i, j :: 0 <= i < |b| && 0 <= j < |b[i].exits| ==> ExitKept(a, b, hung, i, j))
    && (forall x :: x in hung ==> IsLedTo(b, x) && x in IdsOf(b))
  }

  lemma LinksGrow(a: seq<Room>, b: seq<Room>, x: string, y: string)
    requires Extends(a, b) && Links(a, x, y)
    ensures Links(b, x, y)
  {
    var i: nat, j: nat :| ExitLeads(a, i, j, y) && a[i].id == x;
    assert ExitLeads(b, i, j, y) && b[i].id == x;
    IdsGrow(a, b);
  }

  lemma IdsGrow(a: seq<Room>, b: seq<Room>)
    requires Extends(a, b)
    ensures IdsOf(a) <= IdsOf(b)
  {
    forall id | id in IdsOf(a)
      ensures id in IdsOf(b)
    {
      var i :| 0 <= i < |a| && a[i].id == id;
      assert b[i].id == id;
    }
  }

  /** Filling takes no walk away. */
  lemma ReachesGrows(a: seq<Room>, b: seq<Room>, x: string, y: string)
    requires Extends(a, b) && Reaches(a, x, y)
    ensures Reaches(b, x, y)
  {
    var path :| WalkTo(a, path, x, y);
    IdsGrow(a, b);
    forall k | 0 <= k < |path| - 1
      ensures Links(b, path[k], path[k + 1])
    {
      LinksGrow(a, b, path[k], path[k + 1]);
    }
    assert WalkTo(b, path, x, y);
  }

  lemma TiedTransitive(a: seq<Room>, b: seq<Room>, c: seq<Room>)
    requires Extends(a, b) && Extends(b, c) && Tied(a, b) && Tied(b, c)
    ensures Tied(a, c)
  {
    forall i | |a| <= i < |c|
      ensures TiedIn(a, c, i)
    {
      if i < |b| {
        TiedGrows(a, b, c, i);
      } else {
        assert TiedIn(b, c, i);
        var k :| 0 <= k < |b| && BothWays(c, c[i].id, b[k].id);
        if k < |a| {
          assert BothWays(c, c[i].id, a[k].id);
        } else {
          TiedGrows(a, b, c, k);
          var m :| 0 <= m < |a| && BothWays(c, c[k].id, a[m].id);
          ReachesThrough(c, c[i].id, c[k].id, a[m].id);
          ReachesThrough(c, a[m].id, c[k].id, c[i].id);
          assert BothWays(c, c[i].id, a[m].id);
        }
      }
    }
  }

  lemma TiedGrows(a: seq<Room>, b: seq<Room>, c: seq<Room>, i: nat)
    requires Extends(a, b) && Extends(b, c) && Tied(a, b) && |a| <= i < |b|
    ensures TiedIn(a, c, i)
  {
    assert TiedIn(a, b, i);
    var k :| 0 <= k < |a| && BothWays(b, b[i].id, a[k].id);
    ReachesGrows(b, c, b[i].id, a[k].id);
    ReachesGrows(b, c, a[k].id, b[i].id);
    assert BothWays(c, c[i].id, a[k].id);
  }

  lemma SoundItself(a: seq<Room>)
    ensures Sound(a, a, {})
  {
  }

  lemma LedToGrows(a: seq<Room>, b: seq<Room>, to: string)
    requires Extends(a, b) && IsLedTo(a, to)
    ensures IsLedTo(b, to)
  {
    var i: nat, j: nat :| ExitLeads(a, i, j, to);
    assert ExitLeads(b, i, j, to);
  }

  lemma ExitsTransitive(a: seq<Room>, b: seq<Room>, c: seq<Room>, g: set<string>, h: set<string>, i: nat, j: nat)
    requires Extends(a, b) && Extends(b, c) && i < |c| && j < |c[i].exits| && ExitKept(b, c, h, i, j)
    requires i < |b| && j < |b[i].exits| ==> ExitKept(a, b, g, i, j)
    ensures ExitKept(a, c, g + h, i, j)
  {
    IdsGrow(b, c);
  }

  /** Filling and then filling again is one filling. */
  lemma SoundTransitive(a: seq<Room>, b: seq<Room>, c: seq<Room>, g: set<string>, h: set<string>)
    requires Sound(a, b, g) && Sound(b, c, h)
    ensures Sound(a, c, g + h)
  {
    TiedTransitive(a, b, c);
    IdsGrow(b, c);
    forall i, j | 0 <= i < |c| && 0 <= j < |c[i].exits|
      ensures ExitKept(a, c, g + h, i, j)
    {
      ExitsTransitive(a, b, c, g, h, i, j);
    }
    forall x | x in g + h
      ensures IsLedTo(c, x) && x in IdsOf(c)
    {
      if x in g {
        LedToGrows(b, c, x);
      }
    }
    forall i | |a| <= i < |c|
      ensures Plain(c[i].id)
    {
      assert i < |b| ==> Plain(b[i].id);
    }
  }

  /** If every old room could be reached from the start, every old and new room can. */
  lemma SoundKeepsAllReached(a: seq<Room>, b: seq<Room>, hung: set<string>, start: string)
    requires Sound(a, b, hung) && AllReached(a, start)
    ensures AllReached(b, start)
  {
    forall i | 0 <= i < |b|
      ensures Reaches(b, start, b[i].id)
    {
      if i < |a| {
        ReachesGrows(a, b, start, a[i].id);
      } else {
        assert TiedIn(a, b, i);
        var k :| 0 <= k < |a| && BothWays(b, b[i].id, a[k].id);
        ReachesGrows(a, b, start, a[k].id);
        ReachesThrough(b, start, a[k].id, b[i].id);
      }
    }
  }

  predicate NoneBlank(ids: set<string>) {
    forall x :: x in ids ==> !Blank(x)
  }

  lemma SoundKeepsRooms(a: seq<Room>, b: seq<Room>, hung: set<string>, clusters: set<string>)
    requires Sound(a, b, hung) && GoodRooms(a, clusters)
    requires forall i :: |a| <= i < |b| ==> b[i].cluster in clusters
    ensures GoodRooms(b, clusters)
  {
    forall i | 0 <= i < |b|
      ensures b[i].id != "" && b[i].cluster in clusters
    {
      assert i < |a| ==> b[i].id == a[i].id && b[i].cluster == a[i].cluster;
      assert i >= |a| ==> Plain(b[i].id);
    }
  }

  lemma SoundKeepsExits(a: seq<Room>, b: seq<Room>, hung: set<string>, portals: set<string>)
    requires Sound(a, b, hung) && GoodExits(a, portals) && NoneBlank(hung)
    ensures GoodExits(b, portals)
  {
    IdsGrow(a, b);
    forall i, j | 0 <= i < |b| && 0 <= j < |b[i].exits|
      ensures GoodExit(b[i].exits[j], IdsOf(b), portals)
    {
      var ex := b[i].exits[j];
      assert ExitKept(a, b, hung, i, j);
      if NewExitOk(ex, IdsOf(b), hung) {
        assert !Blank(ex.dir) && (Plain(ex.to) ==> !Blank(ex.to));
      } else {
        assert GoodExit(a[i].exits[j], IdsOf(a), portals);
      }
    }
  }

  lemma {:induction false} LenToKept(exits: seq<Exit>, more: seq<Exit>, to: string)
    requires exits <= more && LenTo(exits, to).Some?
    ensures LenTo(more, to) == LenTo(exits, to)
  {
    assert more[0] == exits[0];
    if exits[0].to != to {
      LenToKept(exits[1..], more[1..], to);
    }
  }

  lemma SoundKeepsPortals(a: seq<Room>, b: seq<Room>, z: Zone)
    requires Extends(a, b) && GoodPortals(a, z)
    ensures GoodPortals(b, z)
  {
    forall n | 0 <= n < |z.own|
      ensures PortalHasRoom(b, z.own[n], z)
    {
      var p := z.own[n];
      assert PortalHasRoom(a, p, z);
      var i :| 0 <= i < |a| && a[i].id == p.id && PortalOk(a[i], p, z);
      LenToKept(a[i].exits, b[i].exits, p.other.value);
      assert b[i].id == p.id && PortalOk(b[i], p, z);
    }
  }

  /**
   * An area the validator accepts is accepted again after filling exactly when no room that new rooms
   * were hung on has a blank id: the validator lets such a room be, but no exit that leads to it.
   */
  lemma SoundKeepsAcceptedIff(a: seq<Room>, b: seq<Room>, hung: set<string>, z: Zone)
    requires Sound(a, b, hung) && Accepted(a, z)
    requires forall i :: |a| <= i < |b| ==> b[i].cluster in z.clusters
    ensures Accepted(b, z) <==> NoneBlank(hung)
  {
    if NoneBlank(hung) {
      IdsGrow(a, b);
      SoundKeepsRooms(a, b, hung, z.clusters);
      SoundKeepsExits(a, b, hung, z.portals);
      SoundKeepsPortals(a, b, z);
    }
    if Accepted(b, z) {
      forall x | x in hung
        ensures !Blank(x)
      {
        var i: nat, j: nat :| ExitLeads(b, i, j, x);
        assert GoodExit(b[i].exits[j], IdsOf(b), z.portals);
      }
    }
  }

  // A chain of new rooms hung on an anchor.

  predicate LeadsTo(room: Room, to: string) {
    exists j :: 0 <= j < |room.exits| && room.exits[j].to == to
  }

  function WithExit(rooms: seq<Room>, i: nat, ex: Exit): seq<Room>
    requires i < |rooms|
  {
    var exits := rooms[i].exits;
    if HasExit(exits, ex) then rooms else rooms[i := rooms[i].(exits := exits + [ex])]
  }

  predicate HasExit(exits: seq<Exit>, ex: Exit) {
    exists j :: 0 <= j < |exits| && exits[j].dir == ex.dir && exits[j].to == ex.to
  }

  /** New rooms, each with a way to the one before it and to the one after it, the first one's back to the anchor. */
  ghost predicate Chain(anchor: string, news: seq<Room>) {
    && news != [] && LeadsTo(news[0], anchor) && Unique(news)
    && (forall k :: 0 < k < |news| ==> JoinedAt(news, k))
    && (forall k :: 0 <= k < |news| ==> Plain(news[k].id))
    && (forall k :: 0 <= k < |news| ==> StaysAmong(news[k], IdsOf(news) + {anchor}))
  }

  predicate JoinedAt(news: seq<Room>, k: nat)
    requires 0 < k < |news|
  {
    LeadsTo(news[k - 1], news[k].id) && LeadsTo(news[k], news[k - 1].id)
  }

  predicate StaysAmong(room: Room, ids: set<string>) {
    forall j :: 0 <= j < |room.exits| ==>
      Plain(room.exits[j].dir) && room.exits[j].len >= 1 && room.exits[j].to in ids
  }

  lemma LeadsMeansLinks(rooms: seq<Room>, i: nat, to: string)
    requires i < |rooms| && LeadsTo(rooms[i], to) && to in IdsOf(rooms)
    ensures Links(rooms, rooms[i].id, to)
  {
    var j :| 0 <= j < |rooms[i].exits| && rooms[i].exits[j].to == to;
    assert ExitLeads(rooms, i, j, to);
  }

  lemma {:induction false} ChainIsTied(base: seq<Room>, i: nat, news: seq<Room>, k: nat)
    requires i < |base| && k < |news| && LeadsTo(base[i], news[0].id) && Chain(base[i].id, news)
    ensures BothWays(base + news, news[k].id, base[i].id)
  {
    var all, anchor := base + news, base[i].id;
    assert all[i].id == anchor && all[|base| + k] == news[k];
    if k == 0 {
      LeadsMeansLinks(all, i, news[0].id);
      LeadsMeansLinks(all, |base|, anchor);
      ReachesItself(all, anchor);
      ReachesItself(all, news[0].id);
      ReachesOneMore(all, anchor, anchor, news[0].id);
      ReachesOneMore(all, news[0].id, news[0].id, anchor);
    } else {
      ChainIsTied(base, i, news, k - 1);
      assert all[|base| + k - 1] == news[k - 1];
      assert JoinedAt(news, k);
      LeadsMeansLinks(all, |base| + k - 1, news[k].id);
      LeadsMeansLinks(all, |base| + k, news[k - 1].id);
      ReachesOneMore(all, anchor, news[k - 1].id, news[k].id);
      ReachesItself(all, news[k].id);
      ReachesOneMore(all, news[k].id, news[k].id, news[k - 1].id);
      ReachesThrough(all, news[k].id, news[k - 1].id, anchor);
    }
  }

  lemma ChainIsSound(a: seq<Room>, i: nat, ex: Exit, news: seq<Room>)
    requires i < |a| && Chain(a[i].id, news) && NewExitTo(ex, news[0].id)
    requires forall k :: 0 <= k < |news| ==> news[k].id !in IdsOf(a)
    ensures Sound(a, WithExit(a, i, ex) + news, {a[i].id})
  {
    var b := WithExit(a, i, ex) + news;
    ChainHangs(a, i, ex, news);
    forall n | |a| <= n < |b|
      ensures TiedIn(a, b, n) && Plain(b[n].id)
    {
      assert b[n] == news[n - |a|];
      assert BothWays(b, b[n].id, a[i].id);
    }
    ChainKeepsIds(a, i, ex, news);
    ChainKeepsExits(a, i, ex, news);
    var j :| 0 <= j < |news[0].exits| && news[0].exits[j].to == a[i].id;
    assert b[|a|] == news[0] && ExitLeads(b, |a|, j, a[i].id);
    assert a[i].id in IdsOf(a);
  }

  predicate NewExitTo(ex: Exit, to: string) {
    ex.to == to && Plain(ex.dir) && ex.len >= 1
  }

  lemma ChainHangs(a: seq<Room>, i: nat, ex: Exit, news: seq<Room>)
    requires i < |a| && Chain(a[i].id, news) && ex.to == news[0].id
    ensures forall k :: 0 <= k < |news| ==> BothWays(WithExit(a, i, ex) + news, news[k].id, a[i].id)
  {
    var base := WithExit(a, i, ex);
    assert LeadsTo(base[i], ex.to) by {
      if !HasExit(a[i].exits, ex) {
        assert base[i].exits[|a[i].exits|] == ex;
      }
    }
    forall k | 0 <= k < |news|
      ensures BothWays(base + news, news[k].id, a[i].id)
    {
      ChainIsTied(base, i, news, k);
    }
  }

  lemma ChainKeepsIds(a: seq<Room>, i: nat, ex: Exit, news: seq<Room>)
    requires i < |a| && Unique(news)
    requires forall k :: 0 <= k < |news| ==> news[k].id !in IdsOf(a)
    ensures Extends(a, WithExit(a, i, ex) + news) && (Unique(a) ==> Unique(WithExit(a, i, ex) + news))
    ensures IdsOf(WithExit(a, i, ex) + news) == IdsOf(a) + IdsOf(news)
  {
    var b := WithExit(a, i, ex) + news;
    assert forall n :: 0 <= n < |b| ==> b[n].id == if n < |a| then a[n].id else news[n - |a|].id;
    if Unique(a) {
      forall m, n | 0 <= m < n < |b|
        ensures b[m].id != b[n].id
      {
        if m < |a| {
          assert a[m].id in IdsOf(a);
        }
      }
    }
    forall id | id in IdsOf(a) + IdsOf(news)
      ensures id in IdsOf(b)
    {
      if id in IdsOf(a) {
        var n :| 0 <= n < |a| && a[n].id == id;
        assert b[n].id == id;
      } else {
        var n :| 0 <= n < |news| && news[n].id == id;
        assert b[|a| + n].id == id;
      }
    }
  }

  lemma ChainKeepsExits(a: seq<Room>, i: nat, ex: Exit, news: seq<Room>)
    requires i < |a| && Chain(a[i].id, news) && NewExitTo(ex, news[0].id)
    requires forall k :: 0 <= k < |news| ==> news[k].id !in IdsOf(a)
    ensures var b := WithExit(a, i, ex) + news;
      forall n, j :: 0 <= n < |b| && 0 <= j < |b[n].exits| ==> ExitKept(a, b, {a[i].id}, n, j)
  {
    var b := WithExit(a, i, ex) + news;
    ChainKeepsIds(a, i, ex, news);
    assert a[i].id in IdsOf(a) && news[0].id in IdsOf(news);
    forall n, j | 0 <= n < |b| && 0 <= j < |b[n].exits|
      ensures ExitKept(a, b, {a[i].id}, n, j)
    {
      if n >= |a| {
        NewExits(news, a[i].id, n - |a|, j);
        assert b[n] == news[n - |a|];
      }
    }
  }

  lemma NewExits(news: seq<Room>, anchor: string, k: nat, j: nat)
    requires Chain(anchor, news) && k < |news| && j < |news[k].exits|
    ensures NewExitOk(news[k].exits[j], IdsOf(news) + {anchor}, {anchor})
  {
    assert StaysAmong(news[k], IdsOf(news) + {anchor});
    var to := news[k].exits[j].to;
    if to != anchor {
      var m :| 0 <= m < |news| && news[m].id == to;
      assert Plain(news[m].id);
    }
  }

  /** A filler room of the loop: back to the one before it or the anchor, ahead to the one after or the anchor. */
  function Filler(cid: string, anchor: string, fillers: seq<string>, i: nat): Room
    requires i < |fillers|
  {
    Room(fillers[i], cid, [
      Exit("back", if i == 0 then anchor else fillers[i - 1], 1, false),
      Exit("ahead", if i == |fillers| - 1 then anchor else fillers[i + 1], 1, false)])
  }

  function Fillers(cid: string, anchor: string, fillers: seq<string>): seq<Room> {
    seq(|fillers|, i requires 0 <= i < |fillers| => Filler(cid, anchor, fillers, i))
  }

  /** The loop goes round: with the anchor at both ends, each filler leads to the one before it and the next one. */
  lemma LoopGoesRound(cid: string, anchor: string, fillers: seq<string>, k: nat)
    requires k < |fillers|
    ensures var ring, room := [anchor] + fillers + [anchor], Fillers(cid, anchor, fillers)[k];
      && room.id == ring[k + 1] && room.cluster == cid
      && room.exits == [Exit("back", ring[k], 1, false), Exit("ahead", ring[k + 2], 1, false)]
  {
  }

  lemma FillersHaveIds(cid: string, anchor: string, fillers: seq<string>)
    ensures IdsOf(Fillers(cid, anchor, fillers)) == Members(fillers)
  {
    var news := Fillers(cid, anchor, fillers);
    forall f | f in fillers
      ensures f in IdsOf(news)
    {
      var k :| 0 <= k < |fillers| && fillers[k] == f;
      assert news[k].id == f;
    }
  }

  lemma FillersLead(cid: string, anchor: string, fillers: seq<string>, k: nat)
    requires k < |fillers|
    ensures var news := Fillers(cid, anchor, fillers);
      && (k == 0 ==> LeadsTo(news[0], anchor))
      && (k > 0 ==> JoinedAt(news, k))
  {
    var news := Fillers(cid, anchor, fillers);
    assert LeadsTo(news[k], news[k].exits[0].to);
    if k > 0 {
      assert LeadsTo(news[k - 1], news[k - 1].exits[1].to);
    }
  }

  lemma FillersAreChain(cid: string, anchor: string, fillers: seq<string>)
    requires fillers != [] && Fresh(fillers, "R_", {})
    ensures Chain(anchor, Fillers(cid, anchor, fillers))
  {
    var news := Fillers(cid, anchor, fillers);
    FillersHaveIds(cid, anchor, fillers);
    FillersLead(cid, anchor, fillers, 0);
    forall k | 0 < k < |news|
      ensures JoinedAt(news, k)
    {
      FillersLead(cid, anchor, fillers, k);
    }
    forall k | 0 <= k < |news|
      ensures StaysAmong(news[k], IdsOf(news) + {anchor})
    {
      FillerStays(cid, anchor, fillers, k);
    }
  }

  lemma FillerStays(cid: string, anchor: string, fillers: seq<string>, k: nat)
    requires k < |fillers|
    ensures StaysAmong(Fillers(cid, anchor, fillers)[k], Members(fillers) + {anchor})
  {
    assert Plain("back") && Plain("ahead");
  }

  lemma {:induction false} CountAppended(a: seq<Room>, news: seq<Room>, cid: string, c: string)
    requires forall k :: 0 <= k < |news| ==> news[k].cluster == cid
    ensures CountIn(a + news, c) == CountIn(a, c) + if c == cid then |news| else 0
  {
    if news == [] {
      assert a + news == a;
    } else {
      var n := |news| - 1;
      assert a + news == (a + news[..n]) + [news[n]];
      CountAppended(a, news[..n], cid, c);
      CountInNext(a + news[..n], news[n], c);
    }
  }

  lemma {:induction false} CountKept(a: seq<Room>, b: seq<Room>, c: string)
    requires |a| == |b| && forall i :: 0 <= i < |a| ==> a[i].cluster == b[i].cluster
    ensures CountIn(a, c) == CountIn(b, c)
  {
    if a != [] {
      CountKept(a[..|a| - 1], b[..|b| - 1], c);
    }
  }

  /** `count` new rooms, all in the cluster `cid`. */
  ghost predicate GrownBy(a: seq<Room>, b: seq<Room>, cid: string, count: nat) {
    && |b| == |a| + count
    && (forall i :: |a| <= i < |b| ==> b[i].cluster == cid)
    && (forall c :: CountIn(b, c) == CountIn(a, c) + if c == cid then count else 0)
  }

  lemma ChainGrows(a: seq<Room>, i: nat, ex: Exit, news: seq<Room>, cid: string)
    requires i < |a| && forall k :: 0 <= k < |news| ==> news[k].cluster == cid
    ensures GrownBy(a, WithExit(a, i, ex) + news, cid, |news|)
  {
    var base := WithExit(a, i, ex);
    forall c
      ensures CountIn(base + news, c) == CountIn(a, c) + if c == cid then |news| else 0
    {
      CountKept(a, base, c);
      CountAppended(base, news, cid, c);
    }
  }

  /** A new loop through a room of the area: only rooms and exits are added, and each can walk back. */
  lemma LoopIsSound(a: seq<Room>, i: nat, ex: Exit, cid: string, fillers: seq<string>)
    requires i < |a| && fillers != [] && NewExitTo(ex, fillers[0])
    requires Fresh(fillers, "R_", IdsOf(a))
    ensures Sound(a, WithExit(a, i, ex) + Fillers(cid, a[i].id, fillers), {a[i].id})
    ensures LoopTied(WithExit(a, i, ex) + Fillers(cid, a[i].id, fillers), fillers, a[i].id)
  {
    var news := Fillers(cid, a[i].id, fillers);
    assert Fresh(fillers, "R_", {});
    FillersAreChain(cid, a[i].id, fillers);
    FillersAreNew(cid, a[i].id, fillers, IdsOf(a));
    ChainIsSound(a, i, ex, news);
    ChainHangs(a, i, ex, news);
    forall k | 0 <= k < |fillers|
      ensures BothWays(WithExit(a, i, ex) + news, fillers[k], a[i].id)
    {
      assert news[k].id == fillers[k];
    }
  }

  ghost predicate LoopTied(rooms: seq<Room>, fillers: seq<string>, anchor: string) {
    forall k :: 0 <= k < |fillers| ==> BothWays(rooms, fillers[k], anchor)
  }

  lemma FillersAreNew(cid: string, anchor: string, fillers: seq<string>, ids: set<string>)
    requires Fresh(fillers, "R_", ids)
    ensures forall k :: 0 <= k < |fillers| ==> Fillers(cid, anchor, fillers)[k].id !in ids
  {
  }

  lemma LoopCounts(a: seq<Room>, i: nat, ex: Exit, cid: string, fillers: seq<string>)
    requires i < |a| && Fresh(fillers, "R_", IdsOf(a)) && Unique(Fillers(cid, a[i].id, fillers))
    ensures GrownBy(a, WithExit(a, i, ex) + Fillers(cid, a[i].id, fillers), cid, |fillers|)
    ensures IdsOf(WithExit(a, i, ex) + Fillers(cid, a[i].id, fillers)) == IdsOf(a) + Members(fillers)
  {
    var news := Fillers(cid, a[i].id, fillers);
    FillersHaveIds(cid, a[i].id, fillers);
    FillersAreNew(cid, a[i].id, fillers, IdsOf(a));
    ChainKeepsIds(a, i, ex, news);
    ChainGrows(a, i, ex, news, cid);
  }

  // Picking rooms.

  /** The first key room of the cluster that is in the area. */
  function FirstKey(keys: seq<KeyRoom>, cid: string, known: set<string>): Option<string> {
    if keys == [] then None
    else if keys[0].cluster == cid && keys[0].id in known then Some(keys[0].id)
    else FirstKey(keys[1..], cid, known)
  }

  function FirstHub(keys: seq<KeyRoom>, known: set<string>): Option<string> {
    if keys == [] then None
    else if keys[0].id in known && keys[0].hub then Some(keys[0].id)
    else FirstHub(keys[1..], known)
  }

  function FirstPortal(ids: seq<string>): Option<string> {
    if ids == [] then None else if "P_" <= ids[0] then Some(ids[0]) else FirstPortal(ids[1..])
  }

  /** A key room, else a portal room, else the first room of the cluster. */
  function Anchor(cid: string, keys: seq<KeyRoom>, known: set<string>, ids: seq<string>): Option<string> {
    if FirstKey(keys, cid, known).Some? then FirstKey(keys, cid, known)
    else if FirstPortal(ids).Some? then FirstPortal(ids)
    else if ids != [] then Some(ids[0])
    else None
  }

  function Hub(keys: seq<KeyRoom>, start: Option<string>, known: set<string>, first: string): string {
    if FirstHub(keys, known).Some? then FirstHub(keys, known).value
    else if start.Some? && start.value in known then start.value
    else first
  }

  /** The first key room is the one that no earlier key room could be picked before. */
  lemma {:induction false} FirstKeyMeans(keys: seq<KeyRoom>, cid: string, known: set<string>, n: nat)
    requires n < |keys| && keys[n].cluster == cid && keys[n].id in known
    requires forall m :: 0 <= m < n ==> !(keys[m].cluster == cid && keys[m].id in known)
    ensures FirstKey(keys, cid, known) == Some(keys[n].id)
  {
    if n > 0 {
      assert !(keys[0].cluster == cid && keys[0].id in known);
      FirstKeyMeans(keys[1..], cid, known, n - 1);
    }
  }

  lemma {:induction false} FirstPortalMeans(ids: seq<string>, n: nat)
    requires n <= |ids| && (n < |ids| ==> "P_" <= ids[n]) && forall m :: 0 <= m < n ==> !("P_" <= ids[m])
    ensures FirstPortal(ids) == if n < |ids| then Some(ids[n]) else None
  {
    if n > 0 {
      FirstPortalMeans(ids[1..], n - 1);
    }
  }

  /**
   * Which room new rooms are hung on: the first key room of the cluster that is in the area; without one,
   * the first of the cluster's rooms that is a portal; without that, its first room.
   */
  lemma AnchorMeans(cid: string, keys: seq<KeyRoom>, known: set<string>, ids: seq<string>, n: nat)
    ensures (n < |keys| && keys[n].cluster == cid && keys[n].id in known
             && forall m :: 0 <= m < n ==> !(keys[m].cluster == cid && keys[m].id in known)) ==>
      Anchor(cid, keys, known, ids) == Some(keys[n].id)
    ensures (forall m :: 0 <= m < |keys| ==> !(keys[m].cluster == cid && keys[m].id in known)) ==>
      && (n < |ids| && "P_" <= ids[n] && (forall m :: 0 <= m < n ==> !("P_" <= ids[m])) ==>
            Anchor(cid, keys, known, ids) == Some(ids[n]))
      && ((forall m :: 0 <= m < |ids| ==> !("P_" <= ids[m])) ==>
            Anchor(cid, keys, known, ids) == if ids == [] then None else Some(ids[0]))
  {
    FirstKeySpec(keys, cid, known);
    if n < |keys| && keys[n].cluster == cid && keys[n].id in known
      && (forall m :: 0 <= m < n ==> !(keys[m].cluster == cid && keys[m].id in known)) {
      FirstKeyMeans(keys, cid, known, n);
    }
    if n < |ids| && "P_" <= ids[n] && (forall m :: 0 <= m < n ==> !("P_" <= ids[m])) {
      FirstPortalMeans(ids, n);
    }
    if forall m :: 0 <= m < |ids| ==> !("P_" <= ids[m]) {
      FirstPortalMeans(ids, |ids|);
    }
  }

  /** The hub: the first key room of the area with a hub's tag, else the start room, else the first room. */
  lemma {:induction false} HubMeans(keys: seq<KeyRoom>, start: Option<string>, known: set<string>, first: string,
                                    n: nat)
    requires n <= |keys| && (n < |keys| ==> keys[n].hub && keys[n].id in known)
    requires forall m :: 0 <= m < n ==> !(keys[m].hub && keys[m].id in known)
    ensures Hub(keys, start, known, first)
         == if n < |keys| then keys[n].id else if start.Some? && start.value in known then start.value else first
    decreases n
  {
    if n > 0 {
      assert !(keys[0].hub && keys[0].id in known);
      HubMeans(keys[1..], start, known, first, n - 1);
    }
  }

  /** An anchor is a room of the area, and there is none exactly when the cluster is empty and has no key room. */
  lemma {:induction false} AnchorSpec(cid: string, keys: seq<KeyRoom>, known: set<string>, ids: seq<string>)
    requires forall n :: 0 <= n < |ids| ==> ids[n] in known
    ensures var r := Anchor(cid, keys, known, ids);
      && (r.Some? ==> r.value in known)
      && (r.None? <==> ids == [] && forall n :: 0 <= n < |keys| ==> !(keys[n].cluster == cid && keys[n].id in known))
  {
    FirstKeySpec(keys, cid, known);
    FirstPortalSpec(ids);
  }

  lemma {:induction false} FirstKeySpec(keys: seq<KeyRoom>, cid: string, known: set<string>)
    ensures var r := FirstKey(keys, cid, known);
      && (r.Some? ==> r.value in known)
      && (r.None? <==> forall n :: 0 <= n < |keys| ==> !(keys[n].cluster == cid && keys[n].id in known))
  {
    if keys != [] {
      FirstKeySpec(keys[1..], cid, known);
      assert forall n :: 0 < n < |keys| ==> keys[n] == keys[1..][n - 1];
    }
  }

  lemma {:induction false} FirstPortalSpec(ids: seq<string>)
    ensures FirstPortal(ids).Some? ==> FirstPortal(ids).value in ids
  {
    if ids != [] {
      FirstPortalSpec(ids[1..]);
    }
  }

  lemma {:induction false} HubSpec(keys: seq<KeyRoom>, start: Option<string>, known: set<string>, first: string)
    requires first in known
    ensures Hub(keys, start, known, first) in known
  {
    FirstHubSpec(keys, known);
  }

  lemma {:induction false} FirstHubSpec(keys: seq<KeyRoom>, known: set<string>)
    ensures FirstHub(keys, known).Some? ==> FirstHub(keys, known).value in known
  {
    if keys != [] {
      FirstHubSpec(keys[1..], known);
    }
  }

  // Which rooms the area itself says to hang new rooms on.

  /** The ids of a cluster's rooms, in order. */
  function IdsIn(rooms: seq<Room>, cid: string): seq<string> {
    if rooms == [] then []
    else
      var r := rooms[|rooms| - 1];
      IdsIn(rooms[..|rooms| - 1], cid) + if r.cluster == cid then [r.id] else []
  }

  lemma {:induction false} IdsInSpec(rooms: seq<Room>, cid: string)
    ensures |IdsIn(rooms, cid)| == CountIn(rooms, cid)
    ensures forall n :: 0 <= n < |IdsIn(rooms, cid)| ==> IdsIn(rooms, cid)[n] in IdsOf(rooms)
  {
    if rooms != [] {
      var front, r := rooms[..|rooms| - 1], rooms[|rooms| - 1];
      IdsInSpec(front, cid);
      assert rooms == front + [r];
      IdsNext(front, r);
    }
  }

  function ZoneHub(rooms: seq<Room>, start: Option<string>, keys: seq<KeyRoom>): string {
    if rooms == [] then "" else Hub(keys, start, IdsOf(rooms), rooms[0].id)
  }

  /** The old room that new rooms of a cluster are hung on: the one to pick, or else the hub. */
  function Hook(rooms: seq<Room>, keys: seq<KeyRoom>, hub: string, cid: string): string {
    var picked := Anchor(cid, keys, IdsOf(rooms), IdsIn(rooms, cid));
    if picked.Some? then picked.value else hub
  }

  predicate IsHook(rooms: seq<Room>, keys: seq<KeyRoom>, hub: string, budget: (string, int), x: string) {
    budget.1 > CountIn(rooms, budget.0) && x == Hook(rooms, keys, hub, budget.0)
  }

  predicate AmongHooks(rooms: seq<Room>, keys: seq<KeyRoom>, hub: string, budgets: seq<(string, int)>, n: nat,
                       x: string)
    requires n <= |budgets|
  {
    exists k :: 0 <= k < n && IsHook(rooms, keys, hub, budgets[k], x)
  }

  /** Where ids of new rooms in the zone begin. */
  function Stem(zone: string): string {
    "R_" + zone + "_"
  }

  /** No key room that the area lacks could turn up among the new rooms. */
  predicate KeysStay(keys: seq<KeyRoom>, known: set<string>, zone: string) {
    forall n :: 0 <= n < |keys| ==> keys[n].id in known || !(Stem(zone) <= keys[n].id)
  }

  /** More rooms are known, all of them new ones of the zone. */
  predicate OnlySeeds(known: set<string>, more: set<string>, zone: string) {
    known <= more && forall id :: id in more && id !in known ==> Stem(zone) <= id
  }

  /** Knowing new rooms besides changes the key room only to a new one, and not at all if keys stay. */
  lemma {:induction false} FirstKeyStays(keys: seq<KeyRoom>, cid: string, known: set<string>, more: set<string>,
                                         zone: string)
    requires OnlySeeds(known, more, zone)
    ensures var was, is_ := FirstKey(keys, cid, known), FirstKey(keys, cid, more);
      && (was == is_ || (is_.Some? && Plain(is_.value)))
      && (KeysStay(keys, known, zone) ==> was == is_)
  {
    if keys != [] {
      FirstKeyStays(keys[1..], cid, known, more, zone);
      assert KeysStay(keys, known, zone) ==> KeysStay(keys[1..], known, zone);
      assert keys[0].id in more && keys[0].id !in known ==> Plain(keys[0].id);
    }
  }

  /**
   * The rooms hung on that could have a blank id are among the hooks of the clusters under their
   * budget; if the key rooms stay, they are exactly these.
   */
  ghost predicate HungOnHooks(rooms: seq<Room>, hung: set<string>, keys: seq<KeyRoom>, hub: string, zone: string,
                              budgets: seq<(string, int)>, n: nat)
    requires n <= |budgets|
  {
    forall x :: !Plain(x) ==>
      && (x in hung ==> AmongHooks(rooms, keys, hub, budgets, n, x))
      && (KeysStay(keys, IdsOf(rooms), zone) && AmongHooks(rooms, keys, hub, budgets, n, x) ==> x in hung)
  }

  lemma AmongHooksNext(rooms: seq<Room>, keys: seq<KeyRoom>, hub: string, budgets: seq<(string, int)>, n: nat,
                       x: string)
    requires n < |budgets|
    ensures AmongHooks(rooms, keys, hub, budgets, n + 1, x)
       <==> AmongHooks(rooms, keys, hub, budgets, n, x) || IsHook(rooms, keys, hub, budgets[n], x)
  {
  }

  /** The rooms hung on for one more cluster. */
  lemma HungNext(rooms: seq<Room>, g: set<string>, h: set<string>, keys: seq<KeyRoom>, hub: string, zone: string,
                 budgets: seq<(string, int)>, n: nat, known: set<string>)
    requires n < |budgets| && HungOnHooks(rooms, g, keys, hub, zone, budgets, n)
    requires OnlySeeds(IdsOf(rooms), known, zone)
    requires HungFor(rooms, h, budgets[n], hub, keys, known)
    ensures HungOnHooks(rooms, g + h, keys, hub, zone, budgets, n + 1)
  {
    FirstKeyStays(keys, budgets[n].0, IdsOf(rooms), known, zone);
    forall x | !Plain(x)
      ensures x in g + h ==> AmongHooks(rooms, keys, hub, budgets, n + 1, x)
      ensures KeysStay(keys, IdsOf(rooms), zone) && AmongHooks(rooms, keys, hub, budgets, n + 1, x) ==> x in g + h
    {
      AmongHooksNext(rooms, keys, hub, budgets, n, x);
    }
  }

  /** No cluster under its budget has a hook whose id is blank. */
  predicate HooksNamed(rooms: seq<Room>, keys: seq<KeyRoom>, hub: string, budgets: seq<(string, int)>) {
    forall n :: 0 <= n < |budgets| && budgets[n].1 > CountIn(rooms, budgets[n].0) ==>
      !Blank(Hook(rooms, keys, hub, budgets[n].0))
  }

  lemma HooksDecide(rooms: seq<Room>, hung: set<string>, keys: seq<KeyRoom>, hub: string, zone: string,
                    budgets: seq<(string, int)>)
    requires HungOnHooks(rooms, hung, keys, hub, zone, budgets, |budgets|)
    ensures HooksNamed(rooms, keys, hub, budgets) ==> NoneBlank(hung)
    ensures KeysStay(keys, IdsOf(rooms), zone) && NoneBlank(hung) ==> HooksNamed(rooms, keys, hub, budgets)
  {
    if HooksNamed(rooms, keys, hub, budgets) {
      forall x | x in hung
        ensures !Blank(x)
      {
        if !Plain(x) {
          assert AmongHooks(rooms, keys, hub, budgets, |budgets|, x);
        }
      }
    }
    if KeysStay(keys, IdsOf(rooms), zone) && NoneBlank(hung) {
      forall n | 0 <= n < |budgets| && budgets[n].1 > CountIn(rooms, budgets[n].0)
        ensures !Blank(Hook(rooms, keys, hub, budgets[n].0))
      {
        var x := Hook(rooms, keys, hub, budgets[n].0);
        if !Plain(x) {
          assert IsHook(rooms, keys, hub, budgets[n], x);
        }
      }
    }
  }

  lemma IdsNext(rooms: seq<Room>, r: Room)
    ensures IdsOf(rooms + [r]) == IdsOf(rooms) + {r.id}
  {
    var all := rooms + [r];
    assert all[|rooms|].id == r.id;
    forall id | id in IdsOf(rooms)
      ensures id in IdsOf(all)
    {
      var i :| 0 <= i < |rooms| && rooms[i].id == id;
      assert all[i].id == id;
    }
  }

  lemma FreshUnderShorterPrefix(fillers: seq<string>, prefix: string, ids: set<string>)
    requires Fresh(fillers, prefix, ids) && "R_" <= prefix
    ensures Fresh(fillers, "R_", ids)
  {
  }

  lemma SeedMovesBound(mx: nat, prefix: string, width: nat, ids: set<string>, n: nat)
    requires Bounds(mx, prefix, ids) && n > mx
    ensures Bounds(n, prefix, ids + {Numbered(prefix, n, width)})
  {
    NumberReadsBack(prefix, n, width);
  }

  lemma GrownTwice(a: seq<Room>, b: seq<Room>, c: seq<Room>, cid: string, m: nat, n: nat)
    requires Extends(b, c) && GrownBy(a, b, cid, m) && GrownBy(b, c, cid, n)
    ensures GrownBy(a, c, cid, m + n)
  {
  }

  /** Room counts after filling the first `n` budgeted clusters: these have what they need, no other changed. */
  ghost predicate Budgeted(a: seq<Room>, b: seq<Room>, budgets: seq<(string, int)>, n: nat)
    requires n <= |budgets|
  {
    && (forall k :: 0 <= k < n ==> CountIn(b, budgets[k].0) == Max(CountIn(a, budgets[k].0), budgets[k].1))
    && (forall c :: !AmongFirst(budgets, n, c) ==> CountIn(b, c) == CountIn(a, c))
    && (forall i :: |a| <= i < |b| ==> AmongFirst(budgets, n, b[i].cluster))
  }

  predicate AmongFirst(budgets: seq<(string, int)>, n: nat, c: string)
    requires n <= |budgets|
  {
    exists k :: 0 <= k < n && budgets[k].0 == c
  }

  ghost predicate Distinct(budgets: seq<(string, int)>) {
    forall m, n :: 0 <= m < n < |budgets| ==> budgets[m].0 != budgets[n].0
  }

  lemma AmongFirstNext(budgets: seq<(string, int)>, n: nat, c: string)
    requires n < |budgets|
    ensures AmongFirst(budgets, n + 1, c) <==> AmongFirst(budgets, n, c) || budgets[n].0 == c
  {
  }

  /** Filling one more cluster. */
  lemma FillNext(a: seq<Room>, b: seq<Room>, c: seq<Room>, g: set<string>, h: set<string>,
                 budgets: seq<(string, int)>, n: nat)
    requires n < |budgets| && Distinct(budgets) && Sound(a, b, g) && Sound(b, c, h) && Budgeted(a, b, budgets, n)
    requires GrownBy(b, c, budgets[n].0, Max(0, budgets[n].1 - CountIn(b, budgets[n].0)))
    ensures Sound(a, c, g + h) && Budgeted(a, c, budgets, n + 1)
  {
    SoundTransitive(a, b, c, g, h);
    BudgetedNext(a, b, c, budgets, n);
  }

  /** What is so of the rooms and the indexes when the first `n` budgeted clusters of `a` have been filled. */
  ghost predicate FilledFrom(a: seq<Room>, b: seq<Room>, known: set<string>, lists: map<string, seq<string>>,
                             hung: set<string>, budgets: seq<(string, int)>, n: nat, zone: string)
    requires n <= |budgets|
  {
    && Sound(a, b, hung) && Budgeted(a, b, budgets, n) && OnlySeeds(IdsOf(a), known, zone)
    && forall k :: n <= k < |budgets| ==> ListOf(lists, budgets[k].0) == IdsIn(a, budgets[k].0)
  }

  /** One cluster is brought to its budget: so many rooms more, and nothing lost. */
  ghost predicate Fills(a: seq<Room>, b: seq<Room>, hung: set<string>, budget: (string, int)) {
    Sound(a, b, hung) && GrownBy(a, b, budget.0, Max(0, budget.1 - CountIn(a, budget.0)))
  }

  /** What the new rooms of a cluster are hung on: the room to pick, or else the hub and a seed. */
  ghost predicate HungFor(a: seq<Room>, hung: set<string>, budget: (string, int), hub: string, keys: seq<KeyRoom>,
                          known: set<string>)
  {
    var (cid, target) := budget;
    HungRight(hung, target > CountIn(a, cid), Anchor(cid, keys, known, IdsIn(a, cid)), hub)
  }

  lemma FilledNext(a: seq<Room>, b: seq<Room>, c: seq<Room>, known: set<string>, more: set<string>,
                   lists: map<string, seq<string>>, next: map<string, seq<string>>, g: set<string>, h: set<string>,
                   budgets: seq<(string, int)>, n: nat, zone: string)
    requires n < |budgets| && Distinct(budgets) && FilledFrom(a, b, known, lists, g, budgets, n, zone)
    requires Fills(b, c, h, budgets[n]) && OnlySeeds(known, more, zone)
    requires OthersSame(lists, next, budgets[n].0)
    ensures FilledFrom(a, c, more, next, g + h, budgets, n + 1, zone)
  {
    FillNext(a, b, c, g, h, budgets, n);
  }

  lemma BudgetedNext(a: seq<Room>, b: seq<Room>, c: seq<Room>, budgets: seq<(string, int)>, n: nat)
    requires n < |budgets| && Distinct(budgets) && Extends(a, b) && Extends(b, c) && Budgeted(a, b, budgets, n)
    requires GrownBy(b, c, budgets[n].0, Max(0, budgets[n].1 - CountIn(b, budgets[n].0)))
    ensures Budgeted(a, c, budgets, n + 1)
  {
    forall x
      ensures AmongFirst(budgets, n + 1, x) <==> AmongFirst(budgets, n, x) || budgets[n].0 == x
    {
      AmongFirstNext(budgets, n, x);
    }
    assert !AmongFirst(budgets, n, budgets[n].0);
    assert CountIn(b, budgets[n].0) == CountIn(a, budgets[n].0);
    forall k | 0 <= k < n
      ensures CountIn(c, budgets[k].0) == CountIn(b, budgets[k].0)
    {
    }
    forall i | |a| <= i < |c|
      ensures AmongFirst(budgets, n + 1, c[i].cluster)
    {
      assert i < |b| ==> AmongFirst(budgets, n, b[i].cluster);
    }
  }

  /** All that adding a loop of fillers does to an area. */
  lemma LoopGrows(a: seq<Room>, i: nat, ex: Exit, cid: string, fillers: seq<string>, grown: seq<Room>)
    requires i < |a| && fillers != [] && NewExitTo(ex, fillers[0]) && Fresh(fillers, "R_", IdsOf(a))
    requires grown == WithExit(a, i, ex) + Fillers(cid, a[i].id, fillers)
    ensures Sound(a, grown, {a[i].id}) && GrownBy(a, grown, cid, |fillers|)
    ensures IdsOf(grown) == IdsOf(a) + Members(fillers)
    ensures grown[|a|..] == Fillers(cid, a[i].id, fillers) && LoopTied(grown, fillers, a[i].id)
  {
    LoopIsSound(a, i, ex, cid, fillers);
    assert Fresh(fillers, "R_", {});
    FillersAreChain(cid, a[i].id, fillers);
    LoopCounts(a, i, ex, cid, fillers);
  }

  ghost predicate IndexRight(byId: map<string, nat>, rooms: seq<Room>) {
    forall id :: id in byId ==> IsLast(rooms, id, byId[id])
  }

  /** The last room with the id. */
  ghost predicate IsLast(rooms: seq<Room>, id: string, i: nat) {
    i < |rooms| && rooms[i].id == id && forall j :: i < j < |rooms| ==> rooms[j].id != id
  }

  function LastIndex(rooms: seq<Room>, id: string): (i: nat)
    ensures rooms != [] ==> i < |rooms|
  {
    if rooms == [] then 0
    else if rooms[|rooms| - 1].id == id then |rooms| - 1
    else LastIndex(rooms[..|rooms| - 1], id)
  }

  lemma {:induction false} LastIndexIs(rooms: seq<Room>, id: string, i: nat)
    requires IsLast(rooms, id, i)
    ensures LastIndex(rooms, id) == i
  {
    if rooms[|rooms| - 1].id != id {
      LastIndexIs(rooms[..|rooms| - 1], id, i);
    }
  }

  // What filling adds, room by room.

  predicate Named(tokens: map<string, string>, budgets: seq<(string, int)>) {
    forall n :: 0 <= n < |budgets| ==> budgets[n].0 in tokens
  }

  /** New rooms behind the area, with an exit to the first of them from the room with an id. */
  function HungOn(rooms: seq<Room>, id: string, dir: string, news: seq<Room>): seq<Room>
    requires rooms != [] && news != []
  {
    WithExit(rooms, LastIndex(rooms, id), Exit(dir, news[0].id, 1, false)) + news
  }

  function SeedRoom(seedId: string, cid: string, hub: string): Room {
    Room(seedId, cid, [Exit("back", hub, 1, false)])
  }

  /**
   * The area with `need` more rooms in a cluster: a loop of fillers hung on the room picked, or else a
   * seed hung on the hub and a loop of one filler less hung on the seed.
   */
  function Grown(a: seq<Room>, picked: Option<string>, hub: string, cid: string, need: nat, prefix: string, mx: nat,
                 token: string): seq<Room>
    requires a != [] && need > 0
  {
    var width, wander := Max(2, |Digits(mx + need)|), "wander_" + Lower(token);
    if picked.Some? then
      HungOn(a, picked.value, wander, Fillers(cid, picked.value, FillerNames(prefix, mx + 1, width, need)))
    else
      var seedId := Numbered(prefix, mx + 1, width);
      var seeded := HungOn(a, hub, "to_" + Lower(token), [SeedRoom(seedId, cid, hub)]);
      if need == 1 then seeded
      else HungOn(seeded, seedId, wander, Fillers(cid, seedId, FillerNames(prefix, mx + 2, width, need - 1)))
  }

  /**
   * An area on its way to being filled: its rooms, the ids that key rooms are looked up among, and the
   * number that the ids of the rooms added last were numbered on from.
   */
  datatype Stage = Stage(rooms: seq<Room>, known: set<string>, top: nat)

  function SeedsOf(picked: Option<string>, need: int, prefix: string, mx: nat): set<string> {
    if picked.Some? || need <= 0 then {} else {Numbered(prefix, mx + 1, Max(2, |Digits(mx + need)|))}
  }

  /** The area grows by what a cluster lacks, with ids numbered on from the largest in use. */
  ghost predicate GrownRight(s: Stage, t: Stage, picked: Option<string>, hub: string, cid: string, need: nat,
                             prefix: string, token: string)
    requires need > 0
  {
    && s.rooms != [] && IsMaxSuffix(t.top, prefix, IdsOf(s.rooms))
    && t.rooms == Grown(s.rooms, picked, hub, cid, need, prefix, t.top, token)
    && t.known == s.known + SeedsOf(picked, need, prefix, t.top)
  }

  /** One cluster is filled: nothing happens when it has enough rooms, and else the area grows by what it lacks. */
  ghost predicate ClusterFilled(a: seq<Room>, s: Stage, t: Stage, budget: (string, int), hub: string, zone: string,
                                token: string, keys: seq<KeyRoom>)
  {
    var (cid, target) := budget;
    var need, picked := target - CountIn(a, cid), Anchor(cid, keys, s.known, IdsIn(a, cid));
    if need <= 0 then t == s else GrownRight(s, t, picked, hub, cid, need, "R_" + zone + "_" + token + "_", token)
  }

  /** The clusters are filled one after the other, in the order of the budgets. */
  ghost predicate AllFilled(a: seq<Room>, stages: seq<Stage>, budgets: seq<(string, int)>, hub: string, zone: string,
                            tokens: map<string, string>, keys: seq<KeyRoom>)
    requires Named(tokens, budgets)
  {
    && 0 < |stages| <= |budgets| + 1 && stages[0] == Stage(a, IdsOf(a), 0)
    && forall n :: 0 <= n < |stages| - 1 ==>
         ClusterFilled(a, stages[n], stages[n + 1], budgets[n], hub, zone, tokens[budgets[n].0], keys)
  }

  lemma OneMoreFilled(a: seq<Room>, stages: seq<Stage>, last: Stage, next: Stage, budgets: seq<(string, int)>,
                      n: nat, hub: string, zone: string, tokens: map<string, string>, token: string, keys: seq<KeyRoom>)
    requires Named(tokens, budgets) && AllFilled(a, stages, budgets, hub, zone, tokens, keys)
    requires n < |budgets| && |stages| == n + 1 && stages[n] == last && token == tokens[budgets[n].0]
    requires ClusterFilled(a, last, next, budgets[n], hub, zone, token, keys)
    ensures AllFilled(a, stages + [next], budgets, hub, zone, tokens, keys)
  {
  }

  ghost predicate ListsRight(byCluster: map<string, seq<string>>, known: set<string>) {
    forall c, n :: c in byCluster && 0 <= n < |byCluster[c]| ==> byCluster[c][n] in known
  }

  function ListOf(byCluster: map<string, seq<string>>, cid: string): seq<string> {
    if cid in byCluster then byCluster[cid] else []
  }

  /** The lists of other clusters are as they were. */
  ghost predicate OthersSame(lists: map<string, seq<string>>, next: map<string, seq<string>>, cid: string) {
    forall c :: c != cid ==> ListOf(next, c) == ListOf(lists, c)
  }

  lemma ListsNext(byCluster: map<string, seq<string>>, known: set<string>, cid: string, id: string)
    requires ListsRight(byCluster, known)
    ensures ListsRight(byCluster[cid := ListOf(byCluster, cid) + [id]], known + {id})
  {
  }

  lemma IndexStays(byId: map<string, nat>, a: seq<Room>, b: seq<Room>)
    requires IndexRight(byId, a) && Extends(a, b) && forall j :: |a| <= j < |b| ==> b[j].id !in byId
    ensures IndexRight(byId, b)
  {
  }

  lemma StemIsPlain(zone: string, token: string)
    ensures "R_" <= Stem(zone) + token + "_"
  {
  }

  lemma StemFirst(zone: string, token: string, known: set<string>, id: string)
    requires Stem(zone) + token + "_" <= id
    ensures OnlySeeds(known, known + {id}, zone)
  {
    assert Stem(zone) <= Stem(zone) + token + "_";
  }

  lemma SeedThenFill(a: seq<Room>, b: seq<Room>, c: seq<Room>, hub: string, seedId: string, cid: string, need: nat)
    requires need > 1 && Sound(a, b, {hub}) && Sound(b, c, {seedId})
    requires GrownBy(a, b, cid, 1) && GrownBy(b, c, cid, need - 1)
    ensures Sound(a, c, {hub} + {seedId}) && GrownBy(a, c, cid, need)
  {
    SoundTransitive(a, b, c, {hub}, {seedId});
    GrownTwice(a, b, c, cid, 1, need - 1);
  }

  lemma NothingGrown(a: seq<Room>, cid: string)
    ensures Sound(a, a, {}) && GrownBy(a, a, cid, 0)
  {
    SoundItself(a);
  }

  lemma BudgetedNone(a: seq<Room>, budgets: seq<(string, int)>)
    ensures Budgeted(a, a, budgets, 0)
  {
  }

  /** What new rooms of a cluster are hung on: the room picked, or else the hub and a seed. */
  predicate HungRight(hung: set<string>, under: bool, picked: Option<string>, hub: string) {
    if !under then hung == {}
    else if picked.Some? then hung == {picked.value}
    else hub in hung && forall x :: x in hung ==> x == hub || Plain(x)
  }

  lemma SeedIsSound(a: seq<Room>, i: nat, ex: Exit, room: Room)
    requires i < |a| && room.id !in IdsOf(a) && Plain(room.id) && NewExitTo(ex, room.id)
    requires room.exits == [Exit("back", a[i].id, 1, false)]
    ensures var b := WithExit(a, i, ex) + [room];
      Sound(a, b, {a[i].id}) && BothWays(b, room.id, a[i].id) && IdsOf(b) == IdsOf(a) + {room.id}
  {
    assert LeadsTo(room, room.exits[0].to);
    assert Chain(a[i].id, [room]);
    ChainIsSound(a, i, ex, [room]);
    ChainHangs(a, i, ex, [room]);
    ChainKeepsIds(a, i, ex, [room]);
    assert [room][0].id == room.id && IdsOf([room]) == {room.id};
  }

  /** All that adding a seed does to an area. */
  lemma SeedGrows(a: seq<Room>, i: nat, ex: Exit, room: Room, grown: seq<Room>)
    requires i < |a| && room.id !in IdsOf(a) && Plain(room.id) && NewExitTo(ex, room.id)
    requires room.exits == [Exit("back", a[i].id, 1, false)] && grown == WithExit(a, i, ex) + [room]
    ensures Sound(a, grown, {a[i].id}) && GrownBy(a, grown, room.cluster, 1)
    ensures IdsOf(grown) == IdsOf(a) + {room.id} && BothWays(grown, room.id, a[i].id)
    ensures |grown| == |a| + 1 && grown[|a|..] == [room]
  {
    SeedIsSound(a, i, ex, room);
    ChainGrows(a, i, ex, [room], room.cluster);
  }

  lemma KnownIds(byId: map<string, nat>, rooms: seq<Room>)
    requires IndexRight(byId, rooms)
    ensures forall id :: id in byId ==> id in IdsOf(rooms)
  {
  }

  lemma LoopIndexStays(byId: map<string, nat>, a: seq<Room>, anchor: string, dir: string, cid: string,
                       fillers: seq<string>)
    requires a != [] && fillers != [] && IndexRight(byId, a) && Fresh(fillers, "R_", IdsOf(a))
    ensures IndexRight(byId, HungOn(a, anchor, dir, Fillers(cid, anchor, fillers)))
  {
    var news := Fillers(cid, anchor, fillers);
    var b := HungOn(a, anchor, dir, news);
    HungBehind(a, anchor, dir, news);
    KnownIds(byId, a);
    forall j | |a| <= j < |b|
      ensures b[j].id !in byId
    {
      assert b[j] == news[j - |a|] && news[j - |a|].id == fillers[j - |a|];
    }
    IndexStays(byId, a, b);
  }

  /** The old rooms are still in front, and the new ones behind them. */
  lemma HungBehind(a: seq<Room>, id: string, dir: string, news: seq<Room>)
    requires a != [] && news != []
    ensures var b := HungOn(a, id, dir, news); Extends(a, b) && |b| == |a| + |news| && b[|a|..] == news
  {
  }

  lemma LastSoFar(byId: map<string, nat>, front: seq<Room>, r: Room)
    requires IndexRight(byId, front)
    ensures IndexRight(byId[r.id := |front|], front + [r])
  {
  }

  lemma IndexNextRoom(byId: map<string, nat>, a: seq<Room>, b: seq<Room>, id: string)
    requires IndexRight(byId, a) && Extends(a, b) && |b| == |a| + 1 && b[|a|].id == id && id !in byId
    ensures IndexRight(byId[id := |a|], b)
  {
  }

  lemma LastIndexHas(rooms: seq<Room>, id: string)
    requires id in IdsOf(rooms)
    ensures rooms != [] && rooms[LastIndex(rooms, id)].id == id
  {
    var i :| 0 <= i < |rooms| && rooms[i].id == id;
    LastIndexAt(rooms, id, i);
  }

  lemma {:induction false} LastIndexAt(rooms: seq<Room>, id: string, i: nat)
    requires i < |rooms| && rooms[i].id == id
    ensures rooms[LastIndex(rooms, id)].id == id
  {
    if rooms[|rooms| - 1].id != id {
      LastIndexAt(rooms[..|rooms| - 1], id, i);
    }
  }

  /** A loop hung on a room: nothing is lost, the cluster has so many rooms more, and each can walk back. */
  lemma HungLoop(a: seq<Room>, anchor: string, dir: string, cid: string, fillers: seq<string>)
    requires anchor in IdsOf(a) && fillers != [] && Plain(dir) && Fresh(fillers, "R_", IdsOf(a))
    ensures a != []
    ensures var b := HungOn(a, anchor, dir, Fillers(cid, anchor, fillers));
      && Sound(a, b, {anchor}) && GrownBy(a, b, cid, |fillers|) && IdsOf(b) == IdsOf(a) + Members(fillers)
      && LoopTied(b, fillers, anchor)
  {
    LastIndexHas(a, anchor);
    var i, ex := LastIndex(a, anchor), Exit(dir, fillers[0], 1, false);
    assert Fillers(cid, anchor, fillers)[0].id == fillers[0];
    LoopGrows(a, i, ex, cid, fillers, WithExit(a, i, ex) + Fillers(cid, anchor, fillers));
  }

  /** A seed hung on the hub: nothing is lost, and one can walk to the hub and back. */
  lemma HungSeed(a: seq<Room>, hub: string, dir: string, seedId: string, cid: string)
    requires hub in IdsOf(a) && seedId !in IdsOf(a) && Plain(seedId) && Plain(dir)
    ensures a != []
    ensures var b := HungOn(a, hub, dir, [SeedRoom(seedId, cid, hub)]);
      && Sound(a, b, {hub}) && GrownBy(a, b, cid, 1) && IdsOf(b) == IdsOf(a) + {seedId}
      && BothWays(b, seedId, hub)
  {
    LastIndexHas(a, hub);
    var i, ex, room := LastIndex(a, hub), Exit(dir, seedId, 1, false), SeedRoom(seedId, cid, hub);
    SeedGrows(a, i, ex, room, WithExit(a, i, ex) + [room]);
  }

  /** The rooms that new rooms of a cluster are hung on. */
  function HungBy(picked: Option<string>, hub: string, need: nat, prefix: string, mx: nat): set<string> {
    if picked.Some? then {picked.value}
    else if need == 1 then {hub}
    else {hub} + {Numbered(prefix, mx + 1, Max(2, |Digits(mx + need)|))}
  }

  lemma PlainUnder(prefix: string, n: nat, width: nat)
    requires "R_" <= prefix
    ensures Plain(Numbered(prefix, n, width)) && prefix <= Numbered(prefix, n, width)
  {
  }

  lemma LoweredIsPlain(token: string)
    ensures Plain("wander_" + Lower(token)) && Plain("to_" + Lower(token))
  {
  }

  /** The area grown by what a cluster lacks is the area with so many rooms more in it, and nothing lost. */
  lemma GrownIsSound(a: seq<Room>, picked: Option<string>, hub: string, cid: string, need: nat, prefix: string,
                     mx: nat, token: string)
    requires need > 0 && hub in IdsOf(a) && (picked.Some? ==> picked.value in IdsOf(a))
    requires "R_" <= prefix && Bounds(mx, prefix, IdsOf(a))
    ensures a != []
    ensures var b, hung := Grown(a, picked, hub, cid, need, prefix, mx, token), HungBy(picked, hub, need, prefix, mx);
      Sound(a, b, hung) && GrownBy(a, b, cid, need) && HungRight(hung, true, picked, hub)
  {
    var width := Max(2, |Digits(mx + need)|);
    LoweredIsPlain(token);
    if picked.Some? {
      GrownByLoop(a, picked.value, "wander_" + Lower(token), cid, need, prefix, mx, width);
    } else {
      GrownBySeed(a, hub, cid, need, prefix, mx, token);
    }
  }

  lemma GrownByLoop(a: seq<Room>, anchor: string, dir: string, cid: string, need: nat, prefix: string, top: nat,
                    width: nat)
    requires need > 0 && anchor in IdsOf(a) && Plain(dir) && "R_" <= prefix && Bounds(top, prefix, IdsOf(a))
    ensures a != []
    ensures var b := HungOn(a, anchor, dir, Fillers(cid, anchor, FillerNames(prefix, top + 1, width, need)));
      Sound(a, b, {anchor}) && GrownBy(a, b, cid, need)
  {
    var fillers := FillerNames(prefix, top + 1, width, need);
    NamesAreFresh(prefix, top + 1, width, need, top, IdsOf(a));
    FreshUnderShorterPrefix(fillers, prefix, IdsOf(a));
    HungLoop(a, anchor, dir, cid, fillers);
  }

  lemma GrownBySeed(a: seq<Room>, hub: string, cid: string, need: nat, prefix: string, mx: nat, token: string)
    requires need > 0 && hub in IdsOf(a) && "R_" <= prefix && Bounds(mx, prefix, IdsOf(a))
    ensures a != []
    ensures var b, hung := Grown(a, None, hub, cid, need, prefix, mx, token), HungBy(None, hub, need, prefix, mx);
      Sound(a, b, hung) && GrownBy(a, b, cid, need) && HungRight(hung, true, None, hub)
  {
    var width := Max(2, |Digits(mx + need)|);
    var seedId := Numbered(prefix, mx + 1, width);
    LoweredIsPlain(token);
    PlainUnder(prefix, mx + 1, width);
    NumberedIsNew(mx, prefix, IdsOf(a), mx + 1, width);
    HungSeed(a, hub, "to_" + Lower(token), seedId, cid);
    var seeded := HungOn(a, hub, "to_" + Lower(token), [SeedRoom(seedId, cid, hub)]);
    SeedFirst(a, hub, cid, need, prefix, mx, token, seeded);
    GrownBeyondSeed(a, seeded, Grown(a, None, hub, cid, need, prefix, mx, token), hub, cid, need, prefix, mx, width,
                    "wander_" + Lower(token));
    HungByIsRight(None, hub, need, prefix, mx);
  }

  ghost predicate SeedGrown(b: seq<Room>, seeded: seq<Room>, seedId: string, cid: string, need: nat, prefix: string,
                            mx: nat, width: nat, dir: string)
    requires seeded != [] && need > 0
  {
    b == if need == 1 then seeded
         else HungOn(seeded, seedId, dir, Fillers(cid, seedId, FillerNames(prefix, mx + 2, width, need - 1)))
  }

  /** With nothing to pick, the area grows by a seed and then by the loop through it. */
  lemma SeedFirst(a: seq<Room>, hub: string, cid: string, need: nat, prefix: string, mx: nat, token: string,
                  seeded: seq<Room>)
    requires a != [] && need > 0
    requires var seedId := Numbered(prefix, mx + 1, Max(2, |Digits(mx + need)|));
      seeded == HungOn(a, hub, "to_" + Lower(token), [SeedRoom(seedId, cid, hub)])
    ensures seeded != []
    ensures var width := Max(2, |Digits(mx + need)|);
      SeedGrown(Grown(a, None, hub, cid, need, prefix, mx, token), seeded, Numbered(prefix, mx + 1, width), cid, need,
                prefix, mx, width, "wander_" + Lower(token))
  {
  }

  lemma GrownBeyondSeed(a: seq<Room>, seeded: seq<Room>, b: seq<Room>, hub: string, cid: string, need: nat,
                        prefix: string, mx: nat, width: nat, dir: string)
    requires need > 0 && "R_" <= prefix && Bounds(mx, prefix, IdsOf(a)) && Plain(dir) && seeded != []
    requires width == Max(2, |Digits(mx + need)|)
    requires var seedId := Numbered(prefix, mx + 1, width);
      && Sound(a, seeded, {hub}) && GrownBy(a, seeded, cid, 1) && IdsOf(seeded) == IdsOf(a) + {seedId}
      && SeedGrown(b, seeded, seedId, cid, need, prefix, mx, width, dir)
    ensures Sound(a, b, HungBy(None, hub, need, prefix, mx)) && GrownBy(a, b, cid, need)
  {
    var seedId := Numbered(prefix, mx + 1, width);
    if need > 1 {
      SeedMovesBound(mx, prefix, width, IdsOf(a), mx + 1);
      GrownByLoop(seeded, seedId, dir, cid, need - 1, prefix, mx + 1, width);
      SeedThenFill(a, seeded, b, hub, seedId, cid, need);
    }
  }

  lemma HungByIsRight(picked: Option<string>, hub: string, need: nat, prefix: string, mx: nat)
    requires "R_" <= prefix
    ensures HungRight(HungBy(picked, hub, need, prefix, mx), true, picked, hub)
  {
    PlainUnder(prefix, mx + 1, Max(2, |Digits(mx + need)|));
  }

  /** The ids of the rooms from the `n`th on. */
  function IdsFrom(rooms: seq<Room>, n: nat): seq<string>
    requires n <= |rooms|
  {
    seq(|rooms| - n, k requires 0 <= k < |rooms| - n => rooms[n + k].id)
  }

  lemma HungNames(a: seq<Room>, id: string, dir: string, cid: string, fillers: seq<string>)
    requires a != [] && fillers != []
    ensures var b := HungOn(a, id, dir, Fillers(cid, id, fillers));
      |b| == |a| + |fillers| && Extends(a, b) && IdsFrom(b, |a|) == fillers
  {
    var news := Fillers(cid, id, fillers);
    HungBehind(a, id, dir, news);
    NamesBehind(a, HungOn(a, id, dir, news), cid, id, fillers);
  }

  lemma NamesBehind(a: seq<Room>, b: seq<Room>, cid: string, id: string, fillers: seq<string>)
    requires |b| == |a| + |fillers| && b[|a|..] == Fillers(cid, id, fillers)
    ensures IdsFrom(b, |a|) == fillers
  {
    forall k | 0 <= k < |fillers|
      ensures IdsFrom(b, |a|)[k] == fillers[k]
    {
      assert b[|a| + k] == b[|a|..][k];
    }
  }

  lemma SeedName(a: seq<Room>, hub: string, dir: string, seedId: string, cid: string)
    requires a != []
    ensures var seeded := HungOn(a, hub, dir, [SeedRoom(seedId, cid, hub)]);
      && |seeded| == |a| + 1 && Extends(a, seeded) && IdsFrom(seeded, |a|) == [seedId]
      && seeded[|a|].exits == [Exit("back", hub, 1, false)]
  {
    var room := SeedRoom(seedId, cid, hub);
    HungBehind(a, hub, dir, [room]);
    var seeded := HungOn(a, hub, dir, [room]);
    assert seeded[|a|] == seeded[|a|..][0] == room;
  }

  lemma NamesJoin(a: seq<Room>, seeded: seq<Room>, b: seq<Room>, prefix: string, mx: nat, width: nat, need: nat)
    requires need > 0 && |seeded| == |a| + 1 && Extends(a, seeded) && Extends(seeded, b) && |b| == |a| + need
    requires IdsFrom(seeded, |a|) == [Numbered(prefix, mx + 1, width)]
    requires IdsFrom(b, |seeded|) == FillerNames(prefix, mx + 2, width, need - 1)
    ensures Extends(a, b) && IdsFrom(b, |a|) == FillerNames(prefix, mx + 1, width, need)
  {
    var ids, names := IdsFrom(b, |a|), FillerNames(prefix, mx + 1, width, need);
    forall k | 0 <= k < need
      ensures ids[k] == names[k]
    {
      if k == 0 {
        assert ids[0] == seeded[|a|].id == IdsFrom(seeded, |a|)[0];
      } else {
        assert ids[k] == IdsFrom(b, |seeded|)[k - 1] == FillerNames(prefix, mx + 2, width, need - 1)[k - 1];
      }
    }
  }

  /** The new rooms of a cluster are numbered on from the largest number in use. */
  lemma GrownNames(a: seq<Room>, picked: Option<string>, hub: string, cid: string, need: nat, prefix: string, mx: nat,
                   token: string, width: nat)
    requires a != [] && need > 0 && width == Max(2, |Digits(mx + need)|)
    ensures var b := Grown(a, picked, hub, cid, need, prefix, mx, token);
      |b| == |a| + need && Extends(a, b) && IdsFrom(b, |a|) == FillerNames(prefix, mx + 1, width, need)
  {
    var wander := "wander_" + Lower(token);
    if picked.Some? {
      HungNames(a, picked.value, wander, cid, FillerNames(prefix, mx + 1, width, need));
    } else {
      var seedId, dir := Numbered(prefix, mx + 1, width), "to_" + Lower(token);
      var seeded := HungOn(a, hub, dir, [SeedRoom(seedId, cid, hub)]);
      SeedName(a, hub, dir, seedId, cid);
      SeedFirst(a, hub, cid, need, prefix, mx, token, seeded);
      if need > 1 {
        HungNames(seeded, seedId, wander, cid, FillerNames(prefix, mx + 2, width, need - 1));
      }
      NamesJoin(a, seeded, Grown(a, None, hub, cid, need, prefix, mx, token), prefix, mx, width, need);
    }
  }

  lemma NameAt(a: seq<Room>, b: seq<Room>, prefix: string, from: nat, width: nat, need: nat, k: nat)
    requires |b| == |a| + need && k < need && IdsFrom(b, |a|) == FillerNames(prefix, from, width, need)
    ensures b[|a| + k].id == Numbered(prefix, from + k, width)
  {
    assert IdsFrom(b, |a|)[k] == FillerNames(prefix, from, width, need)[k];
  }

  /**
   * The ids of the new rooms, read: the prefix and the numbers after the largest in use, all of one length, the
   * last without zeros before it, but for one before a single digit.
   */
  lemma GrownIds(a: seq<Room>, picked: Option<string>, hub: string, cid: string, need: nat, prefix: string, mx: nat,
                 token: string, k: nat)
    requires a != [] && k < need
    ensures var b := Grown(a, picked, hub, cid, need, prefix, mx, token);
      && |b| == |a| + need
      && b[|b| - 1].id == prefix + (if mx + need < 10 then "0" else "") + Digits(mx + need)
      && HasNumber(b[|a| + k].id, prefix, mx + 1 + k) && |b[|a| + k].id| == |b[|b| - 1].id|
  {
    GrownNames(a, picked, hub, cid, need, prefix, mx, token, Max(2, |Digits(mx + need)|));
    IdsRead(a, Grown(a, picked, hub, cid, need, prefix, mx, token), need, prefix, mx, k);
  }

  lemma IdsRead(a: seq<Room>, b: seq<Room>, need: nat, prefix: string, mx: nat, k: nat)
    requires k < need && |b| == |a| + need
    requires IdsFrom(b, |a|) == FillerNames(prefix, mx + 1, Max(2, |Digits(mx + need)|), need)
    ensures b[|b| - 1].id == prefix + (if mx + need < 10 then "0" else "") + Digits(mx + need)
    ensures HasNumber(b[|a| + k].id, prefix, mx + 1 + k) && |b[|a| + k].id| == |b[|b| - 1].id|
  {
    var width := Max(2, |Digits(mx + need)|);
    var last, id := b[|b| - 1].id, b[|a| + k].id;
    assert last == Numbered(prefix, mx + need, width) by {
      NameAt(a, b, prefix, mx + 1, width, need, need - 1);
    }
    assert id == Numbered(prefix, mx + 1 + k, width) by {
      NameAt(a, b, prefix, mx + 1, width, need, k);
    }
    NamesRead(last, id, prefix, mx + 1 + k, mx + need);
  }

  lemma NamesRead(last: string, id: string, prefix: string, n: nat, top: nat)
    requires n <= top && last == Numbered(prefix, top, Max(2, |Digits(top)|))
    requires id == Numbered(prefix, n, Max(2, |Digits(top)|))
    ensures last == prefix + (if top < 10 then "0" else "") + Digits(top) && HasNumber(id, prefix, n) && |id| == |last|
  {
    NumberReadsBack(prefix, n, Max(2, |Digits(top)|));
    PaddedAlike(prefix, top, top);
    PaddedAlike(prefix, n, top);
  }

  /** A room with the id has an exit with a name to another. */
  ghost predicate LeadsBy(rooms: seq<Room>, id: string, dir: string, to: string) {
    exists i: nat, j: nat :: ExitLeads(rooms, i, j, to) && rooms[i].id == id && rooms[i].exits[j].dir == dir
  }

  lemma LeadsByGrows(a: seq<Room>, b: seq<Room>, id: string, dir: string, to: string)
    requires Extends(a, b) && LeadsBy(a, id, dir, to)
    ensures LeadsBy(b, id, dir, to)
  {
    var i: nat, j: nat :| ExitLeads(a, i, j, to) && a[i].id == id && a[i].exits[j].dir == dir;
    assert ExitLeads(b, i, j, to) && b[i].exits[j] == a[i].exits[j];
  }

  lemma HungLeads(a: seq<Room>, id: string, dir: string, news: seq<Room>)
    requires id in IdsOf(a) && news != []
    ensures a != [] && LeadsBy(HungOn(a, id, dir, news), id, dir, news[0].id)
  {
    LastIndexHas(a, id);
    var i, ex, b := LastIndex(a, id), Exit(dir, news[0].id, 1, false), HungOn(a, id, dir, news);
    if HasExit(a[i].exits, ex) {
      var j :| 0 <= j < |a[i].exits| && a[i].exits[j].dir == dir && a[i].exits[j].to == ex.to;
      assert ExitLeads(b, i, j, ex.to) && b[i].id == id;
    } else {
      assert ExitLeads(b, i, |a[i].exits|, ex.to) && b[i].id == id;
    }
  }

  /**
   * The ways to the new rooms and back: `wander_` and the token from the room picked to the first of the loop;
   * with none to pick, `to_` and the token from the hub to the seed, `back` from there, and the loop on the seed.
   */
  lemma GrownLeads(a: seq<Room>, picked: Option<string>, hub: string, cid: string, need: nat, prefix: string, mx: nat,
                   token: string)
    requires need > 0 && hub in IdsOf(a) && (picked.Some? ==> picked.value in IdsOf(a))
    ensures a != [] && |Grown(a, picked, hub, cid, need, prefix, mx, token)| == |a| + need
    ensures var b := Grown(a, picked, hub, cid, need, prefix, mx, token);
      if picked.Some? then LeadsBy(b, picked.value, "wander_" + Lower(token), b[|a|].id)
      else
        && LeadsBy(b, hub, "to_" + Lower(token), b[|a|].id) && LeadsBy(b, b[|a|].id, "back", hub)
        && (need > 1 ==> LeadsBy(b, b[|a|].id, "wander_" + Lower(token), b[|a| + 1].id))
  {
    var width := Max(2, |Digits(mx + need)|);
    LastIndexHas(a, hub);
    GrownNames(a, picked, hub, cid, need, prefix, mx, token, width);
    if picked.Some? {
      var names := FillerNames(prefix, mx + 1, width, need);
      NameAt(a, Grown(a, picked, hub, cid, need, prefix, mx, token), prefix, mx + 1, width, need, 0);
      HungLeads(a, picked.value, "wander_" + Lower(token), Fillers(cid, picked.value, names));
    } else {
      SeedLeads(a, hub, cid, need, prefix, mx, token, width);
    }
  }

  lemma SeedLeads(a: seq<Room>, hub: string, cid: string, need: nat, prefix: string, mx: nat, token: string, width: nat)
    requires a != [] && need > 0 && hub in IdsOf(a) && width == Max(2, |Digits(mx + need)|)
    requires var b := Grown(a, None, hub, cid, need, prefix, mx, token);
      |b| == |a| + need && IdsFrom(b, |a|) == FillerNames(prefix, mx + 1, width, need)
    ensures var b := Grown(a, None, hub, cid, need, prefix, mx, token);
      && LeadsBy(b, hub, "to_" + Lower(token), b[|a|].id) && LeadsBy(b, b[|a|].id, "back", hub)
      && (need > 1 ==> LeadsBy(b, b[|a|].id, "wander_" + Lower(token), b[|a| + 1].id))
  {
    var b := Grown(a, None, hub, cid, need, prefix, mx, token);
    var seedId, dir := Numbered(prefix, mx + 1, width), "to_" + Lower(token);
    var seeded := HungOn(a, hub, dir, [SeedRoom(seedId, cid, hub)]);
    NameAt(a, b, prefix, mx + 1, width, need, 0);
    HungLeads(a, hub, dir, [SeedRoom(seedId, cid, hub)]);
    SeedName(a, hub, dir, seedId, cid);
    assert seeded[|a|].id == IdsFrom(seeded, |a|)[0] == seedId;
    assert ExitLeads(seeded, |a|, 0, hub) && LeadsBy(seeded, seedId, "back", hub);
    SeedFirst(a, hub, cid, need, prefix, mx, token, seeded);
    if need > 1 {
      NameAt(a, b, prefix, mx + 1, width, need, 1);
      var names := FillerNames(prefix, mx + 2, width, need - 1);
      LoopOnSeed(seeded, b, seedId, hub, dir, "wander_" + Lower(token), cid, names);
    }
  }

  lemma LoopOnSeed(seeded: seq<Room>, b: seq<Room>, seedId: string, hub: string, dir: string, wander: string,
                   cid: string, names: seq<string>)
    requires LeadsBy(seeded, hub, dir, seedId) && LeadsBy(seeded, seedId, "back", hub) && seedId in IdsOf(seeded)
    requires names != [] && seeded != [] && b == HungOn(seeded, seedId, wander, Fillers(cid, seedId, names))
    ensures LeadsBy(b, hub, dir, seedId) && LeadsBy(b, seedId, "back", hub) && LeadsBy(b, seedId, wander, names[0])
  {
    HungNames(seeded, seedId, wander, cid, names);
    HungLeads(seeded, seedId, wander, Fillers(cid, seedId, names));
    LeadsByGrows(seeded, b, hub, dir, seedId);
    LeadsByGrows(seeded, b, seedId, "back", hub);
  }

  /** A cluster grown as it should be has its budget, with nothing lost, on the room to pick or the hub. */
  lemma ClusterFills(a: seq<Room>, s: Stage, t: Stage, picked: Option<string>, budget: (string, int), need: nat,
                     hub: string, prefix: string, token: string, keys: seq<KeyRoom>)
    returns (hung: set<string>)
    requires hub in IdsOf(s.rooms) && (picked.Some? ==> picked.value in IdsOf(s.rooms))
    requires CountIn(s.rooms, budget.0) == CountIn(a, budget.0) && 0 < need == budget.1 - CountIn(a, budget.0)
    requires picked == Anchor(budget.0, keys, s.known, IdsIn(a, budget.0)) && "R_" <= prefix
    requires GrownRight(s, t, picked, hub, budget.0, need, prefix, token)
    ensures Fills(s.rooms, t.rooms, hung, budget) && HungFor(a, hung, budget, hub, keys, s.known)
  {
    GrownIsSound(s.rooms, picked, hub, budget.0, need, prefix, t.top, token);
    hung := HungBy(picked, hub, need, prefix, t.top);
  }

  lemma GrownIsFilled(a: seq<Room>, s: Stage, t: Stage, picked: Option<string>, budget: (string, int), need: nat,
                      hub: string, prefix: string, zone: string, token: string, keys: seq<KeyRoom>)
    requires 0 < need == budget.1 - CountIn(a, budget.0) && prefix == Stem(zone) + token + "_"
    requires picked == Anchor(budget.0, keys, s.known, IdsIn(a, budget.0))
    requires GrownRight(s, t, picked, hub, budget.0, need, prefix, token)
    ensures ClusterFilled(a, s, t, budget, hub, zone, token, keys)
  {
  }

  /** The area file being filled, with the indexes kept beside it. */
  class Area {
    var rooms: seq<Room>
    var byId: map<string, nat>
    var byCluster: map<string, seq<string>>
    var ids: set<string>

    /** The indexes agree with the rooms; `byId` and `byCluster` need not have the filler rooms. */
    ghost predicate Valid()
      reads this
    {
      ids == IdsOf(rooms) && IndexRight(byId, rooms) && ListsRight(byCluster, byId.Keys)
    }

    /** The area is at the stage. */
    ghost predicate At(s: Stage)
      reads this
    {
      s.rooms == rooms && s.known == byId.Keys
    }

    function InCluster(cid: string): seq<string>
      reads this`byCluster
    {
      ListOf(byCluster, cid)
    }

    constructor (rooms: seq<Room>)
      ensures Valid() && this.rooms == rooms && byId.Keys == IdsOf(rooms)
      ensures forall c :: InCluster(c) == IdsIn(rooms, c)
    {
      this.rooms, byId, byCluster, ids := rooms, map[], map[], IdsOf(rooms);
      new;
      for i := 0 to |rooms|
        invariant this.rooms == rooms && ids == IdsOf(rooms)
        invariant Indexed(i)
      {
        IndexNext(i);
      }
      assert rooms[..|rooms|] == rooms;
    }

    /** The indexes are those of the first `i` rooms. */
    ghost predicate Indexed(i: nat)
      requires i <= |rooms|
      reads this
    {
      var front := rooms[..i];
      && byId.Keys == IdsOf(front) && IndexRight(byId, front) && ListsRight(byCluster, byId.Keys)
      && forall c :: InCluster(c) == IdsIn(front, c)
    }

    method IndexNext(i: nat)
      requires i < |rooms| && Indexed(i)
      modifies this`byId, this`byCluster
      ensures Indexed(i + 1)
    {
      var r := rooms[i];
      ghost var front := rooms[..i];
      assert rooms[..i + 1] == front + [r] && (front + [r])[..i] == front;
      IdsNext(front, r);
      LastSoFar(byId, front, r);
      ListsNext(byCluster, byId.Keys, r.cluster, r.id);
      byId := byId[r.id := i];
      byCluster := byCluster[r.cluster := InCluster(r.cluster) + [r.id]];
    }

    method PickAnchor(cid: string, keys: seq<KeyRoom>) returns (r: Option<string>)
      requires Valid()
      ensures r == Anchor(cid, keys, byId.Keys, InCluster(cid))
      ensures r.Some? ==> r.value in byId
    {
      var list := InCluster(cid);
      AnchorSpec(cid, keys, byId.Keys, list);
      for n := 0 to |keys|
        invariant FirstKey(keys, cid, byId.Keys) == FirstKey(keys[n..], cid, byId.Keys)
      {
        if keys[n].cluster == cid && keys[n].id in byId {
          return Some(keys[n].id);
        }
      }
      for n := 0 to |list|
        invariant FirstPortal(list) == FirstPortal(list[n..])
      {
        if "P_" <= list[n] {
          return Some(list[n]);
        }
      }
      return if list != [] then Some(list[0]) else None;
    }

    method PickHub(keys: seq<KeyRoom>, start: Option<string>) returns (r: string)
      requires Valid() && rooms != [] && rooms[0].id in byId
      ensures r == Hub(keys, start, byId.Keys, rooms[0].id) && r in byId
    {
      HubSpec(keys, start, byId.Keys, rooms[0].id);
      for n := 0 to |keys|
        invariant FirstHub(keys, byId.Keys) == FirstHub(keys[n..], byId.Keys)
      {
        if keys[n].id in byId && keys[n].hub {
          return keys[n].id;
        }
      }
      return if start.Some? && start.value in byId then start.value else rooms[0].id;
    }

    method EnsureExit(id: string, ex: Exit)
      requires id in byId && byId[id] < |rooms|
      modifies this`rooms
      ensures rooms == WithExit(old(rooms), byId[id], ex)
    {
      var exits := rooms[byId[id]].exits;
      for j := 0 to |exits|
        invariant rooms == old(rooms)
        invariant forall k :: 0 <= k < j ==> !(exits[k].dir == ex.dir && exits[k].to == ex.to)
      {
        if exits[j].dir == ex.dir && exits[j].to == ex.to {
          return;
        }
      }
      rooms := rooms[byId[id] := rooms[byId[id]].(exits := exits + [ex])];
    }

    /** An empty cluster gets a seed room, with a way to it from the hub and back. */
    method AddSeed(cid: string, seedId: string, dir: string, hub: string)
      requires Valid() && hub in byId && seedId !in ids && Plain(seedId) && Plain(dir)
      modifies this
      ensures Valid() && byId.Keys == old(byId.Keys) + {seedId} && ids == old(ids) + {seedId}
      ensures old(rooms) != [] && rooms == HungOn(old(rooms), hub, dir, [SeedRoom(seedId, cid, hub)])
      ensures BothWays(rooms, seedId, hub)
      ensures OthersSame(old(byCluster), byCluster, cid)
    {
      var ex, room := Exit(dir, seedId, 1, false), SeedRoom(seedId, cid, hub);
      KnownIds(byId, rooms);
      LastIndexIs(rooms, hub, byId[hub]);
      HungSeed(rooms, hub, dir, seedId, cid);
      IndexNextRoom(byId, rooms, HungOn(rooms, hub, dir, [room]), seedId);
      ListsNext(byCluster, byId.Keys, cid, seedId);
      HangSeed(ex, room, hub);
    }

    method HangSeed(ex: Exit, room: Room, hub: string)
      requires hub in byId && byId[hub] < |rooms|
      modifies this
      ensures rooms == WithExit(old(rooms), old(byId[hub]), ex) + [room] && ids == old(ids) + {room.id}
      ensures byId == old(byId)[room.id := |old(rooms)|]
      ensures byCluster == old(byCluster)[room.cluster := old(InCluster(room.cluster)) + [room.id]]
    {
      EnsureExit(hub, ex);
      rooms := rooms + [room];
      byId := byId[room.id := |rooms| - 1];
      byCluster := byCluster[room.cluster := InCluster(room.cluster) + [room.id]];
      ids := ids + {room.id};
    }

    /** A loop of filler rooms through the anchor, each of which can walk back to it. */
    method AddLoop(cid: string, fillers: seq<string>, dir: string, anchor: string)
      requires Valid() && anchor in byId && fillers != [] && Plain(dir)
      requires Fresh(fillers, "R_", ids)
      modifies this`rooms, this`ids
      ensures Valid() && ids == old(ids) + Members(fillers)
      ensures old(rooms) != [] && rooms == HungOn(old(rooms), anchor, dir, Fillers(cid, anchor, fillers))
      ensures LoopTied(rooms, fillers, anchor)
    {
      var ex := Exit(dir, fillers[0], 1, false);
      KnownIds(byId, rooms);
      LastIndexIs(rooms, anchor, byId[anchor]);
      HungLoop(rooms, anchor, dir, cid, fillers);
      LoopIndexStays(byId, rooms, anchor, dir, cid, fillers);
      HangLoop(ex, cid, fillers, anchor);
    }

    method HangLoop(ex: Exit, cid: string, fillers: seq<string>, anchor: string)
      requires anchor in byId && byId[anchor] < |rooms|
      modifies this`rooms, this`ids
      ensures rooms == WithExit(old(rooms), byId[anchor], ex) + Fillers(cid, anchor, fillers)
      ensures ids == old(ids) + Members(fillers)
    {
      EnsureExit(anchor, ex);
      AppendFillers(cid, fillers, anchor);
      ids := ids + Members(fillers);
    }

    method AppendFillers(cid: string, fillers: seq<string>, anchor: string)
      modifies this`rooms
      ensures rooms == old(rooms) + Fillers(cid, anchor, fillers)
    {
      ghost var news := Fillers(cid, anchor, fillers);
      for k := 0 to |fillers|
        invariant rooms == old(rooms) + news[..k]
      {
        var back := if k == 0 then anchor else fillers[k - 1];
        var ahead := if k == |fillers| - 1 then anchor else fillers[k + 1];
        rooms := rooms + [Room(fillers[k], cid, [Exit("back", back, 1, false), Exit("ahead", ahead, 1, false)])];
        assert news[..k + 1] == news[..k] + [news[k]];
      }
      assert news[..|fillers|] == news;
    }

    /** Finds ids for fillers and adds their loop. */
    method AddFillers(cid: string, need: nat, mx: nat, ghost top: nat, prefix: string, width: nat,
                      dir: string, anchor: string)
      requires Valid() && anchor in byId && need > 0 && Plain(dir) && "R_" <= prefix && Bounds(top, prefix, ids)
      requires top == mx || (top == mx + 1 && Numbered(prefix, top, width) in ids)
      modifies this`rooms, this`ids
      ensures Valid() && old(rooms) != []
      ensures var fillers := FillerNames(prefix, top + 1, width, need);
        rooms == HungOn(old(rooms), anchor, dir, Fillers(cid, anchor, fillers)) && LoopTied(rooms, fillers, anchor)
    {
      var fillers, all := FillerIds(need, mx, top, prefix, width, ids);
      FreshUnderShorterPrefix(fillers, prefix, ids);
      AddLoop(cid, fillers, dir, anchor);
    }

    /**
     * Brings one cluster up to its budget, if it has fewer rooms. New rooms are hung on the room that is
     * picked, or on the hub and the seed when there is none to pick.
     */
    method FillCluster(ghost a: seq<Room>, ghost s: Stage, budget: (string, int), hub: string, zone: string,
                       token: string, keys: seq<KeyRoom>)
      returns (ghost hung: set<string>, ghost t: Stage)
      requires Valid() && At(s) && hub in byId && InCluster(budget.0) == IdsIn(a, budget.0)
      requires |IdsIn(a, budget.0)| == CountIn(a, budget.0) == CountIn(rooms, budget.0)
      modifies this
      ensures Valid() && At(t) && hub in byId
      ensures Fills(s.rooms, t.rooms, hung, budget) && HungFor(a, hung, budget, hub, keys, s.known)
      ensures OthersSame(old(byCluster), byCluster, budget.0) && OnlySeeds(s.known, t.known, zone)
      ensures ClusterFilled(a, s, t, budget, hub, zone, token, keys)
    {
      var (cid, target) := budget;
      var need := target - |InCluster(cid)|;
      if need <= 0 {
        hung, t := {}, s;
        NothingGrown(rooms, cid);
      } else {
        KnownIds(byId, rooms);
        var prefix := Stem(zone) + token + "_";
        var picked := PickAnchor(cid, keys);
        t := FillShort(s, picked, cid, need, hub, prefix, zone, token);
        StemIsPlain(zone, token);
        hung := ClusterFills(a, s, t, picked, budget, need, hub, prefix, token, keys);
        GrownIsFilled(a, s, t, picked, budget, need, hub, prefix, zone, token, keys);
      }
    }

    method FillShort(ghost s: Stage, picked: Option<string>, cid: string, need: nat, hub: string, prefix: string,
                     ghost zone: string, token: string)
      returns (ghost t: Stage)
      requires Valid() && At(s) && hub in byId && need > 0 && (picked.Some? ==> picked.value in byId)
      requires prefix == Stem(zone) + token + "_"
      modifies this
      ensures Valid() && At(t) && hub in byId && GrownRight(s, t, picked, hub, cid, need, prefix, token)
      ensures OthersSame(old(byCluster), byCluster, cid) && OnlySeeds(s.known, t.known, zone)
    {
      var mx := MaxNumericSuffix(prefix, ids);
      var width := Max(2, |Digits(mx + Max(1, need))|);
      StemIsPlain(zone, token);
      LoweredIsPlain(token);
      if picked.Some? {
        AddFillers(cid, need, mx, mx, prefix, width, "wander_" + Lower(token), picked.value);
      } else {
        SeedAndFill(cid, need, mx, prefix, width, token, hub);
        StemFirst(zone, token, s.known, Numbered(prefix, mx + 1, width));
      }
      t := Stage(rooms, byId.Keys, mx);
    }

    method Seed(cid: string, mx: nat, prefix: string, width: nat, token: string, hub: string)
      returns (seedId: string, ghost top: nat)
      requires Valid() && hub in byId && "R_" <= prefix && Bounds(mx, prefix, ids)
      modifies this
      ensures Valid() && hub in byId && seedId in byId && seedId in ids && Bounds(top, prefix, ids)
      ensures top == mx + 1 && seedId == Numbered(prefix, mx + 1, width)
      ensures old(rooms) != []
      ensures rooms == HungOn(old(rooms), hub, "to_" + Lower(token), [SeedRoom(seedId, cid, hub)])
      ensures OthersSame(old(byCluster), byCluster, cid)
      ensures byId.Keys == old(byId.Keys) + {seedId}
    {
      var n := SeedNumber(mx, prefix, width, ids);
      seedId, top := Numbered(prefix, n, width), n;
      PlainUnder(prefix, n, width);
      LoweredIsPlain(token);
      SeedMovesBound(mx, prefix, width, ids, n);
      AddSeed(cid, seedId, "to_" + Lower(token), hub);
    }

    method SeedAndFill(cid: string, need: nat, mx: nat, prefix: string, width: nat, token: string, hub: string)
      requires Valid() && hub in byId && need > 0 && "R_" <= prefix && Bounds(mx, prefix, ids)
      requires width == Max(2, |Digits(mx + need)|)
      modifies this
      ensures Valid() && hub in byId && old(rooms) != []
      ensures rooms == Grown(old(rooms), None, hub, cid, need, prefix, mx, token)
      ensures byId.Keys == old(byId.Keys) + {Numbered(prefix, mx + 1, width)}
      ensures OthersSame(old(byCluster), byCluster, cid)
    {
      ghost var a := rooms;
      var anchor, top := Seed(cid, mx, prefix, width, token, hub);
      SeedFirst(a, hub, cid, need, prefix, mx, token, rooms);
      if need > 1 {
        LoweredIsPlain(token);
        AddFillers(cid, need - 1, mx, top, prefix, width, "wander_" + Lower(token), anchor);
      }
    }

    /** The first `n` budgeted clusters of an area `a` have been filled; the indexes of the others are as they were. */
    ghost predicate Filled(a: seq<Room>, hung: set<string>, budgets: seq<(string, int)>, n: nat, hub: string,
                           zone: string)
      requires n <= |budgets|
      reads this
    {
      Valid() && hub in byId && FilledFrom(a, rooms, byId.Keys, byCluster, hung, budgets, n, zone)
    }

    lemma NoneFilled(budgets: seq<(string, int)>, hub: string, zone: string)
      requires Valid() && hub in byId && byId.Keys == IdsOf(rooms) && (forall c :: InCluster(c) == IdsIn(rooms, c))
      ensures Filled(rooms, {}, budgets, 0, hub, zone)
    {
      SoundItself(rooms);
      BudgetedNone(rooms, budgets);
    }

    method FillNth(ghost a: seq<Room>, ghost s: Stage, ghost hung: set<string>, budgets: seq<(string, int)>, n: nat,
                   hub: string, zone: string, token: string, keys: seq<KeyRoom>)
      returns (ghost more: set<string>, ghost t: Stage)
      requires n < |budgets| && Distinct(budgets) && At(s) && Filled(a, hung, budgets, n, hub, zone)
      modifies this
      ensures At(t) && Filled(a, hung + more, budgets, n + 1, hub, zone)
      ensures HungFor(a, more, budgets[n], hub, keys, s.known)
      ensures ClusterFilled(a, s, t, budgets[n], hub, zone, token, keys)
    {
      ghost var lists := byCluster;
      NotYetFilled(a, rooms, budgets, n);
      assert InCluster(budgets[n].0) == IdsIn(a, budgets[n].0);
      more, t := FillCluster(a, s, budgets[n], hub, zone, token, keys);
      FilledNext(a, s.rooms, t.rooms, s.known, t.known, lists, byCluster, hung, more, budgets, n, zone);
    }

    /** Brings every budgeted cluster up to its budget. */
    method Fill(hub: string, zone: string, tokens: map<string, string>, budgets: seq<(string, int)>, keys: seq<KeyRoom>)
      returns (ghost hung: set<string>, ghost stages: seq<Stage>)
      requires Valid() && hub in byId && byId.Keys == IdsOf(rooms) && (forall c :: InCluster(c) == IdsIn(rooms, c))
      requires Distinct(budgets) && Named(tokens, budgets)
      modifies this
      ensures Filled(old(rooms), hung, budgets, |budgets|, hub, zone)
      ensures HungOnHooks(old(rooms), hung, keys, hub, zone, budgets, |budgets|)
      ensures |stages| == |budgets| + 1 && AllFilled(old(rooms), stages, budgets, hub, zone, tokens, keys)
      ensures At(stages[|budgets|])
    {
      ghost var a, s := rooms, Stage(rooms, byId.Keys, 0);
      hung, stages := {}, [s];
      NoneFilled(budgets, hub, zone);
      for n := 0 to |budgets|
        invariant At(s) && Filled(a, hung, budgets, n, hub, zone)
        invariant HungOnHooks(a, hung, keys, hub, zone, budgets, n)
        invariant |stages| == n + 1 && stages[n] == s && AllFilled(a, stages, budgets, hub, zone, tokens, keys)
      {
        var token := tokens[budgets[n].0];
        ghost var more, t := FillNth(a, s, hung, budgets, n, hub, zone, token, keys);
        HungNext(a, hung, more, keys, hub, zone, budgets, n, s.known);
        OneMoreFilled(a, stages, s, t, budgets, n, hub, zone, tokens, token, keys);
        s, stages, hung := t, stages + [t], hung + more;
      }
    }
  }

  lemma NotYetFilled(a: seq<Room>, b: seq<Room>, budgets: seq<(string, int)>, n: nat)
    requires n < |budgets| && Distinct(budgets) && Budgeted(a, b, budgets, n)
    ensures CountIn(b, budgets[n].0) == CountIn(a, budgets[n].0) == |IdsIn(a, budgets[n].0)|
  {
    IdsInSpec(a, budgets[n].0);
    assert !AmongFirst(budgets, n, budgets[n].0);
  }

  /** Only old rooms can be hung on that have an id which is not plain. */
  lemma HungAreOldOrPlain(a: seq<Room>, b: seq<Room>, hung: set<string>, x: string)
    requires Sound(a, b, hung) && x in hung
    ensures x in IdsOf(a) || Plain(x)
  {
    var i :| 0 <= i < |b| && b[i].id == x;
    assert i < |a| ==> a[i].id == x;
  }

  /**
   * Filling one area file. It fails only for a file without rooms: a zone hub is always found. The
   * tokens that name the new rooms are given for each cluster; `hung` are the rooms that new rooms
   * are hung on.
   */
  method BudgetFill(rooms: seq<Room>, start: Option<string>, zone: string, tokens: map<string, string>,
                    budgets: seq<(string, int)>, keys: seq<KeyRoom>)
    returns (ok: bool, filled: seq<Room>, ghost hung: set<string>, ghost stages: seq<Stage>)
    requires Distinct(budgets) && Named(tokens, budgets)
    ensures ok <==> rooms != []
    ensures ok ==> Sound(rooms, filled, hung) && Budgeted(rooms, filled, budgets, |budgets|)
    ensures ok ==> HungOnHooks(rooms, hung, keys, ZoneHub(rooms, start, keys), zone, budgets, |budgets|)
    ensures ok ==>
      && |stages| == |budgets| + 1 && filled == stages[|budgets|].rooms
      && AllFilled(rooms, stages, budgets, ZoneHub(rooms, start, keys), zone, tokens, keys)
  {
    if rooms == [] {
      return false, [], {}, [];
    }
    var area := new Area(rooms);
    assert rooms[0].id in IdsOf(rooms);
    var hub := area.PickHub(keys, start);
    hung, stages := area.Fill(hub, zone, tokens, budgets, keys);
    return true, area.rooms, hung, stages;
  }

  /**
   * The whole promise: from an area that the validator accepts and whose rooms can all be reached, filling
   * gives one that it accepts again if no cluster under its budget has a hook with a blank id, and, unless
   * a key room could turn up among the new rooms, only then; no cluster is then under its budget and no
   * room unreachable.
   */
  method FillAndValidate(rooms: seq<Room>, z: Zone, zone: string, tokens: map<string, string>,
                         budgets: seq<(string, int)>, keys: seq<KeyRoom>)
    returns (ok: bool, under: seq<string>, unreachable: set<string>)
    requires Accepted(rooms, z) && z.start.Some? && AllReached(rooms, z.start.value)
    requires Distinct(budgets) && Named(tokens, budgets)
      && forall n :: 0 <= n < |budgets| ==> budgets[n].0 in z.clusters
    ensures HooksNamed(rooms, keys, ZoneHub(rooms, z.start, keys), budgets) ==> ok
    ensures KeysStay(keys, IdsOf(rooms), zone) ==>
      (ok <==> HooksNamed(rooms, keys, ZoneHub(rooms, z.start, keys), budgets))
    ensures NoneBlank(IdsOf(rooms)) ==> ok
    ensures ok ==> (forall c :: c !in under) && (forall id :: id !in unreachable)
  {
    var done, filled;
    ghost var hung, stages;
    done, filled, hung, stages := BudgetFill(rooms, z.start, zone, tokens, budgets, keys);
    SoundKeepsAllReached(rooms, filled, hung, z.start.value);
    NewClustersAreBudgeted(rooms, filled, budgets, z.clusters);
    SoundKeepsAcceptedIff(rooms, filled, hung, z);
    HooksDecide(rooms, hung, keys, ZoneHub(rooms, z.start, keys), zone, budgets);
    OldNamesEnough(rooms, filled, hung);
    NoneUnder(rooms, filled, budgets);
    ok, under, unreachable := Validate(filled, z, budgets);
  }

  /**
   * Filling can make an area that the validator accepts one that it refuses: a single room whose id is
   * a blank passes, until a cluster that lacks a room is hung on it.
   */
  lemma BlankRoomIsRefused(z: Zone, c: string, zone: string, filled: seq<Room>, hung: set<string>)
    requires HeaderOk(z) && z.clusters == {c} && z.start == Some(" ") && z.own == []
    requires var rooms := [Room(" ", c, [])];
      && Sound(rooms, filled, hung) && Budgeted(rooms, filled, [(c, 2)], 1)
      && HungOnHooks(rooms, hung, [], ZoneHub(rooms, z.start, []), zone, [(c, 2)], 1)
    ensures Accepted([Room(" ", c, [])], z) && AllReached([Room(" ", c, [])], " ")
    ensures !Accepted(filled, z)
  {
    var rooms := [Room(" ", c, [])];
    assert rooms[0].id == " ";
    ReachesItself(rooms, " ");
    NewClustersAreBudgeted(rooms, filled, [(c, 2)], z.clusters);
    SoundKeepsAcceptedIff(rooms, filled, hung, z);
    HooksDecide(rooms, hung, [], ZoneHub(rooms, z.start, []), zone, [(c, 2)]);
    BlankHook(c);
  }

  lemma OneRoom(r: Room)
    ensures IdsIn([r], r.cluster) == [r.id] && CountIn([r], r.cluster) == 1
  {
    assert [r][..0] == [] && IdsIn([], r.cluster) == [];
    CountInNext([], r, r.cluster);
    assert [] + [r] == [r];
  }

  lemma BlankHook(c: string)
    ensures !HooksNamed([Room(" ", c, [])], [], ZoneHub([Room(" ", c, [])], Some(" "), []), [(c, 2)])
  {
    var rooms := [Room(" ", c, [])];
    var ids := IdsIn(rooms, c);
    OneRoom(rooms[0]);
    assert FirstPortal(ids) == None by {
      assert !("P_" <= ids[0]) && ids[1..] == [];
    }
    assert Anchor(c, [], IdsOf(rooms), ids) == Some(" ") && Blank(" ");
    assert [(c, 2)][0].1 > CountIn(rooms, [(c, 2)][0].0);
  }

  lemma NewClustersAreBudgeted(a: seq<Room>, b: seq<Room>, budgets: seq<(string, int)>, clusters: set<string>)
    requires Budgeted(a, b, budgets, |budgets|) && forall n :: 0 <= n < |budgets| ==> budgets[n].0 in clusters
    ensures forall i :: |a| <= i < |b| ==> b[i].cluster in clusters
  {
    forall i | |a| <= i < |b|
      ensures b[i].cluster in clusters
    {
      assert AmongFirst(budgets, |budgets|, b[i].cluster);
    }
  }

  lemma NoneUnder(a: seq<Room>, b: seq<Room>, budgets: seq<(string, int)>)
    requires Budgeted(a, b, budgets, |budgets|)
    ensures forall n: nat, c :: !IsUnder(b, budgets, n, c)
  {
  }

  lemma OldNamesEnough(a: seq<Room>, b: seq<Room>, hung: set<string>)
    requires Sound(a, b, hung)
    ensures NoneBlank(IdsOf(a)) ==> NoneBlank(hung)
  {
    forall x | x in hung
      ensures NoneBlank(IdsOf(a)) ==> !Blank(x)
    {
      HungAreOldOrPlain(a, b, hung, x);
    }
  }
}
