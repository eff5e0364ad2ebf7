/** Area files as graphs of rooms, and the validator's checks: `scripts/area_files_validate.py`. */
module AreaGraphs {
  import opened Prelude
  import opened Names

  /** `sealed` stands for an exit that is sealed or opens into another area. */
  datatype Exit = Exit(dir: string, to: string, len: int, isSealed: bool)

  datatype Room = Room(id: string, cluster: string, exits: seq<Exit>)

  ghost predicate Unique(rooms: seq<Room>) {
    forall i, j :: 0 <= i < j < |rooms| ==> rooms[i].id != rooms[j].id
  }

  function IdsOf(rooms: seq<Room>): set<string> {
    set i | 0 <= i < |rooms| :: rooms[i].id
  }

  /** How many rooms a cluster has. */
  function CountIn(rooms: seq<Room>, cluster: string): nat {
    if rooms == [] then 0
    else CountIn(rooms[..|rooms| - 1], cluster) + if rooms[|rooms| - 1].cluster == cluster then 1 else 0
  }

  // Walking from room to room.

  predicate ExitLeads(rooms: seq<Room>, i: nat, j: nat, to: string) {
    i < |rooms| && j < |rooms[i].exits| && rooms[i].exits[j].to == to
  }

  /** A room has an exit to a room of the area. */
  ghost predicate Links(rooms: seq<Room>, from: string, to: string) {
    && to in IdsOf(rooms)
    && exists i: nat, j: nat :: ExitLeads(rooms, i, j, to) && rooms[i].id == from
  }

  ghost predicate Walk(rooms: seq<Room>, path: seq<string>) {
    && path != [] && path[0] in IdsOf(rooms)
    && forall k :: 0 <= k < |path| - 1 ==> Links(rooms, path[k], path[k + 1])
  }

  ghost predicate WalkTo(rooms: seq<Room>, path: seq<string>, from: string, to: string) {
    Walk(rooms, path) && path[0] == from && path[|path| - 1] == to
  }

  ghost predicate Reaches(rooms: seq<Room>, from: string, to: string) {
    exists path :: WalkTo(rooms, path, from, to)
  }

  lemma ReachesItself(rooms: seq<Room>, id: string)
    requires id in IdsOf(rooms)
    ensures Reaches(rooms, id, id)
  {
    assert WalkTo(rooms, [id], id, id);
  }

  lemma ReachesOneMore(rooms: seq<Room>, from: string, mid: string, to: string)
    requires Reaches(rooms, from, mid) && Links(rooms, mid, to)
    ensures Reaches(rooms, from, to)
  {
    var path :| WalkTo(rooms, path, from, mid);
    assert WalkTo(rooms, path + [to], from, to);
  }

  lemma ReachesThrough(rooms: seq<Room>, from: string, mid: string, to: string)
    requires Reaches(rooms, from, mid) && Reaches(rooms, mid, to)
    ensures Reaches(rooms, from, to)
  {
    var path :| WalkTo(rooms, path, from, mid);
    var rest :| WalkTo(rooms, rest, mid, to);
    var whole := path + rest[1..];
    forall k | 0 <= k < |whole| - 1
      ensures Links(rooms, whole[k], whole[k + 1])
    {
      if k >= |path| - 1 {
        assert whole[k] == rest[k - |path| + 1] && whole[k + 1] == rest[k - |path| + 2];
      }
    }
    assert WalkTo(rooms, whole, from, to);
  }

  /** A set that holds the start and the targets of its own exits holds all that can be reached. */
  lemma {:induction false} ClosedSetHoldsWalk(rooms: seq<Room>, seen: set<string>, path: seq<string>)
    requires Walk(rooms, path) && path[0] in seen
    requires forall a, b :: a in seen && Links(rooms, a, b) ==> b in seen
    ensures path[|path| - 1] in seen
  {
    if |path| > 1 {
      assert Links(rooms, path[0], path[1]);
      var rest := path[1..];
      forall k | 0 <= k < |rest| - 1
        ensures Links(rooms, rest[k], rest[k + 1])
      {
        assert rest[k] == path[k + 1] && rest[k + 1] == path[k + 2];
      }
      ClosedSetHoldsWalk(rooms, seen, rest);
    }
  }

  // The validator.

  ghost predicate Indexes(byId: map<string, nat>, rooms: seq<Room>) {
    && (forall id :: id in byId ==> byId[id] < |rooms| && rooms[byId[id]].id == id)
    && (forall i :: 0 <= i < |rooms| ==> rooms[i].id in byId)
  }

  lemma IndexedLinks(byId: map<string, nat>, rooms: seq<Room>, from: string, to: string)
    requires Indexes(byId, rooms) && Unique(rooms) && from in byId
    ensures Links(rooms, from, to) <==> to in byId && exists j: nat :: ExitLeads(rooms, byId[from], j, to)
  {
    if Links(rooms, from, to) {
      var i: nat, j: nat :| ExitLeads(rooms, i, j, to) && rooms[i].id == from;
      assert i == byId[from];
    }
    if to in byId && exists j: nat :: ExitLeads(rooms, byId[from], j, to) {
      assert rooms[byId[to]].id == to;
    }
  }

  /** The breadth-first search visits exactly the rooms that can be reached from the start. */
  method Visit(rooms: seq<Room>, byId: map<string, nat>, start: string) returns (seen: set<string>)
    requires Unique(rooms) && Indexes(byId, rooms) && start in byId
    ensures forall id :: id in seen <==> Reaches(rooms, start, id)
    ensures seen <= byId.Keys
  {
    var queue := [start];
    seen := {start};
    ghost var done: set<string> := {};
    ReachesItself(rooms, start);
    while queue != []
      invariant start in seen && seen <= byId.Keys
      invariant forall id :: id in seen ==> Reaches(rooms, start, id)
      invariant forall id :: id in seen <==> id in done || id in queue
      invariant forall m, n :: 0 <= m < n < |queue| ==> queue[m] != queue[n]
      invariant forall id :: id in queue ==> id !in done
      invariant forall a, b :: a in done && Links(rooms, a, b) ==> b in seen
      decreases byId.Keys - done
    {
      var cur := queue[0];
      queue := queue[1..];
      seen, queue := VisitExits(rooms, byId, start, cur, seen, queue);
      done := done + {cur};
    }
    forall id | Reaches(rooms, start, id)
      ensures id in seen
    {
      var path :| WalkTo(rooms, path, start, id);
      ClosedSetHoldsWalk(rooms, seen, path);
    }
  }

  /** The exits of one room: each target not yet seen is marked and queued once. */
  method VisitExits(rooms: seq<Room>, byId: map<string, nat>, start: string, cur: string,
                    seen: set<string>, queue: seq<string>)
    returns (marked: set<string>, queued: seq<string>)
    requires Unique(rooms) && Indexes(byId, rooms)
    requires cur in seen && seen <= byId.Keys && (forall id :: id in seen ==> Reaches(rooms, start, id))
    requires forall m, n :: 0 <= m < n < |queue| ==> queue[m] != queue[n]
    requires forall id :: id in queue ==> id in seen
    ensures seen <= marked <= byId.Keys && forall id :: id in marked ==> Reaches(rooms, start, id)
    ensures forall b :: Links(rooms, cur, b) ==> b in marked
    ensures forall m, n :: 0 <= m < n < |queued| ==> queued[m] != queued[n]
    ensures forall id :: id in queued <==> id in queue || id in marked - seen
  {
    marked, queued := seen, queue;
    var exits := rooms[byId[cur]].exits;
    for j := 0 to |exits|
      invariant seen <= marked <= byId.Keys && forall id :: id in marked ==> Reaches(rooms, start, id)
      invariant forall k :: 0 <= k < j && exits[k].to in byId ==> exits[k].to in marked
      invariant forall m, n :: 0 <= m < n < |queued| ==> queued[m] != queued[n]
      invariant forall id :: id in queued <==> id in queue || id in marked - seen
    {
      var to := exits[j].to;
      if to in byId && to !in marked {
        assert ExitLeads(rooms, byId[cur], j, to);
        IndexedLinks(byId, rooms, cur, to);
        ReachesOneMore(rooms, start, cur, to);
        marked, queued := marked + {to}, queued + [to];
      }
    }
    forall b | Links(rooms, cur, b)
      ensures b in marked
    {
      IndexedLinks(byId, rooms, cur, b);
    }
  }

  /** A portal of the zone: where its room belongs, and the portal it connects to. */
  datatype Portal = Portal(id: string, hint: Option<string>, other: Option<string>)

  /** What the validator knows of an area's zone; `edges` has the length between two portals. */
  datatype Zone = Zone(
    id: string, stem: string, names: map<string, string>, name: Option<string>, clusters: set<string>,
    start: Option<string>, portals: set<string>, own: seq<Portal>, edges: map<set<string>, int>)

  predicate HeaderOk(z: Zone) {
    && z.id != "" && z.id == z.stem && z.id in z.names && (z.name.Some? ==> z.name.value == z.names[z.id])
    && z.clusters != {}
  }

  /** What `str.isspace` takes for white space: four control characters more than Unicode's White_Space. */
  predicate Space(c: char) {
    White(c) || 0x1C <= c as int <= 0x1F
  }

  /** Nothing is left of the string by `strip`. */
  predicate Blank(s: string) {
    forall i :: 0 <= i < |s| ==> Space(s[i])
  }

  predicate GoodExit(ex: Exit, ids: set<string>, portals: set<string>) {
    && !Blank(ex.dir) && !Blank(ex.to) && ex.len >= 1
    && (ex.to in ids || ex.to in portals || ex.isSealed)
  }

  /** The length of the first exit that leads to a room. */
  function LenTo(exits: seq<Exit>, to: string): Option<int> {
    if exits == [] then None
    else if exits[0].to == to then Some(exits[0].len)
    else LenTo(exits[1..], to)
  }

  /** A portal has a room, in its cluster, whose first exit to the portal it connects to has the right length. */
  predicate PortalOk(room: Room, p: Portal, z: Zone) {
    && (p.hint.Some? ==> room.cluster == p.hint.value)
    && p.other.Some? && p.other.value in z.portals
    && {p.id, p.other.value} in z.edges
    && LenTo(room.exits, p.other.value) == Some(z.edges[{p.id, p.other.value}])
  }

  ghost predicate PortalHasRoom(rooms: seq<Room>, p: Portal, z: Zone) {
    exists i :: 0 <= i < |rooms| && rooms[i].id == p.id && PortalOk(rooms[i], p, z)
  }

  ghost predicate GoodRooms(rooms: seq<Room>, clusters: set<string>) {
    Unique(rooms) && forall i :: 0 <= i < |rooms| ==> rooms[i].id != "" && rooms[i].cluster in clusters
  }

  ghost predicate GoodExits(rooms: seq<Room>, portals: set<string>) {
    forall i, j :: 0 <= i < |rooms| && 0 <= j < |rooms[i].exits| ==>
      GoodExit(rooms[i].exits[j], IdsOf(rooms), portals)
  }

  ghost predicate GoodPortals(rooms: seq<Room>, z: Zone) {
    forall n :: 0 <= n < |z.own| ==> PortalHasRoom(rooms, z.own[n], z)
  }

  /** What an area file must satisfy: rooms with their own ids, known clusters, exits and portals that are right. */
  ghost predicate Accepted(rooms: seq<Room>, z: Zone) {
    && HeaderOk(z) && rooms != [] && GoodRooms(rooms, z.clusters)
    && (z.start.Some? ==> z.start.value in IdsOf(rooms))
    && GoodExits(rooms, z.portals) && GoodPortals(rooms, z)
  }

  ghost predicate AllReached(rooms: seq<Room>, start: string) {
    forall i :: 0 <= i < |rooms| ==> Reaches(rooms, start, rooms[i].id)
  }

  /** White space is what White_Space has, and four control characters. */
  lemma SpaceIs(c: char)
    ensures Space(c) <==> c in SPACES || c in "\U{1C}\U{1D}\U{1E}\U{1F}"
  {
    WhiteIs(c);
  }

  /** The rooms of a cluster, by index. */
  ghost function IndicesIn(rooms: seq<Room>, cluster: string): set<nat> {
    set i: nat | i < |rooms| && rooms[i].cluster == cluster
  }

  lemma {:induction false} CountIs(rooms: seq<Room>, cluster: string)
    ensures CountIn(rooms, cluster) == |IndicesIn(rooms, cluster)|
  {
    if rooms != [] {
      var n := |rooms| - 1;
      CountIs(rooms[..n], cluster);
      var front := IndicesIn(rooms[..n], cluster);
      assert IndicesIn(rooms, cluster) == if rooms[n].cluster == cluster then front + {n} else front;
    }
  }

  /** The length is that of the first exit that leads there. */
  lemma {:induction false} LenToMeans(exits: seq<Exit>, to: string, n: nat)
    requires n <= |exits| && (n < |exits| ==> exits[n].to == to) && forall m :: 0 <= m < n ==> exits[m].to != to
    ensures LenTo(exits, to) == if n < |exits| then Some(exits[n].len) else None
  {
    if n > 0 {
      LenToMeans(exits[1..], to, n - 1);
    }
  }

  /** Some character of the string is no space. */
  predicate Says(s: string) {
    exists i :: 0 <= i < |s| && s[i] !in SPACES && s[i] !in "\U{1C}\U{1D}\U{1E}\U{1F}"
  }

  lemma SaysIff(s: string)
    ensures Says(s) <==> !Blank(s)
  {
    forall i | 0 <= i < |s|
      ensures Space(s[i]) <==> s[i] in SPACES || s[i] in "\U{1C}\U{1D}\U{1E}\U{1F}"
    {
      SpaceIs(s[i]);
    }
  }

  /** The first exit of a room to another has the length of the edge between the two portals. */
  ghost predicate FirstExitFits(room: Room, to: string, len: int) {
    exists j :: 0 <= j < |room.exits| && room.exits[j].to == to && room.exits[j].len == len
      && forall m :: 0 <= m < j ==> room.exits[m].to != to
  }

  lemma FirstExitIff(room: Room, to: string, len: int)
    ensures FirstExitFits(room, to, len) <==> LenTo(room.exits, to) == Some(len)
  {
    var n := FirstExit(room.exits, to);
    LenToMeans(room.exits, to, n);
    if FirstExitFits(room, to, len) {
      var j :| 0 <= j < |room.exits| && room.exits[j].to == to && room.exits[j].len == len
        && forall m :: 0 <= m < j ==> room.exits[m].to != to;
      assert j == n;
    }
  }

  lemma {:induction false} FirstExit(exits: seq<Exit>, to: string) returns (n: nat)
    ensures n <= |exits| && (n < |exits| ==> exits[n].to == to) && forall m :: 0 <= m < n ==> exits[m].to != to
  {
    if exits == [] || exits[0].to == to {
      n := 0;
    } else {
      n := FirstExit(exits[1..], to);
      n := n + 1;
      forall m | 0 <= m < n
        ensures exits[m].to != to
      {
        assert m > 0 ==> exits[m] == exits[1..][m - 1];
      }
    }
  }

  /**
   * All that the validator asks of an accepted file, one thing after the other: the header; rooms with
   * names of their own in known clusters; the start room; exits that say where they go, and go to a room,
   * to a portal or to what is sealed; and, for each portal, a room whose first exit to the portal that it
   * connects to is as long as the edge between them.
   */
  lemma AcceptedMeans(rooms: seq<Room>, z: Zone)
    ensures Accepted(rooms, z) <==>
      && z.id != "" && z.id == z.stem && z.id in z.names && (z.name == None || z.name == Some(z.names[z.id]))
      && (exists c :: c in z.clusters) && |rooms| > 0
      && (forall i, j :: 0 <= i < |rooms| && 0 <= j < |rooms| && rooms[i].id == rooms[j].id ==> i == j)
      && (forall i :: 0 <= i < |rooms| ==> |rooms[i].id| > 0 && rooms[i].cluster in z.clusters)
      && (z.start == None || exists i :: 0 <= i < |rooms| && Some(rooms[i].id) == z.start)
      && (forall i, j :: 0 <= i < |rooms| && 0 <= j < |rooms[i].exits| ==>
            ExitFits(rooms, rooms[i].exits[j], z.portals))
      && (forall n :: 0 <= n < |z.own| ==> PortalFits(rooms, z.own[n], z))
  {
    forall i, j | 0 <= i < |rooms| && 0 <= j < |rooms[i].exits|
      ensures ExitFits(rooms, rooms[i].exits[j], z.portals) <==> GoodExit(rooms[i].exits[j], IdsOf(rooms), z.portals)
    {
      ExitFitsIff(rooms, rooms[i].exits[j], z.portals);
    }
    forall n | 0 <= n < |z.own|
      ensures PortalFits(rooms, z.own[n], z) <==> PortalHasRoom(rooms, z.own[n], z)
    {
      PortalFitsIff(rooms, z.own[n], z);
    }
  }

  ghost predicate ExitFits(rooms: seq<Room>, ex: Exit, portals: set<string>) {
    && Says(ex.dir) && Says(ex.to) && ex.len > 0
    && (ex.isSealed || ex.to in portals || exists i :: 0 <= i < |rooms| && rooms[i].id == ex.to)
  }

  ghost predicate PortalFits(rooms: seq<Room>, p: Portal, z: Zone) {
    exists i :: 0 <= i < |rooms| && rooms[i].id == p.id && PortalRoomFits(rooms[i], p, z)
  }

  ghost predicate PortalRoomFits(room: Room, p: Portal, z: Zone) {
    && (p.hint == None || p.hint == Some(room.cluster))
    && p.other.Some? && p.other.value in z.portals && {p.other.value, p.id} in z.edges
    && FirstExitFits(room, p.other.value, z.edges[{p.other.value, p.id}])
  }

  lemma ExitFitsIff(rooms: seq<Room>, ex: Exit, portals: set<string>)
    ensures ExitFits(rooms, ex, portals) <==> GoodExit(ex, IdsOf(rooms), portals)
  {
    SaysIff(ex.dir);
    SaysIff(ex.to);
  }

  lemma PortalFitsIff(rooms: seq<Room>, p: Portal, z: Zone)
    ensures PortalFits(rooms, p, z) <==> PortalHasRoom(rooms, p, z)
  {
    forall i | 0 <= i < |rooms|
      ensures PortalRoomFits(rooms[i], p, z) <==> PortalOk(rooms[i], p, z)
    {
      if p.other.Some? {
        assert {p.other.value, p.id} == {p.id, p.other.value};
        if {p.other.value, p.id} in z.edges {
          FirstExitIff(rooms[i], p.other.value, z.edges[{p.other.value, p.id}]);
        }
      }
    }
  }

  lemma {:induction false} CountInNext(rooms: seq<Room>, room: Room, cluster: string)
    ensures CountIn(rooms + [room], cluster) == CountIn(rooms, cluster) + if room.cluster == cluster then 1 else 0
  {
    assert (rooms + [room])[..|rooms|] == rooms;
  }

  /** The index of the rooms, or nothing when an id or a cluster is wrong. */
  method IndexRooms(rooms: seq<Room>, clusters: set<string>) returns (byId: Option<map<string, nat>>)
    ensures byId.Some? <==> GoodRooms(rooms, clusters)
    ensures byId.Some? ==> Indexes(byId.value, rooms)
  {
    var index: map<string, nat> := map[];
    for i := 0 to |rooms|
      invariant Unique(rooms[..i]) && Indexes(index, rooms[..i])
      invariant forall k :: 0 <= k < i ==> rooms[k].id != "" && rooms[k].cluster in clusters
    {
      var r := rooms[i];
      if r.id == "" || r.id in index || r.cluster !in clusters {
        assert r.id in index ==> rooms[index[r.id]].id == r.id;
        return None;
      }
      index := index[r.id := i];
      assert rooms[..i + 1] == rooms[..i] + [r];
    }
    assert rooms[..|rooms|] == rooms;
    return Some(index);
  }

  method CheckExits(rooms: seq<Room>, byId: map<string, nat>, portals: set<string>) returns (ok: bool)
    requires Indexes(byId, rooms)
    ensures ok <==> GoodExits(rooms, portals)
  {
    assert byId.Keys == IdsOf(rooms);
    for i := 0 to |rooms|
      invariant forall k, j :: 0 <= k < i && 0 <= j < |rooms[k].exits| ==>
                  GoodExit(rooms[k].exits[j], IdsOf(rooms), portals)
    {
      for j := 0 to |rooms[i].exits|
        invariant forall k :: 0 <= k < j ==> GoodExit(rooms[i].exits[k], IdsOf(rooms), portals)
      {
        if !GoodExit(rooms[i].exits[j], byId.Keys, portals) {
          return false;
        }
      }
    }
    return true;
  }

  /** The first exit of a room that leads to a given one, and its length. */
  method FindLen(exits: seq<Exit>, to: string) returns (len: Option<int>)
    ensures len == LenTo(exits, to)
  {
    for j := 0 to |exits|
      invariant LenTo(exits, to) == LenTo(exits[j..], to)
    {
      if exits[j].to == to {
        return Some(exits[j].len);
      }
    }
    return None;
  }

  lemma PortalAt(rooms: seq<Room>, byId: map<string, nat>, p: Portal, z: Zone)
    requires Indexes(byId, rooms) && Unique(rooms)
    ensures PortalHasRoom(rooms, p, z) <==> p.id in byId && PortalOk(rooms[byId[p.id]], p, z)
  {
    if PortalHasRoom(rooms, p, z) {
      var i :| 0 <= i < |rooms| && rooms[i].id == p.id && PortalOk(rooms[i], p, z);
      assert rooms[byId[p.id]].id == p.id;
    }
  }

  method CheckPortals(rooms: seq<Room>, byId: map<string, nat>, z: Zone) returns (ok: bool)
    requires Indexes(byId, rooms) && Unique(rooms)
    ensures ok <==> GoodPortals(rooms, z)
  {
    for n := 0 to |z.own|
      invariant forall k :: 0 <= k < n ==> PortalHasRoom(rooms, z.own[k], z)
    {
      var p := z.own[n];
      PortalAt(rooms, byId, p, z);
      if p.id !in byId {
        return false;
      }
      var room := rooms[byId[p.id]];
      if p.hint.Some? && room.cluster != p.hint.value {
        return false;
      }
      if p.other.None? || p.other.value !in z.portals || {p.id, p.other.value} !in z.edges {
        return false;
      }
      var len := FindLen(room.exits, p.other.value);
      if len != Some(z.edges[{p.id, p.other.value}]) {
        return false;
      }
    }
    return true;
  }

  predicate IsUnder(rooms: seq<Room>, budgets: seq<(string, int)>, n: nat, c: string) {
    n < |budgets| && budgets[n].0 == c && CountIn(rooms, c) < budgets[n].1
  }

  method UnderBudget(rooms: seq<Room>, budgets: seq<(string, int)>) returns (under: seq<string>)
    ensures forall c :: c in under <==> exists n: nat :: IsUnder(rooms, budgets, n, c)
  {
    under := [];
    for n := 0 to |budgets|
      invariant forall c :: c in under <==> exists k: nat :: k < n && IsUnder(rooms, budgets, k, c)
    {
      var got := CountRooms(rooms, budgets[n].0);
      if got < budgets[n].1 {
        assert IsUnder(rooms, budgets, n, budgets[n].0);
        under := under + [budgets[n].0];
      }
    }
  }

  /** The validator's verdict on an area, the clusters it warns about, and the rooms it finds unreachable. */
  method Validate(rooms: seq<Room>, z: Zone, budgets: seq<(string, int)>)
    returns (ok: bool, under: seq<string>, unreachable: set<string>)
    ensures ok <==> Accepted(rooms, z)
    ensures ok ==> forall c :: c in under <==> exists n: nat :: IsUnder(rooms, budgets, n, c)
    ensures ok && z.start.Some? ==>
      forall id :: id in unreachable <==> id in IdsOf(rooms) && !Reaches(rooms, z.start.value, id)
  {
    ok, under, unreachable := false, [], {};
    if z.id == "" || z.id != z.stem || z.id !in z.names {
      return;
    }
    if z.name.Some? && z.name.value != z.names[z.id] {
      return;
    }
    if z.clusters == {} || rooms == [] {
      return;
    }
    var byId := IndexRooms(rooms, z.clusters);
    if byId.None? {
      return;
    }
    assert byId.value.Keys == IdsOf(rooms);
    if z.start.Some? && z.start.value !in byId.value {
      return;
    }
    ok := CheckExits(rooms, byId.value, z.portals);
    if !ok {
      return;
    }
    ok := CheckPortals(rooms, byId.value, z);
    if !ok {
      return;
    }
    under := UnderBudget(rooms, budgets);
    if z.start.Some? {
      unreachable := Unreachable(rooms, byId.value, z.start.value);
    }
  }

  /** The rooms not visited, found only if their number does not match. */
  method Unreachable(rooms: seq<Room>, byId: map<string, nat>, start: string) returns (ids: set<string>)
    requires Unique(rooms) && Indexes(byId, rooms) && start in byId
    ensures forall id :: id in ids <==> id in byId && !Reaches(rooms, start, id)
  {
    var seen := Visit(rooms, byId, start);
    ids := {};
    if |seen| != |byId| {
      ids := byId.Keys - seen;
    } else {
      SameSizeSubset(seen, byId.Keys);
    }
  }

  method CountRooms(rooms: seq<Room>, cluster: string) returns (got: nat)
    ensures got == CountIn(rooms, cluster)
  {
    got := 0;
    for i := 0 to |rooms|
      invariant got == CountIn(rooms[..i], cluster)
    {
      CountInNext(rooms[..i], rooms[i], cluster);
      assert rooms[..i + 1] == rooms[..i] + [rooms[i]];
      if rooms[i].cluster == cluster {
        got := got + 1;
      }
    }
    assert rooms[..|rooms|] == rooms;
  }

  lemma {:induction false} SameSizeSubset<T>(a: set<T>, b: set<T>)
    requires a <= b && |a| == |b|
    ensures a == b
  {
    if a != b {
      var x :| x in b && x !in a;
      assert a <= b - {x};
      SubsetIsSmaller(a, b - {x});
    }
  }

  lemma {:induction false} SubsetIsSmaller<T>(a: set<T>, b: set<T>)
    requires a <= b
    ensures |a| <= |b|
  {
    if a != {} {
      var x :| x in a;
      SubsetIsSmaller(a - {x}, b - {x});
    }
  }
}
