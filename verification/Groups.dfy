/** Groups, roles and capabilities, rebuilt from the log: `apps/shard_01/src/groups.rs`. */
module Groups {
  import opened Prelude
  import opened Names
  import opened RaftLogs

  datatype Capability =
    | AdminAll | RaftTail | RaftWatch | WorldWarp | WorldProtoLoad
    | GroupCreation | MemberAdd | MemberRemove | RoleSet | PolicySet | RoleCapsSet

  datatype Role = Owner | Officer | Member | Guest

  datatype Kind = Admin | Guild | ClassOf(class_: string) | Custom

  datatype Group = Group(
    id: nat, kind: Kind, name: string,
    members: map<string, Role>, policies: map<string, string>, roleCaps: map<Role, set<Capability>>)

  datatype Entry =
    | Create(gid: nat, kind: Kind, name: string)
    | SetMember(gid: nat, member: string, role: Option<Role>)
    | SetPolicy(gid: nat, key: string, value: Option<string>)
    | SetRoleCaps(gid: nat, capsRole: Role, caps: seq<Capability>)

  datatype Store = Store(groups: map<nat, Group>, idsByName: map<string, nat>)

  const EMPTY := Store(map[], map[])

  const MANAGE: set<Capability> := {MemberAdd, MemberRemove, RoleSet, PolicySet, RoleCapsSet}
  const EVERYTHING: set<Capability> :=
    MANAGE + {AdminAll, RaftTail, RaftWatch, WorldWarp, WorldProtoLoad, GroupCreation}

  /** What a new group of the kind lets each role do. */
  function DefaultCaps(kind: Kind, role: Role): set<Capability> {
    if kind.Admin? then if role.Guest? then {} else EVERYTHING
    else if role.Owner? || role.Officer? then MANAGE else {}
  }

  function NewGroup(id: nat, kind: Kind, name: string): Group {
    Group(id, kind, name, map[], map[],
          map[Owner := DefaultCaps(kind, Owner), Officer := DefaultCaps(kind, Officer),
              Member := DefaultCaps(kind, Member), Guest := DefaultCaps(kind, Guest)])
  }

  function Put<V>(m: map<string, V>, k: string, v: Option<V>): map<string, V> {
    if k == "" then m else if v.Some? then m[k := v.value] else m - {k}
  }

  function Applied(s: Store, e: Entry): Store {
    if e.Create? then
      Store(s.groups[e.gid := NewGroup(e.gid, e.kind, e.name)], s.idsByName[Lower(e.name) := e.gid])
    else if e.gid !in s.groups then s
    else
      var g := s.groups[e.gid];
      s.(groups := s.groups[e.gid :=
        match e
        case SetMember(_, member, role) => g.(members := Put(g.members, Normal(member), role))
        case SetPolicy(_, key, value) => g.(policies := Put(g.policies, Normal(key), value))
        case SetRoleCaps(_, role, caps) => g.(roleCaps := g.roleCaps[role := set c | c in caps])
        case Create(_, _, _) => g])
  }

  function Replayed(log: seq<Entry>): Store {
    if log == [] then EMPTY else Applied(Replayed(log[..|log| - 1]), log[|log| - 1])
  }

  /** The role a principal holds: as a member, or implied by the class the group is for. */
  function RoleOf(g: Group, principal: string, class_: string): Option<Role> {
    if Normal(principal) in g.members then Some(g.members[Normal(principal)])
    else if g.kind.ClassOf? && Lower(g.kind.class_) == Lower(class_) then Some(Member)
    else None
  }

  function RoleIn(s: Store, gid: nat, principal: string, class_: string): Option<Role> {
    if gid in s.groups then RoleOf(s.groups[gid], principal, class_) else None
  }

  function CapsOf(g: Group, role: Role): set<Capability> {
    if role in g.roleCaps then g.roleCaps[role] else {}
  }

  function CapsIn(s: Store, gid: nat, principal: string, class_: string): set<Capability> {
    var role := RoleIn(s, gid, principal, class_);
    if role.Some? then CapsOf(s.groups[gid], role.value) else {}
  }

  // What the log says, without replaying it.

  /** The position of the group's last creation. */
  function LastCreate(log: seq<Entry>, gid: nat): (r: Option<nat>)
    ensures r.Some? ==> r.value < |log| && log[r.value].Create? && log[r.value].gid == gid
    ensures forall n :: 0 <= n < |log| && log[n].Create? && log[n].gid == gid ==> r.Some? && n <= r.value
  {
    if log == [] then None
    else
      var last := log[|log| - 1];
      if last.Create? && last.gid == gid then Some(|log| - 1) else LastCreate(log[..|log| - 1], gid)
  }

  predicate SetsMember(e: Entry, gid: nat, key: string) {
    e.SetMember? && e.gid == gid && Normal(e.member) == key
  }

  predicate SetsPolicy(e: Entry, gid: nat, key: string) {
    e.SetPolicy? && e.gid == gid && Normal(e.key) == key
  }

  predicate SetsCaps(e: Entry, gid: nat, role: Role) {
    e.SetRoleCaps? && e.gid == gid && e.capsRole == role
  }

  /** The position of the last entry after `from` that satisfies `p`. */
  function LastAfter(log: seq<Entry>, from: nat, p: Entry -> bool): (r: Option<nat>)
    ensures r.Some? ==> from < r.value < |log| && p(log[r.value])
    ensures forall n :: from < n < |log| && p(log[n]) ==> r.Some? && n <= r.value
  {
    if |log| <= from + 1 then None
    else if p(log[|log| - 1]) then Some(|log| - 1)
    else LastAfter(log[..|log| - 1], from, p)
  }

  /** A group exists exactly when it was created, with the kind and name of its last creation. */
  lemma {:induction false} GroupFromLog(log: seq<Entry>, gid: nat)
    ensures var at := LastCreate(log, gid);
      && (gid in Replayed(log).groups <==> at.Some?)
      && (at.Some? ==> var g := Replayed(log).groups[gid];
            g.id == gid && g.kind == log[at.value].kind && g.name == log[at.value].name)
  {
    if log != [] {
      GroupFromLog(log[..|log| - 1], gid);
    }
  }

  /** A member's role is the last one set after the group's last creation. */
  lemma {:induction false} RoleFromLog(log: seq<Entry>, gid: nat, key: string)
    requires key != "" && LastCreate(log, gid).Some?
    ensures gid in Replayed(log).groups
    ensures var set_ := LastAfter(log, LastCreate(log, gid).value, e => SetsMember(e, gid, key));
      var members := Replayed(log).groups[gid].members;
      (if key in members then Some(members[key]) else None) == if set_.Some? then log[set_.value].role else None
  {
    GroupFromLog(log, gid);
    var n := |log| - 1;
    if !(log[n].Create? && log[n].gid == gid) {
      RoleFromLog(log[..n], gid, key);
    }
  }

  /** What a role may do is what was last set after the group's last creation, or the default of its kind. */
  lemma {:induction false} CapsFromLog(log: seq<Entry>, gid: nat, role: Role)
    requires LastCreate(log, gid).Some?
    ensures gid in Replayed(log).groups
    ensures var at := LastCreate(log, gid).value;
      var set_ := LastAfter(log, at, e => SetsCaps(e, gid, role));
      CapsOf(Replayed(log).groups[gid], role)
      == if set_.Some? then set c | c in log[set_.value].caps else DefaultCaps(log[at].kind, role)
  {
    GroupFromLog(log, gid);
    var n := |log| - 1;
    if !(log[n].Create? && log[n].gid == gid) {
      CapsFromLog(log[..n], gid, role);
    }
  }

  /** The defaults, by content: guests and the members of other groups than the administrators' may do nothing. */
  lemma DefaultsMean(kind: Kind)
    ensures kind.Admin? ==> forall c: Capability, r: Role :: c in DefaultCaps(kind, r) <==> r != Guest
    ensures !kind.Admin? ==> DefaultCaps(kind, Member) == DefaultCaps(kind, Guest) == {}
    ensures !kind.Admin? ==> forall c: Capability, r: Role :: r == Owner || r == Officer ==>
      (c in DefaultCaps(kind, r) <==> c in {MemberAdd, MemberRemove, RoleSet, PolicySet, RoleCapsSet})
  {
    forall c: Capability
      ensures c in EVERYTHING
    {
      match c {
        case AdminAll => case RaftTail => case RaftWatch => case WorldWarp => case WorldProtoLoad =>
        case GroupCreation => case MemberAdd => case MemberRemove => case RoleSet => case PolicySet =>
        case RoleCapsSet =>
      }
    }
  }

  /** A policy is the last one set after the group's last creation, if it was not deleted then. */
  lemma {:induction false} PolicyFromLog(log: seq<Entry>, gid: nat, key: string)
    requires key != "" && LastCreate(log, gid).Some?
    ensures gid in Replayed(log).groups
    ensures var set_ := LastAfter(log, LastCreate(log, gid).value, e => SetsPolicy(e, gid, key));
      Get(Replayed(log).groups[gid].policies, key) == if set_.Some? then log[set_.value].value else None
  {
    GroupFromLog(log, gid);
    var n := |log| - 1;
    if !(log[n].Create? && log[n].gid == gid) {
      PolicyFromLog(log[..n], gid, key);
    }
  }

  /** The position of the last group created with a name, in any case. */
  function LastNamed(log: seq<Entry>, name: string): (r: Option<nat>)
    ensures r.Some? ==> r.value < |log| && log[r.value].Create? && Lower(log[r.value].name) == name
    ensures forall n :: 0 <= n < |log| && log[n].Create? && Lower(log[n].name) == name ==> r.Some? && n <= r.value
  {
    if log == [] then None
    else
      var last := log[|log| - 1];
      if last.Create? && Lower(last.name) == name then Some(|log| - 1) else LastNamed(log[..|log| - 1], name)
  }

  /** A name stands for the last group created with it. */
  lemma {:induction false} NameFromLog(log: seq<Entry>, name: string)
    ensures var at := LastNamed(log, name);
      Get(Replayed(log).idsByName, name) == if at.Some? then Some(log[at.value].gid) else None
  {
    if log != [] {
      NameFromLog(log[..|log| - 1], name);
    }
  }

  /** What the log says a role may do in a group: the last set, or else the default of its kind. */
  ghost predicate LogAllows(log: seq<Entry>, gid: nat, role: Role, c: Capability)
    requires LastCreate(log, gid).Some?
  {
    var at := LastCreate(log, gid).value;
    var caps := LastAfter(log, at, e => SetsCaps(e, gid, role));
    if caps.Some? then c in log[caps.value].caps
    else match log[at].kind
      case Admin => role != Guest
      case _ => (role == Owner || role == Officer) && c in {MemberAdd, MemberRemove, RoleSet, PolicySet, RoleCapsSet}
  }

  /**
   * What the log says a principal may do: what their own role may, if the last entry about them since the
   * group's last creation gives one, and else, in a group for their class, what its members may.
   */
  ghost predicate LogGrants(log: seq<Entry>, gid: nat, principal: string, class_: string, c: Capability)
    requires LastCreate(log, gid).Some?
  {
    var at := LastCreate(log, gid).value;
    var key := Normal(principal);
    var own := if key == "" then None else LastAfter(log, at, e => SetsMember(e, gid, key));
    if own.Some? && log[own.value].role.Some? then LogAllows(log, gid, log[own.value].role.value, c)
    else log[at].kind.ClassOf? && Lower(log[at].kind.class_) == Lower(class_) && LogAllows(log, gid, Member, c)
  }

  lemma {:induction false} NoBlankMember(log: seq<Entry>, gid: nat)
    requires gid in Replayed(log).groups
    ensures "" !in Replayed(log).groups[gid].members
  {
    if log != [] && gid in Replayed(log[..|log| - 1]).groups {
      NoBlankMember(log[..|log| - 1], gid);
    }
  }

  lemma AllowsFromLog(log: seq<Entry>, gid: nat, role: Role, c: Capability)
    requires LastCreate(log, gid).Some? && gid in Replayed(log).groups
    ensures c in CapsOf(Replayed(log).groups[gid], role) <==> LogAllows(log, gid, role, c)
  {
    CapsFromLog(log, gid, role);
    DefaultsMean(log[LastCreate(log, gid).value].kind);
  }

  lemma GrantsFromLog(log: seq<Entry>, gid: nat, principal: string, class_: string, c: Capability)
    requires LastCreate(log, gid).Some?
    ensures c in CapsIn(Replayed(log), gid, principal, class_) <==> LogGrants(log, gid, principal, class_, c)
  {
    GroupFromLog(log, gid);
    NoBlankMember(log, gid);
    var g, key := Replayed(log).groups[gid], Normal(principal);
    if key != "" {
      RoleFromLog(log, gid, key);
    }
    if key in g.members {
      AllowsFromLog(log, gid, g.members[key], c);
    } else {
      AllowsFromLog(log, gid, Member, c);
    }
  }

  ghost predicate GrantedIn(log: seq<Entry>, gid: nat, principal: string, class_: string, c: Capability) {
    LastCreate(log, gid).Some? && LogGrants(log, gid, principal, class_, c)
  }

  /** A capability is granted in a group of the store exactly when the log grants it there. */
  lemma GrantedFromLog(log: seq<Entry>, gid: nat, principal: string, class_: string, c: Capability)
    ensures gid in Replayed(log).groups && c in CapsIn(Replayed(log), gid, principal, class_)
       <==> GrantedIn(log, gid, principal, class_, c)
  {
    GroupFromLog(log, gid);
    if LastCreate(log, gid).Some? {
      GrantsFromLog(log, gid, principal, class_, c);
    }
  }

  class GroupStore {
    var groups: map<nat, Group>
    var idsByName: map<string, nat>

    ghost function Contents(): Store
      reads this
    {
      Store(groups, idsByName)
    }

    constructor ()
      ensures Contents() == EMPTY && groups == map[] && idsByName == map[]
    {
      groups, idsByName := map[], map[];
    }

    method Apply(e: Entry)
      modifies this
      ensures Contents() == Applied(old(Contents()), e)
    {
      match e
      case Create(gid, kind, name) =>
        idsByName := idsByName[Lower(name) := gid];
        groups := groups[gid := NewGroup(gid, kind, name)];
      case SetMember(gid, member, role) =>
        if gid in groups {
          groups := groups[gid := groups[gid].(members := Put(groups[gid].members, Normal(member), role))];
        }
      case SetPolicy(gid, key, value) =>
        if gid in groups {
          groups := groups[gid := groups[gid].(policies := Put(groups[gid].policies, Normal(key), value))];
        }
      case SetRoleCaps(gid, role, caps) =>
        if gid in groups {
          var s: set<Capability> := {};
          for n := 0 to |caps|
            invariant s == set c | c in caps[..n]
          {
            s := s + {caps[n]};
          }
          assert caps[..|caps|] == caps;
          groups := groups[gid := groups[gid].(roleCaps := groups[gid].roleCaps[role := s])];
        }
    }

    /** Effective capabilities are the union, over all groups, of the capabilities in the group. */
    method EffectiveCaps(principal: string, class_: string, order: seq<nat>) returns (out: set<Capability>)
      requires forall gid :: gid in groups <==> gid in order
      ensures forall c :: c in out <==> exists gid :: gid in groups && c in CapsIn(Contents(), gid, principal, class_)
    {
      out := {};
      for n := 0 to |order|
        invariant forall c ::
          c in out <==> exists m :: 0 <= m < n && c in CapsIn(Contents(), order[m], principal, class_)
      {
        var g := groups[order[n]];
        var role := RoleOf(g, principal, class_);
        if role.Some? {
          out := out + CapsOf(g, role.value);
        }
      }
    }
  }

  lemma EntriesNext(lines: seq<Envelope<Entry>>, env: Envelope<Entry>)
    ensures Replayed(Entries(lines + [env])) == Applied(Replayed(Entries(lines)), env.entry)
  {
    assert Entries(lines + [env])[..|lines|] == Entries(lines);
  }

  /** The shard's log and store, kept in step: an entry is applied only after it is on disk. */
  class World {
    const log: RaftLog<Entry>
    const store: GroupStore

    ghost predicate Valid()
      reads this, log, log.file, store
    {
      log.Valid() && store.Contents() == Replayed(Entries(log.file.lines))
    }

    constructor (log: RaftLog<Entry>, store: GroupStore)
      ensures this.log == log && this.store == store
    {
      this.log, this.store := log, store;
    }

    /** Starting on a log rebuilds the store that was live when its last entry was written. */
    static method Start(file: LogFile<Entry>) returns (w: World)
      requires InRange(file.lines)
      ensures fresh(w) && w.log.file == file && fresh(w.store) && fresh(w.log) && w.Valid()
    {
      var log, replay := RaftLog.Open(file);
      var store := new GroupStore();
      for n := 0 to |replay|
        invariant store.Contents() == Replayed(Entries(replay[..n]))
        invariant log.Valid() && log.file == file && replay == file.lines
      {
        assert replay[..n + 1] == replay[..n] + [replay[n]];
        EntriesNext(replay[..n], replay[n]);
        store.Apply(replay[n].entry);
      }
      assert replay[..|replay|] == replay;
      w := new World(log, store);
    }

    method AppendGroup(ms: nat, e: Entry) returns (env: Envelope<Entry>)
      requires Valid()
      modifies log, log.file, store
      ensures Valid()
      ensures env == Envelope(old(NextIndex(log.file.lines)), ms, e) && log.file.lines == old(log.file.lines) + [env]
    {
      env := log.Append(ms, e);
      store.Apply(e);
      EntriesNext(old(log.file.lines), env);
    }

    /** What a principal may do, as the file says it. */
    method EffectiveCaps(principal: string, class_: string, order: seq<nat>) returns (out: set<Capability>)
      requires Valid() && forall gid :: gid in store.groups <==> gid in order
      ensures forall c :: c in out <==>
        exists gid: nat :: GrantedIn(Entries(log.file.lines), gid, principal, class_, c)
    {
      out := store.EffectiveCaps(principal, class_, order);
      forall gid, c
        ensures gid in store.groups && c in CapsIn(store.Contents(), gid, principal, class_)
           <==> GrantedIn(Entries(log.file.lines), gid, principal, class_, c)
      {
        GrantedFromLog(Entries(log.file.lines), gid, principal, class_, c);
      }
    }
  }
}
