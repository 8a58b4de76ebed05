/** Connection profiles and their groups: every operation of the local store on these three tables. */
module GroupStore {
  import opened Text

  datatype Group = Group(id: string, name: string)

  /** A MySQL or Redis connection profile; the last two fields are of use for Redis only. */
  datatype Profile = Profile(
    id: string, group: Option<string>, name: string, host: string, port: nat, username: string, password: string,
    database_index: nat, connect_timeout_ms: nat)

  /** The three tables in row order, and how many identifiers have been drawn. */
  datatype Store = Store(groups: seq<Group>, profiles: seq<Profile>, redis: seq<Profile>, drawn: nat)

  const Fresh := Store([], [], [], 0)

  /** The n-th identifier that is drawn; no two are equal. */
  function Uuid(n: nat): string { "uuid-" + Decimal(n) }

  // ---- Statements on the tables ----

  function InsertOrReplace(profiles: seq<Profile>, p: Profile): seq<Profile> {
    if profiles == [] then [p]
    else if profiles[0].id == p.id then [p] + profiles[1..]
    else [profiles[0]] + InsertOrReplace(profiles[1..], p)
  }

  function WithId(profiles: seq<Profile>, id: string): Option<Profile> {
    if profiles == [] then None else if profiles[0].id == id then Some(profiles[0]) else WithId(profiles[1..], id)
  }

  function WithName(profiles: seq<Profile>, name: string): Option<Profile> {
    if profiles == [] then None
    else if profiles[0].name == name then Some(profiles[0])
    else WithName(profiles[1..], name)
  }

  function Without(profiles: seq<Profile>, id: string): seq<Profile> {
    if profiles == [] then []
    else (if profiles[0].id == id then [] else [profiles[0]]) + Without(profiles[1..], id)
  }

  /** All profiles of one group moved to another, or to none. */
  function Moved(profiles: seq<Profile>, from: string, to: Option<string>): (r: seq<Profile>)
    ensures |r| == |profiles|
    ensures forall i :: 0 <= i < |r| ==>
      r[i] == if profiles[i].group == Some(from) then profiles[i].(group := to) else profiles[i]
  {
    if profiles == [] then []
    else
      [if profiles[0].group == Some(from) then profiles[0].(group := to) else profiles[0]]
      + Moved(profiles[1..], from, to)
  }

  function InGroup(profiles: seq<Profile>, name: string): nat {
    if profiles == [] then 0
    else
      InGroup(profiles[..|profiles| - 1], name) + if profiles[|profiles| - 1].group == Some(name) then 1 else 0
  }

  /** The profiles with some identifiers moved to a group. */
  function Assigned(profiles: seq<Profile>, ids: set<string>, name: string): (r: seq<Profile>)
    ensures |r| == |profiles|
    ensures forall i :: 0 <= i < |r| ==>
      r[i] == if profiles[i].id in ids then profiles[i].(group := Some(name)) else profiles[i]
  {
    if profiles == [] then []
    else
      [if profiles[0].id in ids then profiles[0].(group := Some(name)) else profiles[0]]
      + Assigned(profiles[1..], ids, name)
  }

  function Matching(profiles: seq<Profile>, ids: set<string>): nat {
    if profiles == [] then 0
    else Matching(profiles[..|profiles| - 1], ids) + if profiles[|profiles| - 1].id in ids then 1 else 0
  }

  function GroupWithId(groups: seq<Group>, id: string): Option<Group> {
    if groups == [] then None else if groups[0].id == id then Some(groups[0]) else GroupWithId(groups[1..], id)
  }

  predicate HasGroup(groups: seq<Group>, name: string) { exists g <- groups :: g.name == name }

  /** A group name is taken by a group other than the one with the given identifier. */
  predicate TakenByOther(groups: seq<Group>, id: string, name: string) {
    exists g <- groups :: g.name == name && g.id != id
  }

  function Renamed(groups: seq<Group>, id: string, name: string): (r: seq<Group>)
    ensures |r| == |groups|
    ensures forall i :: 0 <= i < |r| ==> r[i] == if groups[i].id == id then Group(id, name) else groups[i]
  {
    if groups == [] then []
    else [if groups[0].id == id then Group(id, name) else groups[0]] + Renamed(groups[1..], id, name)
  }

  function GroupsWithout(groups: seq<Group>, id: string): seq<Group> {
    if groups == [] then [] else (if groups[0].id == id then [] else [groups[0]]) + GroupsWithout(groups[1..], id)
  }

  // ---- Operations ----

  datatype Payload = Payload(
    id: Option<string>, group: Option<string>, name: string, host: string, port: nat, username: string,
    password: string, database_index: nat, connect_timeout_ms: nat)

  datatype Candidate = Candidate(
    group: Option<string>, name: string, host: string, port: nat, username: string, password: string)

  /** An optional group name: trimmed, and none when it is blank. */
  function Normalized(name: Option<string>): Option<string> {
    if name.Some? && Trim(name.value) != "" then Some(Trim(name.value)) else None
  }

  /** The group is created when it is named and does not exist yet. */
  function WithGroup(store: Store, name: Option<string>): Store {
    if name.None? || HasGroup(store.groups, name.value) then store
    else store.(groups := store.groups + [Group(Uuid(store.drawn), name.value)], drawn := store.drawn + 1)
  }

  function StoredPassword(existing: Option<Profile>, given: string): string {
    if given == "" then (if existing.Some? then existing.value.password else "") else given
  }

  /** The identifier of a saved profile: the given one or a new one. */
  function SavedId(store: Store, payload: Payload): string {
    if payload.id.Some? then payload.id.value else Uuid(store.drawn)
  }

  function AfterId(store: Store, payload: Payload): Store {
    if payload.id.Some? then store else store.(drawn := store.drawn + 1)
  }

  function ProfileOf(id: string, payload: Payload, password: string): Profile {
    Profile(id, Normalized(payload.group), Trim(payload.name), Trim(payload.host), payload.port,
      Trim(payload.username), password, payload.database_index, payload.connect_timeout_ms)
  }

  predicate ValidProfile(payload: Payload, password: string) {
    Trim(payload.name) != "" && Trim(payload.host) != "" && Trim(payload.username) != "" && password != ""
    && payload.port > 0
  }

  predicate ValidRedis(payload: Payload) {
    Trim(payload.name) != "" && Trim(payload.host) != "" && payload.port > 0 && payload.database_index <= 255
    && 100 <= payload.connect_timeout_ms <= 120_000
  }

  function Saved(store: Store, payload: Payload): Option<Store> {
    var existing := if payload.id.Some? then WithId(store.profiles, payload.id.value) else None;
    var password := StoredPassword(existing, payload.password);
    if !ValidProfile(payload, password) then None
    else
      var grouped := WithGroup(AfterId(store, payload), Normalized(payload.group));
      var p := ProfileOf(SavedId(store, payload), payload, password);
      Some(grouped.(profiles := InsertOrReplace(store.profiles, p)))
  }

  function SavedRedis(store: Store, payload: Payload): Option<Store> {
    if !ValidRedis(payload) then None
    else
      var password := StoredPassword(WithId(store.redis, SavedId(store, payload)), payload.password);
      var grouped := WithGroup(AfterId(store, payload), Normalized(payload.group));
      var p := ProfileOf(SavedId(store, payload), payload, password);
      Some(grouped.(redis := InsertOrReplace(store.redis, p)))
  }

  function Created(store: Store, name: string): Option<Store> {
    if Trim(name) == "" || HasGroup(store.groups, Trim(name)) then None
    else Some(WithGroup(store, Some(Trim(name))))
  }

  datatype Affected = Affected(store: Store, count: nat)

  function RenamedGroup(store: Store, id: string, name: string): Option<Affected> {
    var trimmed := Trim(name);
    if trimmed == "" || GroupWithId(store.groups, id).None? || TakenByOther(store.groups, id, trimmed) then None
    else
      var previous := GroupWithId(store.groups, id).value.name;
      var groups := Renamed(store.groups, id, trimmed);
      if previous == trimmed then Some(Affected(store.(groups := groups), 0))
      else
        Some(Affected(
          store.(groups := groups, profiles := Moved(store.profiles, previous, Some(trimmed)),
            redis := Moved(store.redis, previous, Some(trimmed))),
          InGroup(store.profiles, previous) + InGroup(store.redis, previous)))
  }

  function DeletedGroup(store: Store, id: string): Option<Affected> {
    if GroupWithId(store.groups, id).None? then None
    else
      var name := GroupWithId(store.groups, id).value.name;
      Some(Affected(
        store.(groups := GroupsWithout(store.groups, id), profiles := Moved(store.profiles, name, None),
          redis := Moved(store.redis, name, None)),
        InGroup(store.profiles, name) + InGroup(store.redis, name)))
  }

  function TrimmedIds(ids: seq<string>): set<string> {
    set id | id in ids && Trim(id) != "" :: Trim(id)
  }

  function AssignedProfiles(store: Store, groupId: string, ids: seq<string>): Option<Affected> {
    if GroupWithId(store.groups, groupId).None? then None
    else
      Some(Affected(
        store.(profiles := Assigned(store.profiles, TrimmedIds(ids), GroupWithId(store.groups, groupId).value.name)),
        Matching(store.profiles, TrimmedIds(ids))))
  }

  // ---- Import ----

  predicate Less(a: string, b: string) {
    if b == "" then false
    else if a == "" then true
    else if a[0] == b[0] then Less(a[1..], b[1..])
    else a[0] < b[0]
  }

  /** A candidate put into a list that is sorted by name, in the place of one with its name. */
  function Put(sorted: seq<Candidate>, item: Candidate): seq<Candidate> {
    if sorted == [] then [item]
    else if item.name == sorted[0].name then [item] + sorted[1..]
    else if Less(item.name, sorted[0].name) then [item] + sorted
    else [sorted[0]] + Put(sorted[1..], item)
  }

  /** The candidates sorted by name; of several with one name the last counts. */
  function Deduped(items: seq<Candidate>): seq<Candidate> {
    if items == [] then [] else Put(Deduped(items[..|items| - 1]), items[|items| - 1])
  }

  predicate ValidCandidate(item: Candidate) {
    Trim(item.name) != "" && Trim(item.host) != "" && Trim(item.username) != "" && item.port > 0
  }

  /** An import under way, and what it reports in the end. */
  datatype Progress = Progress(store: Store, total: nat, created: nat, updated: nat, unresolved: nat)

  /** The group of an imported profile: the candidate's, else the existing profile's, if not blank. */
  function ImportedGroup(item: Candidate, existing: Option<Profile>): Option<string> {
    Normalized(if item.group.Some? then item.group else if existing.Some? then existing.value.group else None)
  }

  /** A candidate updates the first profile that has its name, as it stands, and is created when there is none. */
  function ImportedOne(p: Progress, item: Candidate): Progress {
    var existing := WithName(p.store.profiles, item.name);
    var blank := Trim(item.password) == "";
    var password := if blank then (if existing.Some? then existing.value.password else "") else Trim(item.password);
    var group := ImportedGroup(item, existing);
    var grouped := WithGroup(p.store, group);
    var id := if existing.Some? then existing.value.id else Uuid(grouped.drawn);
    var profile := Profile(
      id, group, Trim(item.name), Trim(item.host), item.port, Trim(item.username), password, 0, 0);
    Progress(
      grouped.(profiles := InsertOrReplace(p.store.profiles, profile),
        drawn := if existing.Some? then grouped.drawn else grouped.drawn + 1),
      p.total + 1,
      if existing.Some? then p.created else p.created + 1,
      if existing.Some? then p.updated + 1 else p.updated,
      if blank then p.unresolved + 1 else p.unresolved)
  }

  function ImportedAll(store: Store, items: seq<Candidate>): Option<Progress> {
    if items == [] then Some(Progress(store, 0, 0, 0, 0))
    else
      match ImportedAll(store, items[..|items| - 1])
      case None => None
      case Some(p) =>
        if ValidCandidate(items[|items| - 1]) then Some(ImportedOne(p, items[|items| - 1])) else None
  }

  function Imported(store: Store, items: seq<Candidate>): Option<Progress> { ImportedAll(store, Deduped(items)) }

  // ---- Runs ----

  datatype Op =
    | SaveProfile(payload: Payload)
    | SaveRedis(payload: Payload)
    | DeleteProfile(profile_id: string)
    | DeleteRedis(profile_id: string)
    | Import(items: seq<Candidate>)
    | CreateGroup(name: string)
    | RenameGroup(group_id: string, name: string)
    | DeleteGroup(group_id: string)
    | Assign(group_id: string, ids: seq<string>)

  /** The store after an operation; one that fails leaves it as it was. */
  function Step(store: Store, op: Op): Store {
    match op
    case SaveProfile(payload) => (match Saved(store, payload) case None => store case Some(s) => s)
    case SaveRedis(payload) => (match SavedRedis(store, payload) case None => store case Some(s) => s)
    case DeleteProfile(id) => store.(profiles := Without(store.profiles, id))
    case DeleteRedis(id) => store.(redis := Without(store.redis, id))
    case Import(items) => (match Imported(store, items) case None => store case Some(p) => p.store)
    case CreateGroup(name) => (match Created(store, name) case None => store case Some(s) => s)
    case RenameGroup(id, name) => (match RenamedGroup(store, id, name) case None => store case Some(a) => a.store)
    case DeleteGroup(id) => (match DeletedGroup(store, id) case None => store case Some(a) => a.store)
    case Assign(id, ids) => (match AssignedProfiles(store, id, ids) case None => store case Some(a) => a.store)
  }

  function Run(ops: seq<Op>): Store {
    if ops == [] then Fresh else Step(Run(ops[..|ops| - 1]), ops[|ops| - 1])
  }

  /** An identifier that will not be drawn any more. */
  ghost predicate Known(id: string, drawn: nat) { forall n: nat :: n >= drawn ==> id != Uuid(n) }

  /** Callers name no profile by an identifier that is still to be drawn. */
  ghost predicate Possible(store: Store, op: Op) {
    match op
    case SaveProfile(payload) => payload.id.Some? ==> Known(payload.id.value, store.drawn)
    case SaveRedis(payload) => payload.id.Some? ==> Known(payload.id.value, store.drawn)
    case _ => true
  }

  ghost predicate AllPossible(ops: seq<Op>) {
    forall k :: 0 <= k < |ops| ==> Possible(Run(ops[..k]), ops[k])
  }

  ghost predicate GroupsSound(groups: seq<Group>, drawn: nat) {
    && (forall g <- groups :: g.name != "" && Trim(g.name) == g.name && Known(g.id, drawn))
    && DistinctGroups(groups)
  }

  ghost predicate DistinctGroups(groups: seq<Group>) {
    forall i, j :: 0 <= i < j < |groups| ==> groups[i].name != groups[j].name && groups[i].id != groups[j].id
  }

  ghost predicate DistinctIds(profiles: seq<Profile>) {
    forall i, j :: 0 <= i < j < |profiles| ==> profiles[i].id != profiles[j].id
  }

  ghost predicate ProfilesSound(profiles: seq<Profile>, groups: seq<Group>, drawn: nat) {
    && (forall p <- profiles :: Known(p.id, drawn) && (p.group.Some? ==> HasGroup(groups, p.group.value)))
    && DistinctIds(profiles)
  }

  /**
   * Groups have distinct names that are not blank, profiles have distinct identifiers, and every group that a MySQL or
   * Redis profile names exists.
   */
  ghost predicate Sound(store: Store) {
    && GroupsSound(store.groups, store.drawn)
    && ProfilesSound(store.profiles, store.groups, store.drawn)
    && ProfilesSound(store.redis, store.groups, store.drawn)
  }

  // ---- What each statement keeps ----

  lemma UuidsDiffer(m: nat, n: nat)
    ensures Uuid(m) == Uuid(n) ==> m == n
  {
    if Uuid(m) == Uuid(n) {
      assert Decimal(m) == Uuid(m)[5..] && Decimal(n) == Uuid(n)[5..];
      DecimalValue(m);
      DecimalValue(n);
    }
  }

  lemma NewIsKnown(drawn: nat)
    ensures Known(Uuid(drawn), drawn + 1)
  {
    forall n: nat | n >= drawn + 1
      ensures Uuid(drawn) != Uuid(n)
    {
      UuidsDiffer(drawn, n);
    }
  }

  lemma {:induction false} InsertedMembers(profiles: seq<Profile>, p: Profile)
    ensures forall q <- InsertOrReplace(profiles, p) :: q in profiles || q == p
    ensures p in InsertOrReplace(profiles, p)
    ensures forall q <- profiles :: q.id != p.id ==> q in InsertOrReplace(profiles, p)
  {
    if profiles != [] {
      InsertedMembers(profiles[1..], p);
      assert profiles == [profiles[0]] + profiles[1..];
    }
  }

  lemma {:induction false} InsertedDistinct(profiles: seq<Profile>, p: Profile)
    requires DistinctIds(profiles)
    ensures DistinctIds(InsertOrReplace(profiles, p))
  {
    if profiles != [] && profiles[0].id != p.id {
      var first, rest := profiles[0], profiles[1..];
      assert forall q <- rest :: q.id != first.id;
      InsertedDistinct(rest, p);
      InsertedMembers(rest, p);
      var more := InsertOrReplace(rest, p);
      assert forall i :: 0 <= i < |more| ==> more[i] in more;
      assert InsertOrReplace(profiles, p) == [first] + more;
      hide InsertOrReplace;
    }
  }

  lemma {:induction false} InsertedLength(profiles: seq<Profile>, p: Profile)
    ensures |InsertOrReplace(profiles, p)|
         == if exists q <- profiles :: q.id == p.id then |profiles| else |profiles| + 1
  {
    if profiles != [] && profiles[0].id != p.id {
      InsertedLength(profiles[1..], p);
      assert profiles == [profiles[0]] + profiles[1..];
    }
  }

  lemma {:induction false} WithoutMembers(profiles: seq<Profile>, id: string)
    requires DistinctIds(profiles)
    ensures forall q :: q in Without(profiles, id) <==> q in profiles && q.id != id
    ensures DistinctIds(Without(profiles, id))
  {
    if profiles != [] {
      WithoutMembers(profiles[1..], id);
      assert profiles == [profiles[0]] + profiles[1..];
    }
  }

  lemma {:induction false} GroupsWithoutMembers(groups: seq<Group>, id: string)
    requires DistinctGroups(groups)
    ensures forall g :: g in GroupsWithout(groups, id) <==> g in groups && g.id != id
    ensures DistinctGroups(GroupsWithout(groups, id))
  {
    if groups != [] {
      GroupsWithoutMembers(groups[1..], id);
      assert groups == [groups[0]] + groups[1..];
      var rest := GroupsWithout(groups[1..], id);
      forall g | g in rest
        ensures g.name != groups[0].name && g.id != groups[0].id
      {
        var k :| 0 <= k < |groups[1..]| && groups[1..][k] == g;
        assert groups[k + 1] == g;
      }
      assert forall j :: 0 <= j < |rest| ==> rest[j] in rest;
    }
  }

  lemma {:induction false} FoundGroup(groups: seq<Group>, id: string)
    ensures var g := GroupWithId(groups, id); g.Some? ==> g.value in groups && g.value.id == id
    ensures GroupWithId(groups, id).None? ==> forall g <- groups :: g.id != id
  {
    if groups != [] && groups[0].id != id {
      FoundGroup(groups[1..], id);
    }
  }

  lemma {:induction false} FoundProfile(profiles: seq<Profile>, name: string)
    ensures var p := WithName(profiles, name); p.Some? ==> p.value in profiles && p.value.name == name
    ensures WithName(profiles, name).None? ==> forall p <- profiles :: p.name != name
  {
    if profiles != [] && profiles[0].name != name {
      FoundProfile(profiles[1..], name);
    }
  }

  // ---- What each operation keeps ----

  lemma {:induction false} KnownLater(id: string, drawn: nat, later: nat)
    requires Known(id, drawn) && drawn <= later
    ensures Known(id, later)
  {
  }

  /** Profiles stay sound when groups are only added. */
  lemma ProfilesStaySound(
    profiles: seq<Profile>, groups: seq<Group>, drawn: nat, more: seq<Group>, later: nat)
    requires ProfilesSound(profiles, groups, drawn) && drawn <= later
    requires forall g <- groups :: HasGroup(more, g.name)
    ensures ProfilesSound(profiles, more, later)
  {
    hide Uuid;
    forall p | p in profiles && p.group.Some?
      ensures HasGroup(more, p.group.value)
    {
      var g :| g in groups && g.name == p.group.value;
      assert HasGroup(more, g.name);
    }
  }

  lemma WithGroupSound(store: Store, name: Option<string>)
    requires Sound(store) && (name.Some? ==> name.value != "" && Trim(name.value) == name.value)
    ensures Sound(WithGroup(store, name))
    ensures name.Some? ==> HasGroup(WithGroup(store, name).groups, name.value)
    ensures WithGroup(store, name).drawn >= store.drawn
  {
    hide Uuid, Trim;
    if name.Some? && !HasGroup(store.groups, name.value) {
      var g := Group(Uuid(store.drawn), name.value);
      var groups := store.groups + [g];
      NewIsKnown(store.drawn);
      assert g in groups;
      assert GroupsSound(groups, store.drawn + 1) by {
        forall h | h in groups
          ensures h.name != "" && Trim(h.name) == h.name && Known(h.id, store.drawn + 1)
        {
          if h in store.groups { KnownLater(h.id, store.drawn, store.drawn + 1); }
        }
      }
      ProfilesStaySound(store.profiles, store.groups, store.drawn, groups, store.drawn + 1);
      ProfilesStaySound(store.redis, store.groups, store.drawn, groups, store.drawn + 1);
    }
  }

  lemma NormalizedIsTrimmed(name: Option<string>)
    ensures Normalized(name).Some? ==>
      Normalized(name).value != "" && Trim(Normalized(name).value) == Normalized(name).value
  {
    if name.Some? { TrimTwice(name.value); }
    hide Trim;
  }

  lemma DrawnSound(store: Store)
    requires Sound(store)
    ensures Sound(store.(drawn := store.drawn + 1))
  {
    hide Uuid, Trim;
    ProfilesStaySound(store.profiles, store.groups, store.drawn, store.groups, store.drawn + 1);
    ProfilesStaySound(store.redis, store.groups, store.drawn, store.groups, store.drawn + 1);
    forall h | h in store.groups
      ensures Known(h.id, store.drawn + 1)
    {
      KnownLater(h.id, store.drawn, store.drawn + 1);
    }
  }

  lemma InsertedSound(profiles: seq<Profile>, groups: seq<Group>, drawn: nat, p: Profile)
    requires ProfilesSound(profiles, groups, drawn)
    requires Known(p.id, drawn) && (p.group.Some? ==> HasGroup(groups, p.group.value))
    ensures ProfilesSound(InsertOrReplace(profiles, p), groups, drawn)
  {
    hide Uuid, Known, HasGroup, InsertOrReplace;
    InsertedMembers(profiles, p);
    InsertedDistinct(profiles, p);
  }

  lemma SavedSound(store: Store, payload: Payload)
    requires Sound(store) && (payload.id.Some? ==> Known(payload.id.value, store.drawn))
    ensures Saved(store, payload).Some? ==> Sound(Saved(store, payload).value)
    ensures SavedRedis(store, payload).Some? ==> Sound(SavedRedis(store, payload).value)
  {
    var after := AfterId(store, payload);
    if payload.id.None? {
      DrawnSound(store);
      NewIsKnown(store.drawn);
    }
    var group := Normalized(payload.group);
    NormalizedIsTrimmed(payload.group);
    WithGroupSound(after, group);
    var grouped := WithGroup(after, group);
    var id := SavedId(store, payload);
    assert Known(id, after.drawn);
    KnownLater(id, after.drawn, grouped.drawn);
    hide Trim, Uuid, Known, InsertOrReplace, WithGroup, GroupsSound, ProfilesSound, StoredPassword, Normalized;
    SavedTables(store, payload);
    forall password: string
      ensures var p := ProfileOf(id, payload, password);
        && ProfilesSound(InsertOrReplace(store.profiles, p), grouped.groups, grouped.drawn)
        && ProfilesSound(InsertOrReplace(store.redis, p), grouped.groups, grouped.drawn)
    {
      InsertedSound(store.profiles, grouped.groups, grouped.drawn, ProfileOf(id, payload, password));
      InsertedSound(store.redis, grouped.groups, grouped.drawn, ProfileOf(id, payload, password));
    }
  }

  lemma SavedTables(store: Store, payload: Payload)
    ensures var grouped := WithGroup(AfterId(store, payload), Normalized(payload.group));
      grouped.profiles == store.profiles && grouped.redis == store.redis
  {
    hide Normalized, HasGroup, Uuid;
  }

  lemma CreatedSound(store: Store, name: string)
    requires Sound(store) && Created(store, name).Some?
    ensures Sound(Created(store, name).value)
  {
    TrimTwice(name);
    WithGroupSound(store, Some(Trim(name)));
    hide Trim, WithGroup, Sound;
  }

  lemma WithoutSound(profiles: seq<Profile>, groups: seq<Group>, drawn: nat, id: string)
    requires ProfilesSound(profiles, groups, drawn)
    ensures ProfilesSound(Without(profiles, id), groups, drawn)
  {
    WithoutMembers(profiles, id);
    hide Known, HasGroup, Without;
  }

  /** Distinct groups tell each other apart by name as well as by identifier. */
  lemma SameGroup(groups: seq<Group>, g: Group, h: Group)
    requires DistinctGroups(groups) && g in groups && h in groups && (g.name == h.name || g.id == h.id)
    ensures g == h
  {
  }

  lemma RenamedGroupsSound(groups: seq<Group>, drawn: nat, id: string, name: string)
    requires GroupsSound(groups, drawn) && name != "" && Trim(name) == name && !TakenByOther(groups, id, name)
    ensures GroupsSound(Renamed(groups, id, name), drawn)
  {
    NotTaken(groups, id, name);
    hide Trim, Known, TakenByOther;
    var renamed := Renamed(groups, id, name);
    forall i | 0 <= i < |groups|
      ensures renamed[i].name != "" && Trim(renamed[i].name) == renamed[i].name && Known(renamed[i].id, drawn)
      ensures renamed[i].id == groups[i].id
      ensures renamed[i].name == if groups[i].id == id then name else groups[i].name
      ensures groups[i].id != id ==> groups[i].name != name
    {
      assert groups[i] in groups;
    }
    hide Renamed;
  }

  lemma RenamedKeeps(groups: seq<Group>, id: string, name: string)
    requires GroupWithId(groups, id).Some?
    ensures HasGroup(Renamed(groups, id, name), name)
    ensures forall g <- groups :: g.id != id ==> HasGroup(Renamed(groups, id, name), g.name)
  {
    FoundGroup(groups, id);
    var renamed := Renamed(groups, id, name);
    var g := GroupWithId(groups, id).value;
    var k :| 0 <= k < |groups| && groups[k] == g;
    assert renamed[k].name == name;
    forall h | h in groups && h.id != id
      ensures HasGroup(renamed, h.name)
    {
      var i :| 0 <= i < |groups| && groups[i] == h;
      assert renamed[i].name == h.name;
    }
  }

  lemma NotTaken(groups: seq<Group>, id: string, name: string)
    requires !TakenByOther(groups, id, name)
    ensures forall g <- groups :: g.id != id ==> g.name != name
  {
  }

  lemma MovedSound(
    profiles: seq<Profile>, groups: seq<Group>, drawn: nat, from: string, to: Option<string>, after: seq<Group>)
    requires ProfilesSound(profiles, groups, drawn)
    requires to.Some? ==> HasGroup(after, to.value)
    requires forall g <- groups :: g.name != from ==> HasGroup(after, g.name)
    ensures ProfilesSound(Moved(profiles, from, to), after, drawn)
  {
    hide Known;
    var moved := Moved(profiles, from, to);
    forall i | 0 <= i < |moved|
      ensures Known(moved[i].id, drawn) && moved[i].id == profiles[i].id
      ensures moved[i].group.Some? ==> HasGroup(after, moved[i].group.value)
    {
      assert profiles[i] in profiles;
      if profiles[i].group.Some? && profiles[i].group != Some(from) {
        var g :| g in groups && g.name == profiles[i].group.value;
        assert HasGroup(after, g.name);
      }
    }
    hide HasGroup, Moved;
  }

  lemma RenamedSound(store: Store, id: string, name: string)
    requires Sound(store) && RenamedGroup(store, id, name).Some?
    ensures Sound(RenamedGroup(store, id, name).value.store)
  {
    hide Trim, Known, HasGroup, TakenByOther, Moved, InGroup, Renamed, GroupWithId;
    var trimmed := Trim(name);
    var previous := GroupWithId(store.groups, id).value.name;
    var groups := Renamed(store.groups, id, trimmed);
    TrimTwice(name);
    RenamedGroupsSound(store.groups, store.drawn, id, trimmed);
    RenamedKeeps(store.groups, id, trimmed);
    FoundGroup(store.groups, id);
    forall g | g in store.groups && g.name != previous
      ensures HasGroup(groups, g.name)
    {
      assert g.id != id by {
        if g.id == id { SameGroup(store.groups, g, GroupWithId(store.groups, id).value); }
      }
    }
    hide GroupsSound, ProfilesSound, DistinctGroups;
    if previous == trimmed {
      SoundGroups(store, groups);
    } else {
      MovedSound(store.profiles, store.groups, store.drawn, previous, Some(trimmed), groups);
      MovedSound(store.redis, store.groups, store.drawn, previous, Some(trimmed), groups);
    }
  }

  lemma SoundGroups(store: Store, groups: seq<Group>)
    requires Sound(store) && GroupsSound(groups, store.drawn)
    requires forall g <- store.groups :: HasGroup(groups, g.name)
    ensures Sound(store.(groups := groups))
  {
    hide GroupsSound;
    ProfilesStaySound(store.profiles, store.groups, store.drawn, groups, store.drawn);
    ProfilesStaySound(store.redis, store.groups, store.drawn, groups, store.drawn);
    hide ProfilesSound;
  }

  lemma DeletedSound(store: Store, id: string)
    requires Sound(store) && DeletedGroup(store, id).Some?
    ensures Sound(DeletedGroup(store, id).value.store)
  {
    hide Trim, Known, Moved, InGroup, GroupsWithout, GroupWithId;
    var name := GroupWithId(store.groups, id).value.name;
    var groups := GroupsWithout(store.groups, id);
    FoundGroup(store.groups, id);
    GroupsWithoutMembers(store.groups, id);
    forall g | g in store.groups && g.name != name
      ensures HasGroup(groups, g.name)
    {
      assert g.id != id by {
        if g.id == id { SameGroup(store.groups, g, GroupWithId(store.groups, id).value); }
      }
      assert g in groups;
    }
    assert GroupsSound(groups, store.drawn);
    hide GroupsSound, ProfilesSound, DistinctGroups, HasGroup;
    MovedSound(store.profiles, store.groups, store.drawn, name, None, groups);
    MovedSound(store.redis, store.groups, store.drawn, name, None, groups);
  }

  lemma AssignedSound(store: Store, groupId: string, ids: seq<string>)
    requires Sound(store) && AssignedProfiles(store, groupId, ids).Some?
    ensures Sound(AssignedProfiles(store, groupId, ids).value.store)
  {
    hide Trim, Known, Matching, GroupsSound, GroupWithId, TrimmedIds;
    var name := GroupWithId(store.groups, groupId).value.name;
    FoundGroup(store.groups, groupId);
    assert HasGroup(store.groups, name);
    var placed := Assigned(store.profiles, TrimmedIds(ids), name);
    forall i | 0 <= i < |placed|
      ensures Known(placed[i].id, store.drawn) && placed[i].id == store.profiles[i].id
      ensures placed[i].group.Some? ==> HasGroup(store.groups, placed[i].group.value)
    {
      assert store.profiles[i] in store.profiles;
    }
    hide HasGroup, Assigned;
    assert ProfilesSound(placed, store.groups, store.drawn);
    hide ProfilesSound;
  }

  lemma ImportedOneSound(p: Progress, item: Candidate)
    requires Sound(p.store)
    ensures Sound(ImportedOne(p, item).store)
  {
    var existing := WithName(p.store.profiles, item.name);
    var group := ImportedGroup(item, existing);
    NormalizedIsTrimmed(
      if item.group.Some? then item.group else if existing.Some? then existing.value.group else None);
    WithGroupSound(p.store, group);
    var grouped := WithGroup(p.store, group);
    FoundProfile(p.store.profiles, item.name);
    if existing.None? {
      DrawnSound(grouped);
      NewIsKnown(grouped.drawn);
    }
    var after := if existing.Some? then grouped else grouped.(drawn := grouped.drawn + 1);
    hide Trim, Uuid, InsertOrReplace, Normalized, WithName, WithId;
    ImportedTables(p, item);
    var id := if existing.Some? then existing.value.id else Uuid(grouped.drawn);
    assert Known(id, after.drawn) by {
      if existing.Some? {
        assert Known(existing.value.id, p.store.drawn);
        KnownLater(id, p.store.drawn, after.drawn);
      }
    }
    hide Known, GroupsSound, WithGroup;
    forall q: Profile | q.id == id && q.group == group
      ensures ProfilesSound(InsertOrReplace(p.store.profiles, q), after.groups, after.drawn)
    {
      InsertedSound(p.store.profiles, after.groups, after.drawn, q);
    }
    hide ProfilesSound, HasGroup;
  }

  lemma ImportedTables(p: Progress, item: Candidate)
    ensures var grouped := WithGroup(p.store, ImportedGroup(item, WithName(p.store.profiles, item.name)));
      grouped.profiles == p.store.profiles && grouped.redis == p.store.redis
  {
    hide ImportedGroup, HasGroup, Uuid;
  }

  lemma {:induction false} ImportedAllSound(store: Store, items: seq<Candidate>)
    requires Sound(store) && ImportedAll(store, items).Some?
    ensures Sound(ImportedAll(store, items).value.store)
  {
    hide Sound, ImportedOne, ValidCandidate;
    if items != [] {
      ImportedAllSound(store, items[..|items| - 1]);
      ImportedOneSound(ImportedAll(store, items[..|items| - 1]).value, items[|items| - 1]);
    }
  }

  lemma StepKeepsSound(store: Store, op: Op)
    requires Sound(store) && Possible(store, op)
    ensures Sound(Step(store, op))
  {
    hide Saved, SavedRedis, Created, RenamedGroup, DeletedGroup, AssignedProfiles, ImportedAll, Deduped, Known,
      GroupsSound, ProfilesSound, Without;
    match op
    case SaveProfile(payload) => SavedSound(store, payload);
    case SaveRedis(payload) => SavedSound(store, payload);
    case DeleteProfile(id) => WithoutSound(store.profiles, store.groups, store.drawn, id);
    case DeleteRedis(id) => WithoutSound(store.redis, store.groups, store.drawn, id);
    case Import(items) =>
      if Imported(store, items).Some? { ImportedAllSound(store, Deduped(items)); }
    case CreateGroup(name) => if Created(store, name).Some? { CreatedSound(store, name); }
    case RenameGroup(id, name) => if RenamedGroup(store, id, name).Some? { RenamedSound(store, id, name); }
    case DeleteGroup(id) => if DeletedGroup(store, id).Some? { DeletedSound(store, id); }
    case Assign(id, ids) => if AssignedProfiles(store, id, ids).Some? { AssignedSound(store, id, ids); }
  }

  /** After any operations on a fresh store, its groups and the profiles that name them are sound. */
  lemma {:induction false} RunsAreSound(ops: seq<Op>)
    requires AllPossible(ops)
    ensures Sound(Run(ops))
  {
    if ops == [] {
      assert Sound(Fresh);
    } else {
      var rest := ops[..|ops| - 1];
      assert forall k :: 0 <= k < |rest| ==> rest[..k] == ops[..k];
      RunsAreSound(rest);
      assert Possible(Run(ops[..|ops| - 1]), ops[|ops| - 1]);
      hide Step, Sound, Possible;
      StepKeepsSound(Run(rest), ops[|ops| - 1]);
    }
  }

  // ---- Reported counts ----

  /** The rows that a statement has changed. */
  function ChangedRows(before: seq<Profile>, after: seq<Profile>): set<nat>
    requires |before| == |after|
  {
    set i: nat | i < |before| && before[i] != after[i]
  }

  function RowsIn(profiles: seq<Profile>, name: string): set<nat> {
    set i: nat | i < |profiles| && profiles[i].group == Some(name)
  }

  lemma ChangedByMove(profiles: seq<Profile>, from: string, to: Option<string>)
    requires to != Some(from)
    ensures ChangedRows(profiles, Moved(profiles, from, to)) == RowsIn(profiles, from)
  {
    var moved := Moved(profiles, from, to);
    hide Moved;
    forall i | 0 <= i < |profiles|
      ensures profiles[i] != moved[i] <==> profiles[i].group == Some(from)
    {
    }
  }

  lemma {:induction false} RowsCount(profiles: seq<Profile>, name: string)
    ensures InGroup(profiles, name) == |RowsIn(profiles, name)|
  {
    if profiles == [] {
      assert RowsIn(profiles, name) == {};
    } else {
      var n := |profiles| - 1;
      RowsCount(profiles[..n], name);
      if profiles[n].group == Some(name) {
        assert RowsIn(profiles, name) == RowsIn(profiles[..n], name) + {n};
      } else {
        assert RowsIn(profiles, name) == RowsIn(profiles[..n], name);
      }
    }
  }

  lemma MovedCount(profiles: seq<Profile>, from: string, to: Option<string>)
    requires to != Some(from)
    ensures InGroup(profiles, from) == |ChangedRows(profiles, Moved(profiles, from, to))|
  {
    ChangedByMove(profiles, from, to);
    RowsCount(profiles, from);
  }

  /** Renaming and deleting a group report exactly the MySQL and Redis profiles that they change. */
  lemma MovesAreCounted(store: Store, id: string, name: string)
    ensures var r := RenamedGroup(store, id, name);
      r.Some? ==>
        && |r.value.store.profiles| == |store.profiles| && |r.value.store.redis| == |store.redis|
        && r.value.count == |ChangedRows(store.profiles, r.value.store.profiles)|
                            + |ChangedRows(store.redis, r.value.store.redis)|
    ensures var r := DeletedGroup(store, id);
      r.Some? ==>
        && |r.value.store.profiles| == |store.profiles| && |r.value.store.redis| == |store.redis|
        && r.value.count == |ChangedRows(store.profiles, r.value.store.profiles)|
                            + |ChangedRows(store.redis, r.value.store.redis)|
  {
    hide Trim, Moved, InGroup, Renamed, GroupsWithout, TakenByOther, GroupWithId;
    if GroupWithId(store.groups, id).Some? {
      var previous := GroupWithId(store.groups, id).value.name;
      if previous != Trim(name) {
        MovedCount(store.profiles, previous, Some(Trim(name)));
        MovedCount(store.redis, previous, Some(Trim(name)));
      }
      MovedCount(store.profiles, previous, None);
      MovedCount(store.redis, previous, None);
      assert ChangedRows(store.profiles, store.profiles) == {};
      assert ChangedRows(store.redis, store.redis) == {};
    }
  }

  function RowsWithIds(profiles: seq<Profile>, ids: set<string>): set<nat> {
    set i: nat | i < |profiles| && profiles[i].id in ids
  }

  /**
   * Assigning puts exactly the MySQL profiles with a named identifier into the group and reports how many these are,
   * also those that were in the group before; it changes nothing else, and it is refused exactly without the group.
   */
  lemma AssignsAreCounted(store: Store, groupId: string, ids: seq<string>)
    ensures var r := AssignedProfiles(store, groupId, ids);
      && (r.Some? <==> GroupWithId(store.groups, groupId).Some?)
      && (r.Some? ==>
            && r.value.count == |RowsWithIds(store.profiles, TrimmedIds(ids))|
            && r.value.store == store.(profiles := r.value.store.profiles)
            && |r.value.store.profiles| == |store.profiles|
            && ChangedRows(store.profiles, r.value.store.profiles) <= RowsWithIds(store.profiles, TrimmedIds(ids))
            && forall i <- RowsWithIds(store.profiles, TrimmedIds(ids)) ::
                 r.value.store.profiles[i]
                 == store.profiles[i].(group := Some(GroupWithId(store.groups, groupId).value.name)))
  {
    hide Assigned, TrimmedIds, GroupWithId, Matching;
    MatchingAreRows(store.profiles, TrimmedIds(ids));
  }

  lemma {:induction false} MatchingAreRows(profiles: seq<Profile>, ids: set<string>)
    ensures Matching(profiles, ids) == |RowsWithIds(profiles, ids)|
  {
    if profiles == [] {
      assert RowsWithIds(profiles, ids) == {};
    } else {
      var n := |profiles| - 1;
      MatchingAreRows(profiles[..n], ids);
      if profiles[n].id in ids {
        assert RowsWithIds(profiles, ids) == RowsWithIds(profiles[..n], ids) + {n};
      } else {
        assert RowsWithIds(profiles, ids) == RowsWithIds(profiles[..n], ids);
      }
      hide RowsWithIds;
    }
  }

  // ---- Import is all or nothing ----

  lemma {:induction false} LessIsOrder(a: string, b: string, c: string)
    ensures !Less(a, a)
    ensures Less(a, b) && Less(b, c) ==> Less(a, c)
    ensures Less(a, b) || a == b || Less(b, a)
    decreases a
  {
    if a != "" {
      LessIsOrder(a[1..], if b == "" then "" else b[1..], if c == "" then "" else c[1..]);
      if b != "" && a[0] == b[0] && a[1..] == b[1..] {
        assert a == [a[0]] + a[1..] && b == [b[0]] + b[1..];
      }
    }
  }

  ghost predicate Sorted(items: seq<Candidate>) {
    forall i, j :: 0 <= i < j < |items| ==> Less(items[i].name, items[j].name)
  }

  lemma {:induction false} PutSorted(sorted: seq<Candidate>, item: Candidate)
    requires Sorted(sorted)
    ensures Sorted(Put(sorted, item)) && item in Put(sorted, item)
    ensures forall c :: c in Put(sorted, item) <==> c == item || (c in sorted && c.name != item.name)
  {
    hide Less;
    if sorted != [] {
      var first, rest := sorted[0], sorted[1..];
      assert sorted == [first] + rest;
      LessIsOrder(item.name, first.name, first.name);
      LessIsOrder(first.name, item.name, item.name);
      forall c | c in rest
        ensures Less(first.name, c.name) && c.name != first.name
        ensures Less(item.name, first.name) ==> Less(item.name, c.name) && c.name != item.name
      {
        var k :| 0 <= k < |rest| && rest[k] == c;
        assert sorted[k + 1] == c;
        LessIsOrder(item.name, first.name, c.name);
        LessIsOrder(first.name, c.name, c.name);
        LessIsOrder(item.name, c.name, c.name);
      }
      PutSorted(rest, item);
      PutCase(sorted, item);
    }
  }

  lemma PutCase(sorted: seq<Candidate>, item: Candidate)
    requires sorted != []
    ensures Put(sorted, item)
         == if item.name == sorted[0].name then [item] + sorted[1..]
            else if Less(item.name, sorted[0].name) then [item] + sorted
            else [sorted[0]] + Put(sorted[1..], item)
  {
    hide Less;
  }

  /** The last candidate of its name. */
  ghost predicate IsLast(items: seq<Candidate>, c: Candidate) {
    exists k :: 0 <= k < |items| && items[k] == c && forall j :: k < j < |items| ==> items[j].name != c.name
  }

  lemma IsLastStep(items: seq<Candidate>, c: Candidate)
    requires items != []
    ensures var last := items[|items| - 1];
      IsLast(items, c) <==> c == last || (IsLast(items[..|items| - 1], c) && c.name != last.name)
  {
    var n := |items| - 1;
    var rest, last := items[..n], items[n];
    if IsLast(rest, c) && c.name != last.name {
      var k :| 0 <= k < n && rest[k] == c && forall j :: k < j < n ==> rest[j].name != c.name;
      assert items[k] == c;
      forall j | k < j < |items|
        ensures items[j].name != c.name
      {
        if j < n { assert rest[j].name != c.name; }
      }
    }
    if IsLast(items, c) && c != last {
      var k :| 0 <= k < |items| && items[k] == c && forall j :: k < j < |items| ==> items[j].name != c.name;
      assert k < n && rest[k] == c;
      assert items[n].name != c.name;
    }
    if c == last {
      assert items[n] == c;
    }
  }

  /** Deduplication keeps the last candidate of each name, sorted by name. */
  lemma {:induction false} DedupedAreLast(items: seq<Candidate>)
    ensures Sorted(Deduped(items))
    ensures forall c :: c in Deduped(items) <==> IsLast(items, c)
  {
    if items != [] {
      var rest, last := items[..|items| - 1], items[|items| - 1];
      DedupedAreLast(rest);
      PutSorted(Deduped(rest), last);
      hide Put, Sorted, IsLast;
      forall c: Candidate
        ensures IsLast(items, c) <==> c == last || (IsLast(rest, c) && c.name != last.name)
      {
        IsLastStep(items, c);
      }
    }
  }

  function NameSet(items: seq<Candidate>): set<string> { set c <- items :: c.name }

  lemma {:induction false} SortedCount(items: seq<Candidate>)
    requires Sorted(items)
    ensures |NameSet(items)| == |items|
  {
    if items != [] {
      hide Less;
      var n := |items| - 1;
      var rest, last := items[..n], items[n];
      SortedCount(rest);
      assert last.name !in NameSet(rest) by {
        forall c | c in rest
          ensures c.name != last.name
        {
          var k :| 0 <= k < n && items[k] == c;
          LessIsOrder(c.name, c.name, c.name);
        }
      }
      assert items == rest + [last];
      assert NameSet(items) == NameSet(rest) + {last.name};
    }
  }

  lemma {:induction false} DedupedNames(items: seq<Candidate>)
    ensures NameSet(Deduped(items)) == NameSet(items)
  {
    if items != [] {
      var rest, last := items[..|items| - 1], items[|items| - 1];
      DedupedNames(rest);
      DedupedAreLast(rest);
      PutSorted(Deduped(rest), last);
      hide Put, Sorted, IsLast;
      assert items == rest + [last];
      forall name: string
        ensures name in NameSet(Put(Deduped(rest), last)) <==> name in NameSet(rest) || name == last.name
      {
        if name in NameSet(Deduped(rest)) && name != last.name {
          var c :| c in Deduped(rest) && c.name == name;
          assert c in Put(Deduped(rest), last);
        }
        assert last in Put(Deduped(rest), last);
      }
      assert forall name: string :: name in NameSet(items) <==> name in NameSet(rest) || name == last.name;
    }
  }

  lemma ImportedOneCounts(p: Progress, item: Candidate)
    requires Sound(p.store)
    ensures var q := ImportedOne(p, item);
      && q.total == p.total + 1
      && q.created + q.updated == p.created + p.updated + 1
      && |q.store.profiles| == |p.store.profiles| + (q.created - p.created)
      && q.store.redis == p.store.redis
  {
    var profiles := p.store.profiles;
    var existing := WithName(profiles, item.name);
    var grouped := WithGroup(p.store, ImportedGroup(item, existing));
    ImportedTables(p, item);
    FoundProfile(profiles, item.name);
    assert grouped.drawn >= p.store.drawn by { hide Trim, Uuid, HasGroup; }
    hide Trim, Uuid, HasGroup, ImportedGroup, WithGroup, InsertOrReplace;
    assert existing.None? ==> forall q <- profiles :: q.id != Uuid(grouped.drawn) by {
      forall q | q in profiles
        ensures q.id != Uuid(grouped.drawn)
      {
        assert Known(q.id, p.store.drawn);
      }
    }
    hide Known, GroupsSound;
    forall q: Profile
      ensures |InsertOrReplace(profiles, q)|
           == if exists r <- profiles :: r.id == q.id then |profiles| else |profiles| + 1
    {
      InsertedLength(profiles, q);
    }
    if existing.Some? {
      assert exists r <- profiles :: r.id == existing.value.id;
    }
  }

  lemma {:induction false} ImportedAllCounts(store: Store, items: seq<Candidate>)
    requires Sound(store)
    ensures ImportedAll(store, items).Some? <==> forall item <- items :: ValidCandidate(item)
    ensures var r := ImportedAll(store, items);
      r.Some? ==>
        && r.value.total == r.value.created + r.value.updated == |items|
        && |r.value.store.profiles| == |store.profiles| + r.value.created
        && r.value.store.redis == store.redis
  {
    hide Sound, ImportedOne, ValidCandidate;
    if items != [] {
      var rest, last := items[..|items| - 1], items[|items| - 1];
      ImportedAllCounts(store, rest);
      assert items == rest + [last];
      if ImportedAll(store, rest).Some? {
        ImportedAllSound(store, rest);
        ImportedOneCounts(ImportedAll(store, rest).value, last);
      }
    }
  }

  /**
   * An import takes place exactly when the last candidate of every name is valid; it then reports as many profiles as
   * there are names, each created or updated, and the table has grown by the created ones.
   */
  lemma ImportIsCounted(store: Store, items: seq<Candidate>)
    requires Sound(store)
    ensures Imported(store, items).Some?
       <==> forall item :: IsLast(items, item) ==>
              Trim(item.name) != "" && Trim(item.host) != "" && Trim(item.username) != "" && item.port > 0
    ensures var r := Imported(store, items);
      r.Some? ==>
        && r.value.total == r.value.created + r.value.updated == |NameSet(items)|
        && |r.value.store.profiles| == |store.profiles| + r.value.created
        && r.value.store.redis == store.redis
  {
    hide ImportedAll, Deduped, Sound, IsLast, Trim, NameSet, Sorted;
    DedupedAreLast(items);
    DedupedNames(items);
    SortedCount(Deduped(items));
    ImportedAllCounts(store, Deduped(items));
  }

  // ---- The store ----

  lemma {:induction false} AssignedTwice(profiles: seq<Profile>, a: set<string>, b: set<string>, name: string)
    ensures Assigned(Assigned(profiles, a, name), b, name) == Assigned(profiles, a + b, name)
  {
    hide Assigned;
  }

  lemma {:induction false} MatchingTwice(profiles: seq<Profile>, a: set<string>, b: set<string>, name: string)
    requires a !! b
    ensures Matching(profiles, a + b) == Matching(profiles, a) + Matching(Assigned(profiles, a, name), b)
  {
    if profiles != [] {
      var n := |profiles| - 1;
      MatchingTwice(profiles[..n], a, b, name);
      assert Assigned(profiles, a, name)[..n] == Assigned(profiles[..n], a, name) by { hide Assigned; }
      hide Assigned;
    }
  }

  lemma NothingAssigned(profiles: seq<Profile>, name: string)
    ensures Assigned(profiles, {}, name) == profiles && Matching(profiles, {}) == 0
  {
    MatchingAreRows(profiles, {});
    assert RowsWithIds(profiles, {}) == {};
    hide Assigned, Matching;
  }

  /** The local store; each method runs against the tables in place. */
  class LocalStore {
    var groups: seq<Group>
    var profiles: seq<Profile>
    var redis: seq<Profile>
    var drawn: nat

    ghost function Model(): Store
      reads this
    {
      Store(groups, profiles, redis, drawn)
    }

    constructor ()
      ensures Model() == Fresh
    {
      groups, profiles, redis, drawn := [], [], [], 0;
    }

    method DrawId() returns (id: string)
      modifies this`drawn
      ensures id == Uuid(old(drawn)) && drawn == old(drawn) + 1
    {
      id := Uuid(drawn);
      drawn := drawn + 1;
    }

    method EnsureDataSourceGroup(name: Option<string>)
      modifies this`groups, this`drawn
      ensures Model() == WithGroup(old(Model()), name)
    {
      if name.Some? && !HasGroup(groups, name.value) {
        var id := DrawId();
        groups := groups + [Group(id, name.value)];
      }
    }

    method SaveConnectionProfile(payload: Payload) returns (ok: bool)
      modifies this
      ensures ok == Saved(old(Model()), payload).Some? && Model() == Step(old(Model()), SaveProfile(payload))
    {
      hide Normalized, InsertOrReplace, Trim, Uuid, HasGroup;
      var existing := if payload.id.Some? then WithId(profiles, payload.id.value) else None;
      var password := StoredPassword(existing, payload.password);
      if !ValidProfile(payload, password) {
        return false;
      }
      var id: string;
      if payload.id.Some? {
        id := payload.id.value;
      } else {
        id := DrawId();
      }
      EnsureDataSourceGroup(Normalized(payload.group));
      profiles := InsertOrReplace(profiles, ProfileOf(id, payload, password));
      ok := true;
    }

    method SaveRedisConnectionProfile(payload: Payload) returns (ok: bool)
      modifies this
      ensures ok == SavedRedis(old(Model()), payload).Some? && Model() == Step(old(Model()), SaveRedis(payload))
    {
      hide Normalized, InsertOrReplace, Trim, Uuid, HasGroup;
      if !ValidRedis(payload) {
        return false;
      }
      var id: string;
      if payload.id.Some? {
        id := payload.id.value;
      } else {
        id := DrawId();
      }
      var password := StoredPassword(WithId(redis, id), payload.password);
      EnsureDataSourceGroup(Normalized(payload.group));
      redis := InsertOrReplace(redis, ProfileOf(id, payload, password));
      ok := true;
    }

    method DeleteConnectionProfile(id: string)
      modifies this`profiles
      ensures Model() == Step(old(Model()), DeleteProfile(id))
    {
      profiles := Without(profiles, id);
    }

    method DeleteRedisConnectionProfile(id: string)
      modifies this`redis
      ensures Model() == Step(old(Model()), DeleteRedis(id))
    {
      redis := Without(redis, id);
    }

    method CreateDataSourceGroup(name: string) returns (ok: bool)
      modifies this
      ensures ok == Created(old(Model()), name).Some? && Model() == Step(old(Model()), CreateGroup(name))
    {
      hide Trim, Uuid;
      if Trim(name) == "" || HasGroup(groups, Trim(name)) {
        return false;
      }
      var id := DrawId();
      groups := groups + [Group(id, Trim(name))];
      ok := true;
    }

    method RenameDataSourceGroup(id: string, name: string) returns (affected: Option<nat>)
      modifies this
      ensures Model() == Step(old(Model()), RenameGroup(id, name))
      ensures affected == match RenamedGroup(old(Model()), id, name) case None => None case Some(a) => Some(a.count)
    {
      hide Trim, Moved, Renamed, GroupWithId, InGroup;
      var trimmed := Trim(name);
      if trimmed == "" {
        return None;
      }
      var existing := GroupWithId(groups, id);
      if existing.None? || TakenByOther(groups, id, trimmed) {
        return None;
      }
      var previous := existing.value.name;
      var count := 0;
      if previous != trimmed {
        count := InGroup(profiles, previous) + InGroup(redis, previous);
        profiles := Moved(profiles, previous, Some(trimmed));
        redis := Moved(redis, previous, Some(trimmed));
      }
      groups := Renamed(groups, id, trimmed);
      affected := Some(count);
    }

    method DeleteDataSourceGroup(id: string) returns (affected: Option<nat>)
      modifies this
      ensures Model() == Step(old(Model()), DeleteGroup(id))
      ensures affected == match DeletedGroup(old(Model()), id) case None => None case Some(a) => Some(a.count)
    {
      hide Moved, GroupsWithout, GroupWithId, InGroup;
      var existing := GroupWithId(groups, id);
      if existing.None? {
        return None;
      }
      var name := existing.value.name;
      var count := InGroup(profiles, name) + InGroup(redis, name);
      profiles := Moved(profiles, name, None);
      redis := Moved(redis, name, None);
      groups := GroupsWithout(groups, id);
      affected := Some(count);
    }

    method AssignProfilesToDataSourceGroup(groupId: string, ids: seq<string>) returns (affected: Option<nat>)
      modifies this
      ensures Model() == Step(old(Model()), Assign(groupId, ids))
      ensures affected
           == match AssignedProfiles(old(Model()), groupId, ids) case None => None case Some(a) => Some(a.count)
    {
      hide Assigned, Matching, TrimmedIds, GroupWithId;
      var target := GroupWithId(groups, groupId);
      if target.None? {
        return None;
      }
      var name := target.value.name;
      var pending := TrimmedIds(ids);
      ghost var done: set<string> := {};
      var rows, count := profiles, 0;
      NothingAssigned(profiles, name);
      while pending != {}
        invariant Model() == old(Model())
        invariant done !! pending && done + pending == TrimmedIds(ids)
        invariant rows == Assigned(profiles, done, name) && count == Matching(profiles, done)
        decreases pending
      {
        var id :| id in pending;
        MatchingTwice(profiles, done, {id}, name);
        AssignedTwice(profiles, done, {id}, name);
        count := count + Matching(rows, {id});
        rows := Assigned(rows, {id}, name);
        done, pending := done + {id}, pending - {id};
      }
      assert done == TrimmedIds(ids);
      profiles := rows;
      affected := Some(count);
    }

    /** One transaction: an invalid candidate discards what the ones before it have done. */
    method ImportConnectionProfiles(items: seq<Candidate>) returns (result: Option<Progress>)
      modifies this
      ensures result == Imported(old(Model()), items)
      ensures Model() == Step(old(Model()), Import(items))
    {
      hide Deduped, ImportedOne, ValidCandidate;
      var candidates := Deduped(items);
      var transaction := Progress(Store(groups, profiles, redis, drawn), 0, 0, 0, 0);
      ghost var before := Model();
      for k := 0 to |candidates|
        invariant ImportedAll(before, candidates[..k]) == Some(transaction)
        invariant Model() == before
      {
        assert candidates[..k + 1][..k] == candidates[..k];
        if !ValidCandidate(candidates[k]) {
          StuckImport(before, candidates, k + 1);
          return None;
        }
        transaction := ImportedOne(transaction, candidates[k]);
      }
      assert candidates[..|candidates|] == candidates;
      groups, profiles := transaction.store.groups, transaction.store.profiles;
      redis, drawn := transaction.store.redis, transaction.store.drawn;
      result := Some(transaction);
    }
  }

  lemma {:induction false} StuckImport(store: Store, items: seq<Candidate>, k: nat)
    requires k <= |items| && ImportedAll(store, items[..k]).None?
    ensures ImportedAll(store, items).None?
    decreases |items|
  {
    hide ImportedOne, ValidCandidate;
    if k < |items| {
      assert items[..|items| - 1][..k] == items[..k];
      StuckImport(store, items[..|items| - 1], k);
    } else {
      assert items[..k] == items;
    }
  }
}
