/** What the operations of the local store do to its rows, field by field. */
module GroupMeaning {
  import opened GroupStore
  import opened Text

  // ---- Rows ----

  /** The row with the profile's identifier is replaced in its place, or the profile is a new last row. */
  ghost predicate PutAt(before: seq<Profile>, after: seq<Profile>, p: Profile, i: int) {
    && 0 <= i <= |before| && (forall j :: 0 <= j < i ==> before[j].id != p.id)
    && (i < |before| ==> before[i].id == p.id)
    && after == before[..i] + [p] + if i < |before| then before[i + 1..] else []
  }

  ghost predicate Puts(before: seq<Profile>, after: seq<Profile>, p: Profile) { exists i :: PutAt(before, after, p, i) }

  lemma {:induction false} InsertedPuts(profiles: seq<Profile>, p: Profile)
    ensures Puts(profiles, InsertOrReplace(profiles, p), p)
  {
    if profiles == [] || profiles[0].id == p.id {
      assert PutAt(profiles, InsertOrReplace(profiles, p), p, 0);
    } else {
      InsertedPuts(profiles[1..], p);
      var i :| PutAt(profiles[1..], InsertOrReplace(profiles[1..], p), p, i);
      PutLater(profiles, InsertOrReplace(profiles[1..], p), p, i);
    }
  }

  lemma PutLater(profiles: seq<Profile>, after: seq<Profile>, p: Profile, i: int)
    requires profiles != [] && profiles[0].id != p.id && PutAt(profiles[1..], after, p, i)
    ensures PutAt(profiles, [profiles[0]] + after, p, i + 1)
  {
    assert profiles == [profiles[0]] + profiles[1..];
    assert profiles[..i + 1] == [profiles[0]] + profiles[1..][..i];
    if i < |profiles[1..]| { assert profiles[i + 2..] == profiles[1..][i + 1..]; }
  }

  /** A named group is there afterwards: as before, or as a new last one with an identifier of its own. */
  ghost predicate GroupThere(before: seq<Group>, after: seq<Group>, name: Option<string>) {
    if name.None? || exists g <- before :: g.name == name.value then after == before
    else
      && |after| == |before| + 1 && after[..|before|] == before && after[|before|].name == name.value
      && forall g <- before :: g.id != after[|before|].id
  }

  /** A blank name stands for no group, others are trimmed. */
  ghost predicate Names(given: Option<string>, group: Option<string>) {
    if given.None? || Trim(given.value) == "" then group == None else group == Some(Trim(given.value))
  }

  lemma GroupIsThere(store: Store, name: Option<string>)
    requires Sound(store)
    ensures GroupThere(store.groups, WithGroup(store, name).groups, name)
    ensures WithGroup(store, name).profiles == store.profiles && WithGroup(store, name).redis == store.redis
    ensures WithGroup(store, name).drawn >= store.drawn
  {
    NewGroupDiffers(store.groups, store.drawn);
    hide Uuid, Known;
  }

  lemma NewGroupDiffers(groups: seq<Group>, drawn: nat)
    requires GroupsSound(groups, drawn)
    ensures forall g <- groups :: g.id != Uuid(drawn)
  {
  }

  lemma NewProfileDiffers(profiles: seq<Profile>, groups: seq<Group>, drawn: nat, later: nat)
    requires ProfilesSound(profiles, groups, drawn) && later >= drawn
    ensures forall p <- profiles :: p.id != Uuid(later)
  {
  }

  // ---- Saving ----

  /** The identifier is the given one, or one that no row has. */
  ghost predicate IdOf(p: Profile, given: Option<string>, rows: seq<Profile>) {
    if given.Some? then p.id == given.value else forall q <- rows :: q.id != p.id
  }

  /** The password is the given one, or that of the row with the identifier, if there is one. */
  ghost predicate PasswordOf(p: Profile, payload: Payload, rows: seq<Profile>) {
    if payload.password != "" then p.password == payload.password
    else if exists q <- rows :: q.id == p.id then exists q <- rows :: q.id == p.id && p.password == q.password
    else p.password == ""
  }

  ghost predicate Holds(p: Profile, payload: Payload, rows: seq<Profile>) {
    && IdOf(p, payload.id, rows) && PasswordOf(p, payload, rows) && Names(payload.group, p.group)
    && p.name == Trim(payload.name) && p.host == Trim(payload.host) && p.port == payload.port
    && p.username == Trim(payload.username) && p.database_index == payload.database_index
    && p.connect_timeout_ms == payload.connect_timeout_ms
  }

  /** Some password is given or known. */
  ghost predicate HasPassword(payload: Payload, rows: seq<Profile>) {
    payload.password != "" || exists q <- rows :: payload.id == Some(q.id) && q.password != ""
  }

  lemma {:induction false} WithIdFinds(profiles: seq<Profile>, id: string)
    requires DistinctIds(profiles)
    ensures WithId(profiles, id).Some? <==> exists q <- profiles :: q.id == id
    ensures forall q <- profiles :: q.id == id ==> WithId(profiles, id) == Some(q)
    ensures WithId(profiles, id).Some? ==> WithId(profiles, id).value in profiles && WithId(profiles, id).value.id == id
  {
    if profiles != [] {
      assert profiles == [profiles[0]] + profiles[1..];
      WithIdFinds(profiles[1..], id);
    }
  }

  lemma RowsAreDistinct(profiles: seq<Profile>, groups: seq<Group>, drawn: nat)
    requires ProfilesSound(profiles, groups, drawn)
    ensures DistinctIds(profiles)
  {
  }

  /** A profile is saved exactly when it is complete; its row holds what was given, trimmed, and no other changes. */
  lemma SavedIsStored(store: Store, payload: Payload)
    requires Sound(store)
    ensures Saved(store, payload).Some?
       <==> && Trim(payload.name) != "" && Trim(payload.host) != "" && Trim(payload.username) != ""
            && payload.port > 0 && HasPassword(payload, store.profiles)
    ensures Saved(store, payload).Some? ==>
      var now := Saved(store, payload).value;
      && (exists p :: Holds(p, payload, store.profiles) && Puts(store.profiles, now.profiles, p)
                      && GroupThere(store.groups, now.groups, p.group))
      && now.redis == store.redis
  {
    hide Trim, Uuid, Known, GroupThere, Puts, DistinctIds, GroupsSound, HasGroup;
    RowsAreDistinct(store.profiles, store.groups, store.drawn);
    if payload.id.Some? { WithIdFinds(store.profiles, payload.id.value); }
    NewProfileDiffers(store.profiles, store.groups, store.drawn, store.drawn);
    hide ProfilesSound;
    var existing := if payload.id.Some? then WithId(store.profiles, payload.id.value) else None;
    var password := StoredPassword(existing, payload.password);
    var p := ProfileOf(SavedId(store, payload), payload, password);
    if Saved(store, payload).Some? {
      AfterIdIsSound(store, payload);
      GroupIsThere(AfterId(store, payload), Normalized(payload.group));
      InsertedPuts(store.profiles, p);
      hide InsertOrReplace, WithId, WithGroup, Sound;
      assert Holds(p, payload, store.profiles);
    }
  }

  lemma AfterIdIsSound(store: Store, payload: Payload)
    requires Sound(store)
    ensures Sound(AfterId(store, payload))
    ensures AfterId(store, payload).groups == store.groups && AfterId(store, payload).profiles == store.profiles
    ensures AfterId(store, payload).redis == store.redis
  {
    DrawnSound(store);
    hide Sound;
  }

  lemma SavedRedisIsStored(store: Store, payload: Payload)
    requires Sound(store)
    ensures SavedRedis(store, payload).Some?
       <==> && Trim(payload.name) != "" && Trim(payload.host) != "" && payload.port > 0
            && payload.database_index <= 255 && 100 <= payload.connect_timeout_ms <= 120_000
    ensures SavedRedis(store, payload).Some? ==>
      var now := SavedRedis(store, payload).value;
      && (exists p :: Holds(p, payload, store.redis) && Puts(store.redis, now.redis, p)
                      && GroupThere(store.groups, now.groups, p.group))
      && now.profiles == store.profiles
  {
    hide Trim, Uuid, Known, GroupThere, Puts, DistinctIds, GroupsSound, HasGroup;
    RowsAreDistinct(store.redis, store.groups, store.drawn);
    WithIdFinds(store.redis, SavedId(store, payload));
    NewProfileDiffers(store.redis, store.groups, store.drawn, store.drawn);
    hide ProfilesSound;
    var password := StoredPassword(WithId(store.redis, SavedId(store, payload)), payload.password);
    var p := ProfileOf(SavedId(store, payload), payload, password);
    if SavedRedis(store, payload).Some? {
      AfterIdIsSound(store, payload);
      GroupIsThere(AfterId(store, payload), Normalized(payload.group));
      InsertedPuts(store.redis, p);
      hide InsertOrReplace, WithId, WithGroup, Sound;
      assert Holds(p, payload, store.redis);
    }
  }

  // ---- Importing ----

  /** The first row of a name. */
  ghost predicate FirstNamed(rows: seq<Profile>, name: string, p: Profile) {
    exists i :: 0 <= i < |rows| && rows[i] == p && p.name == name && forall j :: 0 <= j < i ==> rows[j].name != name
  }

  /** What an imported row holds when the first row of the candidate's name is `was`, or when there is none. */
  ghost predicate ImportHolds(p: Profile, item: Candidate, was: Option<Profile>, rows: seq<Profile>) {
    && IdOf(p, if was.Some? then Some(was.value.id) else None, rows)
    && Names(if item.group.Some? then item.group else if was.Some? then was.value.group else None, p.group)
    && p.name == Trim(item.name) && p.host == Trim(item.host) && p.port == item.port
    && p.username == Trim(item.username)
    && p.password == if Trim(item.password) != "" then Trim(item.password)
                     else if was.Some? then was.value.password else ""
  }

  lemma {:induction false} WithNameIsFirst(profiles: seq<Profile>, name: string)
    ensures match WithName(profiles, name)
            case None => forall q <- profiles :: q.name != name
            case Some(p) => FirstNamed(profiles, name, p)
  {
    if profiles != [] {
      assert profiles == [profiles[0]] + profiles[1..];
      WithNameIsFirst(profiles[1..], name);
      if profiles[0].name != name && WithName(profiles[1..], name).Some? {
        var p := WithName(profiles[1..], name).value;
        var i :| 0 <= i < |profiles[1..]| && profiles[1..][i] == p
                 && forall j :: 0 <= j < i ==> profiles[1..][j].name != name;
        assert profiles[i + 1] == p;
        assert forall j :: 0 < j < i + 1 ==> profiles[j] == profiles[1..][j - 1];
      }
    }
  }

  /**
   * One candidate of an import: the first row of its name is updated in its place, or a new row is added when there is
   * none; the row holds what was given, trimmed, and what was there where nothing was given; no other row changes.
   */
  lemma ImportedIsStored(p: Progress, item: Candidate)
    requires Sound(p.store)
    ensures
      var now, before := ImportedOne(p, item), p.store.profiles;
      var was := WithName(before, item.name);
      && (match was case None => (forall q <- before :: q.name != item.name)
                    case Some(first) => FirstNamed(before, item.name, first))
      && (exists row :: ImportHolds(row, item, was, before) && Puts(before, now.store.profiles, row)
                        && GroupThere(p.store.groups, now.store.groups, row.group))
      && now.store.redis == p.store.redis
      && now.created == p.created + (if was.None? then 1 else 0)
      && now.updated == p.updated + (if was.Some? then 1 else 0)
      && now.unresolved == p.unresolved + (if Trim(item.password) == "" then 1 else 0)
  {
    hide Trim, Uuid, Known, GroupThere, Puts, GroupsSound, HasGroup, FirstNamed;
    var before := p.store.profiles;
    var was := WithName(before, item.name);
    WithNameIsFirst(before, item.name);
    var group := ImportedGroup(item, was);
    GroupIsThere(p.store, group);
    var later := WithGroup(p.store, group).drawn;
    NewProfileDiffers(before, p.store.groups, p.store.drawn, later);
    hide WithName, WithGroup, Sound, ProfilesSound;
    var id := if was.Some? then was.value.id else Uuid(later);
    var blank := Trim(item.password) == "";
    var row := Profile(id, group, Trim(item.name), Trim(item.host), item.port, Trim(item.username),
      if blank then (if was.Some? then was.value.password else "") else Trim(item.password), 0, 0);
    InsertedPuts(before, row);
    hide InsertOrReplace;
    assert ImportHolds(row, item, was, before);
  }

  // ---- Groups ----

  /** The profiles of one group are moved, and no others. */
  ghost predicate AllMoved(before: seq<Profile>, after: seq<Profile>, from: string, to: Option<string>) {
    && |after| == |before|
    && forall i :: 0 <= i < |before| ==>
         after[i] == if before[i].group == Some(from) then before[i].(group := to) else before[i]
  }

  /** A group is created exactly under a name that is not blank and that no group has. */
  lemma CreatedIsStored(store: Store, name: string)
    requires Sound(store)
    ensures Created(store, name).Some? <==> Trim(name) != "" && forall g <- store.groups :: g.name != Trim(name)
    ensures Created(store, name).Some? ==>
      var now := Created(store, name).value;
      GroupThere(store.groups, now.groups, Some(Trim(name)))
      && now.profiles == store.profiles && now.redis == store.redis
  {
    GroupIsThere(store, Some(Trim(name)));
    hide Trim, WithGroup, Sound, GroupThere;
  }

  lemma {:induction false} GroupIsFound(groups: seq<Group>, id: string)
    requires DistinctGroups(groups)
    ensures GroupWithId(groups, id).None? <==> forall g <- groups :: g.id != id
    ensures forall g <- groups :: g.id == id ==> GroupWithId(groups, id) == Some(g)
  {
    if groups != [] {
      assert groups == [groups[0]] + groups[1..];
      GroupIsFound(groups[1..], id);
    }
  }

  lemma GroupsAreDistinct(store: Store)
    requires Sound(store)
    ensures DistinctGroups(store.groups)
  {
  }

  /**
   * A group is renamed exactly to a name that is not blank and that no other group has; it keeps its place and
   * identifier, the profiles of both kinds that name it go with it, and nothing else changes.
   */
  lemma RenamedIsStored(store: Store, group: Group, name: string)
    requires Sound(store) && group in store.groups
    ensures RenamedGroup(store, group.id, name).Some?
       <==> Trim(name) != "" && forall g <- store.groups :: g.name == Trim(name) ==> g == group
    ensures RenamedGroup(store, group.id, name).Some? ==>
      var now := RenamedGroup(store, group.id, name).value.store;
      && |now.groups| == |store.groups|
      && (forall i :: 0 <= i < |store.groups| ==>
            now.groups[i] == if store.groups[i] == group then Group(group.id, Trim(name)) else store.groups[i])
      && AllMoved(store.profiles, now.profiles, group.name, Some(Trim(name)))
      && AllMoved(store.redis, now.redis, group.name, Some(Trim(name)))
  {
    GroupsAreDistinct(store);
    GroupIsFound(store.groups, group.id);
    SameIdSameGroup(store.groups, group);
    hide Trim, GroupWithId, Sound, Moved, Renamed, InGroup, DistinctGroups;
  }

  lemma SameIdSameGroup(groups: seq<Group>, group: Group)
    requires DistinctGroups(groups) && group in groups
    ensures forall g <- groups :: g.id == group.id <==> g == group
    ensures forall i :: 0 <= i < |groups| ==> (groups[i].id == group.id <==> groups[i] == group)
  {
  }

  lemma NoSuchGroup(store: Store, id: string, name: string, ids: seq<string>)
    requires Sound(store) && forall g <- store.groups :: g.id != id
    ensures RenamedGroup(store, id, name) == None && DeletedGroup(store, id) == None
    ensures AssignedProfiles(store, id, ids) == None
  {
    GroupsAreDistinct(store);
    GroupIsFound(store.groups, id);
    hide Trim, GroupWithId, Sound;
  }

  lemma {:induction false} OthersStay(groups: seq<Group>, id: string)
    requires DistinctGroups(groups)
    ensures forall g: Group :: g in GroupsWithout(groups, id) <==> g in groups && g.id != id
  {
    if groups != [] {
      assert groups == [groups[0]] + groups[1..];
      OthersStay(groups[1..], id);
    }
  }

  /** A deleted group goes, and the profiles of both kinds that name it are left without one. */
  lemma DeletedIsGone(store: Store, group: Group)
    requires Sound(store) && group in store.groups
    ensures DeletedGroup(store, group.id).Some?
    ensures
      var now := DeletedGroup(store, group.id).value.store;
      && (forall g: Group :: g in now.groups <==> g in store.groups && g != group)
      && AllMoved(store.profiles, now.profiles, group.name, None) && AllMoved(store.redis, now.redis, group.name, None)
  {
    GroupsAreDistinct(store);
    GroupIsFound(store.groups, group.id);
    OthersStay(store.groups, group.id);
    SameIdSameGroup(store.groups, group);
    hide GroupWithId, Sound, Moved, InGroup, GroupsWithout, DistinctGroups;
  }
}
