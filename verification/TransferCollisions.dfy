/**
 * Transfers whose names share a temporary file, one after the other: when they are safe, and runs that deliver a file
 * made from two sources when they are not.
 */
module TransferCollisions {
  import opened RangeHeader
  import opened Text
  import opened Transfer
  import opened TransferContent

  // ---- Runs of one request at a time ----

  /** The state after a possible run whose only request, if any, has number 0. */
  ghost predicate Reaches(sources: Sources, actions: seq<Action>, s: State) {
    Possible(sources, actions) && Run(actions) == s && s.handlers.Keys <= {0}
  }

  lemma OneRequestIsAlone(s: State)
    requires s.handlers.Keys <= {0}
    ensures NoClash(s)
  {
  }

  lemma PossibleExtends(sources: Sources, actions: seq<Action>, a: Action)
    requires Possible(sources, actions)
    requires FreshId(Run(actions), a) && Honest(sources, Run(actions), a) && NoClash(Run(actions))
    ensures Possible(sources, actions + [a]) && Run(actions + [a]) == Step(Run(actions), a)
  {
    hide FreshId, Honest, Step, NoClash;
    var more := actions + [a];
    assert more[..|actions|] == actions;
    forall k | 0 <= k < |more|
      ensures FreshId(Run(more[..k]), more[k]) && Honest(sources, Run(more[..k]), more[k]) && NoClash(Run(more[..k]))
    {
      if k < |actions| { assert more[..k] == actions[..k]; }
    }
  }

  lemma OneRequestStays(s: State, a: Action)
    requires s.handlers.Keys <= {0} && a.h == 0
    ensures Step(s, a).handlers.Keys <= {0}
  {
    hide NextSessions, NextPartials, NextTemps, NextFinals, NextUsedIds, Entered, Continued;
  }

  lemma ReachesOn(sources: Sources, actions: seq<Action>, s: State, a: Action, t: State)
    requires Reaches(sources, actions, s) && FreshId(s, a) && Honest(sources, s, a)
    requires a.h == 0 && t == Step(s, a)
    ensures Reaches(sources, actions + [a], t)
  {
    hide FreshId, Honest, Step, NoClash, Run, Possible;
    OneRequestIsAlone(s);
    PossibleExtends(sources, actions, a);
    OneRequestStays(s, a);
  }

  lemma NothingReached(sources: Sources)
    ensures Reaches(sources, [], Init)
  {
  }

  function WithHandler(s: State, handler: Handler): State { s.(handlers := map[0 := handler]) }

  /** The paths that a key gets when it is new. */
  function Own(key: Key): Partial { Partial(TempOf(key), "") }

  function Recorded(s: State, key: Key): State { s.(partials := s.partials[key := Own(key)]) }

  /** The key is new, or was recorded with its own paths. */
  predicate NewOrOwn(found: Option<Partial>, key: Key) { found.None? || found.value == Own(key) }

  // ---- A download up to its first byte ----

  lemma DownloadLooksUp(s: State, key: Key)
    requires s.handlers == map[] && key.kind == SharedDownload
    ensures Step(s, DownloadLoad(0, key.peer, key.resource, ""))
         == WithHandler(s, Looking(key, "", Found(s.partials, key)))
  {
    assert Key(SharedDownload, key.peer, key.resource) == key;
  }

  lemma DownloadIsChosen(s: State, key: Key, found: Option<Partial>)
    requires NewOrOwn(found, key)
    ensures Step(WithHandler(s, Looking(key, "", found)), DownloadChoose(0))
         == WithHandler(s, Chosen(DownloadJob(key, Own(key)), Resumes(s.temps, found)))
  {
  }

  lemma DownloadIsMeasured(s: State, job: Job, resumes: bool)
    ensures Step(WithHandler(s, Chosen(job, resumes)), DownloadMeasure(0))
         == WithHandler(s, Located(job, if resumes then LengthOf(s.temps, job.temp_path) else 0))
  {
  }

  lemma DownloadIsRecorded(s: State, key: Key, offset: nat)
    ensures var job := DownloadJob(key, Own(key));
      Step(WithHandler(s, Located(job, offset)), DownloadRecord(0))
      == WithHandler(Recorded(s, key), Measured(job, offset))
  {
  }

  lemma DownloadStarts(sources: Sources, actions: seq<Action>, s: State, key: Key) returns (more: seq<Action>)
    requires Reaches(sources, actions, s) && s.handlers == map[]
    requires key in sources && key.kind == SharedDownload && NewOrOwn(Found(s.partials, key), key)
    ensures
      var offset := if key in s.partials then LengthOf(s.temps, TempOf(key)) else 0;
      Reaches(sources, more, WithHandler(Recorded(s, key), Measured(DownloadJob(key, Own(key)), offset)))
  {
    hide Step, Reaches, Possible, Run;
    var found, job := Found(s.partials, key), DownloadJob(key, Own(key));
    var resumes := Resumes(s.temps, found);
    var offset := if resumes then LengthOf(s.temps, job.temp_path) else 0;
    assert Key(SharedDownload, key.peer, key.resource) == key;
    DownloadLooksUp(s, key);
    DownloadIsChosen(s, key, found);
    DownloadIsMeasured(s, job, resumes);
    DownloadIsRecorded(s, key, offset);
    var load := DownloadLoad(0, key.peer, key.resource, "");
    ReachesOn(sources, actions, s, load, WithHandler(s, Looking(key, "", found)));
    more := actions + [load];
    ReachesOn(sources, more, WithHandler(s, Looking(key, "", found)), DownloadChoose(0),
      WithHandler(s, Chosen(job, resumes)));
    more := more + [DownloadChoose(0)];
    ReachesOn(sources, more, WithHandler(s, Chosen(job, resumes)), DownloadMeasure(0),
      WithHandler(s, Located(job, offset)));
    more := more + [DownloadMeasure(0)];
    ReachesOn(sources, more, WithHandler(s, Located(job, offset)), DownloadRecord(0),
      WithHandler(Recorded(s, key), Measured(job, offset)));
    more := more + [DownloadRecord(0)];
  }

  // ---- An upload of one file, up to its first byte ----

  function Offered(key: Key): map<string, WireFile> { map[key.resource := WireFile("", "")] }

  function OneFile(key: Key): map<string, SessionFile> {
    map[key.resource := SessionFile(key.resource, "", TempOf(key), "")]
  }

  function OneSession(s: State, id: string, key: Key, status: SessionStatus): State {
    Recorded(s, key).(
      sessions := s.sessions[id := Session(key.peer, "", status, OneFile(key))], used_ids := s.used_ids + {id})
  }

  function PreparingOne(key: Key, files: map<string, SessionFile>, lookup: Lookup): Handler {
    Preparing(key.peer, "", Offered(key), files, lookup)
  }

  lemma UploadIsOffered(s: State, key: Key)
    requires s.handlers == map[]
    ensures Step(s, PrepareStart(0, key.peer, "", Offered(key))) == WithHandler(s, PreparingOne(key, map[], Idle))
  {
  }

  lemma UploadIsLoaded(s: State, key: Key)
    requires key.kind == IncomingUpload
    ensures Step(WithHandler(s, PreparingOne(key, map[], Idle)), PrepareLoad(0, key.resource))
         == WithHandler(s, PreparingOne(key, map[], Loaded(key.resource, WireFile("", ""), Found(s.partials, key))))
  {
    assert Key(IncomingUpload, key.peer, key.resource) == key;
    assert key.resource in Offered(key).Keys;
    assert !AllPrepared(PreparingOne(key, map[], Idle));
  }

  lemma UploadIsResolved(s: State, key: Key, found: Option<Partial>)
    requires key.kind == IncomingUpload && NewOrOwn(found, key)
    ensures Step(WithHandler(s, PreparingOne(key, map[], Loaded(key.resource, WireFile("", ""), found))),
                 PrepareResolve(0))
         == WithHandler(s, PreparingOne(key, map[], Resolved(key.resource, WireFile("", ""), Own(key))))
  {
    assert Key(IncomingUpload, key.peer, key.resource) == key;
  }

  lemma UploadIsRecorded(s: State, key: Key)
    requires key.kind == IncomingUpload
    ensures Step(WithHandler(s, PreparingOne(key, map[], Resolved(key.resource, WireFile("", ""), Own(key)))),
                 PrepareRecord(0))
         == WithHandler(Recorded(s, key), PreparingOne(key, OneFile(key), Idle))
  {
    assert Key(IncomingUpload, key.peer, key.resource) == key;
  }

  lemma UploadIsInserted(s: State, key: Key, id: string)
    requires s.handlers == map[]
    ensures Step(WithHandler(Recorded(s, key), PreparingOne(key, OneFile(key), Idle)), PrepareInsert(0, id))
         == OneSession(s, id, key, Pending)
  {
    assert AllPrepared(PreparingOne(key, OneFile(key), Idle));
  }

  lemma UploadIsRead(s: State, key: Key, id: string)
    requires s.handlers == map[]
    ensures Step(OneSession(s, id, key, Pending), AcceptRead(0, id))
         == WithHandler(OneSession(s, id, key, Pending), Accepting(id, key.peer, OneFile(key), map[]))
  {
  }

  lemma UploadIsRefreshed(s: State, key: Key, id: string)
    requires key.kind == IncomingUpload
    ensures Step(WithHandler(OneSession(s, id, key, Pending), Accepting(id, key.peer, OneFile(key), map[])),
                 AcceptRecord(0, key.resource, ""))
         == WithHandler(OneSession(s, id, key, Pending), Accepting(id, key.peer, OneFile(key), OneFile(key)))
  {
    assert Key(IncomingUpload, key.peer, key.resource) == key;
  }

  lemma UploadIsAccepted(s: State, key: Key, id: string)
    requires s.handlers == map[]
    ensures Step(WithHandler(OneSession(s, id, key, Pending), Accepting(id, key.peer, OneFile(key), OneFile(key))),
                 AcceptCommit(0))
         == OneSession(s, id, key, Accepted)
  {
    assert AllRefreshed(Accepting(id, key.peer, OneFile(key), OneFile(key)));
  }

  lemma UploadIsPrepared(sources: Sources, actions: seq<Action>, s: State, key: Key, id: string)
    returns (more: seq<Action>)
    requires Reaches(sources, actions, s) && s.handlers == map[] && id !in s.used_ids
    requires key in sources && key.kind == IncomingUpload && NewOrOwn(Found(s.partials, key), key)
    ensures Reaches(sources, more, OneSession(s, id, key, Pending))
  {
    hide Step, Reaches;
    var file, wire, found := key.resource, WireFile("", ""), Found(s.partials, key);
    UploadIsOffered(s, key);
    UploadIsLoaded(s, key);
    UploadIsResolved(s, key, found);
    UploadIsRecorded(s, key);
    UploadIsInserted(s, key, id);
    assert Key(IncomingUpload, key.peer, key.resource) == key;
    var s1 := WithHandler(s, PreparingOne(key, map[], Idle));
    var s2 := WithHandler(s, PreparingOne(key, map[], Loaded(file, wire, found)));
    var s3 := WithHandler(s, PreparingOne(key, map[], Resolved(file, wire, Own(key))));
    var s4 := WithHandler(Recorded(s, key), PreparingOne(key, OneFile(key), Idle));
    ReachesOn(sources, actions, s, PrepareStart(0, key.peer, "", Offered(key)), s1);
    more := actions + [PrepareStart(0, key.peer, "", Offered(key))];
    ReachesOn(sources, more, s1, PrepareLoad(0, file), s2);
    more := more + [PrepareLoad(0, file)];
    ReachesOn(sources, more, s2, PrepareResolve(0), s3);
    more := more + [PrepareResolve(0)];
    ReachesOn(sources, more, s3, PrepareRecord(0), s4);
    more := more + [PrepareRecord(0)];
    ReachesOn(sources, more, s4, PrepareInsert(0, id), OneSession(s, id, key, Pending));
    more := more + [PrepareInsert(0, id)];
  }

  lemma UploadIsWelcome(sources: Sources, actions: seq<Action>, s: State, key: Key, id: string)
    returns (more: seq<Action>)
    requires Reaches(sources, actions, s) && s.handlers == map[] && id !in s.used_ids
    requires key in sources && key.kind == IncomingUpload && NewOrOwn(Found(s.partials, key), key)
    ensures Reaches(sources, more, OneSession(s, id, key, Accepted))
  {
    hide Step, Reaches;
    more := UploadIsPrepared(sources, actions, s, key, id);
    UploadIsRead(s, key, id);
    UploadIsRefreshed(s, key, id);
    UploadIsAccepted(s, key, id);
    var pending := OneSession(s, id, key, Pending);
    var s1 := WithHandler(pending, Accepting(id, key.peer, OneFile(key), map[]));
    var s2 := WithHandler(pending, Accepting(id, key.peer, OneFile(key), OneFile(key)));
    ReachesOn(sources, more, pending, AcceptRead(0, id), s1);
    more := more + [AcceptRead(0, id)];
    ReachesOn(sources, more, s1, AcceptRecord(0, key.resource, ""), s2);
    more := more + [AcceptRecord(0, key.resource, "")];
    ReachesOn(sources, more, s2, AcceptCommit(0), OneSession(s, id, key, Accepted));
    more := more + [AcceptCommit(0)];
  }

  lemma UploadIsMeasured(s: State, key: Key, id: string)
    requires s.handlers == map[] && key.kind == IncomingUpload
    requires id in s.sessions && s.sessions[id] == Session(key.peer, "", Accepted, OneFile(key))
    ensures
      var job := Job(Some(id), key.resource, key, TempOf(key), "");
      && Step(s, UploadCheck(0, id, "", key.resource, "")) == WithHandler(s, Checked(job))
      && Step(WithHandler(s, Checked(job)), UploadMeasure(0, LengthOf(s.temps, TempOf(key))))
         == WithHandler(s, Measured(job, LengthOf(s.temps, TempOf(key))))
  {
    assert Key(IncomingUpload, key.peer, key.resource) == key;
  }

  // ---- Both alike: announced, started, interrupted ----

  /** The transfer can start at any time: its paths are recorded, and an upload is accepted. */
  predicate Known(s: State, key: Key, id: string) {
    && key in s.partials && s.partials[key] == Own(key)
    && (key.kind == IncomingUpload ==>
          id in s.sessions && s.sessions[id] == Session(key.peer, "", Accepted, OneFile(key)))
  }

  /** Nothing but the key's record and session has changed. */
  predicate Announced(s: State, t: State, key: Key, id: string) {
    && t.handlers == map[] && t.temps == s.temps && t.finals == s.finals
    && t.partials == s.partials[key := Own(key)] && t.used_ids <= s.used_ids + {id}
    && (forall other :: other in s.sessions && other != id ==>
          other in t.sessions && t.sessions[other] == s.sessions[other])
    && Known(t, key, id)
  }

  lemma FailingEnds(s: State, handler: Handler)
    ensures Step(WithHandler(s, handler), Fail(0)) == s.(handlers := map[])
  {
  }

  /** A transfer is announced: a download that fails before its first byte, or an upload that is accepted. */
  lemma Announce(sources: Sources, actions: seq<Action>, s: State, key: Key, id: string)
    returns (more: seq<Action>, t: State)
    requires Reaches(sources, actions, s) && s.handlers == map[] && id !in s.used_ids && id !in s.sessions
    requires key in sources && key !in s.partials
    ensures Reaches(sources, more, t) && Announced(s, t, key, id)
  {
    hide Step, Reaches;
    if key.kind == SharedDownload {
      more := DownloadStarts(sources, actions, s, key);
      var handler := Measured(DownloadJob(key, Own(key)), 0);
      FailingEnds(Recorded(s, key), handler);
      t := Recorded(s, key);
      ReachesOn(sources, more, WithHandler(Recorded(s, key), handler), Fail(0), t);
      more := more + [Fail(0)];
    } else {
      more := UploadIsWelcome(sources, actions, s, key, id);
      t := OneSession(s, id, key, Accepted);
    }
  }

  /** An announced transfer starts at what is stored. */
  lemma Start(sources: Sources, actions: seq<Action>, s: State, key: Key, id: string)
    returns (more: seq<Action>, job: Job)
    requires Reaches(sources, actions, s) && s.handlers == map[] && Known(s, key, id) && key in sources
    ensures Reaches(sources, more, WithHandler(s, Measured(job, LengthOf(s.temps, TempOf(key)))))
    ensures job.key == key && job.temp_path == TempOf(key) && job.final_path == ""
    ensures job.session.None? <==> key.kind == SharedDownload
  {
    hide Step, Reaches;
    var offset := LengthOf(s.temps, TempOf(key));
    if key.kind == SharedDownload {
      job := DownloadJob(key, Own(key));
      more := DownloadStarts(sources, actions, s, key);
      assert s.partials[key := Own(key)] == s.partials;
      assert Recorded(s, key) == s;
    } else {
      job := Job(Some(id), key.resource, key, TempOf(key), "");
      UploadIsMeasured(s, key, id);
      ReachesOn(sources, actions, s, UploadCheck(0, id, "", key.resource, ""), WithHandler(s, Checked(job)));
      more := actions + [UploadCheck(0, id, "", key.resource, "")];
      ReachesOn(sources, more, WithHandler(s, Checked(job)), UploadMeasure(0, offset),
        WithHandler(s, Measured(job, offset)));
      more := more + [UploadMeasure(0, offset)];
    }
  }

  function Opened(s: State, job: Job, offset: nat): State {
    var stored := if offset > 0 && job.temp_path in s.temps then s.temps[job.temp_path] else [];
    WithHandler(s, Writing(job, offset > 0, offset)).(temps := s.temps[job.temp_path := stored])
  }

  lemma OpeningIsHonest(sources: Sources, s: State, job: Job, offset: nat)
    requires job.key in sources && (job.session.None? ==> offset == 0 || offset < |sources[job.key]|)
    requires offset < U64Limit || job.session.Some?
    ensures Honest(sources, WithHandler(s, Measured(job, offset)), Open(0))
    ensures Step(WithHandler(s, Measured(job, offset)), Open(0)) == Opened(s, job, offset)
  {
    hide ParseRangeHeader, RequestHeader;
    if job.session.None? { OffsetIsServed(offset, |sources[job.key]|); }
    OpensFile(s, job, offset);
    hide Step;
  }

  lemma OpensFile(s: State, job: Job, offset: nat)
    ensures Step(WithHandler(s, Measured(job, offset)), Open(0)) == Opened(s, job, offset)
  {
  }

  function Grown(s: State, job: Job, content: Bytes, offset: nat): State {
    WithHandler(s, Writing(job, offset > 0, |content|)).(temps := s.temps[job.temp_path := content])
  }

  lemma WrittenAtEnd(content: Bytes, append: bool, data: Bytes)
    ensures WriteAt(content, append, |content|, data) == content + data
  {
  }

  lemma ChunkIsStored(s: State, job: Job, append: bool, content: Bytes, data: Bytes)
    requires job.temp_path in s.temps && s.temps[job.temp_path] == content
    ensures Step(WithHandler(s, Writing(job, append, |content|)), Chunk(0, data))
         == WithHandler(s, Writing(job, append, |content| + |data|)).(temps := s.temps[job.temp_path := content + data])
  {
    WrittenAtEnd(content, append, data);
    hide WriteAt;
  }

  lemma BodyIsHonest(sources: Sources, s: State, job: Job, offset: nat, data: Bytes)
    requires job.key in sources && LengthOf(s.temps, job.temp_path) == offset
    requires offset + |data| <= |sources[job.key]| && data == sources[job.key][offset..offset + |data|]
    ensures
      var stored := if job.temp_path in s.temps then s.temps[job.temp_path] else [];
      && Honest(sources, Opened(s, job, offset), Chunk(0, data))
      && Step(Opened(s, job, offset), Chunk(0, data)) == Grown(s, job, stored + data, offset)
  {
    hide Step;
    var stored := if job.temp_path in s.temps then s.temps[job.temp_path] else [];
    var start := s.(temps := s.temps[job.temp_path := stored]);
    assert Opened(s, job, offset) == WithHandler(start, Writing(job, offset > 0, |stored|));
    ChunkIsStored(start, job, offset > 0, stored, data);
    assert start.temps[job.temp_path := stored + data] == s.temps[job.temp_path := stored + data];
  }

  /** A started transfer stores some of its bytes. */
  lemma Store(sources: Sources, actions: seq<Action>, s: State, job: Job, offset: nat, data: Bytes)
    returns (more: seq<Action>)
    requires Reaches(sources, actions, WithHandler(s, Measured(job, offset)))
    requires job.key in sources && LengthOf(s.temps, job.temp_path) == offset
    requires job.session.None? ==> offset == 0 || (offset < |sources[job.key]| && offset < U64Limit)
    requires offset + |data| <= |sources[job.key]| && data == sources[job.key][offset..offset + |data|]
    ensures
      var stored := if job.temp_path in s.temps then s.temps[job.temp_path] else [];
      Reaches(sources, more, Grown(s, job, stored + data, offset))
  {
    hide Step, Reaches, Honest, Opened, Grown;
    var stored := if job.temp_path in s.temps then s.temps[job.temp_path] else [];
    OpeningIsHonest(sources, s, job, offset);
    BodyIsHonest(sources, s, job, offset, data);
    ReachesOn(sources, actions, WithHandler(s, Measured(job, offset)), Open(0), Opened(s, job, offset));
    more := actions + [Open(0)];
    ReachesOn(sources, more, Opened(s, job, offset), Chunk(0, data), Grown(s, job, stored + data, offset));
    more := more + [Chunk(0, data)];
  }

  // ---- What colliding names break ----

  /** Every transfer alone may store its whole source. */
  lemma WholeIsStored(sources: Sources, key: Key) returns (actions: seq<Action>)
    requires key in sources
    ensures Possible(sources, actions) && Run(actions).temps == map[TempOf(key) := sources[key]]
  {
    hide Step, Run, Possible;
    NothingReached(sources);
    var more, t := Announce(sources, [], Init, key, "");
    var job;
    actions, job := Start(sources, more, t, key, "");
    assert sources[key][0..0 + |sources[key]|] == sources[key];
    actions := Store(sources, actions, t, job, 0, sources[key]);
    assert [] + sources[key] == sources[key];
  }

  // ---- Files made from two sources ----

  /** A transfer may go on with `n` bytes of another one that are not its own, or end at once after them. */
  predicate MayMix(sources: Sources, first: Key, second: Key, n: nat) {
    && first in sources && second in sources && TempOf(first) == TempOf(second)
    && n <= |sources[first]| && (n > |sources[second]| || sources[first][..n] != sources[second][..n])
    && (second.kind == SharedDownload ==> n < |sources[second]| && n < U64Limit)
  }

  lemma TwoAreAnnounced(sources: Sources, first: Key, second: Key) returns (actions: seq<Action>, s: State)
    requires first in sources && second in sources && first != second
    ensures Reaches(sources, actions, s) && s.handlers == map[] && s.temps == map[] && s.finals == map[]
    ensures Known(s, first, "1") && Known(s, second, "2")
  {
    hide Reaches;
    NothingReached(sources);
    var t;
    actions, t := Announce(sources, [], Init, second, "2");
    IdsOf(sources, actions, t);
    actions, s := Announce(sources, actions, t, first, "1");
  }

  lemma IdsOf(sources: Sources, actions: seq<Action>, s: State)
    requires Reaches(sources, actions, s)
    ensures s.sessions.Keys <= s.used_ids
  {
    RunsAreSound(actions);
  }

  /** One transfer stores `n` bytes and fails. */
  lemma PartIsStored(sources: Sources, actions: seq<Action>, s: State, key: Key, id: string, n: nat)
    returns (more: seq<Action>)
    requires Reaches(sources, actions, s) && s.handlers == map[] && s.temps == map[] && Known(s, key, id)
    requires key in sources && n <= |sources[key]|
    ensures Reaches(sources, more, s.(temps := map[TempOf(key) := sources[key][..n]]))
  {
    hide Step, Reaches, Known;
    var job;
    more, job := Start(sources, actions, s, key, id);
    assert sources[key][0..0 + n] == sources[key][..n];
    more := Store(sources, more, s, job, 0, sources[key][..n]);
    assert [] + sources[key][..n] == sources[key][..n];
    var t := s.(temps := map[TempOf(key) := sources[key][..n]]);
    assert s.temps[job.temp_path := sources[key][..n]] == t.temps;
    var handler := Writing(job, false, n);
    assert Grown(s, job, sources[key][..n], 0) == WithHandler(t, handler);
    FailingEnds(t, handler);
    assert t.(handlers := map[]) == t;
    ReachesOn(sources, more, WithHandler(t, handler), Fail(0), t);
    more := more + [Fail(0)];
  }

  lemma FinishIsHonest(sources: Sources, s: State, job: Job, offset: nat, content: Bytes)
    requires job.key in sources && |content| >= |sources[job.key]|
    ensures
      var grown := Grown(s, job, content, offset);
      && Honest(sources, grown, Finish(0)) && Finishes(grown, Finish(0))
      && grown.handlers[0].job == job && grown.finals == s.finals
      && Step(grown, Finish(0)).finals == s.finals[job.final_path := content]
  {
  }

  /** What the second transfer adds to `n` bytes that are stored: its own rest, or nothing beyond its end. */
  function RestFrom(source: Bytes, n: nat): Bytes { if n <= |source| then source[n..] else [] }

  /** A started transfer sends its rest, or nothing beyond its end. */
  lemma StoreRest(sources: Sources, actions: seq<Action>, s: State, job: Job, stored: Bytes) returns (more: seq<Action>)
    requires Reaches(sources, actions, WithHandler(s, Measured(job, |stored|)))
    requires job.key in sources && s.temps == map[job.temp_path := stored]
    requires job.session.None? ==> |stored| < |sources[job.key]| && |stored| < U64Limit
    ensures Reaches(sources, more, Grown(s, job, stored + RestFrom(sources[job.key], |stored|), |stored|))
  {
    hide Step, Reaches, Honest;
    var n, rest := |stored|, RestFrom(sources[job.key], |stored|);
    if n <= |sources[job.key]| {
      assert sources[job.key][n..n + |rest|] == rest;
      more := Store(sources, actions, s, job, n, rest);
    } else {
      OpeningIsHonest(sources, s, job, n);
      assert stored + rest == stored;
      assert Opened(s, job, n) == Grown(s, job, stored, n);
      ReachesOn(sources, actions, WithHandler(s, Measured(job, n)), Open(0), Opened(s, job, n));
      more := actions + [Open(0)];
    }
  }

  /**
   * Such a run exists for every two transfers that may mix: the second is announced, the first stores `n` bytes and
   * fails, and the second, told to go on there, ends without an error and delivers both together.
   */
  lemma MixIsDelivered(sources: Sources, first: Key, second: Key, n: nat) returns (actions: seq<Action>)
    requires MayMix(sources, first, second, n)
    ensures Possible(sources, actions)
    ensures Delivered(actions) == map["" := second]
    ensures Run(actions).finals == map["" := sources[first][..n] + RestFrom(sources[second], n)]
    ensures Run(actions).finals[""] != sources[second]
  {
    hide Step, Honest, Known, Grown;
    var s;
    actions, s := TwoAreAnnounced(sources, first, second);
    actions := PartIsStored(sources, actions, s, first, "1", n);
    var stored := sources[first][..n];
    var t := s.(temps := map[TempOf(first) := stored]);
    StillKnown(s, t, second, "2");
    var job;
    actions, job := Start(sources, actions, t, second, "2");
    actions := StoreRest(sources, actions, t, job, stored);
    var content := stored + RestFrom(sources[second], n);
    FinishIsHonest(sources, t, job, n, content);
    Finishing(sources, actions, Grown(t, job, content, n), content);
    actions := actions + [Finish(0)];
    assert content[..n] == stored;
  }

  lemma StillKnown(s: State, t: State, key: Key, id: string)
    requires Known(s, key, id) && t.partials == s.partials && t.sessions == s.sessions
    ensures Known(t, key, id)
  {
  }

  lemma Finishing(sources: Sources, actions: seq<Action>, s: State, content: Bytes)
    requires Reaches(sources, actions, s) && s.finals == map[]
    requires Honest(sources, s, Finish(0)) && Finishes(s, Finish(0)) && s.handlers[0].job.final_path == ""
    requires Step(s, Finish(0)).finals == map["" := content]
    ensures Possible(sources, actions + [Finish(0)])
    ensures Delivered(actions + [Finish(0)]) == map["" := s.handlers[0].job.key]
    ensures Run(actions + [Finish(0)]).finals == map["" := content]
  {
    ReachesOn(sources, actions, s, Finish(0), Step(s, Finish(0)));
    var all := actions + [Finish(0)];
    assert all[..|all| - 1] == actions;
    hide Step, Honest;
    DeliveredNames(actions);
  }

  lemma {:induction false} DeliveredNames(actions: seq<Action>)
    ensures Delivered(actions).Keys == Run(actions).finals.Keys
    decreases |actions|
  {
    if actions != [] {
      var front := actions[..|actions| - 1];
      DeliveredNames(front);
      FinalNames(Run(front), actions[|actions| - 1]);
      hide Step;
    }
  }

  lemma FinalNames(s: State, a: Action)
    ensures Step(s, a).finals.Keys
         == s.finals.Keys + if Finishes(s, a) then {s.handlers[a.h].job.final_path} else {}
  {
    hide NextSessions, NextPartials, NextTemps, NextHandlers, NextUsedIds;
  }

  /**
   * Temporary files are prefixes of all their sources over every possible run exactly when transfers that share one
   * carry the same bytes.
   */
  lemma SafeUnlessColliding(sources: Sources)
    ensures NoCollisions(sources)
       <==> forall actions :: Possible(sources, actions) ==> ContentSound(sources, Run(actions))
  {
    hide Run, Possible;
    if NoCollisions(sources) {
      hide ContentSound;
      forall actions | Possible(sources, actions)
        ensures ContentSound(sources, Run(actions))
      {
        ResumeIsSafe(sources, actions, |actions|);
        assert actions[..|actions|] == actions;
      }
    } else {
      var k, l :| k in sources && l in sources && TempOf(k) == TempOf(l) && sources[k] != sources[l];
      var first := WholeIsStored(sources, k);
      var second := WholeIsStored(sources, l);
      assert !(sources[k] <= sources[l]) || !(sources[l] <= sources[k]);
    }
  }
}
