/** The receiving service as the object its handlers share; each method is one phase of a handler. */
module TransferService {
  import opened Text
  import opened Transfer

  function Concat(chunks: seq<Bytes>): Bytes {
    if chunks == [] then [] else Concat(chunks[..|chunks| - 1]) + chunks[|chunks| - 1]
  }

  /** The chunks of a body, stored one after the other. */
  function StepChunks(s: State, h: nat, chunks: seq<Bytes>): State {
    if chunks == [] then s
    else Step(StepChunks(s, h, chunks[..|chunks| - 1]), Chunk(h, chunks[|chunks| - 1]))
  }

  /** However a body is cut into chunks, a file opened at its end grows by exactly the body. */
  lemma {:induction false} ChunkingDoesNotMatter(s: State, h: nat, chunks: seq<Bytes>)
    requires InStep(s, h)
    ensures StepChunks(s, h, chunks) == Grown(s, h, Concat(chunks))
    decreases |chunks|
  {
    hide Step;
    if chunks == [] {
      GrownByNothing(s, h);
    } else {
      var front, last := chunks[..|chunks| - 1], chunks[|chunks| - 1];
      ChunkingDoesNotMatter(s, h, front);
      OneChunk(Grown(s, h, Concat(front)), h, last);
      GrownTwice(s, h, Concat(front), last);
    }
  }

  /** A writer whose position is the end of its file. */
  predicate InStep(s: State, h: nat) {
    && h in s.handlers && s.handlers[h].Writing? && s.handlers[h].job.temp_path in s.temps
    && s.handlers[h].written == |s.temps[s.handlers[h].job.temp_path]|
  }

  function Grown(s: State, h: nat, data: Bytes): State
    requires InStep(s, h)
  {
    var Writing(job, append, written) := s.handlers[h];
    s.(temps := s.temps[job.temp_path := s.temps[job.temp_path] + data],
       handlers := s.handlers[h := Writing(job, append, written + |data|)])
  }

  lemma GrownByNothing(s: State, h: nat)
    requires InStep(s, h)
    ensures Grown(s, h, []) == s
  {
    var path := s.handlers[h].job.temp_path;
    assert s.temps[path] + [] == s.temps[path];
    assert s.temps[path := s.temps[path]] == s.temps;
    assert s.handlers[h := s.handlers[h]] == s.handlers;
  }

  lemma GrownTwice(s: State, h: nat, a: Bytes, b: Bytes)
    requires InStep(s, h)
    ensures InStep(Grown(s, h, a), h)
    ensures Grown(Grown(s, h, a), h, b) == Grown(s, h, a + b)
  {
    var content := s.temps[s.handlers[h].job.temp_path];
    assert (content + a) + b == content + (a + b);
  }

  lemma OneChunk(s: State, h: nat, data: Bytes)
    requires InStep(s, h)
    ensures Step(s, Chunk(h, data)) == Grown(s, h, data)
  {
    var content := s.temps[s.handlers[h].job.temp_path];
    assert WriteAt(content, s.handlers[h].append, |content|, data) == content + data;
  }

  /** Where a chunk ends up, whoever else has touched the file. */
  function Written(s: State, h: nat, data: Bytes): State
    requires h in s.handlers && s.handlers[h].Writing?
  {
    var Writing(job, append, written) := s.handlers[h];
    s.(temps := if job.temp_path in s.temps
                then s.temps[job.temp_path := WriteAt(s.temps[job.temp_path], append, written, data)] else s.temps,
       handlers := s.handlers[h := Writing(job, append, written + |data|)])
  }

  lemma ChunkIsWritten(s: State, h: nat, data: Bytes)
    requires h in s.handlers && s.handlers[h].Writing?
    ensures Step(s, Chunk(h, data)) == Written(s, h, data)
  {
  }

  // ---- A prepare request that is not interrupted ----

  function FreshFile(s: State, peer: string, id: string, wire: WireFile): SessionFile {
    var key := Key(IncomingUpload, peer, id);
    Prepared(id, wire, ChoosePaths(s.temps, Found(s.partials, key), key, wire.fresh_path))
  }

  function FreshFiles(s: State, peer: string, files: map<string, WireFile>): map<string, SessionFile> {
    map id | id in files :: FreshFile(s, peer, id, files[id])
  }

  /** The records that prepare or accept writes for the files of a session. */
  function Recorded(peer: string, files: map<string, SessionFile>): map<Key, Partial> {
    map id | id in files :: Key(IncomingUpload, peer, id) := Partial(files[id].temp_path, files[id].final_path)
  }

  /** The state with some files of a request prepared, and how far it has come with another one. */
  function SomePrepared(s: State, h: nat, request: Handler, files: map<string, SessionFile>, lookup: Lookup): State
    requires request.Preparing?
  {
    s.(partials := s.partials + Recorded(request.peer, files),
       handlers := s.handlers[h := request.(files := files, lookup := lookup)])
  }

  lemma LoadsOne(s: State, h: nat, id: string)
    requires h in s.handlers && s.handlers[h].Preparing? && s.handlers[h].lookup == Idle
    requires id in s.handlers[h].offered && id !in s.handlers[h].files
    ensures
      var request := s.handlers[h];
      var found := Found(s.partials, Key(IncomingUpload, request.peer, id));
      Step(s, PrepareLoad(h, id))
      == s.(handlers := s.handlers[h := request.(lookup := Loaded(id, request.offered[id], found))])
  {
  }

  lemma ResolvesOne(s: State, h: nat)
    requires h in s.handlers && s.handlers[h].Preparing? && s.handlers[h].lookup.Loaded?
    ensures
      var request := s.handlers[h];
      var Loaded(id, wire, found) := request.lookup;
      var paths := ChoosePaths(s.temps, found, Key(IncomingUpload, request.peer, id), wire.fresh_path);
      Step(s, PrepareResolve(h)) == s.(handlers := s.handlers[h := request.(lookup := Resolved(id, wire, paths))])
  {
  }

  lemma RecordsOne(s: State, h: nat)
    requires h in s.handlers && s.handlers[h].Preparing? && s.handlers[h].lookup.Resolved?
    ensures
      var request := s.handlers[h];
      var Resolved(id, wire, paths) := request.lookup;
      Step(s, PrepareRecord(h))
      == s.(partials := s.partials[Key(IncomingUpload, request.peer, id) := paths],
            handlers := s.handlers[h :=
              request.(files := request.files[id := Prepared(id, wire, paths)], lookup := Idle)])
  {
  }

  lemma PreparingStarts(s: State, h: nat, request: Handler)
    requires h !in s.handlers && request.Preparing? && request.files == map[] && request.lookup == Idle
    ensures Step(s, PrepareStart(h, request.peer, request.ip, request.offered))
         == SomePrepared(s, h, request, map[], Idle)
  {
    assert s.partials + Recorded(request.peer, map[]) == s.partials;
  }

  lemma HasPrepared(s: State, h: nat, request: Handler, files: map<string, SessionFile>)
    requires request.Preparing?
    ensures
      var t := SomePrepared(s, h, request, files, Idle);
      h in t.handlers && t.handlers[h] == request.(files := files, lookup := Idle)
  {
  }

  /** What stands in the request and in the store once all files are prepared. */
  lemma HasRecorded(s: State, h: nat, request: Handler)
    requires request.Preparing?
    ensures
      var files, t := request.offered, SomePrepared(s, h, request, FreshFiles(s, request.peer, request.offered), Idle);
      forall id <- files ::
        var key, file := Key(IncomingUpload, request.peer, id), FreshFile(s, request.peer, id, files[id]);
        var paths := if key in s.partials && s.partials[key].temp_path in s.temps then s.partials[key]
                     else Partial(TempName(request.peer, id), files[id].fresh_path);
        && file == SessionFile(id, files[id].token, paths.temp_path, paths.final_path)
        && key in t.partials && t.partials[key] == paths
  {
    var files, t := request.offered, SomePrepared(s, h, request, FreshFiles(s, request.peer, request.offered), Idle);
    forall id | id in files
      ensures
        var key, file := Key(IncomingUpload, request.peer, id), FreshFile(s, request.peer, id, files[id]);
        var paths := if key in s.partials && s.partials[key].temp_path in s.temps then s.partials[key]
                     else Partial(TempName(request.peer, id), files[id].fresh_path);
        && file == SessionFile(id, files[id].token, paths.temp_path, paths.final_path)
        && key in t.partials && t.partials[key] == paths
    {
      FreshFileIs(s, request.peer, id, files[id]);
      hide FreshFile;
      assert Key(IncomingUpload, request.peer, id) in Recorded(request.peer, FreshFiles(s, request.peer, files));
    }
  }

  lemma FreshFileIs(s: State, peer: string, id: string, wire: WireFile)
    ensures
      var key := Key(IncomingUpload, peer, id);
      var paths := if key in s.partials && s.partials[key].temp_path in s.temps then s.partials[key]
                   else Partial(TempName(peer, id), wire.fresh_path);
      FreshFile(s, peer, id, wire) == SessionFile(id, wire.token, paths.temp_path, paths.final_path)
  {
  }

  lemma OthersAreNotRecorded(s: State, h: nat, request: Handler)
    requires request.Preparing?
    ensures
      var files, t := request.offered, SomePrepared(s, h, request, FreshFiles(s, request.peer, request.offered), Idle);
      forall key <- t.partials.Keys + s.partials.Keys ::
        || (key.kind == IncomingUpload && key.peer == request.peer && key.resource in files)
        || (key in t.partials && key in s.partials && t.partials[key] == s.partials[key])
  {
    hide FreshFile;
  }

  function ThreeSteps(s: State, h: nat, id: string): State {
    Step(Step(Step(s, PrepareLoad(h, id)), PrepareResolve(h)), PrepareRecord(h))
  }

  lemma LookupMoves(
    s: State, h: nat, request: Handler, files: map<string, SessionFile>, before: Lookup, after: Lookup)
    requires request.Preparing?
    ensures
      var start := SomePrepared(s, h, request, files, before);
      start.(handlers := start.handlers[h := start.handlers[h].(lookup := after)])
      == SomePrepared(s, h, request, files, after)
  {
    hide Recorded;
  }

  lemma LooksUpOne(s: State, h: nat, request: Handler, files: map<string, SessionFile>, id: string)
    requires request.Preparing? && id in request.offered && id !in files
    ensures
      var key, wire := Key(IncomingUpload, request.peer, id), request.offered[id];
      var loaded := Loaded(id, wire, Found(s.partials, key));
      var paths := ChoosePaths(s.temps, Found(s.partials, key), key, wire.fresh_path);
      && Step(SomePrepared(s, h, request, files, Idle), PrepareLoad(h, id))
         == SomePrepared(s, h, request, files, loaded)
      && Step(SomePrepared(s, h, request, files, loaded), PrepareResolve(h))
         == SomePrepared(s, h, request, files, Resolved(id, wire, paths))
  {
    hide Step, ChoosePaths;
    var key, wire := Key(IncomingUpload, request.peer, id), request.offered[id];
    var loaded := Loaded(id, wire, Found(s.partials, key));
    var resolved := Resolved(id, wire, ChoosePaths(s.temps, Found(s.partials, key), key, wire.fresh_path));
    NotYetRecorded(s.partials, request.peer, files, id);
    LoadsOne(SomePrepared(s, h, request, files, Idle), h, id);
    ResolvesOne(SomePrepared(s, h, request, files, loaded), h);
    LookupMoves(s, h, request, files, Idle, loaded);
    LookupMoves(s, h, request, files, loaded, resolved);
    hide Recorded, Found;
  }

  lemma RecordsLookup(
    s: State, h: nat, request: Handler, files: map<string, SessionFile>, id: string, wire: WireFile, paths: Partial)
    requires request.Preparing? && id !in files
    ensures Step(SomePrepared(s, h, request, files, Resolved(id, wire, paths)), PrepareRecord(h))
         == SomePrepared(s, h, request, files[id := Prepared(id, wire, paths)], Idle)
  {
    hide Step;
    var start := SomePrepared(s, h, request, files, Resolved(id, wire, paths));
    RecordsOne(start, h);
    OneMoreRecorded(s.partials, request.peer, files, id, Prepared(id, wire, paths));
    hide Recorded;
    var after := request.(files := files[id := Prepared(id, wire, paths)], lookup := Idle);
    assert start.handlers[h := after] == s.handlers[h := after];
  }

  /** A file's three steps without a pause prepare it as the store was before the request. */
  lemma OneMorePrepared(s: State, h: nat, request: Handler, files: map<string, SessionFile>, id: string)
    requires request.Preparing? && id in request.offered && id !in files
    ensures
      var file := FreshFile(s, request.peer, id, request.offered[id]);
      ThreeSteps(SomePrepared(s, h, request, files, Idle), h, id)
      == SomePrepared(s, h, request, files[id := file], Idle)
  {
    hide Step, ChoosePaths, SomePrepared;
    var key, wire := Key(IncomingUpload, request.peer, id), request.offered[id];
    LooksUpOne(s, h, request, files, id);
    RecordsLookup(s, h, request, files, id, wire,
      ChoosePaths(s.temps, Found(s.partials, key), key, wire.fresh_path));
  }

  lemma NotYetRecorded(partials: map<Key, Partial>, peer: string, files: map<string, SessionFile>, id: string)
    requires id !in files
    ensures Found(partials + Recorded(peer, files), Key(IncomingUpload, peer, id))
         == Found(partials, Key(IncomingUpload, peer, id))
  {
  }

  lemma OneMoreRecorded(
    partials: map<Key, Partial>, peer: string, files: map<string, SessionFile>, id: string, file: SessionFile)
    requires id !in files
    ensures
      (partials + Recorded(peer, files))[Key(IncomingUpload, peer, id) := Partial(file.temp_path, file.final_path)]
      == partials + Recorded(peer, files[id := file])
  {
  }

  function StoredLengths(temps: map<string, Bytes>, files: map<string, SessionFile>): map<string, nat> {
    map id | id in files :: LengthOf(temps, files[id].temp_path)
  }

  function Tokens(files: map<string, SessionFile>): map<string, string> { map id | id in files :: files[id].token }

  /** The files of an acceptance so far have their new places, in the session to be and in the store. */
  ghost predicate MovedTo(request: Handler, paths: map<string, string>, partials: map<Key, Partial>) {
    request.Accepting? && request.refreshed.Keys <= request.pending.Keys * paths.Keys
    && forall id <- request.refreshed ::
         var file, key := request.pending[id], Key(IncomingUpload, request.owner, id);
         && request.refreshed[id] == SessionFile(id, file.token, file.temp_path, paths[id])
         && key in partials && partials[key] == Partial(file.temp_path, paths[id])
  }

  lemma MovedOne(request: Handler, paths: map<string, string>, partials: map<Key, Partial>, id: string)
    requires MovedTo(request, paths, partials) && id in request.pending && id in paths
    requires request.pending[id].resource == id
    ensures
      var file := request.pending[id];
      var moved := SessionFile(file.resource, file.token, file.temp_path, paths[id]);
      MovedTo(request.(refreshed := request.refreshed[id := moved]), paths,
        partials[Key(IncomingUpload, request.owner, file.resource) := Partial(file.temp_path, paths[id])])
  {
  }

  class Receiver {
    var sessions: map<string, Session>
    var used_ids: set<string>
    var partials: map<Key, Partial>
    var temps: map<string, Bytes>
    var finals: map<string, Bytes>
    var handlers: map<nat, Handler>

    ghost function Model(): State
      reads this
    {
      State(sessions, used_ids, partials, temps, finals, handlers)
    }

    constructor ()
      ensures Model() == Init
    {
      sessions, used_ids, partials, temps, finals, handlers := map[], {}, map[], map[], map[], map[];
    }

    // ---- handle_prepare_upload ----

    method StartPrepare(h: nat, peer: string, ip: string, files: map<string, WireFile>)
      requires h !in handlers
      modifies this`handlers
      ensures Model() == Step(old(Model()), PrepareStart(h, peer, ip, files))
      ensures handlers == old(handlers)[h := Preparing(peer, ip, files, map[], Idle)]
    {
      handlers := handlers[h := Preparing(peer, ip, files, map[], Idle)];
    }

    method LoadFile(h: nat, id: string)
      requires h in handlers && handlers[h].Preparing? && handlers[h].lookup == Idle
      requires id in handlers[h].offered && id !in handlers[h].files
      modifies this`handlers
      ensures Model() == Step(old(Model()), PrepareLoad(h, id))
      ensures h in handlers && handlers[h].Preparing? && handlers[h].lookup.Loaded?
      ensures
        var request, key := old(handlers[h]), Key(IncomingUpload, old(handlers[h].peer), id);
        handlers == old(handlers)[h := request.(lookup :=
          Loaded(id, request.offered[id], if key in partials then Some(partials[key]) else None))]
    {
      LoadsOne(Model(), h, id);
      var key := Key(IncomingUpload, handlers[h].peer, id);
      var found := if key in partials then Some(partials[key]) else None;
      handlers := handlers[h := handlers[h].(lookup := Loaded(id, handlers[h].offered[id], found))];
    }

    method ResolveFile(h: nat)
      requires h in handlers && handlers[h].Preparing? && handlers[h].lookup.Loaded?
      modifies this`handlers
      ensures Model() == Step(old(Model()), PrepareResolve(h))
      ensures h in handlers && handlers[h].Preparing? && handlers[h].lookup.Resolved?
      ensures
        var Loaded(id, wire, found) := old(handlers[h].lookup);
        var paths := if found.Some? && found.value.temp_path in temps then found.value
                     else Partial(TempName(old(handlers[h].peer), id), wire.fresh_path);
        handlers == old(handlers)[h := old(handlers[h]).(lookup := Resolved(id, wire, paths))]
    {
      ResolvesOne(Model(), h);
      var Loaded(id, wire, found) := handlers[h].lookup;
      var paths := Partial(TempName(handlers[h].peer, id), wire.fresh_path);
      if found.Some? && found.value.temp_path in temps {
        paths := found.value;
      }
      handlers := handlers[h := handlers[h].(lookup := Resolved(id, wire, paths))];
    }

    method RecordFile(h: nat)
      requires h in handlers && handlers[h].Preparing? && handlers[h].lookup.Resolved?
      modifies this`handlers, this`partials
      ensures Model() == Step(old(Model()), PrepareRecord(h))
      ensures
        var Resolved(id, wire, paths) := old(handlers[h].lookup);
        var file := SessionFile(id, wire.token, paths.temp_path, paths.final_path);
        && partials == old(partials)[Key(IncomingUpload, old(handlers[h].peer), id) := paths]
        && handlers == old(handlers)[h :=
             old(handlers[h]).(files := old(handlers[h].files)[id := file], lookup := Idle)]
    {
      RecordsOne(Model(), h);
      var request := handlers[h];
      var Resolved(id, wire, paths) := request.lookup;
      partials := partials[Key(IncomingUpload, request.peer, id) := paths];
      var file := SessionFile(id, wire.token, paths.temp_path, paths.final_path);
      handlers := handlers[h := request.(files := request.files[id := file], lookup := Idle)];
    }

    /** The loop over the offered files, in any order, when nothing runs in between. */
    method PrepareFiles(h: nat, peer: string, ip: string, files: map<string, WireFile>)
      requires h !in handlers
      modifies this`partials, this`handlers
      ensures h in handlers && AllPrepared(handlers[h])
      ensures Model() == old(SomePrepared(Model(), h, Preparing(peer, ip, files, map[], Idle),
                               FreshFiles(Model(), peer, files), Idle))
      ensures handlers[h].peer == peer && handlers[h].ip == ip && handlers[h].files.Keys == files.Keys
      ensures forall id <- files ::
        var key, file := Key(IncomingUpload, peer, id), handlers[h].files[id];
        var paths := if key in old(partials) && old(partials)[key].temp_path in temps then old(partials)[key]
                     else Partial(TempName(peer, id), files[id].fresh_path);
        && file == SessionFile(id, files[id].token, paths.temp_path, paths.final_path)
        && key in partials && partials[key] == paths
      ensures forall key <- partials.Keys + old(partials).Keys ::
        || (key.kind == IncomingUpload && key.peer == peer && key.resource in files)
        || (key in partials && key in old(partials) && partials[key] == old(partials)[key])
    {
      hide Step, FreshFile, SomePrepared;
      ghost var s, request := Model(), Preparing(peer, ip, files, map[], Idle);
      PreparingStarts(s, h, request);
      StartPrepare(h, peer, ip, files);
      ghost var done: map<string, SessionFile> := map[];
      var remaining := files.Keys;
      while remaining != {}
        invariant remaining <= files.Keys && done.Keys == files.Keys - remaining
        invariant forall id :: id in done ==> done[id] == FreshFile(s, peer, id, files[id])
        invariant Model() == SomePrepared(s, h, request, done, Idle)
        decreases remaining
      {
        var id :| id in remaining;
        OneMorePrepared(s, h, request, done, id);
        HasPrepared(s, h, request, done);
        PrepareFile(h, id);
        done := done[id := FreshFile(s, peer, id, files[id])];
        remaining := remaining - {id};
      }
      assert done == FreshFiles(s, peer, files);
      HasPrepared(s, h, request, done);
      HasRecorded(s, h, request);
      OthersAreNotRecorded(s, h, request);
    }

    method PrepareFile(h: nat, id: string)
      requires h in handlers && handlers[h].Preparing? && handlers[h].lookup == Idle
      requires id in handlers[h].offered && id !in handlers[h].files
      modifies this`partials, this`handlers
      ensures Model() == ThreeSteps(old(Model()), h, id)
    {
      hide Step;
      LoadFile(h, id);
      ResolveFile(h);
      RecordFile(h);
    }

    method InsertSession(h: nat, session_id: string)
      requires h in handlers && AllPrepared(handlers[h])
      modifies this`sessions, this`used_ids, this`handlers
      ensures Model() == Step(old(Model()), PrepareInsert(h, session_id))
      ensures
        var request := old(handlers[h]);
        sessions == old(sessions)[session_id := Session(request.peer, request.ip, Pending, request.files)]
      ensures used_ids == old(used_ids) + {session_id} && handlers == old(handlers) - {h}
    {
      sessions := sessions[session_id := Session(handlers[h].peer, handlers[h].ip, Pending, handlers[h].files)];
      used_ids := used_ids + {session_id};
      handlers := handlers - {h};
    }

    // ---- accept_incoming_task, reject_incoming_task ----

    method ReadForAccept(h: nat, session_id: string) returns (ok: bool)
      requires h !in handlers
      modifies this`handlers
      ensures Model() == Step(old(Model()), AcceptRead(h, session_id))
      ensures ok <==> session_id in sessions && sessions[session_id].status == Pending
      ensures ok ==> handlers == old(handlers)[h :=
        Accepting(session_id, sessions[session_id].peer, sessions[session_id].files, map[])]
      ensures !ok ==> handlers == old(handlers)
    {
      ok := session_id in sessions && sessions[session_id].status == Pending;
      if ok {
        handlers := handlers[h := Accepting(session_id, sessions[session_id].peer, sessions[session_id].files, map[])];
      } else {
        assert handlers - {h} == handlers;
      }
    }

    method RecordAccepted(h: nat, id: string, final_path: string)
      requires h in handlers && handlers[h].Accepting? && id in handlers[h].pending && id !in handlers[h].refreshed
      modifies this`partials, this`handlers
      ensures Model() == Step(old(Model()), AcceptRecord(h, id, final_path))
      ensures
        var request := old(handlers[h]);
        var file := request.pending[id];
        var moved := SessionFile(file.resource, file.token, file.temp_path, final_path);
        && handlers == old(handlers)[h := request.(refreshed := request.refreshed[id := moved])]
        && partials == old(partials)[Key(IncomingUpload, request.owner, file.resource) :=
             Partial(file.temp_path, final_path)]
    {
      var Accepting(session_id, peer, pending, refreshed) := handlers[h];
      var file := pending[id].(final_path := final_path);
      partials := partials[Key(IncomingUpload, peer, file.resource) := Partial(file.temp_path, final_path)];
      handlers := handlers[h := Accepting(session_id, peer, pending, refreshed[id := file])];
    }

    /** A missing task is an error, but the session has been accepted by then. */
    method CommitAccept(h: nat, task_known: bool) returns (ok: bool)
      requires h in handlers && AllRefreshed(handlers[h])
      modifies this`sessions, this`handlers
      ensures Model() == Step(old(Model()), AcceptCommit(h))
      ensures
        var id := old(handlers[h].session_id);
        ok <==> id in old(sessions) && old(sessions)[id].status == Pending && task_known
      ensures
        var request := old(handlers[h]);
        var id := request.session_id;
        sessions == if id in old(sessions) && old(sessions)[id].status == Pending
          then old(sessions)[id := old(sessions)[id].(status := Accepted, files := request.refreshed)]
          else old(sessions)
      ensures handlers == old(handlers) - {h}
    {
      var id, files := handlers[h].session_id, handlers[h].refreshed;
      handlers := handlers - {h};
      if id !in sessions || sessions[id].status != Pending { return false; }
      sessions := sessions[id := sessions[id].(status := Accepted, files := files)];
      ok := task_known;
    }

    /** An acceptance when nothing runs in between, the files in any order. */
    method AcceptIncomingTask(h: nat, session_id: string, final_paths: map<string, string>, task_known: bool)
      returns (ok: bool)
      requires h !in handlers
      requires session_id in sessions ==> sessions[session_id].files.Keys <= final_paths.Keys
      requires session_id in sessions ==>
        forall id <- sessions[session_id].files :: sessions[session_id].files[id].resource == id
      modifies this`sessions, this`partials, this`handlers
      ensures
        var pending := session_id in old(sessions) && old(sessions)[session_id].status == Pending;
        && (ok <==> pending && task_known)
        && (!pending ==> sessions == old(sessions) && partials == old(partials))
        && (pending ==>
              var was := old(sessions)[session_id];
              && session_id in sessions
              && sessions
                 == old(sessions)[session_id := Session(was.peer, was.peer_ip, Accepted, sessions[session_id].files)]
              && sessions[session_id].files.Keys == was.files.Keys
              && forall id <- was.files ::
                   var file, path, key := was.files[id], final_paths[id], Key(IncomingUpload, was.peer, id);
                   && sessions[session_id].files[id] == SessionFile(id, file.token, file.temp_path, path)
                   && key in partials && partials[key] == Partial(file.temp_path, path))
      ensures handlers == old(handlers)
    {
      hide Step, Model;
      ok := ReadForAccept(h, session_id);
      if !ok { return; }
      RecordAllAccepted(h, final_paths);
      ok := CommitAccept(h, task_known);
      assert handlers == old(handlers);
    }

    /** The loop over the files of an acceptance. */
    method RecordAllAccepted(h: nat, final_paths: map<string, string>)
      requires h in handlers && handlers[h].Accepting? && handlers[h].refreshed == map[]
      requires handlers[h].pending.Keys <= final_paths.Keys
      requires forall id <- handlers[h].pending :: handlers[h].pending[id].resource == id
      modifies this`partials, this`handlers
      ensures h in handlers && handlers[h].Accepting? && AllRefreshed(handlers[h])
      ensures handlers == old(handlers)[h := old(handlers[h]).(refreshed := handlers[h].refreshed)]
      ensures MovedTo(handlers[h], final_paths, partials)
    {
      hide Step, Model;
      var remaining := handlers[h].pending.Keys;
      while remaining != {}
        invariant h in handlers && handlers[h].Accepting?
        invariant handlers == old(handlers)[h := old(handlers[h]).(refreshed := handlers[h].refreshed)]
        invariant remaining <= handlers[h].pending.Keys
        invariant handlers[h].refreshed.Keys == handlers[h].pending.Keys - remaining
        invariant MovedTo(handlers[h], final_paths, partials)
        decreases remaining
      {
        var id :| id in remaining;
        ghost var before, stored := handlers[h], partials;
        RecordAccepted(h, id, final_paths[id]);
        MovedOne(before, final_paths, stored, id);
        remaining := remaining - {id};
      }
    }

    method ReadForReject(h: nat, session_id: string) returns (ok: bool)
      requires h !in handlers
      modifies this`handlers
      ensures Model() == Step(old(Model()), RejectRead(h, session_id))
      ensures ok <==> session_id in sessions && sessions[session_id].status == Pending
      ensures handlers == if ok then old(handlers)[h := Rejecting(session_id)] else old(handlers)
    {
      ok := session_id in sessions && sessions[session_id].status == Pending;
      if ok {
        handlers := handlers[h := Rejecting(session_id)];
      } else {
        assert handlers - {h} == handlers;
      }
    }

    method CommitReject(h: nat) returns (ok: bool)
      requires h in handlers && handlers[h].Rejecting?
      modifies this`sessions, this`handlers
      ensures Model() == Step(old(Model()), RejectCommit(h))
      ensures ok <==> old(handlers[h].session_id in sessions)
      ensures
        var id := old(handlers[h].session_id);
        sessions == if ok then old(sessions)[id := old(sessions)[id].(status := Rejected)] else old(sessions)
      ensures handlers == old(handlers) - {h}
    {
      var id := handlers[h].session_id;
      handlers := handlers - {h};
      ok := id in sessions;
      if ok {
        sessions := sessions[id := sessions[id].(status := Rejected)];
      }
    }

    // ---- handle_cancel, handle_upload_session_status ----

    method ReadForCancel(h: nat, session_id: string, ip: string) returns (ok: bool)
      requires h !in handlers
      modifies this`handlers
      ensures Model() == Step(old(Model()), CancelRead(h, session_id, ip))
      ensures ok <==> session_id in sessions && sessions[session_id].peer_ip == ip
      ensures handlers == if ok then old(handlers)[h := Cancelling(session_id)] else old(handlers)
    {
      ok := session_id in sessions && sessions[session_id].peer_ip == ip;
      if ok {
        handlers := handlers[h := Cancelling(session_id)];
      } else {
        assert handlers - {h} == handlers;
      }
    }

    method CommitCancel(h: nat)
      requires h in handlers && handlers[h].Cancelling?
      modifies this`sessions, this`handlers
      ensures Model() == Step(old(Model()), CancelCommit(h))
      ensures sessions == old(sessions) - {old(handlers[h].session_id)} && handlers == old(handlers) - {h}
    {
      sessions := sessions - {handlers[h].session_id};
      handlers := handlers - {h};
    }

    method ReadStatus(h: nat, session_id: string, ip: string) returns (ok: bool)
      requires h !in handlers
      modifies this`handlers
      ensures Model() == Step(old(Model()), PollRead(h, session_id, ip))
      ensures ok <==> session_id in sessions && sessions[session_id].peer_ip == ip
      ensures handlers == if ok then old(handlers)[h := Polling(session_id, sessions[session_id])] else old(handlers)
    {
      ok := session_id in sessions && sessions[session_id].peer_ip == ip;
      if ok {
        handlers := handlers[h := Polling(session_id, sessions[session_id])];
      } else {
        assert handlers - {h} == handlers;
      }
    }

    /** The answer to a poll: the tokens of an accepted session, and what is stored of its files at this moment. */
    method AnswerStatus(h: nat)
      returns (status: SessionStatus, tokens: map<string, string>, offsets: map<string, nat>)
      requires h in handlers && handlers[h].Polling?
      modifies this`sessions, this`handlers
      ensures Model() == Step(old(Model()), PollCommit(h))
      ensures status == old(handlers[h].seen.status)
      ensures status != Accepted ==> tokens == map[] && offsets == map[]
      ensures status == Accepted ==>
        var files := old(handlers[h].seen.files);
        && tokens.Keys == offsets.Keys == files.Keys
        && forall id <- files ::
             && tokens[id] == files[id].token
             && offsets[id] == if files[id].temp_path in temps then |temps[files[id].temp_path]| else 0
      ensures sessions == if status == Rejected then old(sessions) - {old(handlers[h].session_id)} else old(sessions)
      ensures handlers == old(handlers) - {h}
    {
      var id, seen := handlers[h].session_id, handlers[h].seen;
      status, tokens, offsets := seen.status, map[], map[];
      if seen.status == Accepted {
        tokens, offsets := Tokens(seen.files), StoredLengths(temps, seen.files);
      }
      if seen.status == Rejected {
        sessions := sessions - {id};
      }
      handlers := handlers - {h};
    }

    // ---- handle_upload, run_download_share_task ----

    method CheckUpload(h: nat, session_id: string, ip: string, file_id: string, token: string) returns (ok: bool)
      requires h !in handlers
      modifies this`handlers
      ensures Model() == Step(old(Model()), UploadCheck(h, session_id, ip, file_id, token))
      ensures ok
         <==> session_id in sessions && sessions[session_id].peer_ip == ip && sessions[session_id].status == Accepted
              && file_id in sessions[session_id].files && sessions[session_id].files[file_id].token == token
      ensures ok ==>
        var file := sessions[session_id].files[file_id];
        handlers == old(handlers)[h := Checked(Job(Some(session_id), file_id,
          Key(IncomingUpload, sessions[session_id].peer, file.resource), file.temp_path, file.final_path))]
      ensures !ok ==> handlers == old(handlers)
    {
      ok := false;
      assert handlers - {h} == handlers;
      if session_id !in sessions { return; }
      var session := sessions[session_id];
      if session.peer_ip != ip || session.status != Accepted { return; }
      if file_id !in session.files || session.files[file_id].token != token { return; }
      ok := true;
      handlers := handlers[h := Checked(UploadJob(session_id, session, file_id))];
    }

    method MeasureUpload(h: nat, offset: nat) returns (ok: bool)
      requires h in handlers && handlers[h].Checked?
      modifies this`handlers
      ensures Model() == Step(old(Model()), UploadMeasure(h, offset))
      ensures
        var path := old(handlers[h].job.temp_path);
        ok <==> offset == if path in temps then |temps[path]| else 0
      ensures handlers == if ok then old(handlers)[h := Measured(old(handlers[h].job), offset)] else old(handlers) - {h}
    {
      var job := handlers[h].job;
      ok := LengthOf(temps, job.temp_path) == offset;
      handlers := if ok then handlers[h := Measured(job, offset)] else handlers - {h};
    }

    method LoadDownload(h: nat, peer: string, resource: string, fresh_path: string)
      requires h !in handlers
      modifies this`handlers
      ensures Model() == Step(old(Model()), DownloadLoad(h, peer, resource, fresh_path))
      ensures
        var key := Key(SharedDownload, peer, resource);
        handlers == old(handlers)[h :=
          Looking(key, fresh_path, if key in partials then Some(partials[key]) else None)]
    {
      var key := Key(SharedDownload, peer, resource);
      handlers := handlers[h := Looking(key, fresh_path, if key in partials then Some(partials[key]) else None)];
    }

    method ChooseDownload(h: nat) returns (resumes: bool)
      requires h in handlers && handlers[h].Looking?
      modifies this`handlers
      ensures Model() == Step(old(Model()), DownloadChoose(h))
      ensures resumes <==> old(handlers[h].found.Some? && handlers[h].found.value.temp_path in temps)
      ensures
        var Looking(key, fresh_path, found) := old(handlers[h]);
        var paths := if resumes then found.value else Partial(TempName(key.peer, key.resource), fresh_path);
        handlers == old(handlers)[h :=
          Chosen(Job(None, key.resource, key, paths.temp_path, paths.final_path), resumes)]
    {
      var Looking(key, fresh_path, found) := handlers[h];
      var paths := Partial(TempName(key.peer, key.resource), fresh_path);
      resumes := false;
      if found.Some? && found.value.temp_path in temps {
        paths, resumes := found.value, true;
      }
      handlers := handlers[h := Chosen(DownloadJob(key, paths), resumes)];
    }

    method MeasureDownload(h: nat) returns (offset: nat)
      requires h in handlers && handlers[h].Chosen?
      modifies this`handlers
      ensures Model() == Step(old(Model()), DownloadMeasure(h))
      ensures
        var path := old(handlers[h].job.temp_path);
        offset == if old(handlers[h].resumes) && path in temps then |temps[path]| else 0
      ensures handlers == old(handlers)[h := Located(old(handlers[h].job), offset)]
    {
      var Chosen(job, resumes) := handlers[h];
      offset := 0;
      if resumes {
        offset := LengthOf(temps, job.temp_path);
      }
      handlers := handlers[h := Located(job, offset)];
    }

    method RecordDownload(h: nat)
      requires h in handlers && handlers[h].Located?
      modifies this`partials, this`handlers
      ensures Model() == Step(old(Model()), DownloadRecord(h))
      ensures
        var Located(job, offset) := old(handlers[h]);
        && partials == old(partials)[job.key := Partial(job.temp_path, job.final_path)]
        && handlers == old(handlers)[h := Measured(job, offset)]
    {
      var Located(job, offset) := handlers[h];
      partials := partials[job.key := Partial(job.temp_path, job.final_path)];
      handlers := handlers[h := Measured(job, offset)];
    }

    method OpenFile(h: nat)
      requires h in handlers && handlers[h].Measured?
      modifies this`temps, this`handlers
      ensures Model() == Step(old(Model()), Open(h))
      ensures
        var Measured(job, offset) := old(handlers[h]);
        && temps == (if offset > 0 && job.temp_path in old(temps) then old(temps) else old(temps)[job.temp_path := []])
        && handlers == old(handlers)[h := Writing(job, offset > 0, offset)]
    {
      var job, offset := handlers[h].job, handlers[h].offset;
      if job.temp_path !in temps || offset == 0 {
        temps := temps[job.temp_path := []];
      }
      handlers := handlers[h := Writing(job, offset > 0, offset)];
    }

    /** Whatever others have done to the file; if nothing, it grows by exactly the body. */
    method ReceiveBody(h: nat, chunks: seq<Bytes>)
      requires h in handlers && handlers[h].Writing?
      modifies this`temps, this`handlers
      ensures Model() == StepChunks(old(Model()), h, chunks)
      ensures old(InStep(Model(), h)) ==> Model() == old(Grown(Model(), h, Concat(chunks)))
      ensures old(InStep(Model(), h)) ==>
        var Writing(job, append, written) := old(handlers[h]);
        && temps == old(temps)[job.temp_path := old(temps)[job.temp_path] + Concat(chunks)]
        && handlers == old(handlers)[h := Writing(job, append, written + |Concat(chunks)|)]
    {
      hide Step, WriteAt;
      ghost var s := Model();
      var Writing(job, append, written) := handlers[h];
      var transferred: nat := written;
      for k := 0 to |chunks|
        invariant Model() == StepChunks(s, h, chunks[..k])
        invariant h in handlers && handlers[h] == Writing(job, append, transferred)
      {
        ChunkIsWritten(Model(), h, chunks[k]);
        assert chunks[..k + 1][..k] == chunks[..k];
        if job.temp_path in temps {
          temps := temps[job.temp_path := WriteAt(temps[job.temp_path], append, transferred, chunks[k])];
        }
        transferred := transferred + |chunks[k]|;
        handlers := handlers[h := Writing(job, append, transferred)];
      }
      assert chunks[..|chunks|] == chunks;
      if InStep(s, h) { ChunkingDoesNotMatter(s, h, chunks); }
    }

    method RenameToFinal(h: nat)
      requires h in handlers && handlers[h].Writing? && handlers[h].job.temp_path in temps
      modifies this`temps, this`finals, this`handlers
      ensures Model() == Step(old(Model()), Finish(h))
      ensures
        var job := old(handlers[h].job);
        && finals == old(finals)[job.final_path := old(temps)[job.temp_path]] && temps == old(temps) - {job.temp_path}
        && handlers == old(handlers)[h := Renamed(job)]
    {
      var job := handlers[h].job;
      finals := finals[job.final_path := temps[job.temp_path]];
      temps := temps - {job.temp_path};
      handlers := handlers[h := Renamed(job)];
    }

    method DeletePartial(h: nat)
      requires h in handlers && handlers[h].Renamed?
      modifies this`partials, this`handlers
      ensures Model() == Step(old(Model()), Unlist(h))
      ensures
        var job := old(handlers[h].job);
        && partials == old(partials) - {job.key}
        && handlers == if job.session.Some? then old(handlers)[h := Unlisted(job)] else old(handlers) - {h}
    {
      var job := handlers[h].job;
      partials := partials - {job.key};
      handlers := if job.session.Some? then handlers[h := Unlisted(job)] else handlers - {h};
    }

    method DropSessionFile(h: nat) returns (should_finish: bool)
      requires h in handlers && handlers[h].Unlisted? && handlers[h].job.session.Some?
      modifies this`sessions, this`handlers
      ensures Model() == Step(old(Model()), DropFile(h))
      ensures should_finish <==> h in handlers
      ensures
        var job := old(handlers[h].job);
        var id := job.session.value;
        && (should_finish <==> id in old(sessions) && old(sessions)[id].files.Keys <= {job.file_id})
        && (id !in old(sessions) ==> sessions == old(sessions))
        && (id in old(sessions) ==>
              sessions == old(sessions)[id := old(sessions)[id].(files := old(sessions)[id].files - {job.file_id})])
        && handlers == if should_finish then old(handlers)[h := Closing(job)] else old(handlers) - {h}
    {
      var job := handlers[h].job;
      var id := job.session.value;
      should_finish := false;
      if id in sessions {
        var files := sessions[id].files - {job.file_id};
        assert files.Keys == sessions[id].files.Keys - {job.file_id};
        assert files.Keys == {} ==> files == map[];
        sessions := sessions[id := sessions[id].(files := files)];
        should_finish := files == map[];
      }
      handlers := if should_finish then handlers[h := Closing(job)] else handlers - {h};
    }

    method RemoveSession(h: nat)
      requires h in handlers && handlers[h].Closing? && handlers[h].job.session.Some?
      modifies this`sessions, this`handlers
      ensures Model() == Step(old(Model()), CloseSession(h))
      ensures sessions == old(sessions) - {old(handlers[h].job.session.value)} && handlers == old(handlers) - {h}
    {
      sessions := sessions - {handlers[h].job.session.value};
      handlers := handlers - {h};
    }

    /** An error or a disconnect, in any phase: nothing is rolled back. */
    method FailRequest(h: nat)
      requires h in handlers
      modifies this`handlers
      ensures Model() == Step(old(Model()), Fail(h))
      ensures handlers == old(handlers) - {h}
    {
      handlers := handlers - {h};
    }
  }
}
