/** What is stored in the course of a transfer: every temporary file a prefix, every delivered file a source. */
module TransferContent {
  import opened RangeHeader
  import opened Transfer

  // ---- Resume safety ----

  /** What each peer is sending: the source file behind every transfer key. */
  type Sources = map<Key, Bytes>

  /** Transfers that share a temporary file are transfers of the same bytes. */
  ghost predicate NoCollisions(sources: Sources) {
    forall k, l :: k in sources && l in sources && TempOf(k) == TempOf(l) ==> sources[k] == sources[l]
  }

  function TempOf(key: Key): string { TempName(key.peer, key.resource) }

  predicate Active(handler: Handler) { handler.Located? || handler.Measured? || handler.Writing? }

  /** At most one transfer is between measuring and renaming any one temporary file. */
  ghost predicate Exclusive(s: State) {
    forall h, g :: h in s.handlers && g in s.handlers && h != g && Active(s.handlers[h]) && Active(s.handlers[g]) ==>
      s.handlers[h].job.temp_path != s.handlers[g].job.temp_path
  }

  /** Where a transfer will go on in its file. */
  function Position(handler: Handler): nat
    requires Active(handler)
  {
    match handler
    case Located(_, offset) => offset
    case Measured(_, offset) => offset
    case Writing(_, _, written) => written
  }

  /** One transfer is about to change the file at whose present length another one will go on. */
  predicate Clash(handler: Handler, other: Handler) {
    && Active(handler) && Active(other) && handler.job.temp_path == other.job.temp_path
    && (other.Writing? || Position(other) > 0)
    && (handler.Writing? || (handler.Measured? && handler.offset == 0 && Position(other) > 0))
  }

  predicate Clashing(s: State, h: nat, g: nat) {
    h in s.handlers && g in s.handlers && h != g && Clash(s.handlers[h], s.handlers[g])
  }

  ghost predicate NoClash(s: State) { forall h, g :: !Clashing(s, h, g) }

  lemma ExclusiveIsEnough(s: State)
    requires Exclusive(s)
    ensures NoClash(s)
  {
  }

  /**
   * What the network may deliver: only files with a source are offered, a body is the source from the agreed
   * offset on, in order, and it ends without an error only after its last byte, or at once from an offset beyond it,
   * which a sender does not compare with its file. A resumed download is answered as the serving side answers its
   * header.
   */
  ghost predicate Honest(sources: Sources, s: State, a: Action) {
    match a
    case PrepareStart(_, peer, _, files) => forall id :: id in files ==> Key(IncomingUpload, peer, id) in sources
    case DownloadLoad(_, peer, resource, _) => Key(SharedDownload, peer, resource) in sources
    case Open(h) =>
      h in s.handlers && s.handlers[h].Measured? && s.handlers[h].job.session.None?
        && s.handlers[h].job.key in sources ==>
        var served := ParseRangeHeader(RequestHeader(s.handlers[h].offset), |sources[s.handlers[h].job.key]|);
        served.Ok? && served.value.start == s.handlers[h].offset
    case Chunk(h, data) =>
      h in s.handlers && s.handlers[h].Writing? && s.handlers[h].job.key in sources ==>
        s.handlers[h].written + |data| <= |sources[s.handlers[h].job.key]| &&
        data == sources[s.handlers[h].job.key][s.handlers[h].written..s.handlers[h].written + |data|]
    case Finish(h) =>
      h in s.handlers && s.handlers[h].Writing? && s.handlers[h].job.key in sources ==>
        s.handlers[h].written >= |sources[s.handlers[h].job.key]|
    case _ => true
  }

  ghost predicate SoundFiles(sources: Sources, peer: string, files: map<string, SessionFile>) {
    forall id :: id in files ==>
      files[id].resource == id && Key(IncomingUpload, peer, id) in sources
        && files[id].temp_path == TempName(peer, id)
  }

  ghost predicate SoundJob(sources: Sources, job: Job) {
    && job.key in sources && job.temp_path == TempOf(job.key)
    && (job.session.None? <==> job.key.kind == SharedDownload)
  }

  /** Every recorded path is the temporary file of its own transfer. */
  ghost predicate PathsSound(sources: Sources, s: State) {
    && SessionsSound(s)
    && SoundPartials(sources, s.partials)
    && (forall id :: id in s.sessions ==> SoundFiles(sources, s.sessions[id].peer, s.sessions[id].files))
    && (forall h :: h in s.handlers ==> SoundHandler(sources, s, s.handlers[h]))
  }

  ghost predicate SoundHandler(sources: Sources, s: State, handler: Handler) {
    match handler
    case Preparing(peer, _, offered, files, lookup) =>
      && SoundFiles(sources, peer, files)
      && (forall id :: id in offered ==> Key(IncomingUpload, peer, id) in sources)
      && SoundLookup(sources, peer, lookup)
    case Accepting(id, peer, pending, refreshed) =>
      && id in s.used_ids && (id in s.sessions ==> s.sessions[id].peer == peer)
      && SoundFiles(sources, peer, pending) && SoundFiles(sources, peer, refreshed)
    case Looking(key, _, found) =>
      key in sources && key.kind == SharedDownload && (found.Some? ==> found.value.temp_path == TempOf(key))
    case _ => JobOf(handler).Some? ==> SoundJob(sources, JobOf(handler).value)
  }

  ghost predicate SoundLookup(sources: Sources, peer: string, lookup: Lookup) {
    match lookup
    case Idle => true
    case Loaded(id, _, found) =>
      && Key(IncomingUpload, peer, id) in sources
      && (found.Some? ==> found.value.temp_path == TempName(peer, id))
    case Resolved(id, _, paths) => Key(IncomingUpload, peer, id) in sources && paths.temp_path == TempName(peer, id)
  }

  /** The heart of the matter: every temporary file is a prefix of its source, every delivered file a source. */
  ghost predicate ContentSound(sources: Sources, s: State) {
    && (forall key :: key in sources && TempOf(key) in s.temps ==> s.temps[TempOf(key)] <= sources[key])
    && PositionsSound(s)
    && (forall path :: path in s.finals ==> IsSource(sources, s.finals[path]))
  }

  ghost predicate IsSource(sources: Sources, data: Bytes) { exists key :: key in sources && sources[key] == data }

  predicate SoundPosition(s: State, handler: Handler) {
    match handler
    case Located(job, offset) => offset > 0 ==> LengthOf(s.temps, job.temp_path) == offset
    case Measured(job, offset) => offset > 0 ==> LengthOf(s.temps, job.temp_path) == offset
    case Writing(job, _, written) => job.temp_path in s.temps && |s.temps[job.temp_path]| == written
    case _ => true
  }

  ghost predicate PositionsSound(s: State) { forall h :: h in s.handlers ==> SoundPosition(s, s.handlers[h]) }

  lemma JobIsSound(sources: Sources, s: State, h: nat)
    requires PathsSound(sources, s) && h in s.handlers && JobOf(s.handlers[h]).Some?
    ensures SoundJob(sources, JobOf(s.handlers[h]).value)
  {
    assert SoundHandler(sources, s, s.handlers[h]);
  }

  ghost predicate SoundPartials(sources: Sources, partials: map<Key, Partial>) {
    forall key :: key in partials ==> key in sources && partials[key].temp_path == TempOf(key)
  }

  lemma PartialsStaySound(sources: Sources, s: State, a: Action)
    requires PathsSound(sources, s)
    ensures SoundPartials(sources, NextPartials(s, a))
  {
    if a.h in s.handlers {
      assert SoundHandler(sources, s, s.handlers[a.h]);
    }
  }

  lemma SessionsStaySound(sources: Sources, s: State, a: Action)
    requires PathsSound(sources, s) && FreshId(s, a)
    ensures forall id :: id in NextSessions(s, a) ==>
      SoundFiles(sources, NextSessions(s, a)[id].peer, NextSessions(s, a)[id].files)
  {
    forall id | id in NextSessions(s, a)
      ensures SoundFiles(sources, NextSessions(s, a)[id].peer, NextSessions(s, a)[id].files)
    {
      SessionStaysSound(sources, s, a, id);
    }
  }

  lemma SessionStaysSound(sources: Sources, s: State, a: Action, id: string)
    requires PathsSound(sources, s) && FreshId(s, a) && id in NextSessions(s, a)
    ensures SoundFiles(sources, NextSessions(s, a)[id].peer, NextSessions(s, a)[id].files)
  {
    assert id in s.sessions ==> SoundFiles(sources, s.sessions[id].peer, s.sessions[id].files);
    if a.h in s.handlers {
      assert SoundHandler(sources, s, s.handlers[a.h]);
    }
  }

  lemma PeersStay(s: State, a: Action, id: string)
    requires SessionsSound(s) && FreshId(s, a) && id in s.used_ids && id in NextSessions(s, a)
    ensures id in s.sessions && NextSessions(s, a)[id].peer == s.sessions[id].peer
  {
  }

  lemma HandlerStaysSound(sources: Sources, s: State, a: Action, handler: Handler)
    requires SessionsSound(s) && FreshId(s, a) && SoundHandler(sources, s, handler)
    ensures SoundHandler(sources, Step(s, a), handler)
  {
    if handler.Accepting? && handler.session_id in NextSessions(s, a) {
      PeersStay(s, a, handler.session_id);
    }
    hide NextSessions;
  }

  lemma ContinuedIsSound(sources: Sources, s: State, a: Action)
    requires PathsSound(sources, s)
    requires a.h in s.handlers && Continued(s, a).Some?
    ensures SoundHandler(sources, s, Continued(s, a).value)
  {
    var handler := s.handlers[a.h];
    assert SoundHandler(sources, s, handler);
    match handler {
      case Preparing(peer, ip, offered, files, lookup) =>
        ContinuedPrepareIsSound(sources, s, a, peer, ip, offered, files, lookup);
        ContinuesPreparing(s, a);
        hide Continued, ContinuedPrepare, SoundHandler, PathsSound;
      case Accepting(_, _, _, _) => ContinuedAcceptIsSound(sources, s, a); hide Continued, SoundHandler, PathsSound;
      case Looking(_, _, _) => ContinuedLookIsSound(sources, s, a); hide Continued, SoundHandler, PathsSound;
      case _ => ContinuedKeeps(s, a); hide Continued, PathsSound;
    }
  }

  lemma ContinuesPreparing(s: State, a: Action)
    requires a.h in s.handlers && s.handlers[a.h].Preparing? && Continued(s, a).Some?
    ensures var Preparing(peer, ip, offered, files, lookup) := s.handlers[a.h];
      Continued(s, a) == ContinuedPrepare(s, a, peer, ip, offered, files, lookup)
  {
    hide ContinuedPrepare;
  }

  lemma ContinuedAcceptIsSound(sources: Sources, s: State, a: Action)
    requires a.h in s.handlers && s.handlers[a.h].Accepting? && Continued(s, a).Some?
    requires SoundHandler(sources, s, s.handlers[a.h])
    ensures SoundHandler(sources, s, Continued(s, a).value)
  {
  }

  lemma ContinuedLookIsSound(sources: Sources, s: State, a: Action)
    requires a.h in s.handlers && s.handlers[a.h].Looking? && Continued(s, a).Some?
    requires SoundHandler(sources, s, s.handlers[a.h])
    ensures SoundHandler(sources, s, Continued(s, a).value)
  {
  }

  /** Elsewhere, going on keeps the job, or what else the handler has read. */
  lemma ContinuedKeeps(s: State, a: Action)
    requires a.h in s.handlers && Continued(s, a).Some?
    requires !s.handlers[a.h].Preparing? && !s.handlers[a.h].Accepting? && !s.handlers[a.h].Looking?
    ensures JobOf(Continued(s, a).value) == JobOf(s.handlers[a.h])
    ensures JobOf(s.handlers[a.h]).None? ==> Continued(s, a).value == s.handlers[a.h]
  {
  }

  lemma ContinuedPrepareIsSound(
    sources: Sources, s: State, a: Action, peer: string, ip: string, offered: map<string, WireFile>,
    files: map<string, SessionFile>, lookup: Lookup)
    requires SoundPartials(sources, s.partials)
    requires SoundHandler(sources, s, Preparing(peer, ip, offered, files, lookup))
    ensures var next := ContinuedPrepare(s, a, peer, ip, offered, files, lookup);
      next.Some? ==> SoundHandler(sources, s, next.value)
  {
  }

  lemma EnteredIsSound(sources: Sources, s: State, a: Action)
    requires PathsSound(sources, s) && Honest(sources, s, a)
    requires a.h !in s.handlers && Entered(s, a).Some?
    ensures SoundHandler(sources, s, Entered(s, a).value)
  {
  }

  lemma ActingHandlerIsSound(sources: Sources, s: State, a: Action)
    requires PathsSound(sources, s) && FreshId(s, a) && Honest(sources, s, a)
    requires a.h in NextHandlers(s, a)
    ensures SoundHandler(sources, Step(s, a), NextHandlers(s, a)[a.h])
  {
    hide Continued, Entered, SoundHandler, NextSessions, NextPartials, NextTemps, NextFinals;
    if a.h in s.handlers {
      ContinuedIsSound(sources, s, a);
    } else {
      EnteredIsSound(sources, s, a);
    }
    HandlerStaysSound(sources, s, a, NextHandlers(s, a)[a.h]);
  }

  lemma PathsStaySound(sources: Sources, s: State, a: Action)
    requires PathsSound(sources, s) && FreshId(s, a) && Honest(sources, s, a)
    ensures PathsSound(sources, Step(s, a))
  {
    PartialsStaySound(sources, s, a);
    SessionsStaySound(sources, s, a);
    SessionsStaySoundStep(s, a);
    var t := Step(s, a);
    forall h | h in t.handlers
      ensures SoundHandler(sources, t, t.handlers[h])
    {
      if h == a.h {
        ActingHandlerIsSound(sources, s, a);
      } else {
        HandlerStaysSound(sources, s, a, s.handlers[h]);
      }
    }
  }

  lemma SessionsStaySoundStep(s: State, a: Action)
    requires SessionsSound(s)
    ensures SessionsSound(Step(s, a))
  {
    assert Step(s, a).sessions.Keys <= Step(s, a).used_ids;
  }

  /** A write by a job in step with its file appends, and its file stays a prefix of its source. */
  lemma ChunkStaysPrefix(sources: Sources, s: State, h: nat, data: Bytes)
    requires PathsSound(sources, s) && ContentSound(sources, s) && Honest(sources, s, Chunk(h, data))
    requires h in s.handlers && s.handlers[h].Writing?
    ensures
      var Writing(job, append, written) := s.handlers[h];
      && SoundJob(sources, job) && job.temp_path in s.temps
      && WriteAt(s.temps[job.temp_path], append, written, data) <= sources[job.key]
  {
    JobIsSound(sources, s, h);
    var Writing(job, append, written) := s.handlers[h];
    assert SoundPosition(s, s.handlers[h]);
    var content := s.temps[job.temp_path];
    assert content <= sources[job.key] && |content| == written;
    hide PathsSound, ContentSound;
    assert WriteAt(content, append, written, data) == content + data;
  }

  /** Every step keeps every temporary file a prefix of its source. */
  lemma TempsStayPrefixes(sources: Sources, s: State, a: Action, key: Key)
    requires NoCollisions(sources) && PathsSound(sources, s) && ContentSound(sources, s) && Honest(sources, s, a)
    requires key in sources && TempOf(key) in NextTemps(s, a)
    ensures NextTemps(s, a)[TempOf(key)] <= sources[key]
  {
    var path := TempOf(key);
    if path in s.temps && NextTemps(s, a)[path] == s.temps[path] {
      hide NextTemps, PathsSound;
    } else {
      JobIsSound(sources, s, a.h);
      if a.Chunk? { ChunkStaysPrefix(sources, s, a.h, a.data); }
      hide PathsSound, ContentSound, WriteAt, Honest;
    }
  }

  lemma FinalsStaySources(sources: Sources, s: State, a: Action, path: string)
    requires PathsSound(sources, s) && ContentSound(sources, s) && Honest(sources, s, a)
    requires path in NextFinals(s, a)
    ensures IsSource(sources, NextFinals(s, a)[path])
  {
    if NextFinals(s, a) != s.finals {
      var job := s.handlers[a.h].job;
      assert s.temps[TempOf(job.key)] <= sources[job.key];
      assert s.temps[job.temp_path] == sources[job.key];
    }
  }

  lemma OtherPositionStaysSound(s: State, a: Action, h: nat)
    requires PositionsSound(s) && h in s.handlers && a.h != h && !Clashing(s, a.h, h)
    ensures SoundPosition(Step(s, a), s.handlers[h])
  {
    if a.h in s.handlers {
      assert SoundPosition(s, s.handlers[a.h]);
    }
    assert SoundPosition(s, s.handlers[h]);
  }

  lemma ActingPositionIsSound(s: State, a: Action)
    requires PositionsSound(s) && a.h in NextHandlers(s, a)
    ensures SoundPosition(Step(s, a), NextHandlers(s, a)[a.h])
  {
    hide Continued, Entered, NextSessions, NextPartials, NextTemps, NextFinals, SoundPosition;
    if a.h in s.handlers {
      ContinuedPositionIsSound(s, a);
    } else {
      EnteredHasNoPosition(s, a);
    }
  }

  lemma EnteredHasNoPosition(s: State, a: Action)
    requires Entered(s, a).Some?
    ensures SoundPosition(Step(s, a), Entered(s, a).value)
  {
  }

  lemma ContinuedPositionIsSound(s: State, a: Action)
    requires a.h in s.handlers && Continued(s, a).Some? && SoundPosition(s, s.handlers[a.h])
    ensures SoundPosition(Step(s, a), Continued(s, a).value)
  {
    hide NextSessions, NextPartials, NextFinals;
  }

  lemma ContentStaysSound(sources: Sources, s: State, a: Action)
    requires NoCollisions(sources) && NoClash(s)
    requires PathsSound(sources, s) && ContentSound(sources, s) && Honest(sources, s, a)
    ensures ContentSound(sources, Step(s, a))
  {
    var t := Step(s, a);
    forall key | key in sources && TempOf(key) in t.temps
      ensures t.temps[TempOf(key)] <= sources[key]
    {
      TempsStayPrefixes(sources, s, a, key);
    }
    forall h | h in t.handlers
      ensures SoundPosition(t, t.handlers[h])
    {
      if h == a.h {
        ActingPositionIsSound(s, a);
      } else {
        OtherPositionStaysSound(s, a, h);
      }
    }
    forall path | path in t.finals
      ensures IsSource(sources, t.finals[path])
    {
      FinalsStaySources(sources, s, a, path);
    }
  }

  /** A run the network and the clients may produce, in which no two transfers clash; exclusive ones never do. */
  ghost predicate Possible(sources: Sources, actions: seq<Action>) {
    forall k :: 0 <= k < |actions| ==>
      FreshId(Run(actions[..k]), actions[k]) && Honest(sources, Run(actions[..k]), actions[k]) &&
      NoClash(Run(actions[..k]))
  }

  /**
   * Resume safety over every possible run of prepare, accept, poll, upload, download, failure and retry: every
   * temporary file is a prefix of the file being sent, and every delivered file is a whole source file.
   */
  lemma {:induction false} ResumeIsSafe(sources: Sources, actions: seq<Action>, n: nat)
    requires NoCollisions(sources) && Possible(sources, actions) && n <= |actions|
    ensures PathsSound(sources, Run(actions[..n])) && ContentSound(sources, Run(actions[..n]))
    decreases n
  {
    if n > 0 {
      ResumeIsSafe(sources, actions, n - 1);
      RunStep(actions, n - 1);
      hide Step, Run, Honest;
      PathsStaySound(sources, Run(actions[..n - 1]), actions[n - 1]);
      ContentStaysSound(sources, Run(actions[..n - 1]), actions[n - 1]);
    }
  }

  /** The rename at the end of a body puts exactly the source of its transfer in the final place. */
  lemma FinishDelivers(sources: Sources, s: State, a: Action)
    requires PathsSound(sources, s) && ContentSound(sources, s) && Honest(sources, s, a)
    requires a.Finish? && a.h in s.handlers && s.handlers[a.h].Writing?
    ensures
      var job := s.handlers[a.h].job;
      && job.key in sources
      && Step(s, a).finals == s.finals[job.final_path := sources[job.key]]
      && Step(s, a).temps == s.temps - {TempOf(job.key)}
  {
    var job := s.handlers[a.h].job;
    assert SoundHandler(sources, s, s.handlers[a.h]);
    assert s.temps[TempOf(job.key)] <= sources[job.key];
    assert s.temps[job.temp_path] == sources[job.key];
  }

  /** In particular so when at most one transfer at a time is between measuring and renaming any one file. */
  lemma ExclusiveRunsAreSafe(sources: Sources, actions: seq<Action>)
    requires NoCollisions(sources)
    requires forall k :: 0 <= k < |actions| ==>
      FreshId(Run(actions[..k]), actions[k]) && Honest(sources, Run(actions[..k]), actions[k]) &&
      Exclusive(Run(actions[..k]))
    ensures PathsSound(sources, Run(actions)) && ContentSound(sources, Run(actions))
  {
    hide Run, FreshId, Honest, Exclusive, PathsSound, ContentSound;
    forall k | 0 <= k < |actions|
      ensures NoClash(Run(actions[..k]))
    {
      ExclusiveIsEnough(Run(actions[..k]));
    }
    ResumeIsSafe(sources, actions, |actions|);
    assert actions[..|actions|] == actions;
  }

  /** The transfer that was finished last at each final path. */
  function Delivered(actions: seq<Action>): map<string, Key> {
    if actions == [] then map[]
    else
      var before, s, a := Delivered(actions[..|actions| - 1]), Run(actions[..|actions| - 1]), actions[|actions| - 1];
      if Finishes(s, a) then before[s.handlers[a.h].job.final_path := s.handlers[a.h].job.key] else before
  }

  predicate Finishes(s: State, a: Action) {
    a.Finish? && a.h in s.handlers && s.handlers[a.h].Writing? && s.handlers[a.h].job.temp_path in s.temps
  }

  lemma FinalsStayUnlessFinished(s: State, a: Action)
    requires !Finishes(s, a)
    ensures Step(s, a).finals == s.finals
  {
  }

  /** In every state of every possible run each final path holds the source of the transfer last finished there. */
  lemma {:induction false} FilesAreTheirSources(sources: Sources, actions: seq<Action>, n: nat)
    requires NoCollisions(sources) && Possible(sources, actions) && n <= |actions|
    ensures
      var finals, delivered := Run(actions[..n]).finals, Delivered(actions[..n]);
      && finals.Keys == delivered.Keys
      && forall path :: path in finals ==>
        delivered[path] in sources && finals[path] == sources[delivered[path]]
    decreases n
  {
    hide Step, Run, Honest, PathsSound, ContentSound;
    if n > 0 {
      var s, a := Run(actions[..n - 1]), actions[n - 1];
      FilesAreTheirSources(sources, actions, n - 1);
      ResumeIsSafe(sources, actions, n - 1);
      RunStep(actions, n - 1);
      assert actions[..n][..n - 1] == actions[..n - 1];
      if Finishes(s, a) {
        FinishDelivers(sources, s, a);
      } else {
        FinalsStayUnlessFinished(s, a);
      }
    } else {
      assert actions[..0] == [];
      NothingDelivered();
    }
  }

  lemma NothingDelivered()
    ensures Run([]).finals == map[]
  {
  }

  // ---- A retry completes ----

  lemma UploadStarts(s: State, h: nat, id: string, ip: string, file_id: string, token: string)
    requires h !in s.handlers && MayUpload(s, id, ip, file_id, token)
    ensures
      var job := UploadJob(id, s.sessions[id], file_id);
      var offset := LengthOf(s.temps, job.temp_path);
      var measured := Agreed(s, h, id, ip, file_id, token, offset);
      && measured.temps == s.temps && measured.finals == s.finals
      && h in measured.handlers && measured.handlers[h] == Measured(job, offset)
  {
    var job := UploadJob(id, s.sessions[id], file_id);
    var checked := Step(s, UploadCheck(h, id, ip, file_id, token));
    assert checked.handlers == s.handlers[h := Checked(job)];
    assert checked.temps == s.temps && checked.finals == s.finals;
    hide UploadJob, MayUpload;
  }

  lemma BodyArrives(s: State, h: nat, job: Job, offset: nat, rest: Bytes)
    requires h in s.handlers && s.handlers[h] == Measured(job, offset) && LengthOf(s.temps, job.temp_path) == offset
    ensures
      var written := Step(Step(s, Open(h)), Chunk(h, rest));
      var content := (if job.temp_path in s.temps then s.temps[job.temp_path] else []) + rest;
      && written.temps == s.temps[job.temp_path := content] && written.finals == s.finals
      && h in written.handlers && written.handlers[h] == Writing(job, offset > 0, offset + |rest|)
  {
    hide Step;
    OpenedAtEnd(s, h, job, offset);
    WrittenBody(Step(s, Open(h)), h, rest);
  }

  lemma OpenedAtEnd(s: State, h: nat, job: Job, offset: nat)
    requires h in s.handlers && s.handlers[h] == Measured(job, offset) && LengthOf(s.temps, job.temp_path) == offset
    ensures
      var ready := Step(s, Open(h));
      && ready.temps == s.temps[job.temp_path := if job.temp_path in s.temps then s.temps[job.temp_path] else []]
      && ready.finals == s.finals && ready.handlers == s.handlers[h := Writing(job, offset > 0, offset)]
  {
  }

  lemma WrittenBody(s: State, h: nat, rest: Bytes)
    requires h in s.handlers && s.handlers[h].Writing? && s.handlers[h].job.temp_path in s.temps
    requires |s.temps[s.handlers[h].job.temp_path]| == s.handlers[h].written
    ensures
      var Writing(job, append, written) := s.handlers[h];
      var t := Step(s, Chunk(h, rest));
      && t.temps == s.temps[job.temp_path := s.temps[job.temp_path] + rest] && t.finals == s.finals
      && h in t.handlers && t.handlers[h] == Writing(job, append, written + |rest|)
  {
    var content := s.temps[s.handlers[h].job.temp_path];
    assert WriteAt(content, s.handlers[h].append, |content|, rest) == content + rest;
    hide WriteAt;
  }

  lemma BodyEnds(s: State, h: nat, job: Job)
    requires h in s.handlers && s.handlers[h].Writing? && s.handlers[h].job == job && job.temp_path in s.temps
    ensures Step(s, Finish(h)).finals == s.finals[job.final_path := s.temps[job.temp_path]]
    ensures Step(s, Finish(h)).temps == s.temps - {job.temp_path}
  {
  }

  /** Opening, the rest of the body in one piece, and its end. */
  function Received(s: State, h: nat, rest: Bytes): State {
    Step(Step(Step(s, Open(h)), Chunk(h, rest)), Finish(h))
  }

  /** The upload let in and its offset agreed. */
  function Agreed(s: State, h: nat, id: string, ip: string, file_id: string, token: string, offset: nat): State {
    Step(Step(s, UploadCheck(h, id, ip, file_id, token)), UploadMeasure(h, offset))
  }

  lemma ReceivedDelivers(s: State, h: nat, job: Job, offset: nat, rest: Bytes)
    requires h in s.handlers && s.handlers[h] == Measured(job, offset) && LengthOf(s.temps, job.temp_path) == offset
    ensures
      var stored := if job.temp_path in s.temps then s.temps[job.temp_path] else [];
      && Received(s, h, rest).finals == s.finals[job.final_path := stored + rest]
      && Received(s, h, rest).temps == s.temps - {job.temp_path}
  {
    hide Step, LengthOf;
    BodyArrives(s, h, job, offset, rest);
    BodyEnds(Step(Step(s, Open(h)), Chunk(h, rest)), h, job);
  }

  /**
   * A retry delivers: from any sound state, whatever was stored before, an accepted upload that starts at the
   * stored length and sends the rest ends with the whole source in the final place and no temporary file.
   */
  lemma RetryDelivers(sources: Sources, s: State, h: nat, id: string, ip: string, file_id: string, token: string)
    requires PathsSound(sources, s) && ContentSound(sources, s)
    requires h !in s.handlers && MayUpload(s, id, ip, file_id, token)
    ensures
      var job := UploadJob(id, s.sessions[id], file_id);
      var offset := LengthOf(s.temps, job.temp_path);
      job.key in sources && offset <= |sources[job.key]| &&
      var delivered := Received(Agreed(s, h, id, ip, file_id, token, offset), h, sources[job.key][offset..]);
      && delivered.finals == s.finals[job.final_path := sources[job.key]]
      && delivered.temps == s.temps - {job.temp_path}
  {
    assert id in s.sessions && file_id in s.sessions[id].files;
    hide Step, Received, UploadJob, MayUpload, PathsSound, ContentSound;
    StoredIsPrefix(sources, s, id, ip, file_id, token);
    UploadStarts(s, h, id, ip, file_id, token);
    var job := UploadJob(id, s.sessions[id], file_id);
    var offset := LengthOf(s.temps, job.temp_path);
    ReceivedDelivers(Agreed(s, h, id, ip, file_id, token, offset), h, job, offset, sources[job.key][offset..]);
  }

  lemma StoredIsPrefix(sources: Sources, s: State, id: string, ip: string, file_id: string, token: string)
    requires PathsSound(sources, s) && ContentSound(sources, s) && MayUpload(s, id, ip, file_id, token)
    ensures
      var job := UploadJob(id, s.sessions[id], file_id);
      job.key in sources &&
      var stored := if job.temp_path in s.temps then s.temps[job.temp_path] else [];
      && LengthOf(s.temps, job.temp_path) == |stored| <= |sources[job.key]|
      && stored + sources[job.key][|stored|..] == sources[job.key]
  {
    var job := UploadJob(id, s.sessions[id], file_id);
    assert SoundFiles(sources, s.sessions[id].peer, s.sessions[id].files);
    assert SoundJob(sources, job);
  }

  lemma ChunkAppends(s: State, h: nat, data: Bytes)
    requires h in s.handlers && s.handlers[h].Writing? && s.handlers[h].append
    requires s.handlers[h].job.temp_path in s.temps
    ensures
      var path := s.handlers[h].job.temp_path;
      Step(s, Chunk(h, data)).temps == s.temps[path := s.temps[path] + data]
    ensures forall g :: g in s.handlers && g != h ==>
      g in Step(s, Chunk(h, data)).handlers && Step(s, Chunk(h, data)).handlers[g] == s.handlers[g]
  {
  }
}
