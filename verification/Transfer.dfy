/**
 * The receiving side of the LAN file transfer as a state machine. Each handler is cut where it releases the
 * state lock or touches a file, so any interleaving of handlers is a sequence of the steps below.
 */
module Transfer {
  import opened Text

  type Bytes = seq<bv8>

  datatype Kind = IncomingUpload | SharedDownload

  /** What a stored partial transfer is filed under. */
  datatype Key = Key(kind: Kind, peer: string, resource: string)

  datatype Partial = Partial(temp_path: string, final_path: string)

  datatype SessionStatus = Pending | Accepted | Rejected

  datatype SessionFile = SessionFile(resource: string, token: string, temp_path: string, final_path: string)

  datatype Session = Session(peer: string, peer_ip: string, status: SessionStatus, files: map<string, SessionFile>)

  /** One file on its way to the disk; a download belongs to no session. */
  datatype Job = Job(session: Option<string>, file_id: string, key: Key, temp_path: string, final_path: string)

  /** A file as it is offered, with the final path it would get if it were new. */
  datatype WireFile = WireFile(token: string, fresh_path: string)

  /** How far a prepare request has come with one file: its record is read, its paths are known. */
  datatype Lookup =
    | Idle
    | Loaded(id: string, wire: WireFile, found: Option<Partial>)
    | Resolved(id: string, wire: WireFile, paths: Partial)

  /** A request in progress: the phase it has reached and what it has read so far. */
  datatype Handler =
    | Preparing(peer: string, ip: string, offered: map<string, WireFile>, files: map<string, SessionFile>,
                lookup: Lookup)
    | Accepting(session_id: string, owner: string, pending: map<string, SessionFile>,
                refreshed: map<string, SessionFile>)
    | Rejecting(session_id: string)
    | Cancelling(session_id: string)
    | Polling(session_id: string, seen: Session)
    | Looking(key: Key, fresh_path: string, found: Option<Partial>)
    | Chosen(job: Job, resumes: bool)
    | Located(job: Job, offset: nat)
    | Checked(job: Job)
    | Measured(job: Job, offset: nat)
    | Writing(job: Job, append: bool, written: nat)
    | Renamed(job: Job)
    | Unlisted(job: Job)
    | Closing(job: Job)

  datatype State = State(
    sessions: map<string, Session>,
    used_ids: set<string>,
    partials: map<Key, Partial>,
    temps: map<string, Bytes>,
    finals: map<string, Bytes>,
    handlers: map<nat, Handler>)

  const Init := State(map[], {}, map[], map[], map[], map[])

  datatype Action =
    | PrepareStart(h: nat, peer: string, ip: string, files: map<string, WireFile>)
    | PrepareLoad(h: nat, file_id: string)
    | PrepareResolve(h: nat)
    | PrepareRecord(h: nat)
    | PrepareInsert(h: nat, session_id: string)
    | AcceptRead(h: nat, session_id: string)
    | AcceptRecord(h: nat, file_id: string, final_path: string)
    | AcceptCommit(h: nat)
    | RejectRead(h: nat, session_id: string)
    | RejectCommit(h: nat)
    | CancelRead(h: nat, session_id: string, ip: string)
    | CancelCommit(h: nat)
    | PollRead(h: nat, session_id: string, ip: string)
    | PollCommit(h: nat)
    | UploadCheck(h: nat, session_id: string, ip: string, file_id: string, token: string)
    | UploadMeasure(h: nat, offset: nat)
    | DownloadLoad(h: nat, peer: string, resource: string, fresh_path: string)
    | DownloadChoose(h: nat)
    | DownloadMeasure(h: nat)
    | DownloadRecord(h: nat)
    | Open(h: nat)
    | Chunk(h: nat, data: Bytes)
    | Finish(h: nat)
    | Unlist(h: nat)
    | DropFile(h: nat)
    | CloseSession(h: nat)
    | Fail(h: nat)

  // ---- Paths ----

  predicate IsAlphanumeric(c: char) { IsLetter(c) || IsDigit(c) }

  function Sanitize(s: string): (r: string)
    ensures |r| == |s| && '-' !in r && '.' !in r
    ensures forall i :: 0 <= i < |s| ==> if IsAlphanumeric(s[i]) then r[i] == s[i] else r[i] == '_'
  {
    if s == "" then "" else [if IsAlphanumeric(s[0]) then s[0] else '_'] + Sanitize(s[1..])
  }

  /** The name of the temporary file, in one directory for all transfers. */
  function TempName(peer: string, resource: string): string {
    Sanitize(peer) + "-" + Sanitize(resource) + ".part"
  }

  lemma {:induction false} PrefixBeforeMark(a: string, b: string, s: string, t: string, mark: char)
    requires mark !in a && mark !in b && a + [mark] + s == b + [mark] + t
    ensures a == b && s == t
  {
    var u, v := a + [mark] + s, b + [mark] + t;
    if a == "" || b == "" {
      assert u[|a|] == mark && v[|b|] == mark;
      assert u[0] == v[0];
      assert s == u[1..] && t == v[1..];
    } else {
      assert u[0] == a[0] && v[0] == b[0];
      assert u[1..] == a[1..] + [mark] + s && v[1..] == b[1..] + [mark] + t;
      PrefixBeforeMark(a[1..], b[1..], s, t, mark);
    }
  }

  lemma Regroup(a: string, b: string)
    ensures a + "-" + b + ".part" == a + ['-'] + (b + ['.'] + "part")
  {
    assert ".part" == ['.'] + "part";
  }

  /** Equal up to characters that are no ASCII letters or digits. */
  ghost predicate Alike(s: string, t: string) {
    |s| == |t| && forall i :: 0 <= i < |s| ==> s[i] == t[i] || (!IsAlphanumeric(s[i]) && !IsAlphanumeric(t[i]))
  }

  lemma {:induction false} SanitizedAlike(s: string, t: string)
    ensures Sanitize(s) == Sanitize(t) <==> Alike(s, t)
  {
    if |s| == |t| && s != "" {
      var u, v := Sanitize(s), Sanitize(t);
      SanitizedAlike(s[1..], t[1..]);
      assert u == v <==> u[0] == v[0] && u[1..] == v[1..];
      assert Alike(s, t) <==> Alike(s[..1], t[..1]) && Alike(s[1..], t[1..]);
    }
  }

  /** Two transfers share a temporary file exactly when their names differ in characters only that are replaced. */
  lemma TempNamesCollide(p: string, r: string, q: string, s: string)
    ensures TempName(p, r) == TempName(q, s) <==> Alike(p, q) && Alike(r, s)
  {
    var a, b, c, d := Sanitize(p), Sanitize(r), Sanitize(q), Sanitize(s);
    SanitizedAlike(p, q);
    SanitizedAlike(r, s);
    if TempName(p, r) == TempName(q, s) {
      Regroup(a, b);
      Regroup(c, d);
      PrefixBeforeMark(a, c, b + ['.'] + "part", d + ['.'] + "part", '-');
      PrefixBeforeMark(b, d, "part", "part", '.');
    }
  }

  // ---- Files ----

  function LengthOf(temps: map<string, Bytes>, path: string): nat {
    if path in temps then |temps[path]| else 0
  }

  function Found(partials: map<Key, Partial>, key: Key): Option<Partial> {
    if key in partials then Some(partials[key]) else None
  }

  /** `resolve_partial_paths`: a recorded transfer whose temporary file exists is resumed, others start anew. */
  function ChoosePaths(temps: map<string, Bytes>, found: Option<Partial>, key: Key, fresh_path: string): Partial {
    if Resumes(temps, found) then found.value else Partial(TempName(key.peer, key.resource), fresh_path)
  }

  predicate Resumes(temps: map<string, Bytes>, found: Option<Partial>) {
    found.Some? && found.value.temp_path in temps
  }

  function Zeros(n: nat): Bytes { if n == 0 then [] else [0] + Zeros(n - 1) }

  /** A write at the end for a file emptied to append, else at the writer's own position. */
  function WriteAt(content: Bytes, append: bool, position: nat, data: Bytes): Bytes {
    if append then content + data
    else if position >= |content| then content + Zeros(position - |content|) + data
    else content[..position] + data + (if position + |data| < |content| then content[position + |data|..] else [])
  }

  // ---- What the handlers compute ----

  /** Every offered file has been resolved and recorded. */
  predicate AllPrepared(handler: Handler) {
    handler.Preparing? && handler.files.Keys == handler.offered.Keys
  }

  /** Every file of the session has its new final path recorded. */
  predicate AllRefreshed(handler: Handler) {
    handler.Accepting? && handler.refreshed.Keys == handler.pending.Keys
  }

  function Prepared(id: string, wire: WireFile, paths: Partial): SessionFile {
    SessionFile(id, wire.token, paths.temp_path, paths.final_path)
  }

  function UploadJob(session_id: string, session: Session, file_id: string): Job
    requires file_id in session.files
  {
    var file := session.files[file_id];
    Job(Some(session_id), file_id, Key(IncomingUpload, session.peer, file.resource), file.temp_path, file.final_path)
  }

  function DownloadJob(key: Key, paths: Partial): Job {
    Job(None, key.resource, key, paths.temp_path, paths.final_path)
  }

  predicate MayUpload(s: State, session_id: string, ip: string, file_id: string, token: string) {
    && session_id in s.sessions
    && s.sessions[session_id].peer_ip == ip
    && s.sessions[session_id].status == Accepted
    && file_id in s.sessions[session_id].files
    && s.sessions[session_id].files[file_id].token == token
  }

  predicate StatusIs(s: State, id: string, status: SessionStatus) {
    id in s.sessions && s.sessions[id].status == status
  }

  predicate ComesFrom(s: State, id: string, ip: string) {
    id in s.sessions && s.sessions[id].peer_ip == ip
  }

  function FilesAfter(s: State, job: Job): map<string, SessionFile>
    requires job.session.Some? && job.session.value in s.sessions
  {
    s.sessions[job.session.value].files - {job.file_id}
  }

  // ---- Steps, table by table ----
  // A request whose handler is in another phase than the action asks for is left alone.

  /** Only the write-locked phases change the session table. */
  function NextSessions(s: State, a: Action): map<string, Session> {
    if a.h !in s.handlers then s.sessions
    else
      match s.handlers[a.h]
      case Preparing(peer, ip, _, files, _) =>
        if a.PrepareInsert? && AllPrepared(s.handlers[a.h]) then
          s.sessions[a.session_id := Session(peer, ip, Pending, files)]
        else s.sessions
      case Accepting(id, _, _, refreshed) =>
        if a.AcceptCommit? && AllRefreshed(s.handlers[a.h]) && StatusIs(s, id, Pending) then
          s.sessions[id := s.sessions[id].(status := Accepted, files := refreshed)]
        else s.sessions
      case Rejecting(id) =>
        // The status is not looked at again here.
        if a.RejectCommit? && id in s.sessions then s.sessions[id := s.sessions[id].(status := Rejected)]
        else s.sessions
      case Cancelling(id) => if a.CancelCommit? then s.sessions - {id} else s.sessions
      case Polling(id, seen) => if a.PollCommit? && seen.status == Rejected then s.sessions - {id} else s.sessions
      case Unlisted(job) =>
        if a.DropFile? && job.session.Some? && job.session.value in s.sessions then
          s.sessions[job.session.value := s.sessions[job.session.value].(files := FilesAfter(s, job))]
        else s.sessions
      case Closing(job) =>
        if a.CloseSession? && job.session.Some? then s.sessions - {job.session.value} else s.sessions
      case _ => s.sessions
  }

  function NextUsedIds(s: State, a: Action): set<string> {
    if a.h in s.handlers && a.PrepareInsert? && AllPrepared(s.handlers[a.h]) then s.used_ids + {a.session_id}
    else s.used_ids
  }

  function NextPartials(s: State, a: Action): map<Key, Partial> {
    if a.h !in s.handlers then s.partials
    else
      match s.handlers[a.h]
      case Preparing(peer, _, _, _, lookup) =>
        if a.PrepareRecord? && lookup.Resolved? then s.partials[Key(IncomingUpload, peer, lookup.id) := lookup.paths]
        else s.partials
      case Accepting(_, peer, pending, refreshed) =>
        if a.AcceptRecord? && a.file_id in pending && a.file_id !in refreshed then
          s.partials[Key(IncomingUpload, peer, pending[a.file_id].resource) :=
            Partial(pending[a.file_id].temp_path, a.final_path)]
        else s.partials
      case Located(job, _) =>
        if a.DownloadRecord? then s.partials[job.key := Partial(job.temp_path, job.final_path)] else s.partials
      case Renamed(job) => if a.Unlist? then s.partials - {job.key} else s.partials
      case _ => s.partials
  }

  function NextTemps(s: State, a: Action): map<string, Bytes> {
    if a.h !in s.handlers then s.temps
    else
      match s.handlers[a.h]
      case Measured(job, offset) =>
        if a.Open? then
          s.temps[job.temp_path := if offset > 0 && job.temp_path in s.temps then s.temps[job.temp_path] else []]
        else s.temps
      case Writing(job, append, written) =>
        if a.Chunk? && job.temp_path in s.temps then
          s.temps[job.temp_path := WriteAt(s.temps[job.temp_path], append, written, a.data)]
        else if a.Finish? then s.temps - {job.temp_path}
        else s.temps
      case _ => s.temps
  }

  function NextFinals(s: State, a: Action): map<string, Bytes> {
    if a.Finish? && a.h in s.handlers && s.handlers[a.h].Writing? && s.handlers[a.h].job.temp_path in s.temps then
      s.finals[s.handlers[a.h].job.final_path := s.temps[s.handlers[a.h].job.temp_path]]
    else s.finals
  }

  /** The phase a new request enters, if it is let in. */
  function Entered(s: State, a: Action): Option<Handler> {
    match a
    case PrepareStart(_, peer, ip, files) => Some(Preparing(peer, ip, files, map[], Idle))
    case AcceptRead(_, id) =>
      if StatusIs(s, id, Pending) then Some(Accepting(id, s.sessions[id].peer, s.sessions[id].files, map[])) else None
    case RejectRead(_, id) => if StatusIs(s, id, Pending) then Some(Rejecting(id)) else None
    case CancelRead(_, id, ip) => if ComesFrom(s, id, ip) then Some(Cancelling(id)) else None
    case PollRead(_, id, ip) => if ComesFrom(s, id, ip) then Some(Polling(id, s.sessions[id])) else None
    case UploadCheck(_, id, ip, file_id, token) =>
      if MayUpload(s, id, ip, file_id, token) then Some(Checked(UploadJob(id, s.sessions[id], file_id))) else None
    case DownloadLoad(_, peer, resource, fresh_path) =>
      var key := Key(SharedDownload, peer, resource);
      Some(Looking(key, fresh_path, Found(s.partials, key)))
    case _ => None
  }

  /** The phase a request goes on to; `None` when it is answered, in success or in error. */
  function Continued(s: State, a: Action): Option<Handler>
    requires a.h in s.handlers
  {
    var handler := s.handlers[a.h];
    if a.Fail? then None
    else
      match handler
      case Preparing(peer, ip, offered, files, lookup) => ContinuedPrepare(s, a, peer, ip, offered, files, lookup)
      case Accepting(session_id, peer, pending, refreshed) =>
        if a.AcceptRecord? && a.file_id in pending && a.file_id !in refreshed then
          var file := pending[a.file_id].(final_path := a.final_path);
          Some(Accepting(session_id, peer, pending, refreshed[a.file_id := file]))
        else if a.AcceptCommit? && AllRefreshed(handler) then None
        else Some(handler)
      case Rejecting(_) => if a.RejectCommit? then None else Some(handler)
      case Cancelling(_) => if a.CancelCommit? then None else Some(handler)
      case Polling(_, _) => if a.PollCommit? then None else Some(handler)
      case Looking(key, fresh_path, found) =>
        if a.DownloadChoose? then
          var job := DownloadJob(key, ChoosePaths(s.temps, found, key, fresh_path));
          Some(Chosen(job, Resumes(s.temps, found)))
        else Some(handler)
      case Chosen(job, resumes) =>
        if a.DownloadMeasure? then Some(Located(job, if resumes then LengthOf(s.temps, job.temp_path) else 0))
        else Some(handler)
      case Located(job, offset) => Some(if a.DownloadRecord? then Measured(job, offset) else handler)
      case Checked(job) =>
        if !a.UploadMeasure? then Some(handler)
        else if LengthOf(s.temps, job.temp_path) == a.offset then Some(Measured(job, a.offset)) else None
      case Measured(job, offset) => Some(if a.Open? then Writing(job, offset > 0, offset) else handler)
      case Writing(job, append, written) =>
        if a.Chunk? then Some(Writing(job, append, written + |a.data|))
        else if !a.Finish? then Some(handler)
        else if job.temp_path in s.temps then Some(Renamed(job)) else None
      case Renamed(job) =>
        if !a.Unlist? then Some(handler) else if job.session.Some? then Some(Unlisted(job)) else None
      case Unlisted(job) =>
        if !a.DropFile? then Some(handler)
        else if job.session.Some? && job.session.value in s.sessions && FilesAfter(s, job) == map[] then
          Some(Closing(job))
        else None
      case Closing(_) => if a.CloseSession? then None else Some(handler)
  }

  /** A prepare request takes its files one by one: load the record, resolve the paths, record them. */
  function ContinuedPrepare(
    s: State, a: Action, peer: string, ip: string, offered: map<string, WireFile>, files: map<string, SessionFile>,
    lookup: Lookup): Option<Handler>
  {
    var handler := Preparing(peer, ip, offered, files, lookup);
    if a.PrepareInsert? && AllPrepared(handler) then None
    else
      match lookup
      case Idle =>
        if a.PrepareLoad? && a.file_id in offered && a.file_id !in files then
          var found := Found(s.partials, Key(IncomingUpload, peer, a.file_id));
          Some(Preparing(peer, ip, offered, files, Loaded(a.file_id, offered[a.file_id], found)))
        else Some(handler)
      case Loaded(id, wire, found) =>
        if a.PrepareResolve? then
          var paths := ChoosePaths(s.temps, found, Key(IncomingUpload, peer, id), wire.fresh_path);
          Some(Preparing(peer, ip, offered, files, Resolved(id, wire, paths)))
        else Some(handler)
      case Resolved(id, wire, paths) =>
        if a.PrepareRecord? then Some(Preparing(peer, ip, offered, files[id := Prepared(id, wire, paths)], Idle))
        else Some(handler)
  }

  function NextHandlers(s: State, a: Action): map<nat, Handler> {
    var next := if a.h in s.handlers then Continued(s, a) else Entered(s, a);
    if next.Some? then s.handlers[a.h := next.value] else s.handlers - {a.h}
  }

  function Step(s: State, a: Action): State {
    State(NextSessions(s, a), NextUsedIds(s, a), NextPartials(s, a), NextTemps(s, a), NextFinals(s, a),
      NextHandlers(s, a))
  }

  /** The state after a whole run from the start. */
  function Run(actions: seq<Action>): State {
    if actions == [] then Init
    else Step(Run(actions[..|actions| - 1]), actions[|actions| - 1])
  }

  // ---- Session safety ----

  /** A session id is never drawn twice. */
  predicate FreshId(s: State, a: Action) { a.PrepareInsert? ==> a.session_id !in s.used_ids }

  ghost predicate FreshIds(actions: seq<Action>) {
    forall k :: 0 <= k < |actions| ==> FreshId(Run(actions[..k]), actions[k])
  }

  /** What holds of the session table in every state of every run. */
  ghost predicate SessionsSound(s: State) { s.sessions.Keys <= s.used_ids }

  lemma {:induction false} RunsAreSound(actions: seq<Action>)
    ensures SessionsSound(Run(actions))
    decreases |actions|
  {
    if actions != [] {
      var s, a := Run(actions[..|actions| - 1]), actions[|actions| - 1];
      RunsAreSound(actions[..|actions| - 1]);
      assert Step(s, a).sessions.Keys <= Step(s, a).used_ids;
    }
  }

  /** Whatever runs in between, Accepted is entered only from Pending, and a new session starts Pending. */
  lemma AcceptedOnlyFromPending(s: State, a: Action, id: string)
    requires SessionsSound(s)
    requires StatusIs(Step(s, a), id, Accepted) && !StatusIs(s, id, Accepted)
    ensures StatusIs(s, id, Pending) && a.AcceptCommit?
  {
  }

  /** A rejected session stays rejected until it is removed, whatever step is taken. */
  lemma RejectedStays(s: State, a: Action, id: string)
    requires SessionsSound(s) && FreshId(s, a) && StatusIs(s, id, Rejected)
    requires id in Step(s, a).sessions
    ensures StatusIs(Step(s, a), id, Rejected)
  {
  }

  predicate Gone(s: State, id: string) { id in s.used_ids && id !in s.sessions }

  lemma GoneStays(s: State, a: Action, id: string)
    requires FreshId(s, a) && Gone(s, id)
    ensures Gone(Step(s, a), id)
  {
  }

  lemma RunStep(actions: seq<Action>, n: nat)
    requires n < |actions|
    ensures Run(actions[..n + 1]) == Step(Run(actions[..n]), actions[n])
  {
    assert actions[..n + 1][..n] == actions[..n];
  }

  /** Once a session is gone it never returns: no later state of the run has it. */
  lemma {:induction false} RemovedNeverReturns(actions: seq<Action>, from: nat, n: nat, id: string)
    requires from <= n <= |actions| && FreshIds(actions) && Gone(Run(actions[..from]), id)
    ensures Gone(Run(actions[..n]), id)
    decreases n
  {
    hide Step, Run;
    if from < n {
      RemovedNeverReturns(actions, from, n - 1, id);
      RunStep(actions, n - 1);
      GoneStays(Run(actions[..n - 1]), actions[n - 1], id);
    }
  }

  /** From a rejected session on, every later state has it rejected or never again at all. */
  lemma {:induction false} RejectedForever(actions: seq<Action>, from: nat, n: nat, id: string)
    requires from <= n <= |actions| && FreshIds(actions) && StatusIs(Run(actions[..from]), id, Rejected)
    ensures StatusIs(Run(actions[..n]), id, Rejected) || Gone(Run(actions[..n]), id)
    decreases n
  {
    hide Step, Run;
    RunsAreSound(actions[..n]);
    if from < n {
      RejectedForever(actions, from, n - 1, id);
      RunStep(actions, n - 1);
      var s, a := Run(actions[..n - 1]), actions[n - 1];
      RunsAreSound(actions[..n - 1]);
      if Gone(s, id) {
        GoneStays(s, a, id);
      } else if id in Step(s, a).sessions {
        RejectedStays(s, a, id);
      } else {
        UsedIdsGrow(s, a);
      }
    }
  }

  lemma UsedIdsGrow(s: State, a: Action)
    ensures s.used_ids <= Step(s, a).used_ids
  {
  }

  // ---- Accepted, then rejected ----

  /** One step turns an accepted session into a rejected one exactly when it ends a rejection of this session. */
  lemma AcceptedTurnsRejected(s: State, a: Action, id: string)
    requires SessionsSound(s) && FreshId(s, a) && StatusIs(s, id, Accepted)
    ensures StatusIs(Step(s, a), id, Rejected)
       <==> a.RejectCommit? && a.h in s.handlers && s.handlers[a.h] == Rejecting(id)
  {
  }

  /** A request to reject the session has passed its first phase, which saw the session pending. */
  ghost predicate RejectionUnderWay(s: State, id: string) {
    exists h :: h in s.handlers && s.handlers[h] == Rejecting(id)
  }

  /** The session was once prepared, is no longer pending, and nobody is about to reject it. */
  ghost predicate Secured(s: State, id: string) {
    id in s.used_ids && !StatusIs(s, id, Pending) && !StatusIs(s, id, Rejected) && !RejectionUnderWay(s, id)
  }

  lemma RejectionsEnterPending(s: State, a: Action, id: string)
    requires Entered(s, a) == Some(Rejecting(id))
    ensures StatusIs(s, id, Pending)
  {
  }

  lemma RejectionsGoOn(s: State, a: Action, id: string)
    requires a.h in s.handlers && Continued(s, a) == Some(Rejecting(id))
    ensures s.handlers[a.h] == Rejecting(id)
  {
  }

  lemma NewRejectionSeesPending(s: State, a: Action, id: string)
    requires RejectionUnderWay(Step(s, a), id) && !RejectionUnderWay(s, id)
    ensures StatusIs(s, id, Pending)
  {
    hide NextSessions, NextPartials, NextTemps, NextFinals, NextUsedIds, Entered, Continued;
    var h :| h in NextHandlers(s, a) && NextHandlers(s, a)[h] == Rejecting(id);
    if a.h in s.handlers {
      if Continued(s, a) == Some(Rejecting(id)) { RejectionsGoOn(s, a, id); }
    } else if Entered(s, a) == Some(Rejecting(id)) {
      RejectionsEnterPending(s, a, id);
    }
  }

  lemma SecuredStays(s: State, a: Action, id: string)
    requires SessionsSound(s) && FreshId(s, a) && Secured(s, id)
    ensures Secured(Step(s, a), id)
  {
    if RejectionUnderWay(Step(s, a), id) {
      NewRejectionSeesPending(s, a, id);
    }
    SecuredStatus(s, a, id);
  }

  lemma SecuredStatus(s: State, a: Action, id: string)
    requires SessionsSound(s) && FreshId(s, a) && Secured(s, id)
    ensures id in Step(s, a).used_ids && !StatusIs(Step(s, a), id, Pending) && !StatusIs(Step(s, a), id, Rejected)
  {
    assert a.h in s.handlers ==> s.handlers[a.h] != Rejecting(id);
    SettledSession(s, a, id);
    hide NextSessions, NextHandlers, NextPartials, NextTemps, NextFinals;
  }

  lemma SettledSession(s: State, a: Action, id: string)
    requires FreshId(s, a) && id in s.used_ids && !StatusIs(s, id, Pending) && !StatusIs(s, id, Rejected)
    requires a.h in s.handlers ==> s.handlers[a.h] != Rejecting(id)
    ensures id in NextSessions(s, a) ==> NextSessions(s, a)[id].status == Accepted
  {
  }

  lemma {:induction false} SecuredForever(actions: seq<Action>, from: nat, n: nat, id: string)
    requires from <= n <= |actions| && FreshIds(actions) && Secured(Run(actions[..from]), id)
    ensures Secured(Run(actions[..n]), id)
    decreases n
  {
    hide Step, Run;
    if from < n {
      SecuredForever(actions, from, n - 1, id);
      RunStep(actions, n - 1);
      RunsAreSound(actions[..n - 1]);
      SecuredStays(Run(actions[..n - 1]), actions[n - 1], id);
    }
  }

  lemma FreshIdsExtend(actions: seq<Action>, a: Action)
    requires FreshIds(actions) && FreshId(Run(actions), a)
    ensures FreshIds(actions + [a]) && Run(actions + [a]) == Step(Run(actions), a)
  {
    var more := actions + [a];
    assert more[..|actions|] == actions;
    forall k | 0 <= k < |more|
      ensures FreshId(Run(more[..k]), more[k])
    {
      if k < |actions| { assert more[..k] == actions[..k]; }
    }
  }

  /**
   * Whether an accepted session can still be rejected is decided when it is accepted: some continuation of the run
   * ends with the session rejected exactly when a request to reject it is already past its first phase.
   */
  lemma RejectedLaterExactly(actions: seq<Action>, id: string)
    requires FreshIds(actions) && StatusIs(Run(actions), id, Accepted)
    ensures (exists more: seq<Action> :: FreshIds(actions + more) && StatusIs(Run(actions + more), id, Rejected))
       <==> RejectionUnderWay(Run(actions), id)
  {
    hide Step, Run;
    var s := Run(actions);
    RunsAreSound(actions);
    if RejectionUnderWay(s, id) {
      var h :| h in s.handlers && s.handlers[h] == Rejecting(id);
      FreshIdsExtend(actions, RejectCommit(h));
      AcceptedTurnsRejected(s, RejectCommit(h), id);
      assert FreshIds(actions + [RejectCommit(h)]);
    } else {
      forall more: seq<Action> | FreshIds(actions + more)
        ensures !StatusIs(Run(actions + more), id, Rejected)
      {
        var all := actions + more;
        assert all[..|actions|] == actions && all[..|all|] == all;
        SecuredForever(all, |actions|, |all|, id);
      }
    }
  }

  /** Such runs exist: a session is prepared, its rejection begins, it is accepted, and its rejection ends. */
  lemma AcceptedCanBeRejected(id: string, peer: string, ip: string)
    ensures
      var actions := Race(id, peer, ip);
      && FreshIds(actions)
      && StatusIs(Run(actions[..5]), id, Accepted)
      && StatusIs(Run(actions), id, Rejected)
  {
    var actions := Race(id, peer, ip);
    hide Step, Run;
    RaceStarts(id, peer, ip);
    RaceGoesOn(actions, Run(actions[..2]), id);
    assert actions[..6] == actions;
    RaceIsFresh(id, peer, ip);
  }

  lemma RaceIsFresh(id: string, peer: string, ip: string)
    ensures FreshIds(Race(id, peer, ip))
  {
    var actions := Race(id, peer, ip);
    forall k | 0 <= k < |actions|
      ensures FreshId(Run(actions[..k]), actions[k])
    {
      if k == 1 {
        assert actions[..1] == [actions[0]] && actions[..1][..0] == [];
      }
    }
  }

  lemma RaceGoesOn(actions: seq<Action>, s: State, id: string)
    requires |actions| == 6 && s == Run(actions[..2])
    requires StatusIs(s, id, Pending) && s.sessions[id].files == map[] && s.handlers == map[]
    requires actions[2..] == [RejectRead(1, id), AcceptRead(2, id), AcceptCommit(2), RejectCommit(1)]
    ensures StatusIs(Run(actions[..5]), id, Accepted) && StatusIs(Run(actions[..6]), id, Rejected)
  {
    hide Step, Run;
    assert actions[2] == actions[2..][0] && actions[3] == actions[2..][1];
    assert actions[4] == actions[2..][2] && actions[5] == actions[2..][3];
    RunStep(actions, 2);
    RunStep(actions, 3);
    RunStep(actions, 4);
    RunStep(actions, 5);
    RejectionReads(s, 1, id);
    AcceptanceCommits(Run(actions[..3]), 2, id);
    RejectionCommits(Run(actions[..5]), 1, id);
  }

  function Race(id: string, peer: string, ip: string): seq<Action> {
    [PrepareStart(0, peer, ip, map[]), PrepareInsert(0, id), RejectRead(1, id), AcceptRead(2, id), AcceptCommit(2),
      RejectCommit(1)]
  }

  lemma RaceStarts(id: string, peer: string, ip: string)
    ensures
      var s := Run(Race(id, peer, ip)[..2]);
      s.sessions == map[id := Session(peer, ip, Pending, map[])] && s.handlers == map[]
  {
    var actions := Race(id, peer, ip);
    assert actions[..0] == [];
    RunStep(actions, 0);
    RunStep(actions, 1);
  }

  lemma RejectionReads(s: State, h: nat, id: string)
    requires StatusIs(s, id, Pending) && h !in s.handlers
    ensures Step(s, RejectRead(h, id)).sessions == s.sessions
    ensures Step(s, RejectRead(h, id)).handlers == s.handlers[h := Rejecting(id)]
  {
  }

  lemma AcceptanceCommits(s: State, g: nat, id: string)
    requires StatusIs(s, id, Pending) && s.sessions[id].files == map[] && g !in s.handlers
    ensures
      var t := Step(Step(s, AcceptRead(g, id)), AcceptCommit(g));
      StatusIs(t, id, Accepted) && t.handlers == s.handlers
  {
    var read := Step(s, AcceptRead(g, id));
    assert read.sessions == s.sessions;
    assert read.handlers == s.handlers[g := Accepting(id, s.sessions[id].peer, map[], map[])];
    assert AllRefreshed(read.handlers[g]);
  }

  lemma RejectionCommits(s: State, h: nat, id: string)
    requires id in s.sessions && h in s.handlers && s.handlers[h] == Rejecting(id)
    ensures StatusIs(Step(s, RejectCommit(h)), id, Rejected)
  {
  }

  /** The session was accepted in some state of the run. */
  ghost predicate EverAccepted(actions: seq<Action>, id: string) {
    exists k :: 0 <= k <= |actions| && StatusIs(Run(actions[..k]), id, Accepted)
  }

  function JobOf(handler: Handler): Option<Job> {
    match handler
    case Chosen(job, _) => Some(job)
    case Located(job, _) => Some(job)
    case Checked(job) => Some(job)
    case Measured(job, _) => Some(job)
    case Writing(job, _, _) => Some(job)
    case Renamed(job) => Some(job)
    case Unlisted(job) => Some(job)
    case Closing(job) => Some(job)
    case _ => None
  }

  predicate UploadsFor(s: State, h: nat, id: string) {
    h in s.handlers && IsUpload(s.handlers[h], id)
  }

  lemma EverAcceptedGrows(actions: seq<Action>, a: Action, id: string)
    requires EverAccepted(actions, id)
    ensures EverAccepted(actions + [a], id)
  {
    var k :| 0 <= k <= |actions| && StatusIs(Run(actions[..k]), id, Accepted);
    assert (actions + [a])[..k] == actions[..k];
  }

  predicate IsUpload(handler: Handler, id: string) {
    JobOf(handler).Some? && JobOf(handler).value.session == Some(id)
  }

  lemma UploadsEnterAccepted(s: State, a: Action, id: string)
    requires Entered(s, a).Some? && IsUpload(Entered(s, a).value, id)
    ensures a.UploadCheck? && StatusIs(s, id, Accepted)
  {
  }

  lemma UploadsGoOn(s: State, a: Action, id: string)
    requires a.h in s.handlers && Continued(s, a).Some? && IsUpload(Continued(s, a).value, id)
    ensures IsUpload(s.handlers[a.h], id)
  {
  }

  /** An upload gets past its checks only while its session is accepted. */
  lemma UploadBegins(s: State, a: Action, h: nat, id: string)
    requires UploadsFor(Step(s, a), h, id) && !UploadsFor(s, h, id)
    ensures a.UploadCheck? && StatusIs(s, id, Accepted)
  {
    hide NextSessions, NextPartials, NextTemps, NextFinals, NextUsedIds, Entered, Continued, JobOf;
    if h == a.h {
      if a.h in s.handlers { UploadsGoOn(s, a, id); } else { UploadsEnterAccepted(s, a, id); }
    }
  }

  /**
   * No byte is stored for a session that was never accepted: whoever is past the checks of an upload, and so
   * whoever may open, write or rename a file for it, belongs to a session that was accepted earlier in the run.
   */
  lemma {:induction false} OnlyAcceptedUpload(actions: seq<Action>, h: nat, id: string)
    requires UploadsFor(Run(actions), h, id)
    ensures EverAccepted(actions, id)
    decreases |actions|
  {
    hide Step;
    var last := |actions| - 1;
    var before, a := actions[..last], actions[last];
    assert before + [a] == actions;
    if UploadsFor(Run(before), h, id) {
      OnlyAcceptedUpload(before, h, id);
      EverAcceptedGrows(before, a, id);
    } else {
      UploadBegins(Run(before), a, h, id);
      assert StatusIs(Run(actions[..last]), id, Accepted);
    }
  }

  /** A step changes the files only on behalf of a job in progress. */
  lemma FilesChangeOnlyByJobs(s: State, a: Action)
    requires Step(s, a).temps != s.temps || Step(s, a).finals != s.finals
    ensures a.h in s.handlers && (s.handlers[a.h].Measured? || s.handlers[a.h].Writing?)
  {
  }

  /** Whenever a step of a run changes a stored file for a session, the session was accepted before. */
  lemma StoredOnlyIfAccepted(actions: seq<Action>, n: nat)
    requires n < |actions|
    requires Run(actions[..n + 1]).temps != Run(actions[..n]).temps
          || Run(actions[..n + 1]).finals != Run(actions[..n]).finals
    ensures
      var s, h := Run(actions[..n]), actions[n].h;
      && h in s.handlers && JobOf(s.handlers[h]).Some?
      && (JobOf(s.handlers[h]).value.session.Some? ==>
            EverAccepted(actions[..n], JobOf(s.handlers[h]).value.session.value))
  {
    hide Step, Run;
    RunStep(actions, n);
    var s, h := Run(actions[..n]), actions[n].h;
    FilesChangeOnlyByJobs(s, actions[n]);
    if JobOf(s.handlers[h]).value.session.Some? {
      OnlyAcceptedUpload(actions[..n], h, JobOf(s.handlers[h]).value.session.value);
    }
  }
}
