/**
 * What a run has been told: the peers, tokens and places that the requests themselves name, and that sessions and
 * uploads keep to them.
 */
module TransferHistory {
  import opened Text
  import opened Transfer
  import opened TransferContent

  /** Who offers which files with which tokens. */
  datatype Offer = Offer(peer: string, ip: string, tokens: map<string, string>)

  /**
   * What requests in progress have said (by their number), and what has been said of each session: its offer, and the
   * places that it was accepted to.
   */
  datatype History = History(
    offers: map<nat, Offer>,
    choices: map<nat, map<string, string>>,
    offered: map<string, Offer>,
    accepted: map<string, map<string, string>>)

  function TokensOf(files: map<string, WireFile>): map<string, string> { map id | id in files :: files[id].token }

  /** What one action adds: only what it says itself, and whether a session is then there or then accepted. */
  function Told(before: History, s: State, a: Action, t: State): History {
    History(ToldOffers(before.offers, s, a), ToldChoices(before.choices, s, a), ToldOffered(before, s, a, t),
      ToldAccepted(before, s, a, t))
  }

  function ToldOffers(offers: map<nat, Offer>, s: State, a: Action): map<nat, Offer> {
    if a.PrepareStart? && a.h !in s.handlers then offers[a.h := Offer(a.peer, a.ip, TokensOf(a.files))] else offers
  }

  function ToldChoices(choices: map<nat, map<string, string>>, s: State, a: Action): map<nat, map<string, string>> {
    if a.AcceptRead? && a.h !in s.handlers then choices[a.h := map[]]
    else if a.AcceptRecord? && a.h in choices && a.file_id !in choices[a.h] then
      choices[a.h := choices[a.h][a.file_id := a.final_path]]
    else choices
  }

  function ToldOffered(before: History, s: State, a: Action, t: State): map<string, Offer> {
    if a.PrepareInsert? && a.session_id in t.sessions && a.session_id !in s.sessions && a.h in before.offers then
      before.offered[a.session_id := before.offers[a.h]]
    else before.offered
  }

  function ToldAccepted(before: History, s: State, a: Action, t: State): map<string, map<string, string>> {
    if a.AcceptCommit? && a.h in s.handlers && s.handlers[a.h].Accepting? && a.h in before.choices
       && StatusIs(t, s.handlers[a.h].session_id, Accepted) && !StatusIs(s, s.handlers[a.h].session_id, Accepted) then
      before.accepted[s.handlers[a.h].session_id := before.choices[a.h]]
    else before.accepted
  }

  function HistoryOf(actions: seq<Action>): History {
    if actions == [] then History(map[], map[], map[], map[])
    else
      var front, a := actions[..|actions| - 1], actions[|actions| - 1];
      Told(HistoryOf(front), Run(front), a, Run(actions))
  }

  // ---- What sessions and requests keep to ----

  /** Files that were offered, each under its own name and token. */
  ghost predicate AsOffered(files: map<string, SessionFile>, offer: Offer) {
    forall id <- files :: id in offer.tokens && files[id].resource == id && files[id].token == offer.tokens[id]
  }

  ghost predicate AsAccepted(files: map<string, SessionFile>, places: map<string, string>) {
    forall id <- files :: id in places && files[id].final_path == places[id]
  }

  ghost predicate SessionKept(told: History, id: string, session: Session) {
    && id in told.offered
    && session.peer == told.offered[id].peer && session.peer_ip == told.offered[id].ip
    && AsOffered(session.files, told.offered[id])
    && (session.status == Accepted ==> id in told.accepted && AsAccepted(session.files, told.accepted[id]))
  }

  ghost predicate LookupKept(offered: map<string, WireFile>, lookup: Lookup) {
    match lookup
    case Idle => true
    case Loaded(id, wire, _) => id in offered && wire == offered[id]
    case Resolved(id, wire, _) => id in offered && wire == offered[id]
  }

  ghost predicate JobKept(told: History, job: Job) {
    job.session.Some? ==>
      var id := job.session.value;
      && id in told.offered && job.key == Key(IncomingUpload, told.offered[id].peer, job.file_id)
      && id in told.accepted && job.file_id in told.accepted[id]
      && job.final_path == told.accepted[id][job.file_id]
  }

  /** The files that an acceptance has gone through are exactly those that it was told places for, moved there. */
  ghost predicate ChoicesKept(
    choices: map<string, string>, pending: map<string, SessionFile>, refreshed: map<string, SessionFile>)
  {
    && refreshed.Keys <= pending.Keys
    && (forall f <- pending :: f in choices <==> f in refreshed)
    && (forall f <- refreshed :: refreshed[f] == pending[f].(final_path := choices[f]))
  }

  ghost predicate RequestKept(told: History, h: nat, handler: Handler) {
    match handler
    case Preparing(peer, ip, offered, files, lookup) =>
      && h in told.offers && told.offers[h] == Offer(peer, ip, TokensOf(offered))
      && AsOffered(files, told.offers[h]) && LookupKept(offered, lookup)
    case Accepting(id, owner, pending, refreshed) =>
      && id in told.offered && owner == told.offered[id].peer && AsOffered(pending, told.offered[id])
      && h in told.choices && ChoicesKept(told.choices[h], pending, refreshed)
    case _ => JobOf(handler).Some? ==> JobKept(told, JobOf(handler).value)
  }

  /** What has been said of a session is said once. */
  ghost predicate SaidOnce(told: History, s: State) {
    && told.offered.Keys <= s.used_ids
    && (forall id <- told.accepted :: id in s.used_ids && !StatusIs(s, id, Pending))
  }

  ghost predicate Kept(told: History, s: State) {
    && SessionsSound(s) && SaidOnce(told, s)
    && (forall id <- s.sessions :: SessionKept(told, id, s.sessions[id]))
    && (forall h <- s.handlers :: RequestKept(told, h, s.handlers[h]))
  }

  // ---- Nothing that was said is taken back ----

  /** Later words leave what has been said of known sessions as it is. */
  ghost predicate Extends(later: History, told: History) {
    && (forall id <- told.offered :: id in later.offered && later.offered[id] == told.offered[id])
    && (forall id <- told.accepted :: id in later.accepted && later.accepted[id] == told.accepted[id])
  }

  lemma ToldExtends(told: History, s: State, a: Action)
    requires SessionsSound(s) && SaidOnce(told, s) && FreshId(s, a)
    ensures Extends(Told(told, s, a, Step(s, a)), told)
  {
    if a.AcceptCommit? && a.h in s.handlers && s.handlers[a.h].Accepting? {
      var id := s.handlers[a.h].session_id;
      if StatusIs(Step(s, a), id, Accepted) && !StatusIs(s, id, Accepted) {
        AcceptedOnlyFromPending(s, a, id);
      }
    }
    hide Step;
  }

  lemma OthersKeepTheirWords(told: History, s: State, a: Action, t: State, h: nat)
    requires h != a.h
    ensures var later := Told(told, s, a, t);
      && (h in told.offers ==> h in later.offers && later.offers[h] == told.offers[h])
      && (h in told.choices ==> h in later.choices && later.choices[h] == told.choices[h])
  {
    hide ToldOffered, ToldAccepted, TokensOf;
  }

  lemma JobStaysKept(told: History, later: History, job: Job)
    requires Extends(later, told) && JobKept(told, job)
    ensures JobKept(later, job)
  {
  }

  lemma OtherStaysKept(told: History, s: State, a: Action, h: nat)
    requires Kept(told, s) && FreshId(s, a) && h in s.handlers && h != a.h
    ensures RequestKept(Told(told, s, a, Step(s, a)), h, s.handlers[h])
  {
    hide Told, Step, JobKept, Extends, LookupKept;
    var later, handler := Told(told, s, a, Step(s, a)), s.handlers[h];
    ToldExtends(told, s, a);
    OthersKeepTheirWords(told, s, a, Step(s, a), h);
    assert RequestKept(told, h, handler);
    hide Kept;
    WordsStayKept(told, later, h, handler);
  }

  lemma WordsStayKept(told: History, later: History, h: nat, handler: Handler)
    requires Extends(later, told) && RequestKept(told, h, handler)
    requires h in told.offers ==> h in later.offers && later.offers[h] == told.offers[h]
    requires h in told.choices ==> h in later.choices && later.choices[h] == told.choices[h]
    ensures RequestKept(later, h, handler)
  {
    hide JobKept, LookupKept;
    if JobOf(handler).Some? { JobStaysKept(told, later, JobOf(handler).value); }
  }

  // ---- The acting request ----

  lemma KeptSession(told: History, s: State, id: string)
    requires Kept(told, s) && id in s.sessions
    ensures SessionKept(told, id, s.sessions[id])
  {
  }

  lemma KeptRequest(told: History, s: State, h: nat)
    requires Kept(told, s) && h in s.handlers
    ensures RequestKept(told, h, s.handlers[h])
  {
  }

  lemma EnteredIsKept(told: History, s: State, a: Action)
    requires Kept(told, s) && a.h !in s.handlers && Entered(s, a).Some?
    ensures RequestKept(Told(told, s, a, Step(s, a)), a.h, Entered(s, a).value)
  {
    hide Step, Kept;
    if a.AcceptRead? { KeptSession(told, s, a.session_id); }
    if a.UploadCheck? { KeptSession(told, s, a.session_id); }
  }

  lemma PreparingGoesOn(s: State, a: Action)
    requires a.h in s.handlers && s.handlers[a.h].Preparing? && Continued(s, a).Some?
    ensures
      var Preparing(peer, ip, offered, files, lookup) := s.handlers[a.h];
      && Continued(s, a).value.Preparing?
      && Continued(s, a).value.peer == peer && Continued(s, a).value.ip == ip
      && Continued(s, a).value.offered == offered
      && (lookup.Resolved? && a.PrepareRecord? ==>
            Continued(s, a).value.files
            == files[lookup.id := SessionFile(lookup.id, lookup.wire.token, lookup.paths.temp_path,
                                              lookup.paths.final_path)])
      && (!(lookup.Resolved? && a.PrepareRecord?) ==> Continued(s, a).value.files == files)
      && (LookupKept(offered, lookup) ==> LookupKept(offered, Continued(s, a).value.lookup))
  {
    hide Step, ChoosePaths;
  }

  lemma PreparingIsKept(told: History, s: State, a: Action)
    requires Kept(told, s) && a.h in s.handlers && s.handlers[a.h].Preparing? && Continued(s, a).Some?
    ensures RequestKept(Told(told, s, a, Step(s, a)), a.h, Continued(s, a).value)
  {
    hide Step, Kept, Continued, LookupKept;
    KeptRequest(told, s, a.h);
    PreparingGoesOn(s, a);
    LookedUp(s.handlers[a.h]);
    SameOffers(told, s, a, Step(s, a));
    hide Told;
  }

  lemma LookedUp(request: Handler)
    requires request.Preparing? && LookupKept(request.offered, request.lookup)
    ensures request.lookup.Resolved? ==>
      request.lookup.id in request.offered && request.lookup.wire == request.offered[request.lookup.id]
  {
  }

  lemma SameOffers(told: History, s: State, a: Action, t: State)
    requires a.h in s.handlers
    ensures Told(told, s, a, t).offers == told.offers
  {
  }

  lemma AcceptingIsKept(told: History, s: State, a: Action)
    requires Kept(told, s) && a.h in s.handlers && s.handlers[a.h].Accepting? && Continued(s, a).Some?
    ensures RequestKept(Told(told, s, a, Step(s, a)), a.h, Continued(s, a).value)
  {
    hide Step, Kept, Continued, ChoicesKept, AsOffered;
    KeptRequest(told, s, a.h);
    AcceptingGoesOn(s, a);
    if a.AcceptCommit? {
      SameSessionsSame(told, s, a, Step(s, a));
    } else {
      ToldOfFiles(told, s, a, Step(s, a));
      if a.AcceptRecord? { ChoiceIsKept(told.choices[a.h], s.handlers[a.h], a.file_id, a.final_path); }
    }
    hide Told;
  }

  lemma ChoiceIsKept(choices: map<string, string>, request: Handler, f: string, path: string)
    requires request.Accepting? && ChoicesKept(choices, request.pending, request.refreshed)
    ensures
      var pending, refreshed := request.pending, request.refreshed;
      && (f !in choices ==>
            ChoicesKept(choices[f := path], pending,
              if f in pending then refreshed[f := pending[f].(final_path := path)] else refreshed))
      && (f in pending ==> (f in choices <==> f in refreshed))
  {
  }

  lemma SameSessionsSame(told: History, s: State, a: Action, t: State)
    requires a.AcceptCommit? && t.sessions == s.sessions
    ensures Told(told, s, a, t) == told
  {
  }

  /** What an action other than a commit says to an acceptance in progress. */
  lemma ToldOfFiles(told: History, s: State, a: Action, t: State)
    requires a.h in s.handlers && s.handlers[a.h].Accepting? && !a.AcceptCommit? && a.h in told.choices
    ensures
      var later := Told(told, s, a, t);
      && a.h in later.choices
      && later.choices[a.h]
         == (if a.AcceptRecord? && a.file_id !in told.choices[a.h] then told.choices[a.h][a.file_id := a.final_path]
             else told.choices[a.h])
      && (t.sessions == s.sessions ==> later.offered == told.offered)
  {
  }

  /** What an acceptance in progress becomes, when it is not over. */
  lemma AcceptingGoesOn(s: State, a: Action)
    requires a.h in s.handlers && s.handlers[a.h].Accepting? && Continued(s, a).Some?
    ensures
      var Accepting(id, owner, pending, refreshed) := s.handlers[a.h];
      && (a.AcceptRecord? && a.file_id in pending && a.file_id !in refreshed ==>
            Continued(s, a).value == Accepting(id, owner, pending,
              refreshed[a.file_id := pending[a.file_id].(final_path := a.final_path)]))
      && (!(a.AcceptRecord? && a.file_id in pending && a.file_id !in refreshed) ==>
            Continued(s, a).value == s.handlers[a.h])
      && Step(s, a).sessions == s.sessions
  {
    hide NextPartials, NextTemps, NextFinals, NextUsedIds, NextHandlers;
  }

  /** A transfer past its lookup keeps its job, whatever is done for it. */
  lemma JobGoesOn(s: State, a: Action)
    requires a.h in s.handlers && !s.handlers[a.h].Preparing? && !s.handlers[a.h].Accepting? && Continued(s, a).Some?
    ensures !Continued(s, a).value.Preparing? && !Continued(s, a).value.Accepting?
    ensures JobOf(s.handlers[a.h]).Some? ==> JobOf(Continued(s, a).value) == JobOf(s.handlers[a.h])
    ensures JobOf(s.handlers[a.h]).None? && JobOf(Continued(s, a).value).Some? ==>
      JobOf(Continued(s, a).value).value.session.None?
  {
    hide ChoosePaths, LengthOf, FilesAfter;
  }

  lemma ContinuedIsKept(told: History, s: State, a: Action)
    requires Kept(told, s) && FreshId(s, a) && a.h in s.handlers && Continued(s, a).Some?
    ensures RequestKept(Told(told, s, a, Step(s, a)), a.h, Continued(s, a).value)
  {
    hide Step, Told, Continued, LookupKept, AsOffered, Extends;
    if s.handlers[a.h].Preparing? {
      PreparingIsKept(told, s, a);
    } else if s.handlers[a.h].Accepting? {
      AcceptingIsKept(told, s, a);
    } else {
      JobGoesOn(s, a);
      KeptRequest(told, s, a.h);
      hide Kept;
      if JobOf(s.handlers[a.h]).Some? {
        ToldExtendsKept(told, s, a);
        JobStaysKept(told, Told(told, s, a, Step(s, a)), JobOf(s.handlers[a.h]).value);
      }
    }
  }

  lemma ToldExtendsKept(told: History, s: State, a: Action)
    requires Kept(told, s) && FreshId(s, a)
    ensures Extends(Told(told, s, a, Step(s, a)), told)
  {
    hide Step, Told, Extends, RequestKept, SessionKept;
    ToldExtends(told, s, a);
  }

  // ---- Sessions ----

  /** What a step may do to a session: prepare it, accept it, reject it or take a file from it. */
  lemma SessionMoves(s: State, a: Action, id: string)
    requires id in Step(s, a).sessions
    ensures
      var now := Step(s, a).sessions[id];
      || (id in s.sessions && now == s.sessions[id])
      || (a.PrepareInsert? && a.h in s.handlers && AllPrepared(s.handlers[a.h]) && a.session_id == id
          && now == Session(s.handlers[a.h].peer, s.handlers[a.h].ip, Pending, s.handlers[a.h].files))
      || (a.AcceptCommit? && a.h in s.handlers && AllRefreshed(s.handlers[a.h]) && s.handlers[a.h].session_id == id
          && StatusIs(s, id, Pending)
          && now == s.sessions[id].(status := Accepted, files := s.handlers[a.h].refreshed))
      || (a.RejectCommit? && a.h in s.handlers && s.handlers[a.h] == Rejecting(id) && id in s.sessions
          && now == s.sessions[id].(status := Rejected))
      || (a.DropFile? && a.h in s.handlers && s.handlers[a.h].Unlisted? && id in s.sessions
          && s.handlers[a.h].job.session == Some(id)
          && now == s.sessions[id].(files := s.sessions[id].files - {s.handlers[a.h].job.file_id}))
  {
    hide NextPartials, NextTemps, NextFinals, NextUsedIds, NextHandlers;
  }

  lemma SessionStaysKept(told: History, s: State, a: Action, id: string)
    requires Kept(told, s) && FreshId(s, a) && id in Step(s, a).sessions
    ensures SessionKept(Told(told, s, a, Step(s, a)), id, Step(s, a).sessions[id])
  {
    hide *;
    ToldExtendsKept(told, s, a);
    SessionMoves(s, a, id);
    if a.PrepareInsert? {
      PreparedIsKept(told, s, a, id);
    } else if a.AcceptCommit? {
      AcceptedIsKept(told, s, a, id);
    } else {
      KeptSession(told, s, id);
      LessIsKept(told, Told(told, s, a, Step(s, a)), id, s.sessions[id], Step(s, a).sessions[id]);
    }
  }

  /** A session that loses files, or is rejected, keeps to what has been said. */
  lemma LessIsKept(told: History, later: History, id: string, was: Session, now: Session)
    requires Extends(later, told) && SessionKept(told, id, was)
    requires now.peer == was.peer && now.peer_ip == was.peer_ip && (now.status == Accepted ==> was.status == Accepted)
    requires forall f <- now.files :: f in was.files && now.files[f] == was.files[f]
    ensures SessionKept(later, id, now)
  {
  }

  lemma PreparedIsKept(told: History, s: State, a: Action, id: string)
    requires Kept(told, s) && FreshId(s, a) && id in Step(s, a).sessions && a.PrepareInsert?
    ensures SessionKept(Told(told, s, a, Step(s, a)), id, Step(s, a).sessions[id])
  {
    hide Step, LookupKept, JobKept;
    ToldExtendsKept(told, s, a);
    SessionMoves(s, a, id);
    if id in s.sessions { KeptSession(told, s, id); }
    if a.h in s.handlers { KeptRequest(told, s, a.h); }
    assert SessionsSound(s);
    hide Kept;
  }

  lemma AcceptedIsKept(told: History, s: State, a: Action, id: string)
    requires Kept(told, s) && FreshId(s, a) && id in Step(s, a).sessions && a.AcceptCommit?
    ensures SessionKept(Told(told, s, a, Step(s, a)), id, Step(s, a).sessions[id])
  {
    hide Step, LookupKept, JobKept;
    ToldExtendsKept(told, s, a);
    SessionMoves(s, a, id);
    if id in s.sessions { KeptSession(told, s, id); }
    if a.h in s.handlers { KeptRequest(told, s, a.h); }
    hide Kept;
  }

  lemma SaidOnceStays(told: History, s: State, a: Action)
    requires Kept(told, s) && FreshId(s, a)
    ensures SaidOnce(Told(told, s, a, Step(s, a)), Step(s, a))
  {
    var later, t := Told(told, s, a, Step(s, a)), Step(s, a);
    assert SessionsSound(s) && SaidOnce(told, s);
    hide Kept;
    OfferedAreDrawn(told, s, a);
    UsedIdsGrow(s, a);
    forall id | id in later.accepted
      ensures id in t.used_ids && !StatusIs(t, id, Pending)
    {
      AcceptedNotPending(told, s, a, id);
    }
  }

  lemma OfferedAreDrawn(told: History, s: State, a: Action)
    requires SessionsSound(s) && SaidOnce(told, s)
    ensures Told(told, s, a, Step(s, a)).offered.Keys <= Step(s, a).used_ids
  {
    hide NextPartials, NextTemps, NextFinals, NextHandlers;
    if a.PrepareInsert? { }
  }

  lemma AcceptedNotPending(told: History, s: State, a: Action, id: string)
    requires SessionsSound(s) && SaidOnce(told, s) && FreshId(s, a)
    requires id in Told(told, s, a, Step(s, a)).accepted
    ensures id in Step(s, a).used_ids && !StatusIs(Step(s, a), id, Pending)
  {
    hide NextSessions, NextUsedIds, NextPartials, NextTemps, NextFinals, NextHandlers;
    UsedIdsGrow(s, a);
    if id in Step(s, a).sessions { SessionMoves(s, a, id); }
    if id !in told.accepted {
      AcceptedOnlyFromPending(s, a, id);
    }
    hide Step;
  }

  /** Every step keeps to what has been said. */
  lemma StepKeepsWord(told: History, s: State, a: Action)
    requires Kept(told, s) && FreshId(s, a)
    ensures Kept(Told(told, s, a, Step(s, a)), Step(s, a))
  {
    var later, t := Told(told, s, a, Step(s, a)), Step(s, a);
    hide NextSessions, NextUsedIds, NextPartials, NextTemps, NextFinals, Entered, Continued, Told, RequestKept,
      SessionKept, SaidOnce;
    SaidOnceStays(told, s, a);
    StepStaysSound(s, a);
    forall id | id in t.sessions
      ensures SessionKept(later, id, t.sessions[id])
    {
      SessionStaysKept(told, s, a, id);
    }
    forall h | h in t.handlers
      ensures RequestKept(later, h, t.handlers[h])
    {
      if h != a.h {
        OtherStaysKept(told, s, a, h);
      } else if a.h in s.handlers {
        ContinuedIsKept(told, s, a);
      } else {
        EnteredIsKept(told, s, a);
      }
    }
  }

  lemma StepStaysSound(s: State, a: Action)
    requires SessionsSound(s)
    ensures SessionsSound(Step(s, a))
  {
    hide NextPartials, NextTemps, NextFinals, NextHandlers;
  }

  /**
   * Over every run, every session has the peer, address, files and tokens of its offer, and an accepted one has its
   * files where they were accepted to; so has every upload that was let in.
   */
  lemma {:induction false} WordsAreKept(actions: seq<Action>)
    requires FreshIds(actions)
    ensures Kept(HistoryOf(actions), Run(actions))
    decreases |actions|
  {
    hide Step, Told, Kept;
    if actions == [] {
      NothingSaid();
    } else {
      var n := |actions| - 1;
      var front, a := actions[..n], actions[n];
      assert forall k :: 0 <= k < n ==> front[..k] == actions[..k] && front[k] == actions[k];
      WordsAreKept(front);
      StepKeepsWord(HistoryOf(front), Run(front), a);
    }
  }

  lemma NothingSaid()
    ensures Kept(HistoryOf([]), Run([]))
  {
  }

  // ---- Who is let in, and where the bytes go ----

  /**
   * An upload is let in exactly for a session that is accepted and still has the file, from the address that offered
   * it, and with the token that was offered for this file.
   */
  lemma LetInExactly(actions: seq<Action>, h: nat, id: string, ip: string, file_id: string, token: string)
    requires FreshIds(actions) && h !in Run(actions).handlers
    ensures
      var s, told := Run(actions), HistoryOf(actions);
      h in Step(s, UploadCheck(h, id, ip, file_id, token)).handlers
      <==> && StatusIs(s, id, Accepted) && file_id in s.sessions[id].files
           && id in told.offered && told.offered[id].ip == ip
           && file_id in told.offered[id].tokens && told.offered[id].tokens[file_id] == token
  {
    var s, told := Run(actions), HistoryOf(actions);
    hide Run, HistoryOf, Step;
    WordsAreKept(actions);
    LetIn(s, h, id, ip, file_id, token);
    if id in s.sessions { KeptSession(told, s, id); }
    hide Kept;
  }

  lemma LetIn(s: State, h: nat, id: string, ip: string, file_id: string, token: string)
    requires h !in s.handlers
    ensures h in Step(s, UploadCheck(h, id, ip, file_id, token)).handlers
       <==> && StatusIs(s, id, Accepted) && s.sessions[id].peer_ip == ip
            && file_id in s.sessions[id].files && s.sessions[id].files[file_id].token == token
  {
    hide NextSessions, NextUsedIds, NextPartials, NextTemps, NextFinals;
  }

  /** Whoever sends for a session sends to the place that its file was accepted to. */
  lemma SendersKeepTheirPlace(actions: seq<Action>, h: nat, id: string)
    requires FreshIds(actions) && UploadsFor(Run(actions), h, id)
    ensures
      var told, job := HistoryOf(actions), JobOf(Run(actions).handlers[h]).value;
      && id in told.offered && job.key == Key(IncomingUpload, told.offered[id].peer, job.file_id)
      && id in told.accepted && job.file_id in told.accepted[id] && job.final_path == told.accepted[id][job.file_id]
  {
    WordsAreKept(actions);
    KeptRequest(HistoryOf(actions), Run(actions), h);
    hide Run, HistoryOf, Kept;
  }

  /**
   * An upload of a session's file that finishes puts the source of this file, as its peer offered it, at the place that
   * the file was accepted to, and nothing anywhere else.
   */
  lemma UploadsGoWhereAccepted(sources: Sources, actions: seq<Action>, n: nat, id: string)
    requires NoCollisions(sources) && Possible(sources, actions) && n < |actions|
    requires Finishes(Run(actions[..n]), actions[n]) && UploadsFor(Run(actions[..n]), actions[n].h, id)
    ensures
      var told, before, after := HistoryOf(actions[..n]), Run(actions[..n]).finals, Run(actions[..n + 1]).finals;
      var file_id := Run(actions[..n]).handlers[actions[n].h].job.file_id;
      && id in told.offered && id in told.accepted && file_id in told.accepted[id]
      && Key(IncomingUpload, told.offered[id].peer, file_id) in sources
      && after == before[told.accepted[id][file_id] := sources[Key(IncomingUpload, told.offered[id].peer, file_id)]]
  {
    hide Run, HistoryOf, Step, Honest, PathsSound, ContentSound, NoClash;
    var front := actions[..n];
    assert forall k :: 0 <= k < n ==> front[..k] == actions[..k] && front[k] == actions[k];
    SendersKeepTheirPlace(front, actions[n].h, id);
    RunStep(actions, n);
    ResumeIsSafe(sources, actions, n);
    FinishDelivers(sources, Run(front), actions[n]);
  }
}
