/** The table of running and finished comparisons, which evicts finished ones. */
module CompareTasks {
  import opened Text

  datatype Status = Pending | Running | Completed | Failed | Canceled

  predicate Terminal(status: Status) { status.Completed? || status.Failed? || status.Canceled? }

  datatype Entry<T> = Entry(
    status: Status, total_tables: nat, completed_tables: nat, current_table: Option<string>,
    error_message: Option<string>, result: Option<T>, cancel_requested: bool, finished_at: Option<nat>)

  const RETENTION := 1800
  const MAX_RETAINED := 128

  // ---- Pruning ----

  /** The entries that have not been finished for too long. */
  function Retained<T>(tasks: map<string, Entry<T>>, now: nat): (kept: map<string, Entry<T>>)
    ensures forall id ::
      id in kept <==> id in tasks && (tasks[id].finished_at.Some? ==> now <= tasks[id].finished_at.value + 1800)
    ensures forall id <- kept :: kept[id] == tasks[id]
  {
    map id | id in tasks && (tasks[id].finished_at.None? || now - tasks[id].finished_at.value <= RETENTION) :: tasks[id]
  }

  function Finished<T>(tasks: map<string, Entry<T>>): set<string> {
    set id | id in tasks && tasks[id].finished_at.Some?
  }

  function Unfinished<T>(tasks: map<string, Entry<T>>): set<string> {
    set id | id in tasks && tasks[id].finished_at.None?
  }

  /**
   * What pruning may leave: retained entries as they were, every unfinished one among them; of the finished ones the
   * oldest go first; and no more than 128 stay unless that many are unfinished, in which case only those stay.
   */
  ghost predicate Pruned<T>(before: map<string, Entry<T>>, now: nat, after: map<string, Entry<T>>) {
    var retained := Retained(before, now);
    && after.Keys <= retained.Keys
    && (forall id <- after :: after[id] == retained[id])
    && (forall id <- retained :: id !in after ==> retained[id].finished_at.Some?)
    && (forall gone, id ::
          gone in retained && gone !in after && id in after && after[id].finished_at.Some? ==>
            retained[gone].finished_at.value <= after[id].finished_at.value)
    && |after.Keys|
       == if |retained.Keys| <= MAX_RETAINED then |retained.Keys|
          else if |Unfinished(retained)| > MAX_RETAINED then |Unfinished(retained)| else MAX_RETAINED
  }

  /** A finished task and when it finished. */
  datatype Stamp = Stamp(id: string, time: nat)

  function Ids(stamps: seq<Stamp>): set<string> { set s <- stamps :: s.id }

  /** The finished tasks, each once with its time. */
  ghost predicate Lists<T>(stamps: seq<Stamp>, tasks: map<string, Entry<T>>) {
    && Ids(stamps) == Finished(tasks)
    && (forall s <- stamps :: s.id in tasks && tasks[s.id].finished_at == Some(s.time))
    && forall i, j :: 0 <= i < j < |stamps| ==> stamps[i].id != stamps[j].id
  }

  ghost predicate ByTime(stamps: seq<Stamp>) {
    forall i, j :: 0 <= i < j < |stamps| ==> stamps[i].time <= stamps[j].time
  }

  method FinishedTasks<T>(tasks: map<string, Entry<T>>) returns (stamps: seq<Stamp>)
    ensures Lists(stamps, tasks)
  {
    stamps := [];
    var pending := Finished(tasks);
    while pending != {}
      invariant pending <= Finished(tasks)
      invariant Ids(stamps) == Finished(tasks) - pending
      invariant forall s <- stamps :: s.id in tasks && tasks[s.id].finished_at == Some(s.time)
      invariant forall i, j :: 0 <= i < j < |stamps| ==> stamps[i].id != stamps[j].id
      decreases pending
    {
      var id :| id in pending;
      var stamp := Stamp(id, tasks[id].finished_at.value);
      assert forall s <- stamps :: s.id in Ids(stamps);
      assert Ids(stamps + [stamp]) == Ids(stamps) + {id};
      stamps := stamps + [stamp];
      pending := pending - {id};
    }
  }

  function Inserted(stamps: seq<Stamp>, s: Stamp): seq<Stamp> {
    if stamps == [] || s.time < stamps[0].time then [s] + stamps else [stamps[0]] + Inserted(stamps[1..], s)
  }

  lemma {:induction false} InsertedMembers(stamps: seq<Stamp>, s: Stamp)
    ensures multiset(Inserted(stamps, s)) == multiset(stamps) + multiset{s}
    ensures forall x <- Inserted(stamps, s) :: x in stamps || x == s
  {
    if stamps != [] && s.time >= stamps[0].time {
      InsertedMembers(stamps[1..], s);
      assert stamps == [stamps[0]] + stamps[1..];
    }
  }

  lemma {:induction false} InsertedInOrder(stamps: seq<Stamp>, s: Stamp)
    requires ByTime(stamps)
    ensures ByTime(Inserted(stamps, s))
  {
    if stamps != [] && s.time >= stamps[0].time {
      var rest := stamps[1..];
      InsertedInOrder(rest, s);
      InsertedMembers(rest, s);
      forall x | x in rest
        ensures stamps[0].time <= x.time
      {
        var k :| 0 <= k < |rest| && rest[k] == x;
        assert stamps[k + 1] == x;
      }
      var more := Inserted(rest, s);
      assert forall j :: 0 <= j < |more| ==> more[j] in more;
      hide Inserted;
    }
  }

  /** The library's stable sort by finishing time. */
  method SortByTime(stamps: seq<Stamp>) returns (sorted: seq<Stamp>)
    ensures ByTime(sorted) && multiset(sorted) == multiset(stamps)
  {
    sorted := [];
    for k := 0 to |stamps|
      invariant ByTime(sorted) && multiset(sorted) == multiset(stamps[..k])
    {
      InsertedInOrder(sorted, stamps[k]);
      InsertedMembers(sorted, stamps[k]);
      assert stamps[..k + 1] == stamps[..k] + [stamps[k]];
      sorted := Inserted(sorted, stamps[k]);
    }
    assert stamps[..|stamps|] == stamps;
  }

  lemma SortedLists<T>(stamps: seq<Stamp>, sorted: seq<Stamp>, tasks: map<string, Entry<T>>)
    requires Lists(stamps, tasks) && multiset(sorted) == multiset(stamps)
    ensures Lists(sorted, tasks)
  {
    forall s: Stamp
      ensures s in sorted <==> s in stamps
    {
      assert s in multiset(sorted) <==> s in multiset(stamps);
    }
    forall i, j | 0 <= i < j < |sorted|
      ensures sorted[i].id != sorted[j].id
    {
      if sorted[i].id == sorted[j].id {
        assert sorted[i] in stamps && sorted[j] in stamps;
        assert sorted[i] == sorted[j];
        TwiceCounted(sorted, i, j);
        OnceCounted(stamps, sorted[i]);
      }
    }
  }

  lemma TwiceCounted(stamps: seq<Stamp>, i: nat, j: nat)
    requires i < j < |stamps| && stamps[i] == stamps[j]
    ensures multiset(stamps)[stamps[i]] >= 2
  {
    assert stamps == stamps[..j] + stamps[j..];
    assert stamps[..j][i] in stamps[..j] && stamps[j..][0] in stamps[j..];
  }

  lemma {:induction false} OnceCounted(stamps: seq<Stamp>, s: Stamp)
    requires forall i, j :: 0 <= i < j < |stamps| ==> stamps[i].id != stamps[j].id
    ensures multiset(stamps)[s] <= 1
  {
    if stamps != [] {
      OnceCounted(stamps[1..], s);
      assert stamps == [stamps[0]] + stamps[1..];
      if stamps[0] == s {
        assert s !in stamps[1..];
      }
    }
  }

  lemma {:induction false} IdsCount(stamps: seq<Stamp>)
    requires forall i, j :: 0 <= i < j < |stamps| ==> stamps[i].id != stamps[j].id
    ensures |Ids(stamps)| == |stamps|
  {
    if stamps != [] {
      var n := |stamps| - 1;
      IdsCount(stamps[..n]);
      assert stamps == stamps[..n] + [stamps[n]];
      assert Ids(stamps) == Ids(stamps[..n]) + {stamps[n].id};
      assert stamps[n].id !in Ids(stamps[..n]);
    }
  }

  lemma FinishedOrNot<T>(tasks: map<string, Entry<T>>)
    ensures |tasks.Keys| == |Finished(tasks)| + |Unfinished(tasks)|
  {
    assert tasks.Keys == Finished(tasks) + Unfinished(tasks);
    assert Finished(tasks) !! Unfinished(tasks);
  }

  lemma EvictedCount<T>(retained: map<string, Entry<T>>, sorted: seq<Stamp>, n: nat)
    requires Lists(sorted, retained) && n <= |sorted|
    ensures Ids(sorted[..n]) <= retained.Keys
    ensures |(retained - Ids(sorted[..n])).Keys| == |retained.Keys| - n
    ensures |retained.Keys| == |sorted| + |Unfinished(retained)|
  {
    FinishedOrNot(retained);
    IdsCount(sorted);
    IdsCount(sorted[..n]);
    var gone := Ids(sorted[..n]);
    assert (retained - gone).Keys == retained.Keys - gone;
  }

  lemma EvictedAreOldest<T>(retained: map<string, Entry<T>>, sorted: seq<Stamp>, n: nat, gone: string, id: string)
    requires Lists(sorted, retained) && ByTime(sorted) && n <= |sorted|
    requires gone in Ids(sorted[..n])
    ensures gone in retained && retained[gone].finished_at.Some?
    ensures id in retained && id !in Ids(sorted[..n]) && retained[id].finished_at.Some? ==>
      retained[gone].finished_at.value <= retained[id].finished_at.value
  {
    var i :| 0 <= i < n && sorted[..n][i].id == gone;
    assert sorted[i] in sorted && sorted[i].id == gone;
    if id in retained && id !in Ids(sorted[..n]) && retained[id].finished_at.Some? {
      assert id in Ids(sorted);
      var j :| 0 <= j < |sorted| && sorted[j].id == id;
      assert j >= n;
      assert sorted[i].time <= sorted[j].time;
    }
  }

  /** Removing the first `n` of the sorted finished tasks is a pruning. */
  lemma EvictedIsPruned<T>(
    before: map<string, Entry<T>>, now: nat, retained: map<string, Entry<T>>, sorted: seq<Stamp>, n: nat)
    requires retained == Retained(before, now) && |retained.Keys| > MAX_RETAINED
    requires Lists(sorted, retained) && ByTime(sorted)
    requires n == if |retained.Keys| - MAX_RETAINED <= |sorted| then |retained.Keys| - MAX_RETAINED else |sorted|
    ensures Pruned(before, now, retained - Ids(sorted[..n]))
  {
    EvictedCount(retained, sorted, n);
    forall gone, id | gone in Ids(sorted[..n])
      ensures gone in retained && retained[gone].finished_at.Some?
      ensures id in retained && id !in Ids(sorted[..n]) && retained[id].finished_at.Some? ==>
        retained[gone].finished_at.value <= retained[id].finished_at.value
    {
      EvictedAreOldest(retained, sorted, n, gone, id);
    }
    hide Lists, ByTime, Ids, Retained, Unfinished;
  }

  /** More than 128 stay only when all of them are unfinished. */
  lemma PrunedIsSmall<T>(before: map<string, Entry<T>>, now: nat, after: map<string, Entry<T>>)
    requires Pruned(before, now, after)
    ensures |after.Keys| <= 128 || forall id <- after :: after[id].finished_at.None?
  {
    var retained := Retained(before, now);
    if |after.Keys| > 128 {
      forall id | id in Unfinished(retained)
        ensures id in after.Keys
      {
        assert id in retained;
      }
      SameSize(Unfinished(retained), after.Keys);
    }
  }

  lemma SameSize<T>(a: set<T>, b: set<T>)
    requires a <= b && |b| == |a|
    ensures a == b
  {
    assert |b - a| == |b| - |a|;
  }

  lemma KeptIsPruned<T>(before: map<string, Entry<T>>, now: nat)
    ensures |Retained(before, now).Keys| <= MAX_RETAINED ==> Pruned(before, now, Retained(before, now))
  {
    hide Retained, Unfinished;
  }

  lemma NoIds<T>(tasks: map<string, Entry<T>>)
    ensures tasks - Ids([]) == tasks
  {
    assert Ids([]) == {};
  }

  lemma IdsStep<T>(stamps: seq<Stamp>, k: nat, tasks: map<string, Entry<T>>)
    requires k < |stamps|
    ensures tasks - Ids(stamps[..k + 1]) == tasks - Ids(stamps[..k]) - {stamps[k].id}
  {
    assert stamps[..k + 1] == stamps[..k] + [stamps[k]];
    assert Ids(stamps[..k + 1]) == Ids(stamps[..k]) + {stamps[k].id};
    hide Ids;
  }

  // ---- The table ----

  function NewEntry<T>(): Entry<T> { Entry(Pending, 0, 0, None, None, None, false, None) }

  datatype Event<T> =
    | Register(id: string, now: nat)
    | ReportProgress(id: string, total: nat, completed: nat, current_table: Option<string>)
    | FinishSuccess(id: string, result: T, total: nat, now: nat)
    | FinishFailure(id: string, message: string, now: nat)
    | FinishCanceled(id: string, message: string, now: nat)
    | RequestCancel(id: string)
    | TakeResult(id: string)

  /** What an event makes of the entry that it is about; registering and taking are not about one entry alone. */
  function Updated<T>(entry: Entry<T>, event: Event<T>): Entry<T> {
    match event
    case ReportProgress(_, total, completed, table) =>
      entry.(status := Running, total_tables := total, completed_tables := completed, current_table := table,
        error_message := None, finished_at := None)
    case FinishSuccess(_, result, total, now) =>
      entry.(status := Completed, total_tables := total, completed_tables := total, current_table := None,
        error_message := None, result := Some(result), finished_at := Some(now))
    case FinishFailure(_, message, now) =>
      entry.(status := Failed, error_message := Some(message), current_table := None, finished_at := Some(now))
    case FinishCanceled(_, message, now) =>
      entry.(status := Canceled, error_message := Some(message), current_table := None, finished_at := Some(now))
    case RequestCancel(_) => entry.(cancel_requested := true)
    case _ => entry
  }

  ghost predicate Next<T(!new)>(before: map<string, Entry<T>>, event: Event<T>, after: map<string, Entry<T>>) {
    match event
    case Register(id, now) => exists pruned :: Pruned(before, now, pruned) && after == pruned[id := NewEntry()]
    case TakeResult(id) => after == before - {id}
    case _ =>
      after == if event.id in before then before[event.id := Updated(before[event.id], event)] else before
  }

  /** A task is finished exactly when its status is terminal, and completed ones have a result. */
  ghost predicate EntrySound<T>(entry: Entry<T>) {
    (entry.finished_at.Some? <==> Terminal(entry.status)) && (entry.status.Completed? ==> entry.result.Some?)
  }

  ghost predicate TableSound<T>(tasks: map<string, Entry<T>>) { forall id <- tasks :: EntrySound(tasks[id]) }

  /** The tables along some events, from an empty one. */
  ghost predicate IsRun<T(!new)>(tables: seq<map<string, Entry<T>>>, events: seq<Event<T>>) {
    && |tables| == |events| + 1 && tables[0] == map[]
    && forall k :: 0 <= k < |events| ==> Next(tables[k], events[k], tables[k + 1])
  }

  lemma NextIsSound<T(!new)>(before: map<string, Entry<T>>, event: Event<T>, after: map<string, Entry<T>>)
    requires TableSound(before) && Next(before, event, after)
    ensures TableSound(after)
  {
    match event
    case Register(id, now) =>
      var pruned :| Pruned(before, now, pruned) && after == pruned[id := NewEntry()];
    case _ =>
  }

  lemma {:induction false} RunsAreSound<T(!new)>(tables: seq<map<string, Entry<T>>>, events: seq<Event<T>>, k: nat)
    requires IsRun(tables, events) && k < |tables|
    ensures TableSound(tables[k])
  {
    if k > 0 {
      RunsAreSound(tables, events, k - 1);
      NextIsSound(tables[k - 1], events[k - 1], tables[k]);
    }
  }

  /** What one event leaves of an entry that it does not remove, replace or evict. */
  lemma EntryAfter<T(!new)>(before: map<string, Entry<T>>, event: Event<T>, after: map<string, Entry<T>>, id: string)
    requires Next(before, event, after) && id in after
    ensures event.Register? && event.id == id ==> after[id] == NewEntry()
    ensures !(event.Register? && event.id == id) ==>
      && id in before
      && after[id] == if event.id == id then Updated(before[id], event) else before[id]
    ensures !(event.TakeResult? && event.id == id)
  {
    match event
    case Register(i, now) =>
      var pruned :| Pruned(before, now, pruned) && after == pruned[i := NewEntry()];
    case _ =>
  }

  /** Whether a comparison has completed since it was last registered. */
  function HasCompleted<T>(events: seq<Event<T>>, id: string): bool {
    if events == [] then false
    else
      var last := events[|events| - 1];
      if last.id == id && last.Register? then false
      else if last.id == id && last.FinishSuccess? then true
      else HasCompleted(events[..|events| - 1], id)
  }

  /**
   * An entry has a result exactly when its comparison has completed since it was registered. Later progress, failure or
   * cancellation does not take it away, so that a failed comparison may hand out a result.
   */
  lemma {:induction false} ResultIsOfCompletion<T(!new)>(
    tables: seq<map<string, Entry<T>>>, events: seq<Event<T>>, k: nat, id: string)
    requires IsRun(tables, events) && k < |tables| && id in tables[k]
    ensures tables[k][id].result.Some? <==> HasCompleted(events[..k], id)
  {
    if k > 0 {
      EntryAfter(tables[k - 1], events[k - 1], tables[k], id);
      assert events[..k][..k - 1] == events[..k - 1];
      if !(events[k - 1].Register? && events[k - 1].id == id) {
        ResultIsOfCompletion(tables, events, k - 1, id);
      }
      hide Next, Pruned;
    }
  }

  /** A cancellation was asked for since the task was last registered. */
  ghost predicate CancelAsked<T>(events: seq<Event<T>>, id: string) {
    exists k :: 0 <= k < |events| && events[k] == RequestCancel(id)
                && forall j :: k < j < |events| && events[j].id == id ==> !events[j].Register?
  }

  lemma CancelStaysAsked<T>(events: seq<Event<T>>, id: string)
    requires events != [] && !(events[|events| - 1].Register? && events[|events| - 1].id == id)
    ensures CancelAsked(events, id)
       <==> CancelAsked(events[..|events| - 1], id) || events[|events| - 1] == RequestCancel(id)
  {
    var n := |events| - 1;
    var rest := events[..n];
    if k :| 0 <= k < n && rest[k] == RequestCancel(id)
            && forall j :: k < j < n && rest[j].id == id ==> !rest[j].Register?
    {
      assert events[k] == RequestCancel(id);
      assert forall j :: 0 <= j < n ==> rest[j] == events[j];
    }
    if k :| 0 <= k < |events| && events[k] == RequestCancel(id)
            && forall j :: k < j < |events| && events[j].id == id ==> !events[j].Register?
    {
      assert k < n ==> rest[k] == RequestCancel(id);
    }
  }

  /** A task is to be cancelled exactly when that was asked for since it was registered, whatever was reported since. */
  lemma {:induction false} CancelIsKept<T(!new)>(
    tables: seq<map<string, Entry<T>>>, events: seq<Event<T>>, k: nat, id: string)
    requires IsRun(tables, events) && k < |tables| && id in tables[k]
    ensures tables[k][id].cancel_requested <==> CancelAsked(events[..k], id)
  {
    if k > 0 {
      EntryAfter(tables[k - 1], events[k - 1], tables[k], id);
      assert events[..k][..k - 1] == events[..k - 1];
      hide Next, Pruned;
      if events[k - 1].Register? && events[k - 1].id == id {
        assert events[..k][k - 1] == events[k - 1];
      } else {
        CancelIsKept(tables, events, k - 1, id);
        CancelStaysAsked(events[..k], id);
      }
    }
  }

  /** What an event says of its task: the status, the counts, the table at work, the message and the result. */
  ghost predicate Tells<T(!new)>(event: Event<T>, was: Entry<T>, entry: Entry<T>) {
    match event
    case Register(_, _) =>
      && entry.status == Pending && entry.total_tables == entry.completed_tables == 0 && entry.current_table == None
      && entry.error_message == None && entry.result == None && entry.finished_at == None
    case ReportProgress(_, total, completed, table) =>
      && entry.status == Running && entry.total_tables == total && entry.completed_tables == completed
      && entry.current_table == table && entry.error_message == None && entry.result == was.result
      && entry.finished_at == None
    case FinishSuccess(_, result, total, now) =>
      && entry.status == Completed && entry.total_tables == entry.completed_tables == total
      && entry.current_table == None && entry.error_message == None && entry.result == Some(result)
      && entry.finished_at == Some(now)
    case FinishFailure(_, message, now) => entry.status == Failed && StoppedAt(was, entry, message, now)
    case FinishCanceled(_, message, now) => entry.status == Canceled && StoppedAt(was, entry, message, now)
    case _ => true
  }

  /** The counts and the result stay as they were when the comparison stopped. */
  ghost predicate StoppedAt<T(!new)>(was: Entry<T>, entry: Entry<T>, message: string, now: nat) {
    && entry.total_tables == was.total_tables && entry.completed_tables == was.completed_tables
    && entry.current_table == None && entry.error_message == Some(message) && entry.result == was.result
    && entry.finished_at == Some(now)
  }

  /**
   * An entry tells what the last event of its task said, whatever is asked, registered, reported or taken for others in
   * between; a request to cancel alone changes nothing of this.
   */
  lemma {:induction false} LastReportTells<T(!new)>(
    tables: seq<map<string, Entry<T>>>, events: seq<Event<T>>, i: nat, k: nat, id: string)
    requires IsRun(tables, events) && i < k < |tables| && id in tables[k] && events[i].id == id
    requires !events[i].RequestCancel? && !events[i].TakeResult?
    requires forall j :: i < j < k && events[j].id == id ==> events[j].RequestCancel?
    ensures events[i].Register? || id in tables[i]
    ensures Tells(events[i], if id in tables[i] then tables[i][id] else NewEntry(), tables[k][id])
  {
    EntryAfter(tables[k - 1], events[k - 1], tables[k], id);
    hide Next, Pruned;
    if k > i + 1 {
      LastReportTells(tables, events, i, k - 1, id);
    }
  }

  /** An unfinished task stays until it is taken, whatever else is registered, reported or evicted meanwhile. */
  lemma {:induction false} UnfinishedStays<T(!new)>(
    tables: seq<map<string, Entry<T>>>, events: seq<Event<T>>, i: nat, j: nat, id: string)
    requires IsRun(tables, events) && i <= j < |tables|
    requires id in tables[i] && tables[i][id].finished_at.None?
    requires forall k :: i <= k < j && events[k].id == id ==>
      events[k].Register? || events[k].ReportProgress? || events[k].RequestCancel?
    ensures id in tables[j] && tables[j][id].finished_at.None?
  {
    if i < j {
      UnfinishedStays(tables, events, i, j - 1, id);
      UnfinishedStep(tables[j - 1], events[j - 1], tables[j], id);
    }
  }

  lemma UnfinishedStep<T(!new)>(
    before: map<string, Entry<T>>, event: Event<T>, after: map<string, Entry<T>>, id: string)
    requires Next(before, event, after) && id in before && before[id].finished_at.None?
    requires event.id == id ==> event.Register? || event.ReportProgress? || event.RequestCancel?
    ensures id in after && after[id].finished_at.None?
  {
    match event
    case Register(i, now) =>
      var pruned :| Pruned(before, now, pruned) && after == pruned[i := NewEntry()];
      assert id in Retained(before, now);
    case _ =>
  }

  /** After a task is taken, nothing can be taken for it before it is registered again. */
  lemma {:induction false} TakenOnce<T(!new)>(
    tables: seq<map<string, Entry<T>>>, events: seq<Event<T>>, i: nat, j: nat, id: string)
    requires IsRun(tables, events) && i < j < |tables| && events[i] == TakeResult(id)
    requires id in tables[j]
    ensures exists k :: i < k < j && events[k].Register? && events[k].id == id
  {
    assert Next(tables[i], events[i], tables[i + 1]);
    if j == i + 1 {
      assert false;
    } else {
      EntryAfter(tables[j - 1], events[j - 1], tables[j], id);
      if !(events[j - 1].Register? && events[j - 1].id == id) {
        TakenOnce(tables, events, i, j - 1, id);
      }
    }
  }

  // ---- The manager ----

  class CompareTaskManager<T(!new)> {
    var tasks: map<string, Entry<T>>

    constructor ()
      ensures tasks == map[]
    {
      tasks := map[];
    }

    method PruneTasks(now: nat)
      modifies this
      ensures Pruned(old(tasks), now, tasks)
      ensures |tasks.Keys| <= 128 || forall id <- tasks :: tasks[id].finished_at.None?
    {
      hide Retained, Pruned, Lists, ByTime, Ids;
      ghost var before := tasks;
      KeptIsPruned(before, now);
      tasks := Retained(tasks, now);
      if |tasks.Keys| <= MAX_RETAINED {
        PrunedIsSmall(before, now, tasks);
        return;
      }
      var retained := tasks;
      var overflow := |tasks.Keys| - MAX_RETAINED;
      var finished := FinishedTasks(tasks);
      var sorted := SortByTime(finished);
      SortedLists(finished, sorted, retained);
      var n := if overflow <= |sorted| then overflow else |sorted|;
      NoIds(retained);
      for k := 0 to n
        invariant tasks == retained - Ids(sorted[..k])
      {
        IdsStep(sorted, k, retained);
        tasks := tasks - {sorted[k].id};
      }
      EvictedIsPruned(before, now, retained, sorted, n);
      PrunedIsSmall(before, now, tasks);
    }

    method RegisterTask(id: string, now: nat)
      modifies this
      ensures Next(old(tasks), Register(id, now), tasks)
    {
      PruneTasks(now);
      tasks := tasks[id := NewEntry()];
    }

    /** The event's update of its entry, if the table has one. */
    method Update(event: Event<T>)
      requires !event.Register? && !event.TakeResult?
      modifies this
      ensures Next(old(tasks), event, tasks)
    {
      if event.id in tasks {
        tasks := tasks[event.id := Updated(tasks[event.id], event)];
      }
    }

    method ReportTaskProgress(id: string, total: nat, completed: nat, table: Option<string>)
      modifies this
      ensures Next(old(tasks), ReportProgress(id, total, completed, table), tasks)
    {
      Update(ReportProgress(id, total, completed, table));
    }

    method FinishTaskSuccess(id: string, result: T, total: nat, now: nat)
      modifies this
      ensures Next(old(tasks), FinishSuccess(id, result, total, now), tasks)
    {
      Update(FinishSuccess(id, result, total, now));
    }

    method FinishTaskFailure(id: string, message: string, now: nat)
      modifies this
      ensures Next(old(tasks), FinishFailure(id, message, now), tasks)
    {
      Update(FinishFailure(id, message, now));
    }

    method FinishTaskCanceled(id: string, message: string, now: nat)
      modifies this
      ensures Next(old(tasks), FinishCanceled(id, message, now), tasks)
    {
      Update(FinishCanceled(id, message, now));
    }

    method RequestTaskCancel(id: string) returns (accepted: bool)
      modifies this
      ensures Next(old(tasks), RequestCancel(id), tasks) && accepted == (id in old(tasks))
    {
      accepted := id in tasks;
      Update(RequestCancel(id));
    }

    method TakeTaskResult(id: string) returns (taken: Option<Entry<T>>)
      modifies this
      ensures Next(old(tasks), TakeResult(id), tasks)
      ensures taken == if id in old(tasks) then Some(old(tasks)[id]) else None
    {
      taken := None;
      if id in tasks {
        taken := Some(tasks[id]);
        tasks := tasks - {id};
      }
    }
  }
}
