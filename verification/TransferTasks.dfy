/** Bookkeeping of transfer tasks: the byte counts shown to the user, and the statuses they pass through. */
module TransferTasks {
  import opened Text

  datatype FileStatus = FilePending | FileRunning | FileCompleted | FileSkipped

  datatype TaskStatus = TaskPending | TaskRunning | TaskCompleted | TaskFailed | TaskCanceled

  datatype TaskFile = TaskFile(id: string, name: string, size: nat, transferred: nat, status: FileStatus)

  datatype Task = Task(
    status: TaskStatus,
    total: nat,
    transferred: nat,
    current_file: Option<string>,
    error: Option<string>,
    stamped: bool,        // completed_at and finished_at are set
    cancel_flag: bool,
    files: seq<TaskFile>)

  /** A file as a task is created with it: what is stored of it already counts, however much that is. */
  datatype Offer = Offer(id: string, name: string, size: nat, stored: nat)

  function Listed(offers: seq<Offer>): (files: seq<TaskFile>)
    ensures |files| == |offers|
    ensures forall k :: 0 <= k < |offers| ==>
      files[k] == TaskFile(offers[k].id, offers[k].name, offers[k].size, offers[k].stored, FilePending)
  {
    if offers == [] then []
    else
      var last := offers[|offers| - 1];
      Listed(offers[..|offers| - 1]) + [TaskFile(last.id, last.name, last.size, last.stored, FilePending)]
  }

  // ---- Totals ----

  function SizeOf(files: seq<TaskFile>): nat {
    if files == [] then 0 else SizeOf(files[..|files| - 1]) + files[|files| - 1].size
  }

  function TransferredOf(files: seq<TaskFile>): nat {
    if files == [] then 0 else TransferredOf(files[..|files| - 1]) + files[|files| - 1].transferred
  }

  lemma {:induction false} ReplaceOne(files: seq<TaskFile>, i: nat, file: TaskFile)
    requires i < |files| && file.size == files[i].size
    ensures SizeOf(files[i := file]) == SizeOf(files)
    ensures TransferredOf(files[i := file]) + files[i].transferred == TransferredOf(files) + file.transferred
    decreases |files|
  {
    var last := |files| - 1;
    if i < last {
      assert files[i := file][..last] == files[..last][i := file];
      ReplaceOne(files[..last], i, file);
    } else {
      assert files[i := file][..last] == files[..last];
    }
  }

  /** The first file with an id, or the number of files when there is none. */
  function IndexOf(files: seq<TaskFile>, id: string): (i: nat)
    ensures i <= |files| && (i < |files| ==> files[i].id == id)
    ensures forall k :: 0 <= k < i ==> files[k].id != id
  {
    if files == [] || files[0].id == id then 0 else 1 + IndexOf(files[1..], id)
  }

  // ---- Operations on one task ----

  function Created(status: TaskStatus, offers: seq<Offer>): Task {
    var files := Listed(offers);
    Task(status, SizeOf(files), TransferredOf(files), None, None, false, false, files)
  }

  function Counted(task: Task, files: seq<TaskFile>): Task {
    task.(files := files, transferred := TransferredOf(files))
  }

  function Progressed(task: Task, id: string, bytes: nat): Task {
    var i := IndexOf(task.files, id);
    if i == |task.files| then task
    else
      var file := task.files[i];
      var counted := if bytes < file.size then bytes else file.size;
      Counted(task, task.files[i := file.(transferred := counted, status := FileRunning)])
        .(status := TaskRunning, current_file := Some(file.name))
  }

  function FileFinished(task: Task, id: string, status: FileStatus): Task {
    var i := IndexOf(task.files, id);
    if i == |task.files| then Counted(task, task.files)
    else
      var file := task.files[i];
      var bytes := if status == FileCompleted then file.size else file.transferred;
      Counted(task, task.files[i := file.(status := status, transferred := bytes)])
  }

  function Succeeded(task: Task): Task {
    task.(status := TaskCompleted, current_file := None, error := None, stamped := true)
  }

  function FailedWith(task: Task, message: string): Task {
    task.(status := if task.cancel_flag then TaskCanceled else TaskFailed, current_file := None,
          error := Some(message), stamped := true)
  }

  function CanceledWith(task: Task, message: string): Task {
    task.(status := TaskCanceled, current_file := None, error := Some(message), stamped := true, cancel_flag := true)
  }

  function Noted(task: Task, status: Option<TaskStatus>): Task {
    if status.Some? then task.(status := status.value) else task
  }

  datatype Event =
    | Progress(id: string, bytes: nat)
    | FinishFile(id: string, status: FileStatus)
    | Succeed
    | FailTask(message: string)
    | CancelTask(message: string)
    | Note(task_status: Option<TaskStatus>)

  function After(task: Task, event: Event): Task {
    match event
    case Progress(id, bytes) => Progressed(task, id, bytes)
    case FinishFile(id, status) => FileFinished(task, id, status)
    case Succeed => Succeeded(task)
    case FailTask(message) => FailedWith(task, message)
    case CancelTask(message) => CanceledWith(task, message)
    case Note(status) => Noted(task, status)
  }

  function AfterAll(task: Task, events: seq<Event>): Task {
    if events == [] then task else After(AfterAll(task, events[..|events| - 1]), events[|events| - 1])
  }

  // ---- What the counts mean ----

  /** The totals are the sums over the files, and a completed file counts in full. */
  ghost predicate Summed(task: Task) {
    && task.total == SizeOf(task.files)
    && task.transferred == TransferredOf(task.files)
    && (forall file <- task.files :: file.status == FileCompleted ==> file.transferred == file.size)
  }

  /** Besides, no file counts more than its size. */
  ghost predicate Accounted(task: Task) {
    Summed(task) && forall file <- task.files :: file.transferred <= file.size
  }

  lemma StaysSummed(task: Task, event: Event)
    requires Summed(task)
    ensures Summed(After(task, event))
    ensures After(task, event).total == task.total
  {
    if event.Progress? || event.FinishFile? {
      var i := IndexOf(task.files, event.id);
      if i < |task.files| {
        var file := After(task, event).files[i];
        ReplaceOne(task.files, i, file);
        assert After(task, event).files == task.files[i := file];
      }
    }
  }

  /** Every event keeps an exact account. */
  lemma StaysAccounted(task: Task, event: Event)
    requires Accounted(task)
    ensures Accounted(After(task, event))
  {
    StaysSummed(task, event);
    hide SizeOf, TransferredOf;
  }

  lemma {:induction false} BoundedTransfer(files: seq<TaskFile>)
    requires forall file <- files :: file.transferred <= file.size
    ensures TransferredOf(files) <= SizeOf(files)
    ensures TransferredOf(files) == SizeOf(files) <==> forall file <- files :: file.transferred == file.size
    decreases |files|
  {
    if files != [] {
      BoundedTransfer(files[..|files| - 1]);
      assert files == files[..|files| - 1] + [files[|files| - 1]];
    }
  }

  // ---- Files stored beyond their size ----

  /** The event counts the `k`-th file anew: its progress is capped, its completion counts its size. */
  predicate Recounts(files: seq<TaskFile>, k: nat, event: Event) {
    (event.Progress? || (event.FinishFile? && event.status == FileCompleted)) && IndexOf(files, event.id) == k
  }

  ghost predicate Recounted(files: seq<TaskFile>, k: nat, events: seq<Event>) {
    exists i :: 0 <= i < |events| && Recounts(files, k, events[i])
  }

  ghost predicate SameFiles(files: seq<TaskFile>, others: seq<TaskFile>) {
    |files| == |others|
    && forall k :: 0 <= k < |files| ==> files[k].id == others[k].id && files[k].size == others[k].size
  }

  lemma SameIndex(files: seq<TaskFile>, others: seq<TaskFile>, id: string)
    requires SameFiles(files, others)
    ensures IndexOf(files, id) == IndexOf(others, id)
  {
    var i, j := IndexOf(files, id), IndexOf(others, id);
    assert i < |files| ==> others[i].id == id;
    assert j < |others| ==> files[j].id == id;
  }

  lemma OneEventKeepsFiles(task: Task, event: Event)
    ensures SameFiles(After(task, event).files, task.files)
  {
    hide IndexOf, SizeOf, TransferredOf;
  }

  lemma SameFilesThrough(files: seq<TaskFile>, between: seq<TaskFile>, others: seq<TaskFile>)
    requires SameFiles(files, between) && SameFiles(between, others)
    ensures SameFiles(files, others)
  {
  }

  lemma {:induction false} FilesStay(task: Task, events: seq<Event>)
    ensures SameFiles(AfterAll(task, events).files, task.files)
    decreases |events|
  {
    if events != [] {
      hide SameFiles, After;
      var before, event := AfterAll(task, events[..|events| - 1]), events[|events| - 1];
      FilesStay(task, events[..|events| - 1]);
      OneEventKeepsFiles(before, event);
      SameFilesThrough(After(before, event).files, before.files, task.files);
    }
  }

  /** A file counts more than its size exactly as long as it has since the start and no event has counted it anew. */
  lemma {:induction false} OverlongUntilRecounted(task: Task, events: seq<Event>, k: nat)
    requires k < |task.files|
    ensures
      var files := AfterAll(task, events).files;
      k < |files| && (files[k].transferred > files[k].size
        <==> task.files[k].transferred > task.files[k].size && !Recounted(task.files, k, events))
    decreases |events|
  {
    FilesStay(task, events);
    if events != [] {
      var last := |events| - 1;
      var before, event := AfterAll(task, events[..last]), events[last];
      FilesStay(task, events[..last]);
      OverlongUntilRecounted(task, events[..last], k);
      OverlongStep(before, event, k);
      RecountedOn(task.files, k, events);
      SameRecounts(before.files, task.files, k, event);
      hide Recounts, Recounted, After;
    }
  }

  lemma OverlongStep(task: Task, event: Event, k: nat)
    requires k < |task.files|
    ensures |After(task, event).files| == |task.files|
    ensures After(task, event).files[k].transferred > task.files[k].size
       <==> task.files[k].transferred > task.files[k].size && !Recounts(task.files, k, event)
  {
    hide IndexOf, SizeOf, TransferredOf;
  }

  lemma SameRecounts(files: seq<TaskFile>, others: seq<TaskFile>, k: nat, event: Event)
    requires SameFiles(files, others)
    ensures Recounts(files, k, event) <==> Recounts(others, k, event)
  {
    if event.Progress? || event.FinishFile? { SameIndex(files, others, event.id); }
  }

  lemma RecountedOn(files: seq<TaskFile>, k: nat, events: seq<Event>)
    requires events != []
    ensures Recounted(files, k, events)
       <==> Recounted(files, k, events[..|events| - 1]) || Recounts(files, k, events[|events| - 1])
  {
    var front := events[..|events| - 1];
    hide Recounts;
    if Recounted(files, k, front) {
      var i :| 0 <= i < |front| && Recounts(files, k, front[i]);
      assert events[i] == front[i];
    }
    if Recounted(files, k, events) {
      var i :| 0 <= i < |events| && Recounts(files, k, events[i]);
      assert i < |front| ==> front[i] == events[i];
    }
  }

  /**
   * Conservation over every sequence of events: the total never changes, the count shown is the sum over the files, and
   * it is an exact account, never above the total and equal to it when every file has all its bytes, exactly when each
   * file that was stored beyond its size has been counted anew.
   */
  lemma {:induction false} BytesAreConserved(status: TaskStatus, offers: seq<Offer>, events: seq<Event>)
    ensures
      var task, files := AfterAll(Created(status, offers), events), Listed(offers);
      && Summed(task)
      && task.total == SizeOf(files)
      && (Accounted(task) <==>
            forall k :: 0 <= k < |offers| && offers[k].stored > offers[k].size ==> Recounted(files, k, events))
      && (Accounted(task) ==>
            task.transferred <= task.total
            && (task.transferred == task.total <==> forall file <- task.files :: file.transferred == file.size))
  {
    var start, files := Created(status, offers), Listed(offers);
    var task := AfterAll(start, events);
    StaysSummedAll(start, events);
    FilesStay(start, events);
    hide AfterAll, Recounted, SizeOf, TransferredOf, Created;
    assert start.files == files by { CreatedFiles(status, offers); }
    forall k | 0 <= k < |files|
      ensures task.files[k].transferred > task.files[k].size
         <==> offers[k].stored > offers[k].size && !Recounted(files, k, events)
    {
      OverlongUntilRecounted(start, events, k);
    }
    if Accounted(task) {
      BoundedTransfer(task.files);
      forall k | 0 <= k < |offers| && offers[k].stored > offers[k].size
        ensures Recounted(files, k, events)
      {
        assert task.files[k] in task.files;
      }
    }
  }

  lemma CreatedFiles(status: TaskStatus, offers: seq<Offer>)
    ensures Created(status, offers).files == Listed(offers)
    ensures Summed(Created(status, offers)) && Created(status, offers).total == SizeOf(Listed(offers))
  {
  }

  lemma {:induction false} StaysSummedAll(task: Task, events: seq<Event>)
    requires Summed(task)
    ensures Summed(AfterAll(task, events)) && AfterAll(task, events).total == task.total
    decreases |events|
  {
    if events != [] {
      StaysSummedAll(task, events[..|events| - 1]);
      StaysSummed(AfterAll(task, events[..|events| - 1]), events[|events| - 1]);
    }
  }

  /** A file that has shrunk at its sender: more of it is stored than it has, and the count starts above the total. */
  lemma ShrunkFileOvercounts(status: TaskStatus, id: string, name: string, size: nat, stored: nat)
    ensures
      var task := Created(status, [Offer(id, name, size, stored)]);
      task.total == size && task.transferred == stored && (Accounted(task) <==> stored <= size)
  {
    var files := Listed([Offer(id, name, size, stored)]);
    assert files == [TaskFile(id, name, size, stored, FilePending)];
    assert files[..0] == [] && files[0] in files;
    assert SizeOf(files) == SizeOf(files[..0]) + size;
    assert TransferredOf(files) == TransferredOf(files[..0]) + stored;
  }

  // ---- Statuses ----

  predicate Terminal(status: TaskStatus) {
    status == TaskCompleted || status == TaskFailed || status == TaskCanceled
  }

  /** The event sets a task with these files running or waiting again, whatever its status. */
  predicate Revives(files: seq<TaskFile>, event: Event) {
    match event
    case Progress(id, _) => IndexOf(files, id) < |files|
    case Note(Some(status)) => !Terminal(status)
    case _ => false
  }

  predicate Ends(event: Event) {
    Stamps(event) || (event.Note? && event.task_status.Some? && Terminal(event.task_status.value))
  }

  /** The event sets the finishing time. */
  predicate Stamps(event: Event) { event.Succeed? || event.FailTask? || event.CancelTask? }

  /** A task with a terminal status leaves it by progress of a listed file or a note of another status, and only so. */
  lemma LateProgressRevives(task: Task, event: Event)
    requires Terminal(task.status)
    ensures !Terminal(After(task, event).status) <==> Revives(task.files, event)
    ensures task.stamped ==> After(task, event).stamped
  {
  }

  ghost predicate QuietSince(files: seq<TaskFile>, events: seq<Event>, k: nat) {
    forall j :: k <= j < |events| ==> !Revives(files, events[j])
  }

  ghost predicate EndsAt(files: seq<TaskFile>, events: seq<Event>, k: nat) {
    k < |events| && Ends(events[k]) && QuietSince(files, events, k + 1)
  }

  /** The task has ended and nothing has revived it since. */
  ghost predicate EndedForGood(task: Task, events: seq<Event>) {
    || (Terminal(task.status) && QuietSince(task.files, events, 0))
    || (exists k :: EndsAt(task.files, events, k))
  }

  lemma StatusMoves(task: Task, event: Event)
    ensures Revives(task.files, event) ==> !Terminal(After(task, event).status)
    ensures Ends(event) ==> Terminal(After(task, event).status) && !Revives(task.files, event)
    ensures !Revives(task.files, event) && !Ends(event) ==> After(task, event).status == task.status
  {
  }

  lemma QuietOn(files: seq<TaskFile>, events: seq<Event>, k: nat)
    requires events != [] && k < |events|
    ensures QuietSince(files, events, k)
       <==> QuietSince(files, events[..|events| - 1], k) && !Revives(files, events[|events| - 1])
  {
    hide Revives;
  }

  lemma EndedForGoodOn(task: Task, events: seq<Event>)
    requires events != []
    ensures EndedForGood(task, events)
       <==> !Revives(task.files, events[|events| - 1])
            && (Ends(events[|events| - 1]) || EndedForGood(task, events[..|events| - 1]))
  {
    var front, last := events[..|events| - 1], events[|events| - 1];
    QuietOn(task.files, events, 0);
    EndingIsNoRevival(task.files, last);
    hide Revives, Ends, QuietSince, EndsAt;
    forall k: nat
      ensures EndsAt(task.files, events, k)
         <==> if k == |front| then Ends(last) else EndsAt(task.files, front, k) && !Revives(task.files, last)
    {
      EndsAtOn(task.files, events, k);
    }
    if Ends(last) { assert EndsAt(task.files, events, |front|); }
    if EndedForGood(task, front) && !Revives(task.files, last) {
      if k :| EndsAt(task.files, front, k) {
        EndIsWithin(task.files, front, k);
        assert EndsAt(task.files, events, k);
      }
    }
  }

  lemma EndIsWithin(files: seq<TaskFile>, events: seq<Event>, k: nat)
    requires EndsAt(files, events, k)
    ensures k < |events|
  {
  }

  lemma EndsAtOn(files: seq<TaskFile>, events: seq<Event>, k: nat)
    requires events != []
    ensures
      var front, last := events[..|events| - 1], events[|events| - 1];
      EndsAt(files, events, k)
      <==> if k == |front| then Ends(last) else EndsAt(files, front, k) && !Revives(files, last)
  {
    if k + 1 < |events| {
      QuietOn(files, events, k + 1);
      hide QuietSince;
    }
    hide Revives, Ends;
  }

  lemma EndingIsNoRevival(files: seq<TaskFile>, event: Event)
    ensures Ends(event) ==> !Revives(files, event)
  {
  }

  lemma NothingHappened(task: Task)
    ensures Terminal(AfterAll(task, []).status) <==> EndedForGood(task, [])
  {
  }

  ghost predicate EverStamped(events: seq<Event>) { exists k :: 0 <= k < |events| && Stamps(events[k]) }

  lemma EverStampedOn(events: seq<Event>)
    requires events != []
    ensures EverStamped(events) <==> EverStamped(events[..|events| - 1]) || Stamps(events[|events| - 1])
  {
    hide Stamps;
    var front := events[..|events| - 1];
    if EverStamped(front) {
      var k :| 0 <= k < |front| && Stamps(front[k]);
      assert events[k] == front[k];
    }
    if EverStamped(events) {
      var k :| 0 <= k < |events| && Stamps(events[k]);
      assert k < |front| ==> front[k] == events[k];
    }
  }

  lemma {:induction false} StampedExactly(task: Task, events: seq<Event>)
    ensures AfterAll(task, events).stamped <==> task.stamped || EverStamped(events)
    decreases |events|
  {
    hide After, Stamps;
    if events == [] {
      assert !EverStamped(events);
    } else {
      var front, last := events[..|events| - 1], events[|events| - 1];
      StampedExactly(task, front);
      StampMoves(AfterAll(task, front), last);
      EverStampedOn(events);
      hide EverStamped;
    }
  }

  /**
   * After any events a task has a terminal status exactly when it has ended and nothing has revived it since. Its
   * finishing time tells only that it has ended at some time.
   */
  lemma {:induction false} TerminalExactly(task: Task, events: seq<Event>)
    ensures Terminal(AfterAll(task, events).status) <==> EndedForGood(task, events)
    ensures AfterAll(task, events).stamped <==> task.stamped || EverStamped(events)
    decreases |events|
  {
    StampedExactly(task, events);
    if events == [] {
      NothingHappened(task);
    } else {
      hide EndedForGood, Revives, Ends, Stamps, After, SameFiles, Terminal;
      var last := |events| - 1;
      var before := AfterAll(task, events[..last]);
      TerminalExactly(task, events[..last]);
      EndedForGoodOn(task, events);
      FilesStay(task, events[..last]);
      SameRevivers(before.files, task.files, events[last]);
      StatusMoves(before, events[last]);
    }
  }

  lemma StampMoves(task: Task, event: Event)
    ensures After(task, event).stamped <==> task.stamped || Stamps(event)
  {
  }

  lemma SameRevivers(files: seq<TaskFile>, others: seq<TaskFile>, event: Event)
    requires SameFiles(files, others)
    ensures Revives(files, event) <==> Revives(others, event)
  {
    if event.Progress? { SameIndex(files, others, event.id); }
  }

  /** Once the user has canceled, no later event clears the flag, and every failure then reads as canceled. */
  lemma {:induction false} CancelIsRemembered(task: Task, events: seq<Event>, message: string)
    requires task.cancel_flag
    ensures AfterAll(task, events).cancel_flag
    ensures After(AfterAll(task, events), FailTask(message)).status == TaskCanceled
    decreases |events|
  {
    if events != [] {
      CancelIsRemembered(task, events[..|events| - 1], message);
    }
  }

  // ---- The shared table ----

  class TaskTable {
    var tasks: map<string, Task>

    constructor ()
      ensures tasks == map[]
    {
      tasks := map[];
    }

    method SumTransferred(files: seq<TaskFile>) returns (total: nat)
      ensures total == TransferredOf(files)
    {
      total := 0;
      for k := 0 to |files|
        invariant total == TransferredOf(files[..k])
      {
        assert files[..k + 1][..k] == files[..k];
        total := total + files[k].transferred;
      }
      assert files[..|files|] == files;
    }

    method FindFile(files: seq<TaskFile>, id: string) returns (i: nat)
      ensures i == IndexOf(files, id)
    {
      i := 0;
      while i < |files| && files[i].id != id
        invariant i <= |files| && forall k :: 0 <= k < i ==> files[k].id != id
      {
        i := i + 1;
      }
      FirstIsUnique(files, id, i, IndexOf(files, id));
    }

    lemma FirstIsUnique(files: seq<TaskFile>, id: string, i: nat, j: nat)
      requires i <= |files| && (i < |files| ==> files[i].id == id) && forall k :: 0 <= k < i ==> files[k].id != id
      requires j <= |files| && (j < |files| ==> files[j].id == id) && forall k :: 0 <= k < j ==> files[k].id != id
      ensures i == j
    {
    }

    method CreateTask(task_id: string, status: TaskStatus, offers: seq<Offer>)
      modifies this
      ensures tasks == old(tasks)[task_id := Created(status, offers)]
      ensures
        var task := tasks[task_id];
        && task.files == Listed(offers) && task.total == SizeOf(task.files)
        && task.transferred == TransferredOf(task.files) && task.status == status
        && task.current_file == None && task.error == None && !task.stamped && !task.cancel_flag
    {
      var files: seq<TaskFile> := [];
      for k := 0 to |offers|
        invariant files == Listed(offers[..k])
      {
        assert offers[..k + 1][..k] == offers[..k];
        files := files + [TaskFile(offers[k].id, offers[k].name, offers[k].size, offers[k].stored, FilePending)];
      }
      assert offers[..|offers|] == offers;
      var total := SumSizes(files);
      var transferred := SumTransferred(files);
      tasks := tasks[task_id := Task(status, total, transferred, None, None, false, false, files)];
    }

    method SumSizes(files: seq<TaskFile>) returns (total: nat)
      ensures total == SizeOf(files)
    {
      total := 0;
      for k := 0 to |files|
        invariant total == SizeOf(files[..k])
      {
        assert files[..k + 1][..k] == files[..k];
        total := total + files[k].size;
      }
      assert files[..|files|] == files;
    }

    method UpdateFileProgress(task_id: string, file_id: string, bytes: nat)
      modifies this
      ensures tasks == if task_id in old(tasks)
        then old(tasks)[task_id := Progressed(old(tasks)[task_id], file_id, bytes)] else old(tasks)
      ensures task_id in old(tasks) ==>
        var before, i := old(tasks)[task_id], IndexOf(old(tasks)[task_id].files, file_id);
        if i == |before.files| then tasks == old(tasks)
        else
          var file := before.files[i];
          var counted := if bytes < file.size then bytes else file.size;
          var files := before.files[i := TaskFile(file_id, file.name, file.size, counted, FileRunning)];
          tasks == old(tasks)[task_id := before.(files := files, transferred := TransferredOf(files),
            status := TaskRunning, current_file := Some(file.name))]
    {
      if task_id !in tasks { return; }
      var task := tasks[task_id];
      assert tasks[task_id := task] == tasks;
      var i := FindFile(task.files, file_id);
      if i == |task.files| { return; }
      var file := task.files[i];
      file := file.(transferred := if bytes < file.size then bytes else file.size, status := FileRunning);
      var files := task.files[i := file];
      var transferred := SumTransferred(files);
      tasks := tasks[task_id := task.(files := files, transferred := transferred, status := TaskRunning,
        current_file := Some(file.name))];
    }

    method FinishTaskFile(task_id: string, file_id: string, status: FileStatus)
      modifies this
      ensures tasks == if task_id in old(tasks)
        then old(tasks)[task_id := FileFinished(old(tasks)[task_id], file_id, status)] else old(tasks)
      ensures task_id in old(tasks) ==>
        var before, i := old(tasks)[task_id], IndexOf(old(tasks)[task_id].files, file_id);
        var files :=
          if i == |before.files| then before.files
          else
            var file := before.files[i];
            var counted := if status == FileCompleted then file.size else file.transferred;
            before.files[i := TaskFile(file_id, file.name, file.size, counted, status)];
        tasks == old(tasks)[task_id := before.(files := files, transferred := TransferredOf(files))]
    {
      if task_id !in tasks { return; }
      var task := tasks[task_id];
      var i := FindFile(task.files, file_id);
      var files := task.files;
      if i < |files| {
        var file := files[i].(status := status);
        if status == FileCompleted {
          file := file.(transferred := file.size);
        }
        files := files[i := file];
      }
      var transferred := SumTransferred(files);
      tasks := tasks[task_id := task.(files := files, transferred := transferred)];
    }

    /** The task is completed, with its finishing time set and its counts and flag as they were. */
    method FinishSuccess(task_id: string)
      modifies this
      ensures tasks.Keys == old(tasks).Keys && forall id :: id in tasks && id != task_id ==> tasks[id] == old(tasks)[id]
      ensures task_id in tasks ==>
        var task, before := tasks[task_id], old(tasks)[task_id];
        && task.status == TaskCompleted && task.stamped && task.error == None && task.current_file == None
        && task.files == before.files && task.total == before.total && task.transferred == before.transferred
        && task.cancel_flag == before.cancel_flag
        && task == After(before, Succeed)
    {
      if task_id in tasks {
        tasks := tasks[task_id :=
          tasks[task_id].(status := TaskCompleted, current_file := None, error := None, stamped := true)];
      }
    }

    /** A failure reads as canceled exactly when the user has canceled; its message and its time are kept. */
    method FinishFailure(task_id: string, message: string)
      modifies this
      ensures tasks.Keys == old(tasks).Keys && forall id :: id in tasks && id != task_id ==> tasks[id] == old(tasks)[id]
      ensures task_id in tasks ==>
        var task, before := tasks[task_id], old(tasks)[task_id];
        && (task.status == TaskCanceled <==> before.cancel_flag) && (task.status == TaskFailed <==> !before.cancel_flag)
        && task.error == Some(message) && task.stamped && task.current_file == None
        && task.files == before.files && task.total == before.total && task.transferred == before.transferred
        && task.cancel_flag == before.cancel_flag
        && task == After(before, FailTask(message))
    {
      if task_id !in tasks { return; }
      var task := tasks[task_id];
      var status := TaskFailed;
      if task.cancel_flag {
        status := TaskCanceled;
      }
      tasks := tasks[task_id := task.(status := status, error := Some(message), current_file := None, stamped := true)];
    }

    /** Exactly a known task is canceled, whatever its status, and its flag is set for good. */
    method Cancel(task_id: string, message: string) returns (accepted: bool)
      modifies this
      ensures accepted <==> task_id in old(tasks)
      ensures tasks.Keys == old(tasks).Keys && forall id :: id in tasks && id != task_id ==> tasks[id] == old(tasks)[id]
      ensures accepted ==>
        var task, before := tasks[task_id], old(tasks)[task_id];
        && task.status == TaskCanceled && task.cancel_flag && task.error == Some(message) && task.stamped
        && task.files == before.files && task.total == before.total && task.transferred == before.transferred
        && task == After(before, CancelTask(message))
    {
      accepted := task_id in tasks;
      if accepted {
        tasks := tasks[task_id := tasks[task_id].(status := TaskCanceled, cancel_flag := true, error := Some(message),
          current_file := None, stamped := true)];
      }
    }
  }
}
