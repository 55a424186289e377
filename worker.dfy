/**
 * processTask: the stage state machine of one task. The task is set to
 * processing and saved; then four stages run in a fixed order, each one
 * appended as processing and saved before its work, and finished (completed,
 * or failed with the error text) and saved after it. The first failure ends
 * the run; after four completed stages the task is completed with its result
 * and saved once more.
 *
 * The work of every stage is an outcome given as a parameter, the clock is a
 * monotone sequence of readings, and every save is recorded in a ghost log of
 * the snapshots handed to the store, whatever the store's I/O does with them.
 */
module Worker {
  import opened Wrappers
  import opened Models
  import opened Storage

  const MediaStage := "Media Processing"
  const GridStage := "Grid Generation"
  const TranscribeStage := "Transcription"
  const GuideStage := "Study Guide Generation"
  const StageOrder: seq<string> := [MediaStage, GridStage, TranscribeStage, GuideStage]

  /** Later readings of the clock are never smaller. */
  ghost predicate Monotone(clock: nat -> nat) {
    forall i, j :: 0 <= i <= j ==> clock(i) <= clock(j)
  }

  predicate AllCompleted(stages: seq<Stage>) {
    forall i :: 0 <= i < |stages| ==> stages[i].status == Completed
  }

  /**
   * Stage i of n: named after its place in the order, never pending, with an
   * error text only when failed, and completed unless it is the last one.
   */
  predicate StageOk(s: Stage, i: nat, n: nat)
    requires i < |StageOrder|
  {
    && s.name == StageOrder[i]
    && s.status != Pending
    && (s.status != Failed ==> s.error == "")
    && (i < n - 1 ==> s.status == Completed)
  }

  /**
   * What every snapshot the worker saves satisfies: stages in the fixed
   * order, all but the last completed, the task failed exactly when its last
   * stage failed, and completed exactly when it has a result, which needs all
   * four stages completed.
   */
  predicate Consistent(t: Task) {
    && |t.stages| <= |StageOrder|
    && (forall i :: 0 <= i < |t.stages| ==> StageOk(t.stages[i], i, |t.stages|))
    && t.status != Pending
    && (t.status == Failed <==> t.stages != [] && Last(t.stages).status == Failed)
    && (t.status == Completed <==> t.result.Some?)
    && (t.status == Completed ==> |t.stages| == |StageOrder| && Last(t.stages).status == Completed)
    && t.createdAt <= t.updatedAt
  }

  /** A settled task is completed, with its result, exactly when all four stages completed. */
  lemma SettledTask(t: Task)
    requires Consistent(t) && t.status != Processing
    ensures t.status == Completed <==> t.result.Some?
    ensures t.status == Completed <==> |t.stages| == |StageOrder| && AllCompleted(t.stages)
    ensures t.status == Failed ==> t.result.None? && Last(t.stages).status == Failed
  {
    if |t.stages| == |StageOrder| && AllCompleted(t.stages) {
      assert Last(t.stages).status == Completed;
    }
  }

  /** A consistent task whose last stage completed has all its stages completed. */
  lemma CompletedThroughLast(t: Task)
    requires Consistent(t) && t.stages != [] && Last(t.stages).status == Completed
    ensures AllCompleted(t.stages)
  {
    forall i | 0 <= i < |t.stages|
      ensures t.stages[i].status == Completed
    {
      assert StageOk(t.stages[i], i, |t.stages|);
    }
  }

  /** processTask, start: the task is marked processing. */
  function Begun(t: Task, now: nat): (r: Task)
    requires t.stages == [] && t.result.None? && t.createdAt <= now
    ensures Consistent(r) && r.status == Processing && r.stages == []
  {
    t.(status := Processing, updatedAt := now)
  }

  /** addStage: the next stage in the order is appended as processing; the update time is left alone. */
  function WithNewStage(t: Task, now: nat): (r: Task)
    requires Consistent(t) && t.status == Processing
    requires |t.stages| < |StageOrder| && AllCompleted(t.stages)
    ensures Consistent(r) && r.status == Processing && r.updatedAt == t.updatedAt
    ensures |r.stages| == |t.stages| + 1 && r.stages[..|t.stages|] == t.stages
    ensures Last(r.stages) == Stage(StageOrder[|t.stages|], Processing, now, 0, "")
  {
    var s := Stage(StageOrder[|t.stages|], Processing, now, 0, "");
    AppendedStageOk(t.stages, s);
    assert (t.stages + [s])[..|t.stages|] == t.stages;
    t.(stages := t.stages + [s])
  }

  /** Appending the next stage, in progress, to completed stages keeps every stage well formed. */
  lemma AppendedStageOk(stages: seq<Stage>, s: Stage)
    requires |stages| < |StageOrder| && AllCompleted(stages)
    requires forall i :: 0 <= i < |stages| ==> StageOk(stages[i], i, |stages|)
    requires s == Stage(StageOrder[|stages|], Processing, s.startTime, 0, "")
    ensures forall i :: 0 <= i < |stages| + 1 ==> StageOk((stages + [s])[i], i, |stages| + 1)
  {
    forall i | 0 <= i < |stages| + 1
      ensures StageOk((stages + [s])[i], i, |stages| + 1)
    {
      if i < |stages| {
        assert (stages + [s])[i] == stages[i];
        assert StageOk(stages[i], i, |stages|);
      }
    }
  }

  /**
   * finishStage: the running stage gets its duration and becomes failed with
   * the error text (and so does the task) or completed; the update time is refreshed.
   */
  function WithFinishedStage(t: Task, err: Option<string>, end: nat, now: nat): (r: Task)
    requires Consistent(t) && t.status == Processing
    requires t.stages != [] && Last(t.stages).status == Processing
    requires Last(t.stages).startTime <= end && t.createdAt <= now
    ensures Consistent(r) && r.updatedAt == now
    ensures |r.stages| == |t.stages| && r.stages[..|t.stages| - 1] == t.stages[..|t.stages| - 1]
    ensures Last(r.stages).name == Last(t.stages).name && Last(r.stages).startTime == Last(t.stages).startTime
    ensures Last(r.stages).duration == end - Last(t.stages).startTime
    ensures err.Some? ==> r.status == Failed && Last(r.stages).status == Failed && Last(r.stages).error == err.value
    ensures err.None? ==> r.status == Processing && Last(r.stages).status == Completed
  {
    var n := |t.stages|;
    var s := Last(t.stages).(duration := end - Last(t.stages).startTime);
    if err.Some? then
      t.(stages := t.stages[n - 1 := s.(status := Failed, error := err.value)], status := Failed, updatedAt := now)
    else
      t.(stages := t.stages[n - 1 := s.(status := Completed)], updatedAt := now)
  }

  /** processTask, finalisation: after four completed stages the task is completed with its result. */
  function Finalized(t: Task, result: AnalysisResult, total: nat, now: nat): (r: Task)
    requires Consistent(t) && t.status == Processing
    requires |t.stages| == |StageOrder| && AllCompleted(t.stages) && t.createdAt <= now
    ensures Consistent(r) && r.status == Completed && r.result == Some(result) && r.stages == t.stages
    ensures r.totalTime == total && r.updatedAt == now
  {
    t.(status := Completed, totalTime := total, result := Some(result), updatedAt := now)
  }

  /** `b` is a later snapshot of the same task than `a`: stages only appended, a finished stage never changes, a settled task never changes. */
  predicate Extends(a: Task, b: Task) {
    && b.id == a.id && b.createdAt == a.createdAt
    && |a.stages| <= |b.stages|
    && (forall i :: 0 <= i < |a.stages| ==> StageKept(a.stages[i], b.stages[i]))
    && (a.status != Processing ==> b == a)
  }

  /** A later copy of a stage: same name and start; a finished stage is unchanged. */
  predicate StageKept(s: Stage, later: Stage) {
    later.name == s.name && later.startTime == s.startTime && (s.status != Processing ==> later == s)
  }

  /** The invariants of a sequence of saved snapshots: each one consistent, each one extending the one before. */
  predicate LogOk(log: seq<Task>)
    decreases |log|
  {
    log == [] ||
    (&& LogOk(log[..|log| - 1])
     && Consistent(Last(log))
     && (|log| > 1 ==> Extends(log[|log| - 2], Last(log))))
  }

  lemma LogOkSnoc(log: seq<Task>, t: Task)
    requires LogOk(log) && log != [] && Consistent(t) && Extends(Last(log), t)
    ensures LogOk(log + [t])
  {
    assert (log + [t])[..|log|] == log;
  }

  /** Every saved snapshot is consistent, and each one extends the one saved before it. */
  lemma {:induction false} LogOkEverywhere(log: seq<Task>)
    requires LogOk(log)
    ensures forall k :: 0 <= k < |log| ==> Consistent(log[k])
    ensures forall k :: 0 <= k < |log| - 1 ==> Extends(log[k], log[k + 1])
    decreases |log|
  {
    if log != [] {
      var before := log[..|log| - 1];
      LogOkEverywhere(before);
      forall k | 0 <= k < |log|
        ensures Consistent(log[k])
      {
        if k < |before| {
          assert log[k] == before[k];
        }
      }
      forall k | 0 <= k < |log| - 1
        ensures Extends(log[k], log[k + 1])
      {
        if k + 1 < |before| {
          assert log[k] == before[k] && log[k + 1] == before[k + 1];
        }
      }
    }
  }

  lemma NewStageExtends(t: Task, now: nat)
    requires Consistent(t) && t.status == Processing
    requires |t.stages| < |StageOrder| && AllCompleted(t.stages)
    ensures Extends(t, WithNewStage(t, now))
  {
    var r := WithNewStage(t, now);
    assert forall i :: 0 <= i < |t.stages| ==> r.stages[i] == t.stages[i];
  }

  lemma FinishedStageExtends(t: Task, err: Option<string>, end: nat, now: nat)
    requires Consistent(t) && t.status == Processing
    requires t.stages != [] && Last(t.stages).status == Processing
    requires Last(t.stages).startTime <= end && t.createdAt <= now
    ensures Extends(t, WithFinishedStage(t, err, end, now))
  {
    var r := WithFinishedStage(t, err, end, now);
    var n := |t.stages|;
    assert forall i :: 0 <= i < n - 1 ==> r.stages[i] == r.stages[..n - 1][i] == t.stages[..n - 1][i] == t.stages[i];
  }

  /** All snapshots in a log are of one task. */
  lemma {:induction false} LogSameTask(log: seq<Task>)
    requires LogOk(log)
    ensures forall k :: 0 <= k < |log| ==> log[k].id == log[0].id && log[k].createdAt == log[0].createdAt
    decreases |log|
  {
    if |log| > 1 {
      var before := log[..|log| - 1];
      LogSameTask(before);
      assert forall k :: 0 <= k < |before| ==> before[k] == log[k];
      assert Extends(log[|log| - 2], log[|log| - 1]);
    }
  }

  /** Snapshot 2i+1 of the log is the one saved when stage i was appended: it ends with stage i, in progress. */
  predicate SavedRunning(log: seq<Task>, i: nat) {
    && 2 * i + 1 < |log|
    && |log[2 * i + 1].stages| == i + 1
    && log[2 * i + 1].stages[i].status == Processing
  }

  /** One save at the start, two per stage (appended, finished) and one at completion; every stage was saved while running. */
  predicate Layout(log: seq<Task>, t: Task) {
    && |log| == 2 * |t.stages| + (if t.stages != [] && Last(t.stages).status == Processing then 0 else 1)
                + (if t.status == Completed then 1 else 0)
    && forall i :: 0 <= i < |t.stages| ==> SavedRunning(log, i)
  }

  lemma LayoutKept(log: seq<Task>, t: Task, i: nat)
    requires SavedRunning(log, i)
    ensures SavedRunning(log + [t], i)
  {
    assert (log + [t])[2 * i + 1] == log[2 * i + 1];
  }

  lemma LayoutAddStage(log: seq<Task>, t: Task, now: nat)
    requires Consistent(t) && t.status == Processing
    requires |t.stages| < |StageOrder| && AllCompleted(t.stages)
    requires Layout(log, t)
    ensures Layout(log + [WithNewStage(t, now)], WithNewStage(t, now))
  {
    var r := WithNewStage(t, now);
    forall i | 0 <= i < |r.stages|
      ensures SavedRunning(log + [r], i)
    {
      if i < |t.stages| {
        LayoutKept(log, r, i);
      }
    }
  }

  lemma LayoutFinishStage(log: seq<Task>, t: Task, err: Option<string>, end: nat, now: nat)
    requires Consistent(t) && t.status == Processing
    requires t.stages != [] && Last(t.stages).status == Processing
    requires Last(t.stages).startTime <= end && t.createdAt <= now
    requires Layout(log, t)
    ensures Layout(log + [WithFinishedStage(t, err, end, now)], WithFinishedStage(t, err, end, now))
  {
    var r := WithFinishedStage(t, err, end, now);
    forall i | 0 <= i < |r.stages|
      ensures SavedRunning(log + [r], i)
    {
      LayoutKept(log, r, i);
    }
  }

  lemma LayoutFinalized(log: seq<Task>, t: Task, result: AnalysisResult, total: nat, now: nat)
    requires Consistent(t) && t.status == Processing
    requires |t.stages| == |StageOrder| && AllCompleted(t.stages) && t.createdAt <= now
    requires Layout(log, t)
    ensures Layout(log + [Finalized(t, result, total, now)], Finalized(t, result, total, now))
  {
    var r := Finalized(t, result, total, now);
    assert Last(t.stages).status == Completed;
    forall i | 0 <= i < |r.stages|
      ensures SavedRunning(log + [r], i)
    {
      LayoutKept(log, r, i);
    }
  }

  /** The store's collection after the given saves, the k-th one with I/O outcome io(k). */
  function ApplySaves(tasks: seq<Task>, log: seq<Task>, io: nat -> IoFault): seq<Task>
    decreases |log|
  {
    if log == [] then tasks
    else ApplySave(ApplySaves(tasks, log[..|log| - 1], io), Last(log), io(|log| - 1))
  }

  /** Saves never create a duplicate id. */
  lemma {:induction false} SavesKeepIdsUnique(tasks: seq<Task>, log: seq<Task>, io: nat -> IoFault)
    requires UniqueIds(tasks)
    ensures UniqueIds(ApplySaves(tasks, log, io))
    decreases |log|
  {
    if log != [] {
      SavesKeepIdsUnique(tasks, log[..|log| - 1], io);
      UpsertKeepsIdsUnique(ApplySaves(tasks, log[..|log| - 1], io), Last(log));
    }
  }

  /** A poll after a save that reached the file sees that snapshot. */
  lemma PollSeesSave(tasks: seq<Task>, log: seq<Task>, io: nat -> IoFault)
    requires log != [] && io(|log| - 1).NoFault?
    ensures Find(ApplySaves(tasks, log, io), Last(log).id) == Some(Last(log))
  {
    SaveThenFind(ApplySaves(tasks, log[..|log| - 1], io), Last(log));
  }

  /** Saves of one task leave every other task's record as it was. */
  lemma {:induction false} SavesKeepOtherTasks(tasks: seq<Task>, log: seq<Task>, io: nat -> IoFault, id: string)
    requires forall k :: 0 <= k < |log| ==> log[k].id != id
    ensures Find(ApplySaves(tasks, log, io), id) == Find(tasks, id)
    decreases |log|
  {
    if log != [] {
      SavesKeepOtherTasks(tasks, log[..|log| - 1], io, id);
      SaveKeepsOtherLookups(ApplySaves(tasks, log[..|log| - 1], io), Last(log), id);
    }
  }

  /** Every stored record was there before or is one of the saved snapshots: no record is ever partial. */
  lemma {:induction false} StoredAreSnapshots(tasks: seq<Task>, log: seq<Task>, io: nat -> IoFault)
    ensures forall t :: t in ApplySaves(tasks, log, io) ==> t in tasks || t in log
    decreases |log|
  {
    if log != [] {
      var before := log[..|log| - 1];
      StoredAreSnapshots(tasks, before, io);
      UpsertRecords(ApplySaves(tasks, before, io), Last(log));
      assert forall t :: t in before ==> t in log;
    }
  }

  function ErrorOf<X>(r: Result<X, string>): Option<string> {
    if r.Failure? then Some(r.error) else None
  }

  /**
   * The join of the two media sub-operations in processTask: their errors
   * are received in arrival order and the first error received is the
   * stage's error. `snapshotFirst` says which one arrived first.
   */
  method JoinMedia(snapshotErr: Option<string>, audioErr: Option<string>, snapshotFirst: bool)
    returns (err: Option<string>)
    ensures err.None? <==> snapshotErr.None? && audioErr.None?
    ensures err.Some? ==> err == snapshotErr || err == audioErr
    ensures snapshotErr.Some? && audioErr.Some? ==> err == (if snapshotFirst then snapshotErr else audioErr)
  {
    var first, second := snapshotErr, audioErr;
    if !snapshotFirst {
      first, second := audioErr, snapshotErr;
    }
    var arrivals := [first, second];
    for i := 0 to 2
      invariant 1 <= i ==> first.None?
      invariant 2 <= i ==> second.None?
    {
      if arrivals[i].Some? {
        return arrivals[i];
      }
    }
    return None;
  }

  /**
   * How the final task follows from the stage outcomes: the stages run in
   * order while they succeed, each failed stage carries its own error, and
   * the task is completed, with its result, exactly when everything succeeded.
   */
  ghost predicate StagesFollow(task: Task, panicked: bool,
                               snapshotErr: Option<string>, audioErr: Option<string>, snapshotFirst: bool,
                               grids: Result<seq<string>, string>,
                               transcription: Result<seq<TimelineEntry>, string>,
                               guide: Result<StudyGuide, string>)
  {
    && 1 <= |task.stages|
    // media: completed iff both halves succeeded, else one of their errors, the first to arrive
    && (task.stages[0].status == Completed <==> snapshotErr.None? && audioErr.None?)
    && (task.stages[0].status == Failed ==> Some(task.stages[0].error) in {snapshotErr, audioErr})
    && (snapshotErr.Some? && audioErr.Some? ==>
          task.stages[0].error == (if snapshotFirst then snapshotErr.value else audioErr.value))
    // grids
    && (2 <= |task.stages| <==> task.stages[0].status == Completed)
    && (2 <= |task.stages| ==> (task.stages[1].status == Completed <==> grids.Success?))
    && (2 <= |task.stages| && grids.Failure? ==> task.stages[1].error == grids.error)
    // transcription
    && (3 <= |task.stages| <==> 2 <= |task.stages| && grids.Success?)
    && (3 <= |task.stages| ==> (task.stages[2].status == Completed <==> transcription.Success?))
    && (3 <= |task.stages| && transcription.Failure? ==> task.stages[2].error == transcription.error)
    // study guide, and the panic on an empty grid list
    && (4 == |task.stages| <==> 3 <= |task.stages| && transcription.Success?)
    && (panicked <==> 4 == |task.stages| && grids == Success([]))
    && (panicked <==> task.status == Processing)
    && (panicked ==> Last(task.stages).status == Processing)
    && (4 == |task.stages| && !panicked ==> (task.stages[3].status == Completed <==> guide.Success?))
    && (4 == |task.stages| && !panicked && guide.Failure? ==> task.stages[3].error == guide.error)
    // completion
    && (task.status == Completed <==>
          snapshotErr.None? && audioErr.None? && grids.Success? && grids.value != []
          && transcription.Success? && guide.Success?)
    && (task.status == Completed ==>
          task.result == Some(AnalysisResult(transcription.value, guide.value, grids.value[0])))
  }

  /** The panic at grids[0] leaves the guide stage running after three completed stages, and that is what StagesFollow says of it. */
  lemma PanicFollows(task: Task, snapshotErr: Option<string>, audioErr: Option<string>, snapshotFirst: bool,
                     grids: Result<seq<string>, string>,
                     transcription: Result<seq<TimelineEntry>, string>,
                     guide: Result<StudyGuide, string>)
    requires snapshotErr.None? && audioErr.None? && grids == Success([]) && transcription.Success?
    requires |task.stages| == 4 && task.status == Processing
    requires forall i :: 0 <= i < 3 ==> task.stages[i].status == Completed
    requires task.stages[3].status == Processing
    ensures StagesFollow(task, true, snapshotErr, audioErr, snapshotFirst, grids, transcription, guide)
  {
  }

  /**
   * The environment of one processTask call: the task being processed, the
   * store it is saved to, the clock and the I/O outcome of every save, and
   * the ghost log of saved snapshots. Its methods are the closures
   * addStage and finishStage and the steps around them.
   */
  class TaskRun {
    var task: Task
    const startTime: nat
    var ticks: nat
    var saves: nat
    const store: StatusStore
    const clock: nat -> nat
    const io: nat -> IoFault
    ghost const initial: seq<Task>
    ghost var log: seq<Task>

    ghost predicate Valid()
      reads this, store
    {
      && Monotone(clock)
      && saves == |log|
      && log != [] && Last(log) == task
      && LogOk(log) && Consistent(task)
      && store.tasks == ApplySaves(initial, log, io)
      && Layout(log, task)
      && task.createdAt <= clock(ticks)
      && startTime <= clock(ticks)
      && (task.stages != [] ==> Last(task.stages).startTime <= clock(ticks))
    }

    /** processTask, start: mark the task processing, note the start time, save. */
    constructor (store: StatusStore, task0: Task, clock: nat -> nat, io: nat -> IoFault)
      requires Monotone(clock)
      requires task0.stages == [] && task0.result.None? && task0.createdAt <= clock(0)
      modifies store
      ensures Valid() && this.store == store && this.clock == clock && this.io == io
      ensures initial == old(store.tasks)
      ensures task == Begun(task0, clock(0)) && log == [task]
      ensures startTime == clock(1) && ticks == 2
    {
      this.store := store;
      this.clock := clock;
      this.io := io;
      initial := store.tasks;
      task := Begun(task0, clock(0));
      startTime := clock(1);
      ticks := 2;
      saves := 0;
      log := [];
      new;
      Persist();
    }

    /** One SaveTask call; its error is dropped, as the worker drops it. */
    method Persist()
      requires saves == |log| && store.tasks == ApplySaves(initial, log, io)
      modifies this`saves, this`log, store
      ensures saves == |log| && log == old(log) + [task]
      ensures store.tasks == ApplySaves(initial, log, io)
    {
      var ignored := store.SaveTask(task, io(saves));
      log := log + [task];
      saves := saves + 1;
      assert log[..|log| - 1] == old(log);
    }

    /** addStage: append the next stage as processing and save. */
    method AddStage()
      requires Valid() && task.status == Processing
      requires |task.stages| < |StageOrder| && AllCompleted(task.stages)
      modifies this, store
      ensures Valid()
      ensures task == WithNewStage(old(task), clock(old(ticks))) && ticks == old(ticks) + 1
      ensures log == old(log) + [task]
    {
      var now := clock(ticks);
      ticks := ticks + 1;
      NewStageExtends(task, now);
      LayoutAddStage(log, task, now);
      task := WithNewStage(task, now);
      ghost var before := log;
      Persist();
      LogOkSnoc(before, task);
    }

    /** finishStage: record the outcome of the running stage and save. */
    method FinishStage(err: Option<string>)
      requires Valid() && task.status == Processing
      requires task.stages != [] && Last(task.stages).status == Processing
      modifies this, store
      ensures Valid()
      ensures task == WithFinishedStage(old(task), err, clock(old(ticks)), clock(old(ticks) + 1))
      ensures ticks == old(ticks) + 2
      ensures log == old(log) + [task]
    {
      var end, now := clock(ticks), clock(ticks + 1);
      ticks := ticks + 2;
      FinishedStageExtends(task, err, end, now);
      LayoutFinishStage(log, task, err, end, now);
      task := WithFinishedStage(task, err, end, now);
      ghost var before := log;
      Persist();
      LogOkSnoc(before, task);
    }

    /** processTask, finalisation: complete the task with its result and save. */
    method Complete(result: AnalysisResult)
      requires Valid() && task.status == Processing
      requires |task.stages| == |StageOrder| && AllCompleted(task.stages)
      modifies this, store
      ensures Valid()
      ensures startTime <= clock(old(ticks))
      ensures task == Finalized(old(task), result, clock(old(ticks)) - startTime, clock(old(ticks) + 1))
      ensures log == old(log) + [task]
    {
      var end, now := clock(ticks), clock(ticks + 1);
      ticks := ticks + 2;
      LayoutFinalized(log, task, result, end - startTime, now);
      task := Finalized(task, result, end - startTime, now);
      ghost var before := log;
      Persist();
      LogOkSnoc(before, task);
    }

    /** One stage whose work has the outcome `err`: addStage, then finishStage. */
    method RunStage(err: Option<string>)
      requires Valid() && task.status == Processing
      requires |task.stages| < |StageOrder| && AllCompleted(task.stages)
      modifies this, store
      ensures Valid() && old(log) <= log
      ensures task == WithFinishedStage(WithNewStage(old(task), clock(old(ticks))), err,
                                        clock(old(ticks) + 1), clock(old(ticks) + 2))
      ensures ticks == old(ticks) + 3
    {
      AddStage();
      FinishStage(err);
    }

    /** processTask, stage 1 and on: the four stages in order, stopping at the first failure. */
    method RunStages(snapshotErr: Option<string>, audioErr: Option<string>, snapshotFirst: bool,
                     grids: Result<seq<string>, string>,
                     transcription: Result<seq<TimelineEntry>, string>,
                     guide: Result<StudyGuide, string>)
      returns (panicked: bool)
      requires Valid() && task.status == Processing && task.stages == []
      modifies this, store
      ensures Valid() && old(log) <= log
      ensures StagesFollow(task, panicked, snapshotErr, audioErr, snapshotFirst, grids, transcription, guide)
      ensures task.status == Completed ==>
                task.totalTime == clock(old(ticks) + 12) - startTime && task.updatedAt == clock(old(ticks) + 13)
    {
      panicked := false;
      // 1. media: snapshots and audio in parallel
      var mediaErr := JoinMedia(snapshotErr, audioErr, snapshotFirst);
      RunStage(mediaErr);
      if mediaErr.Some? {
        return;
      }
      CompletedThroughLast(task);
      panicked := GridStage(snapshotErr, audioErr, snapshotFirst, grids, transcription, guide);
    }

    /** processTask, stage 2: the grid stage, once media has completed; then the later stages. */
    method GridStage(snapshotErr: Option<string>, audioErr: Option<string>, snapshotFirst: bool,
                     grids: Result<seq<string>, string>,
                     transcription: Result<seq<TimelineEntry>, string>,
                     guide: Result<StudyGuide, string>)
      returns (panicked: bool)
      requires snapshotErr.None? && audioErr.None?
      requires Valid() && task.status == Processing && |task.stages| == 1 && AllCompleted(task.stages)
      modifies this, store
      ensures Valid() && old(log) <= log
      ensures StagesFollow(task, panicked, snapshotErr, audioErr, snapshotFirst, grids, transcription, guide)
      ensures task.status == Completed ==>
                task.totalTime == clock(old(ticks) + 9) - startTime && task.updatedAt == clock(old(ticks) + 10)
    {
      panicked := false;
      ghost var s1 := task.stages;
      RunStage(ErrorOf(grids));
      if grids.Failure? {
        assert task.stages[0] == task.stages[..1][0] == s1[0];
        return;
      }
      assert task.stages[0] == task.stages[..1][0] == s1[0];
      CompletedThroughLast(task);
      panicked := LaterStages(snapshotErr, audioErr, snapshotFirst, grids, transcription, guide);
    }

    /** processTask, stage 3: the transcription stage, once media and grids have completed; then the study guide. */
    method LaterStages(snapshotErr: Option<string>, audioErr: Option<string>, snapshotFirst: bool,
                       grids: Result<seq<string>, string>,
                       transcription: Result<seq<TimelineEntry>, string>,
                       guide: Result<StudyGuide, string>)
      returns (panicked: bool)
      requires snapshotErr.None? && audioErr.None? && grids.Success?
      requires Valid() && task.status == Processing && |task.stages| == 2 && AllCompleted(task.stages)
      modifies this, store
      ensures Valid() && old(log) <= log
      ensures StagesFollow(task, panicked, snapshotErr, audioErr, snapshotFirst, grids, transcription, guide)
      ensures task.status == Completed ==>
                task.totalTime == clock(old(ticks) + 6) - startTime && task.updatedAt == clock(old(ticks) + 7)
    {
      panicked := false;
      ghost var s2 := task.stages;
      // 3. transcription
      RunStage(ErrorOf(transcription));
      if transcription.Failure? {
        assert task.stages[0] == task.stages[..2][0] == s2[0];
        assert task.stages[1] == task.stages[..2][1] == s2[1];
        return;
      }
      ghost var s3 := task.stages;
      assert forall i :: 0 <= i < 2 ==> s3[i] == s3[..2][i] == s2[i];
      CompletedThroughLast(task);
      panicked := GuideStage(snapshotErr, audioErr, snapshotFirst, grids, transcription, guide);
    }

    /** processTask, stage 4: the study guide stage, once the first three have completed. */
    method GuideStage(snapshotErr: Option<string>, audioErr: Option<string>, snapshotFirst: bool,
                      grids: Result<seq<string>, string>,
                      transcription: Result<seq<TimelineEntry>, string>,
                      guide: Result<StudyGuide, string>)
      returns (panicked: bool)
      requires snapshotErr.None? && audioErr.None? && grids.Success? && transcription.Success?
      requires Valid() && task.status == Processing && |task.stages| == 3 && AllCompleted(task.stages)
      modifies this, store
      ensures Valid() && old(log) <= log
      ensures StagesFollow(task, panicked, snapshotErr, audioErr, snapshotFirst, grids, transcription, guide)
      ensures task.status == Completed ==>
                task.totalTime == clock(old(ticks) + 3) - startTime && task.updatedAt == clock(old(ticks) + 4)
    {
      panicked := false;
      ghost var s3 := task.stages;
      AddStage();
      ghost var s4 := task.stages;
      assert forall i :: 0 <= i < 3 ==> s4[i] == s4[..3][i] == s3[i];
      if grids.value == [] {
        // grids[0] on an empty list: the run panics here
        PanicFollows(task, snapshotErr, audioErr, snapshotFirst, grids, transcription, guide);
        return true;
      }
      panicked := FinishGuide(snapshotErr, audioErr, snapshotFirst, grids, transcription, guide);
    }

    /** processTask, stage 4 and finalisation: the study guide's outcome, then completion. */
    method FinishGuide(snapshotErr: Option<string>, audioErr: Option<string>, snapshotFirst: bool,
                       grids: Result<seq<string>, string>,
                       transcription: Result<seq<TimelineEntry>, string>,
                       guide: Result<StudyGuide, string>)
      returns (panicked: bool)
      requires snapshotErr.None? && audioErr.None? && grids.Success? && grids.value != [] && transcription.Success?
      requires Valid() && task.status == Processing && |task.stages| == 4
      requires forall i :: 0 <= i < 3 ==> task.stages[i].status == Completed
      requires Last(task.stages).status == Processing
      modifies this, store
      ensures Valid() && old(log) <= log
      ensures StagesFollow(task, panicked, snapshotErr, audioErr, snapshotFirst, grids, transcription, guide)
      ensures task.status == Completed ==>
                task.totalTime == clock(old(ticks) + 2) - startTime && task.updatedAt == clock(old(ticks) + 3)
    {
      panicked := false;
      ghost var s4 := task.stages;
      FinishStage(ErrorOf(guide));
      ghost var s5 := task.stages;
      assert forall i :: 0 <= i < 3 ==> s5[i] == s5[..3][i] == s4[i];
      if guide.Failure? {
        return;
      }
      CompletedThroughLast(task);
      Complete(AnalysisResult(transcription.value, guide.value, grids.value[0]));
    }
  }

  /**
   * processTask. The work of each stage is given as its
   * outcome: the snapshot and audio errors of the media fork and which of
   * them arrived first, the grid paths, the transcription and the guide.
   * `panicked` is the index of grids[0] on an empty grid list in the study guide stage,
   * which ends the run with the guide stage still saved as processing.
   */
  method ProcessTask(store: StatusStore, task0: Task, clock: nat -> nat, io: nat -> IoFault,
                     snapshotErr: Option<string>, audioErr: Option<string>, snapshotFirst: bool,
                     grids: Result<seq<string>, string>,
                     transcription: Result<seq<TimelineEntry>, string>,
                     guide: Result<StudyGuide, string>)
    returns (task: Task, panicked: bool, ghost log: seq<Task>)
    requires Monotone(clock)
    requires task0.stages == [] && task0.result.None? && task0.createdAt <= clock(0)
    modifies store
    // what the saves leave in the store, and what a poller sees
    ensures store.tasks == ApplySaves(old(store.tasks), log, io)
    ensures forall k :: 0 <= k < |log| ==> log[k].id == task0.id
    ensures log != [] && log[0] == Begun(task0, clock(0)) && Last(log) == task
    ensures io(|log| - 1).NoFault? ==> Find(store.tasks, task0.id) == Some(task)
    ensures forall id :: id != task0.id ==> Find(store.tasks, id) == Find(old(store.tasks), id)
    // the saved snapshots
    ensures forall k :: 0 <= k < |log| ==> Consistent(log[k])
    ensures forall k :: 0 <= k < |log| - 1 ==> Extends(log[k], log[k + 1])
    ensures Layout(log, task)
    ensures StagesFollow(task, panicked, snapshotErr, audioErr, snapshotFirst, grids, transcription, guide)
    // the total time runs from the start reading to the reading at completion
    ensures task.status == Completed ==> task.totalTime == clock(14) - clock(1) && task.updatedAt == clock(15)
  {
    var run := new TaskRun(store, task0, clock, io);
    panicked := run.RunStages(snapshotErr, audioErr, snapshotFirst, grids, transcription, guide);
    task, log := run.task, run.log;
    LogOkEverywhere(log);
    LogSameTask(log);
    forall id | id != task0.id
      ensures Find(store.tasks, id) == Find(old(store.tasks), id)
    {
      SavesKeepOtherTasks(old(store.tasks), log, io, id);
    }
    if io(|log| - 1).NoFault? {
      PollSeesSave(old(store.tasks), log, io);
    }
  }
}
