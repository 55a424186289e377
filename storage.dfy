/**
 * The status store: one collection of task records, upserted by id on save
 * and scanned linearly on lookup. The JSON file behind it is modelled as the
 * sequence it decodes to; a read or write failure is an explicit outcome.
 */
module Storage {
  import opened Wrappers
  import opened Models

  /** What the file I/O of one save does: nothing goes wrong, the read fails, or the write fails. */
  datatype IoFault = NoFault | ReadFault(readError: string) | WriteFault(writeError: string)

  /** No two records share an id. */
  predicate UniqueIds(tasks: seq<Task>) {
    forall i, j :: 0 <= i < j < |tasks| ==> tasks[i].id != tasks[j].id
  }

  /** The index of the first record with this id, as the scans stop at the first match. */
  function IndexOf(tasks: seq<Task>, id: string): (r: Option<nat>)
    ensures r.Some? ==> r.value < |tasks| && tasks[r.value].id == id
    ensures r.Some? ==> forall j :: 0 <= j < r.value ==> tasks[j].id != id
    ensures r.None? <==> forall j :: 0 <= j < |tasks| ==> tasks[j].id != id
  {
    if tasks == [] then None
    else if tasks[0].id == id then Some(0)
    else match IndexOf(tasks[1..], id)
      case None => None
      case Some(k) => Some(k + 1)
  }

  /** The first match is unique: an index whose record matches, with none matching before it, is the one IndexOf finds. */
  lemma IndexOfFirst(tasks: seq<Task>, id: string, i: nat)
    requires i < |tasks| && tasks[i].id == id
    requires forall j :: 0 <= j < i ==> tasks[j].id != id
    ensures IndexOf(tasks, id) == Some(i)
  {
  }

  /** The record a lookup returns: the first one with this id, or nothing. */
  function Find(tasks: seq<Task>, id: string): Option<Task> {
    match IndexOf(tasks, id)
    case None => None
    case Some(i) => Some(tasks[i])
  }

  /** Replace the first record with the same id in place, or append when there is none. */
  function Upsert(tasks: seq<Task>, task: Task): seq<Task> {
    match IndexOf(tasks, task.id)
    case Some(i) => tasks[i := task]
    case None => tasks + [task]
  }

  /** The collection after one save with the given I/O outcome. */
  function ApplySave(tasks: seq<Task>, task: Task, io: IoFault): seq<Task> {
    if io.NoFault? then Upsert(tasks, task) else tasks
  }

  /** A save of a stored id keeps the length and puts the new record where the old one was. */
  lemma UpsertReplaces(tasks: seq<Task>, task: Task, i: nat)
    requires i < |tasks| && tasks[i].id == task.id
    requires forall j :: 0 <= j < i ==> tasks[j].id != task.id
    ensures |Upsert(tasks, task)| == |tasks|
    ensures Upsert(tasks, task)[i] == task
    ensures forall j :: 0 <= j < |tasks| && j != i ==> Upsert(tasks, task)[j] == tasks[j]
  {
    IndexOfFirst(tasks, task.id, i);
  }

  /** A save of a new id appends the record after all the others. */
  lemma UpsertAppends(tasks: seq<Task>, task: Task)
    requires forall j :: 0 <= j < |tasks| ==> tasks[j].id != task.id
    ensures Upsert(tasks, task) == tasks + [task]
  {
  }

  /** Records with other ids keep their value and their position. */
  lemma UpsertKeepsOthers(tasks: seq<Task>, task: Task, j: nat)
    requires j < |tasks| && tasks[j].id != task.id
    ensures j < |Upsert(tasks, task)| && Upsert(tasks, task)[j] == tasks[j]
  {
  }

  /** Last write wins: a lookup right after a save returns the saved record. */
  lemma SaveThenFind(tasks: seq<Task>, task: Task)
    ensures Find(Upsert(tasks, task), task.id) == Some(task)
  {
    var r := Upsert(tasks, task);
    match IndexOf(tasks, task.id)
    case Some(i) =>
      IndexOfFirst(r, task.id, i);
    case None =>
      IndexOfFirst(r, task.id, |tasks|);
  }

  /** A save changes no lookup of another id. */
  lemma SaveKeepsOtherLookups(tasks: seq<Task>, task: Task, id: string)
    requires id != task.id
    ensures Find(Upsert(tasks, task), id) == Find(tasks, id)
  {
    var r := Upsert(tasks, task);
    assert |r| >= |tasks|;
    assert forall j :: 0 <= j < |tasks| ==> (r[j].id == id <==> tasks[j].id == id);
    match IndexOf(tasks, id)
    case Some(i) =>
      IndexOfFirst(r, id, i);
    case None =>
      assert forall j :: 0 <= j < |r| ==> r[j].id != id;
  }

  /** A save never creates a duplicate id. */
  lemma UpsertKeepsIdsUnique(tasks: seq<Task>, task: Task)
    requires UniqueIds(tasks)
    ensures UniqueIds(Upsert(tasks, task))
  {
    var r := Upsert(tasks, task);
    match IndexOf(tasks, task.id)
    case Some(i) =>
      forall a, b | 0 <= a < b < |r| ensures r[a].id != r[b].id {
        if a == i { assert r[b] == tasks[b]; }
        else if b == i { assert r[a] == tasks[a]; }
      }
    case None =>
  }

  /** Saving the same record twice leaves what saving it once leaves. */
  lemma UpsertIdempotent(tasks: seq<Task>, task: Task)
    ensures Upsert(Upsert(tasks, task), task) == Upsert(tasks, task)
  {
    var r := Upsert(tasks, task);
    match IndexOf(tasks, task.id)
    case Some(i) =>
      IndexOfFirst(r, task.id, i);
      assert r[i := task] == r;
    case None =>
      IndexOfFirst(r, task.id, |tasks|);
      assert r[|tasks| := task] == r;
  }

  /** Every stored record is either one that was there before or the one just saved. */
  lemma UpsertRecords(tasks: seq<Task>, task: Task)
    ensures forall t :: t in Upsert(tasks, task) ==> t in tasks || t == task
  {
    match IndexOf(tasks, task.id)
    case Some(i) =>
      forall t | t in tasks[i := task] ensures t in tasks || t == task {
        var k :| 0 <= k < |tasks| && tasks[i := task][k] == t;
        if k != i { assert tasks[k] == t; }
      }
    case None =>
  }

  /** The status store over the decoded collection of task records. */
  class StatusStore {
    var tasks: seq<Task>

    /** Opens the store: the existing collection, or an empty one when the file is missing. */
    constructor (existing: Option<seq<Task>>)
      ensures tasks == existing.GetOr([])
    {
      tasks := existing.GetOr([]);
    }

    /**
     * Upsert by id. A read failure returns that error before anything is
     * written; a write failure returns that error and the collection keeps
     * its old value.
     */
    method SaveTask(task: Task, io: IoFault) returns (err: Option<string>)
      modifies this
      ensures io.ReadFault? ==> err == Some(io.readError)
      ensures io.WriteFault? ==> err == Some(io.writeError)
      ensures io.NoFault? ==> err.None?
      ensures tasks == ApplySave(old(tasks), task, io)
    {
      if io.ReadFault? {
        return Some(io.readError);
      }
      var ts := tasks;
      var found := false;
      var i := 0;
      while i < |ts|
        invariant 0 <= i <= |ts| == |tasks|
        invariant ts == tasks
        invariant forall j :: 0 <= j < i ==> tasks[j].id != task.id
      {
        if ts[i].id == task.id {
          ts := ts[i := task];
          found := true;
          break;
        }
        i := i + 1;
      }
      if !found {
        ts := ts + [task];
      }
      if io.WriteFault? {
        return Some(io.writeError);
      }
      tasks := ts;
      err := None;
    }

    /**
     * Lookup by id: the first record with that id, `None` (not an error)
     * when there is none, and the read error when the collection cannot be read.
     */
    method GetTask(id: string, readErr: Option<string>) returns (r: Result<Option<Task>, string>)
      ensures readErr.Some? ==> r == Failure(readErr.value)
      ensures readErr.None? ==> r == Success(Find(tasks, id))
    {
      if readErr.Some? {
        return Failure(readErr.value);
      }
      var i := 0;
      while i < |tasks|
        invariant 0 <= i <= |tasks|
        invariant forall j :: 0 <= j < i ==> tasks[j].id != id
      {
        if tasks[i].id == id {
          return Success(Some(tasks[i]));
        }
        i := i + 1;
      }
      return Success(None);
    }
  }
}
