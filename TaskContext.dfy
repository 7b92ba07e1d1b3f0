/** The task store: one list of tasks, newest first, replaced wholesale by
    `addTask`, `updateTask` and `deleteTask`. */
module TaskContext {
  import opened Wrappers
  import opened Seqs
  import opened Types

  const MissingProviderMessage := "useTaskContext must be used within a TaskProvider"

  /** Some task in the list has this id. */
  predicate HasTask(tasks: seq<Task>, id: string) {
    exists i :: 0 <= i < |tasks| && tasks[i].id == id
  }

  /** No two tasks share an id. */
  predicate UniqueIds(tasks: seq<Task>) {
    forall i, j :: 0 <= i < j < |tasks| ==> tasks[i].id != tasks[j].id
  }

  /** `{ ...taskData, id, createdAt }`: the fields the caller gave, plus the generated ones. */
  function NewTask(data: TaskFields, id: string, createdAt: int): (t: Task)
    ensures FieldsOf(t) == data && t.id == id && t.createdAt == createdAt
  {
    Task(id, data.title, data.description, data.priority, data.status, data.assigneeId, createdAt)
  }

  /** `[newTask, ...prev]`. */
  function Added(tasks: seq<Task>, data: TaskFields, id: string, createdAt: int): (r: seq<Task>)
    ensures |r| == |tasks| + 1 && r[1..] == tasks
    ensures FieldsOf(r[0]) == data && r[0].id == id && r[0].createdAt == createdAt
  {
    [NewTask(data, id, createdAt)] + tasks
  }

  /** `{ ...task, ...updatedFields }`: each key the patch has wins, every other key is kept. */
  function Merge(t: Task, p: TaskPatch): (m: Task)
    ensures p == EmptyPatch ==> m == t
    ensures p.id.None? ==> m.id == t.id
    ensures p.createdAt.None? ==> m.createdAt == t.createdAt
    ensures p.status.Some? ==> m.status == p.status.value
  {
    Task(
      p.id.GetOr(t.id),
      p.title.GetOr(t.title),
      p.description.GetOr(t.description),
      p.priority.GetOr(t.priority),
      p.status.GetOr(t.status),
      p.assigneeId.GetOr(t.assigneeId),
      p.createdAt.GetOr(t.createdAt))
  }

  /** `prev.map(task => task.id === id ? { ...task, ...updatedFields } : task)`. */
  function Updated(tasks: seq<Task>, id: string, p: TaskPatch): (r: seq<Task>)
    ensures |r| == |tasks|
    ensures forall i :: 0 <= i < |tasks| ==>
      r[i] == if tasks[i].id == id then Merge(tasks[i], p) else tasks[i]
  {
    Map(tasks, (t: Task) => if t.id == id then Merge(t, p) else t)
  }

  /** `prev.filter(task => task.id !== id)`. */
  function Deleted(tasks: seq<Task>, id: string): (r: seq<Task>)
    ensures forall t :: t in r <==> t in tasks && t.id != id
    ensures !HasTask(r, id)
  {
    var r := Filter(tasks, (t: Task) => t.id != id);
    assert forall i :: 0 <= i < |r| ==> r[i] in r;
    r
  }

  /** A patch as the form and the drag handler build it: without the `id` and `createdAt` keys. */
  predicate KeepsIdentity(p: TaskPatch) {
    p.id.None? && p.createdAt.None?
  }

  /** The patch `{ status }` that a drop into another column sends. */
  function StatusPatch(s: Status): (p: TaskPatch)
    ensures KeepsIdentity(p)
    ensures p.status == Some(s) && p.(status := None) == EmptyPatch
  {
    EmptyPatch.(status := Some(s))
  }

  /** The patch that `taskData` is when the form passes it to `updateTask`: every editable key present. */
  function FieldsAsPatch(f: TaskFields): (p: TaskPatch)
    ensures KeepsIdentity(p)
  {
    TaskPatch(None, Some(f.title), Some(f.description), Some(f.priority), Some(f.status), Some(f.assigneeId), None)
  }

  // ---- properties of the transforms ----

  /** With a generated id that no task has yet, adding keeps the ids unique. */
  lemma AddPreservesUniqueIds(tasks: seq<Task>, data: TaskFields, id: string, now: int)
    requires UniqueIds(tasks) && !HasTask(tasks, id)
    ensures UniqueIds(Added(tasks, data, id, now))
  {
    var r := Added(tasks, data, id, now);
    forall i, j | 0 <= i < j < |r| ensures r[i].id != r[j].id {
      if i == 0 {
        assert r[j] == tasks[j - 1];
      } else {
        assert r[i] == tasks[i - 1] && r[j] == tasks[j - 1];
      }
    }
  }

  /** Deleting the task just added restores the list before the add (when the id was fresh). */
  lemma DeleteUndoesAdd(tasks: seq<Task>, data: TaskFields, id: string, now: int)
    requires !HasTask(tasks, id)
    ensures Deleted(Added(tasks, data, id, now), id) == tasks
  {
    var r := Added(tasks, data, id, now);
    assert r[1..] == tasks;
    assert Filter(r, (t: Task) => t.id != id) == Filter(tasks, (t: Task) => t.id != id);
    forall i | 0 <= i < |tasks| ensures tasks[i].id != id {
    }
    FilterKeepsAll(tasks, (t: Task) => t.id != id);
  }

  /** The empty patch and repeating a patch change nothing. */
  lemma MergeLaws(t: Task, p: TaskPatch)
    ensures Merge(t, EmptyPatch) == t
    ensures Merge(Merge(t, p), p) == Merge(t, p)
  {
  }

  /** A patch without the `id` and `createdAt` keys keeps both; a patch of editable fields
      sets exactly those fields. */
  lemma MergeFieldsAsPatch(t: Task, f: TaskFields)
    ensures Merge(t, FieldsAsPatch(f)) == Task(t.id, f.title, f.description, f.priority, f.status, f.assigneeId, t.createdAt)
    ensures FieldsOf(Merge(t, FieldsAsPatch(f))) == f
  {
  }

  /** As written, the spread lets a patch's `id` and `createdAt` overwrite the task's. */
  lemma MergeOverwritesIdentity(t: Task, newId: string, newTime: int)
    ensures Merge(t, EmptyPatch.(id := Some(newId), createdAt := Some(newTime))) == t.(id := newId, createdAt := newTime)
  {
  }

  /** `{ status }` changes the status of the matching tasks and nothing else anywhere. */
  lemma UpdateStatusOnly(tasks: seq<Task>, id: string, s: Status)
    ensures |Updated(tasks, id, StatusPatch(s))| == |tasks|
    ensures forall i :: 0 <= i < |tasks| ==>
      Updated(tasks, id, StatusPatch(s))[i] == if tasks[i].id == id then tasks[i].(status := s) else tasks[i]
  {
  }

  /** An id that no task has: the update leaves the list as it was. */
  lemma UpdateAbsentIsNoop(tasks: seq<Task>, id: string, p: TaskPatch)
    requires !HasTask(tasks, id)
    ensures Updated(tasks, id, p) == tasks
  {
    var r := Updated(tasks, id, p);
    assert forall i :: 0 <= i < |tasks| ==> r[i] == tasks[i];
  }

  /** A patch without an `id` key leaves every task's id, and so uniqueness of ids, as they were. */
  lemma UpdateKeepsIds(tasks: seq<Task>, id: string, p: TaskPatch)
    requires p.id.None?
    ensures forall i :: 0 <= i < |tasks| ==> Updated(tasks, id, p)[i].id == tasks[i].id
    ensures UniqueIds(tasks) ==> UniqueIds(Updated(tasks, id, p))
  {
    var r := Updated(tasks, id, p);
    assert forall i :: 0 <= i < |tasks| ==> r[i].id == tasks[i].id;
  }

  /** A patch without `id` and `createdAt` leaves every task's id and creation time, and so
      uniqueness of ids, as they were. */
  lemma UpdateKeepingIdentity(tasks: seq<Task>, id: string, p: TaskPatch)
    requires KeepsIdentity(p)
    ensures forall i :: 0 <= i < |tasks| ==>
      Updated(tasks, id, p)[i].id == tasks[i].id && Updated(tasks, id, p)[i].createdAt == tasks[i].createdAt
    ensures UniqueIds(tasks) ==> UniqueIds(Updated(tasks, id, p))
  {
    UpdateKeepsIds(tasks, id, p);
  }

  /** The tasks that survive a delete keep their relative order, so the list can only shrink. */
  lemma DeleteIsSubsequence(tasks: seq<Task>, id: string)
    ensures IsSubsequence(Deleted(tasks, id), tasks)
    ensures |Deleted(tasks, id)| <= |tasks|
  {
    FilterIsSubsequence(tasks, (t: Task) => t.id != id);
    SubsequenceLength(Deleted(tasks, id), tasks);
  }

  /** Deleting an id no task has changes nothing, so deleting twice is deleting once. */
  lemma DeleteAbsentIsNoop(tasks: seq<Task>, id: string)
    requires !HasTask(tasks, id)
    ensures Deleted(tasks, id) == tasks
  {
    FilterKeepsAll(tasks, (t: Task) => t.id != id);
  }

  lemma DeleteIdempotent(tasks: seq<Task>, id: string)
    ensures Deleted(Deleted(tasks, id), id) == Deleted(tasks, id)
  {
    DeleteAbsentIsNoop(Deleted(tasks, id), id);
  }

  /** Deleting keeps ids unique. */
  lemma {:induction false} DeletePreservesUniqueIds(tasks: seq<Task>, id: string)
    requires UniqueIds(tasks)
    ensures UniqueIds(Deleted(tasks, id))
  {
    if tasks != [] {
      var rest := tasks[1..];
      assert UniqueIds(rest) by {
        forall i, j | 0 <= i < j < |rest| ensures rest[i].id != rest[j].id {
          assert rest[i] == tasks[i + 1] && rest[j] == tasks[j + 1];
        }
      }
      DeletePreservesUniqueIds(rest, id);
      var r := Deleted(tasks, id);
      var r' := Deleted(rest, id);
      if tasks[0].id != id {
        assert r == [tasks[0]] + r';
        forall j | 0 < j < |r| ensures r[0].id != r[j].id {
          assert r[j] in r';
          var k :| 0 <= k < |rest| && rest[k] == r[j];
          assert tasks[k + 1] == r[j];
        }
      } else {
        assert r == r';
      }
    }
  }

  /** The store: the `tasks` cell of the provider and the three operations that replace it. */
  class TaskStore {
    var tasks: seq<Task>

    /** Ids are unique: the invariant the three operations keep, given fresh ids on add and
        patches without an `id` key on update. */
    ghost predicate Valid()
      reads this
    {
      UniqueIds(tasks)
    }

    /** `stored` is what the persistent cell hands back: the saved list, or `[]`. */
    constructor (stored: seq<Task>)
      ensures tasks == stored
    {
      tasks := stored;
    }

    /** `addTask(taskData)`; the random UUID and the clock reading are the parameters `id` and `now`. */
    method AddTask(data: TaskFields, id: string, now: int)
      modifies this
      ensures tasks == Added(old(tasks), data, id, now)
      ensures old(Valid()) && !HasTask(old(tasks), id) ==> Valid()
    {
      tasks := [NewTask(data, id, now)] + tasks;
      if old(Valid()) && !HasTask(old(tasks), id) {
        AddPreservesUniqueIds(old(tasks), data, id, now);
      }
    }

    method UpdateTask(id: string, updatedFields: TaskPatch)
      modifies this
      ensures tasks == Updated(old(tasks), id, updatedFields)
      ensures old(Valid()) && updatedFields.id.None? ==> Valid()
    {
      if updatedFields.id.None? {
        UpdateKeepsIds(tasks, id, updatedFields);
      }
      tasks := Map(tasks, (t: Task) => if t.id == id then Merge(t, updatedFields) else t);
    }

    method DeleteTask(id: string)
      modifies this
      ensures tasks == Deleted(old(tasks), id)
      ensures old(Valid()) ==> Valid()
    {
      if Valid() {
        DeletePreservesUniqueIds(tasks, id);
      }
      tasks := Filter(tasks, (t: Task) => t.id != id);
    }
  }

  /** `useTaskContext()`: the provided store, or the error thrown outside a provider. */
  function UseTaskContext(provided: Option<TaskStore>): (r: Result<TaskStore, string>)
    ensures r.Success? <==> provided.Some?
    ensures r.Success? ==> r.value == provided.value
    ensures r.Failure? ==> r.error == MissingProviderMessage
  {
    match provided
    case None => Failure(MissingProviderMessage)
    case Some(store) => Success(store)
  }
}
