/** The board's three columns and the drop handler that reclassifies a task. */
module TaskList {
  import opened Wrappers
  import opened Seqs
  import opened Types
  import opened TaskContext

  /** The columns, left to right. */
  const Columns: seq<Status> := [ToDo, InProgress, Done]

  /** The tasks of one column: `tasks.filter(t => t.status === s)`. */
  function Bucket(tasks: seq<Task>, s: Status): (r: seq<Task>)
    ensures forall t :: t in r <==> t in tasks && t.status == s
  {
    Filter(tasks, (t: Task) => t.status == s)
  }

  /** `groupedTasks`. */
  datatype Grouped = Grouped(toDo: seq<Task>, inProgress: seq<Task>, done: seq<Task>) {
    function Column(s: Status): seq<Task> {
      match s
      case ToDo => toDo
      case InProgress => inProgress
      case Done => done
    }
  }

  function GroupedTasks(tasks: seq<Task>): (g: Grouped)
    ensures forall s: Status :: g.Column(s) == Bucket(tasks, s)
  {
    Grouped(Bucket(tasks, ToDo), Bucket(tasks, InProgress), Bucket(tasks, Done))
  }

  /** Each status has exactly one column. */
  lemma ColumnsCoverStatuses(s: Status)
    ensures s in Columns
    ensures |Columns| == 3 && Columns[0] != Columns[1] && Columns[1] != Columns[2] && Columns[0] != Columns[2]
  {
  }

  /** Every task lands in exactly one column: the three columns together hold the input,
      counted with multiplicity. */
  lemma BucketsPartition(tasks: seq<Task>)
    ensures multiset(Bucket(tasks, ToDo)) + multiset(Bucket(tasks, InProgress)) + multiset(Bucket(tasks, Done))
         == multiset(tasks)
    ensures |Bucket(tasks, ToDo)| + |Bucket(tasks, InProgress)| + |Bucket(tasks, Done)| == |tasks|
  {
    var x, y, z := Bucket(tasks, ToDo), Bucket(tasks, InProgress), Bucket(tasks, Done);
    FilterPartition3(tasks, (t: Task) => t.status == ToDo, (t: Task) => t.status == InProgress, (t: Task) => t.status == Done);
    assert |multiset(x) + multiset(y) + multiset(z)| == |x| + |y| + |z|;
  }

  /** A column keeps the order its tasks had in the input. */
  lemma BucketKeepsOrder(tasks: seq<Task>, s: Status)
    ensures IsSubsequence(Bucket(tasks, s), tasks)
  {
    FilterIsSubsequence(tasks, (t: Task) => t.status == s);
  }

  /** Where a drop happened: a column (its `droppableId` is a status) and a position. */
  datatype Location = Location(droppableId: Status, index: int)

  /** What the drag library reports at the end of a drag; no destination means dropped off the board. */
  datatype DropResult = DropResult(draggableId: string, source: Location, destination: Option<Location>)

  /** The one store call a drop may lead to. */
  datatype StatusUpdate = StatusUpdate(id: string, patch: TaskPatch)

  /** `handleDragEnd`: no update, or `updateTask(draggableId, { status })`. */
  function HandleDragEnd(r: DropResult): (u: Option<StatusUpdate>)
    ensures u.Some? <==> r.destination.Some? && r.destination.value.droppableId != r.source.droppableId
    ensures u.Some? ==> u.value == StatusUpdate(r.draggableId, StatusPatch(r.destination.value.droppableId))
  {
    match r.destination
    case None => None
    case Some(dest) =>
      if dest.droppableId == r.source.droppableId && dest.index == r.source.index then None
      else if r.source.droppableId != dest.droppableId then
        Some(StatusUpdate(r.draggableId, StatusPatch(dest.droppableId)))
      else None
  }

  /** The list after a drop's store call, if any. */
  function AfterDrop(tasks: seq<Task>, r: DropResult): (after: seq<Task>)
    ensures |after| == |tasks|
    ensures forall i :: 0 <= i < |tasks| && tasks[i].id != r.draggableId ==> after[i] == tasks[i]
  {
    match HandleDragEnd(r)
    case None => tasks
    case Some(u) => Updated(tasks, u.id, u.patch)
  }

  /** A drop off the board or within one column, whatever the indices, leaves the list as it was. */
  lemma DropWithinColumnIsNoop(tasks: seq<Task>, r: DropResult)
    requires r.destination.None? || r.destination.value.droppableId == r.source.droppableId
    ensures AfterDrop(tasks, r) == tasks
  {
  }

  /** A drop into another column moves the dragged task there, changing only its status, and
      leaves every other task as it was. */
  lemma DropMovesTask(tasks: seq<Task>, r: DropResult, k: nat)
    requires UniqueIds(tasks) && k < |tasks| && tasks[k].id == r.draggableId
    requires r.destination.Some? && r.destination.value.droppableId != r.source.droppableId
    ensures |AfterDrop(tasks, r)| == |tasks|
    ensures AfterDrop(tasks, r)[k] == tasks[k].(status := r.destination.value.droppableId)
    ensures forall i :: 0 <= i < |tasks| && i != k ==> AfterDrop(tasks, r)[i] == tasks[i]
    ensures AfterDrop(tasks, r)[k] in Bucket(AfterDrop(tasks, r), r.destination.value.droppableId)
    ensures forall s: Status :: s != r.destination.value.droppableId ==>
      forall t :: t in Bucket(AfterDrop(tasks, r), s) ==> t.id != r.draggableId
  {
    var dest := r.destination.value.droppableId;
    UpdateStatusOnly(tasks, r.draggableId, dest);
    var after := AfterDrop(tasks, r);
    assert after[k] in after;
    forall s: Status, t | s != dest && t in Bucket(after, s) ensures t.id != r.draggableId {
      var i :| 0 <= i < |after| && after[i] == t;
      if i != k {
        assert tasks[i].id != tasks[k].id;
      }
    }
  }

  /** The drop handler wired to the store. */
  method OnDragEnd(store: TaskStore, r: DropResult)
    modifies store
    ensures store.tasks == AfterDrop(old(store.tasks), r)
  {
    var u := HandleDragEnd(r);
    if u.Some? {
      store.UpdateTask(u.value.id, u.value.patch);
    }
  }

  /** Create "Write spec" as a high-priority To Do task on an empty board, then drag it to Done:
      the To Do column is empty and the Done column holds that one task. */
  lemma WriteSpecScenario(id: string, now: int, from: int, to: int)
    ensures var data := TaskFields("Write spec", None, High, ToDo, None);
            var created := Added([], data, id, now);
            var moved := AfterDrop(created, DropResult(id, Location(ToDo, from), Some(Location(Done, to))));
            |created| == 1 && created[0].status == ToDo &&
            Bucket(moved, ToDo) == [] &&
            |Bucket(moved, Done)| == 1 && Bucket(moved, Done)[0].title == "Write spec"
  {
    var data := TaskFields("Write spec", None, High, ToDo, None);
    var created := Added([], data, id, now);
    var moved := AfterDrop(created, DropResult(id, Location(ToDo, from), Some(Location(Done, to))));
    assert moved == [created[0].(status := Done)];
    assert Bucket(moved, Done) == [moved[0]];
  }
}
