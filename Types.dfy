/** The board's data model: the two closed label sets and the Task and User records. */
module Types {
  import opened Wrappers

  datatype Priority = Low | Medium | High

  datatype Status = ToDo | InProgress | Done

  /** A directory entry; `id` is the number a task's `assigneeId` refers to. */
  datatype User = User(id: int, name: string, username: string, email: string)

  /** A task; `description` and `assigneeId` may be absent, every other field is always there.
      `createdAt` is milliseconds since the epoch. */
  datatype Task = Task(
    id: string,
    title: string,
    description: Option<string>,
    priority: Priority,
    status: Status,
    assigneeId: Option<int>,
    createdAt: int)

  /** A task without its `id` and `createdAt`: what a caller hands to `addTask`. */
  datatype TaskFields = TaskFields(
    title: string,
    description: Option<string>,
    priority: Priority,
    status: Status,
    assigneeId: Option<int>)

  /** A partial task, as `updateTask` receives it. `None` is a key the object does not have.
      For the optional fields `Some(None)` is a key present with the value `undefined`,
      which an object spread still copies. */
  datatype TaskPatch = TaskPatch(
    id: Option<string>,
    title: Option<string>,
    description: Option<Option<string>>,
    priority: Option<Priority>,
    status: Option<Status>,
    assigneeId: Option<Option<int>>,
    createdAt: Option<int>)

  const EmptyPatch := TaskPatch(None, None, None, None, None, None, None)

  /** The editable part of a task. */
  function FieldsOf(t: Task): TaskFields {
    TaskFields(t.title, t.description, t.priority, t.status, t.assigneeId)
  }

  /** The string literal each priority is in the source. */
  function PriorityLabel(p: Priority): string {
    match p
    case Low => "Low"
    case Medium => "Medium"
    case High => "High"
  }

  /** The string literal each status is in the source; also the board's column ids. */
  function StatusLabel(s: Status): string {
    match s
    case ToDo => "To Do"
    case InProgress => "In Progress"
    case Done => "Done"
  }

  function ParsePriority(x: string): (r: Option<Priority>)
    ensures r.Some? ==> PriorityLabel(r.value) == x
  {
    if x == "Low" then Some(Low)
    else if x == "Medium" then Some(Medium)
    else if x == "High" then Some(High)
    else None
  }

  function ParseStatus(x: string): (r: Option<Status>)
    ensures r.Some? ==> StatusLabel(r.value) == x
  {
    if x == "To Do" then Some(ToDo)
    else if x == "In Progress" then Some(InProgress)
    else if x == "Done" then Some(Done)
    else None
  }

  /** The labels are exactly the three literals of the union type: every label parses back,
      and a string that is not one of them is no priority. */
  lemma PriorityLabelRoundTrip(p: Priority, x: string)
    ensures ParsePriority(PriorityLabel(p)) == Some(p)
    ensures ParsePriority(x).None? <==> x != "Low" && x != "Medium" && x != "High"
  {
  }

  lemma StatusLabelRoundTrip(s: Status, x: string)
    ensures ParseStatus(StatusLabel(s)) == Some(s)
    ensures ParseStatus(x).None? <==> x != "To Do" && x != "In Progress" && x != "Done"
  {
  }
}
