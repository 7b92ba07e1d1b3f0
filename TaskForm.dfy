/** The create/edit form: its initial fields, what a submit does, and the title input's
    effect on a pending error. */
module TaskForm {
  import opened Wrappers
  import opened Text
  import opened Types
  import opened TaskContext

  const TitleRequired := "Title is required"

  /** The assignee select's value, `number | ''`. */
  datatype AssigneeInput = Blank | Picked(id: int)

  datatype FormState = FormState(
    title: string,
    description: string,
    priority: Priority,
    status: Status,
    assignee: AssigneeInput,
    error: string)

  /** The form's starting state. Each field falls back through `||`: an empty title or
      description gives '', and an assignee id of 0 is falsy and gives ''. */
  function InitialForm(existing: Option<Task>): (f: FormState)
    ensures f.error == ""
    ensures existing.None? ==> f.title == "" && f.description == "" && f.priority == Medium && f.status == ToDo && f.assignee == Blank
    ensures existing.Some? ==>
      f.title == existing.value.title && f.priority == existing.value.priority && f.status == existing.value.status
    ensures existing.Some? && existing.value.description.Some? ==> f.description == existing.value.description.value
    ensures existing.Some? && existing.value.description.None? ==> f.description == ""
    ensures f.assignee.Picked? <==>
      existing.Some? && existing.value.assigneeId.Some? && existing.value.assigneeId.value != 0
    ensures f.assignee.Picked? ==> existing.value.assigneeId == Some(f.assignee.id)
  {
    match existing
    case None => FormState("", "", Medium, ToDo, Blank, "")
    case Some(t) =>
      FormState(
        t.title,
        t.description.GetOr(""),
        t.priority,
        t.status,
        if t.assigneeId.Some? && t.assigneeId.value != 0 then Picked(t.assigneeId.value) else Blank,
        "")
  }

  /** `assigneeId === '' ? undefined : Number(assigneeId)`. */
  function AssigneeValue(a: AssigneeInput): (r: Option<int>)
    ensures r.None? <==> a.Blank?
    ensures a.Picked? ==> r == Some(a.id)
  {
    match a
    case Blank => None
    case Picked(n) => Some(n)
  }

  /** `taskData`: title and description trimmed, the assignee converted. */
  function TaskData(f: FormState): (d: TaskFields)
    ensures d.title == "" <==> AllWhitespace(f.title)
    ensures Trim(d.title) == d.title && d.title == Trim(f.title)
    ensures d.description.Some? && Trim(d.description.value) == d.description.value
    ensures d.description.value == Trim(f.description)
    ensures d.priority == f.priority && d.status == f.status && d.assigneeId == AssigneeValue(f.assignee)
  {
    TrimEmptyIff(f.title);
    TrimIdempotent(f.title);
    TrimIdempotent(f.description);
    TaskFields(Trim(f.title), Some(Trim(f.description)), f.priority, f.status, AssigneeValue(f.assignee))
  }

  /** What a submit leads to: the form kept open with an error, or one store call (after
      which the form closes). */
  datatype SubmitOutcome =
    | Invalid(form: FormState)
    | Create(data: TaskFields)
    | Edit(id: string, data: TaskFields)

  /** `handleSubmit`. */
  function HandleSubmit(f: FormState, existing: Option<Task>): (o: SubmitOutcome)
    ensures o.Invalid? <==> AllWhitespace(f.title)
    ensures o.Invalid? ==> o.form == f.(error := TitleRequired)
    ensures o.Create? <==> !AllWhitespace(f.title) && existing.None?
    ensures o.Edit? ==> existing.Some? && o.id == existing.value.id
    ensures !o.Invalid? ==> o.data == TaskData(f) && o.data.title != ""
  {
    TrimEmptyIff(f.title);
    if Trim(f.title) == "" then Invalid(f.(error := TitleRequired))
    else
      var taskData := TaskData(f);
      match existing
      case Some(t) => Edit(t.id, taskData)
      case None => Create(taskData)
  }

  /** The title input's change handler: the new title, and no error afterwards. */
  function OnTitleChange(f: FormState, value: string): (g: FormState)
    ensures g.title == value && g.error == ""
    ensures g.(title := f.title, error := f.error) == f
  {
    var g := f.(title := value);
    if g.error != "" then g.(error := "") else g
  }

  /** The list after the store call a submit makes. */
  function AfterSubmit(tasks: seq<Task>, o: SubmitOutcome, id: string, now: int): (r: seq<Task>)
    ensures o.Invalid? ==> r == tasks
    ensures o.Create? ==> |r| == |tasks| + 1 && r[1..] == tasks && FieldsOf(r[0]) == o.data && r[0].id == id
    ensures o.Edit? ==> |r| == |tasks|
  {
    match o
    case Invalid(_) => tasks
    case Create(data) => Added(tasks, data, id, now)
    case Edit(taskId, data) => Updated(tasks, taskId, FieldsAsPatch(data))
  }

  /** The submit handler wired to the store; `id` and `now` are what `addTask` would generate. */
  method Submit(store: TaskStore, f: FormState, existing: Option<Task>, id: string, now: int)
    returns (o: SubmitOutcome)
    modifies store
    ensures o == HandleSubmit(f, existing)
    ensures store.tasks == AfterSubmit(old(store.tasks), o, id, now)
  {
    o := HandleSubmit(f, existing);
    match o
    case Invalid(_) =>
    case Create(data) => store.AddTask(data, id, now);
    case Edit(taskId, data) => store.UpdateTask(taskId, FieldsAsPatch(data));
  }

  // ---- properties ----

  /** A new form starts with no title, priority Medium, status To Do and no assignee. */
  lemma NewFormDefaults()
    ensures InitialForm(None) == FormState("", "", Medium, ToDo, Blank, "")
  {
  }

  /** A rejected submit changes no task. */
  lemma InvalidSubmitChangesNothing(tasks: seq<Task>, f: FormState, existing: Option<Task>, id: string, now: int)
    requires AllWhitespace(f.title)
    ensures AfterSubmit(tasks, HandleSubmit(f, existing), id, now) == tasks
  {
  }

  /** Saving an edit rewrites the editable fields of the task and keeps every id and creation
      time, so ids stay unique. */
  lemma EditKeepsIdentity(tasks: seq<Task>, f: FormState, t: Task, id: string, now: int)
    requires !AllWhitespace(f.title)
    ensures var r := AfterSubmit(tasks, HandleSubmit(f, Some(t)), id, now);
      |r| == |tasks| &&
      (forall i :: 0 <= i < |tasks| ==> r[i].id == tasks[i].id && r[i].createdAt == tasks[i].createdAt) &&
      (forall i :: 0 <= i < |tasks| && tasks[i].id == t.id ==> FieldsOf(r[i]) == TaskData(f)) &&
      (UniqueIds(tasks) ==> UniqueIds(r))
  {
    var p := FieldsAsPatch(TaskData(f));
    UpdateKeepingIdentity(tasks, t.id, p);
    forall i | 0 <= i < |tasks| && tasks[i].id == t.id
      ensures FieldsOf(Updated(tasks, t.id, p)[i]) == TaskData(f)
    {
      MergeFieldsAsPatch(tasks[i], TaskData(f));
    }
  }

  /** Creating puts one new task carrying the form's data in front of the list. */
  lemma CreateAddsOne(tasks: seq<Task>, f: FormState, id: string, now: int)
    requires !AllWhitespace(f.title)
    ensures var r := AfterSubmit(tasks, HandleSubmit(f, None), id, now);
      |r| == |tasks| + 1 && FieldsOf(r[0]) == TaskData(f) && r[0].id == id && r[1..] == tasks
  {
  }

  /** Opening a task for edit and saving it unchanged gives the task back, when its text is
      already trimmed, its description present and its assignee not 0. */
  lemma EditUnchangedRoundTrip(t: Task)
    requires Trim(t.title) == t.title != ""
    requires t.description.Some? && Trim(t.description.value) == t.description.value
    requires t.assigneeId != Some(0)
    ensures HandleSubmit(InitialForm(Some(t)), Some(t)) == Edit(t.id, FieldsOf(t))
    ensures Merge(t, FieldsAsPatch(FieldsOf(t))) == t
  {
    var f := InitialForm(Some(t));
    assert f.title == t.title && f.description == t.description.value;
    assert AssigneeValue(f.assignee) == t.assigneeId;
    assert TaskData(f) == FieldsOf(t);
    TrimEmptyIff(t.title);
    assert !AllWhitespace(f.title);
    var o := HandleSubmit(f, Some(t));
    assert o.Edit? && o.id == t.id && o.data == TaskData(f);
  }

  /** Saving an unchanged edit of a task assigned to user 0 unassigns it: `||` treats 0 as
      absent, and the `undefined` the form then sends overwrites the stored id. */
  lemma EditDropsAssigneeZero(t: Task)
    requires Trim(t.title) != "" && t.assigneeId == Some(0)
    ensures HandleSubmit(InitialForm(Some(t)), Some(t)).Edit?
    ensures Merge(t, FieldsAsPatch(HandleSubmit(InitialForm(Some(t)), Some(t)).data)).assigneeId == None
  {
    TrimEmptyIff(t.title);
  }
}
