/** One card on the board: whom it shows as assignee, and the delete confirmation. */
module TaskCard {
  import opened Wrappers
  import opened Types
  import opened TaskContext

  /** `users.find(u => u.id === task.assigneeId)`: an absent id equals no user's id. */
  function FindAssignee(users: seq<User>, assigneeId: Option<int>): (r: Option<User>)
    ensures r.Some? ==> assigneeId.Some? && r.value in users && r.value.id == assigneeId.value
    ensures r.None? <==> assigneeId.None? || forall u :: u in users ==> u.id != assigneeId.value
  {
    if users == [] then None
    else if assigneeId.Some? && users[0].id == assigneeId.value then Some(users[0])
    else FindAssignee(users[1..], assigneeId)
  }

  /** The name next to the avatar. */
  function AssigneeName(a: Option<User>): (r: string)
    ensures a.None? ==> r == "Unassigned"
    ensures a.Some? ==> r == a.value.name
  {
    match a
    case Some(u) => u.name
    case None => "Unassigned"
  }

  /** The avatar letter, `name.charAt(0)`, which is '' for an empty name. */
  function AssigneeInitial(a: Option<User>): (r: string)
    ensures |r| <= 1
    ensures a.None? ==> r == "?"
    ensures a.Some? ==> (r == "" <==> a.value.name == "")
    ensures a.Some? && r != "" ==> r[0] == a.value.name[0]
  {
    match a
    case Some(u) => if u.name == "" then "" else u.name[..1]
    case None => "?"
  }

  /** The user `find` returns is the first one with that id. */
  lemma {:induction false} FindAssigneeIsFirst(users: seq<User>, id: int, k: nat)
    requires k < |users| && users[k].id == id
    requires forall j :: 0 <= j < k ==> users[j].id != id
    ensures FindAssignee(users, Some(id)) == Some(users[k])
  {
    if k > 0 {
      FindAssigneeIsFirst(users[1..], id, k - 1);
    }
  }

  /** No assignee, or one the directory does not have: the card shows 'Unassigned' and '?'. */
  lemma MissingAssigneeDisplay(users: seq<User>, t: Task)
    requires t.assigneeId.None? || forall u :: u in users ==> u.id != t.assigneeId.value
    ensures AssigneeName(FindAssignee(users, t.assigneeId)) == "Unassigned"
    ensures AssigneeInitial(FindAssignee(users, t.assigneeId)) == "?"
  {
  }

  /** A found assignee: the card shows that user's name and its first character. */
  lemma FoundAssigneeDisplay(users: seq<User>, t: Task, k: nat)
    requires t.assigneeId.Some? && k < |users| && users[k].id == t.assigneeId.value
    requires forall j :: 0 <= j < k ==> users[j].id != t.assigneeId.value
    requires users[k].name != ""
    ensures AssigneeName(FindAssignee(users, t.assigneeId)) == users[k].name
    ensures AssigneeInitial(FindAssignee(users, t.assigneeId)) == [users[k].name[0]]
  {
    FindAssigneeIsFirst(users, t.assigneeId.value, k);
  }

  /** The delete buttons: the trash icon, and Cancel or Delete in the confirmation. */
  datatype DeleteButton = AskDelete | CancelDelete | ConfirmDelete

  /** What a click leads to: whether the confirmation is shown, and the id `deleteTask` is called with. */
  datatype DeleteEffect = DeleteEffect(showConfirm: bool, deleted: Option<string>)

  function OnDeleteButton(b: DeleteButton, t: Task): (e: DeleteEffect)
    ensures e.deleted.Some? <==> b == ConfirmDelete
    ensures e.deleted.Some? ==> e.deleted.value == t.id
    ensures e.showConfirm <==> b == AskDelete
  {
    match b
    case AskDelete => DeleteEffect(true, None)
    case CancelDelete => DeleteEffect(false, None)
    case ConfirmDelete => DeleteEffect(false, Some(t.id))
  }

  /** `handleDelete`: one `deleteTask(task.id)`, then the confirmation closes. */
  method HandleDelete(store: TaskStore, t: Task) returns (showConfirm: bool)
    modifies store
    ensures store.tasks == Deleted(old(store.tasks), t.id)
    ensures !HasTask(store.tasks, t.id)
    ensures !showConfirm
  {
    store.DeleteTask(t.id);
    showConfirm := false;
  }
}
