# Task board: a Dafny model of its store and derived views

This project models the logic of a client-side task board. Tasks are created,
edited, deleted, searched, filtered and dragged between three status columns.
The logic modelled is:

- the task store, which holds one list of tasks (newest first) and replaces it through
  `addTask`, `updateTask` and `deleteTask`. It is the class `TaskContext.TaskStore`, with a
  `seq<Task>` field; each method's new state is a pure function of the old one;
- the board's visible subset, which depends on a search term, a status filter and a
  priority filter (`TaskBoard`);
- the split of that subset into the To Do / In Progress / Done columns, and the rule that
  turns a finished drag into at most one status update (`TaskList`);
- the form's submit decision: validate, trim, convert the assignee, then create or edit
  (`TaskForm`);
- the card's assignee lookup with its 'Unassigned'/'?' fallback, and the delete
  confirmation (`TaskCard`).

The supporting modules are `Wrappers` (Option, Result), `Seqs` (`filter`, `map`,
subsequences) and `Text` (`trim`, ASCII `toLowerCase`, `includes`).

Modelling choices:

- `Partial<Task>` is `Types.TaskPatch`, with one `Option` per key. For the optional fields,
  `Some(None)` is a key that is present with the value `undefined`. An object spread copies
  such a key, so the form's `assigneeId: undefined` clears a stored assignee when a task is
  edited.
- `updateTask` is modelled as written, as `{ ...task, ...updatedFields }`. Nothing in it
  stops a patch from overwriting `id` or `createdAt` (`TaskContext.MergeOverwritesIdentity`).
  The store's interface only separates the two cases by type. `addTask` takes
  `Omit<Task, 'id' | 'createdAt'>`, while `updateTask` takes a `Partial<Task>`, which may
  carry both keys (src/context/TaskContext.tsx:12-13). The model therefore proves a
  caller-side fact: the form and the drag handler never send those keys
  (`TaskContext.FieldsAsPatch`, `TaskContext.StatusPatch`, `TaskForm.EditKeepsIdentity`,
  `TaskContext.UpdateStatusOnly`).
- `crypto.randomUUID()` and `Date.now()` become the parameters `id` and `now` of
  `AddTask`. Id uniqueness is an invariant (`TaskStore.Valid`). `AddTask` keeps it when the
  given id is fresh, `UpdateTask` keeps it for a patch without an `id` key, and
  `DeleteTask` always keeps it.
- The debounced search term is an input to `TaskBoard.FilteredTasks`.
- A drop location's `droppableId` has type `Status`, because every droppable column is
  declared with a status as its id. That makes the `as Status` cast an identity.
- `Types.PriorityLabel`, `Types.StatusLabel` and their parsers only document the string
  literal unions. No other member uses them: the model works on the closed datatypes.
- The form's `||` defaults send an assignee id of 0 to "unassigned". Saving such a task
  unchanged therefore drops its assignee (`TaskForm.EditDropsAssigneeZero`).

## Model

| member | source | states |
|---|---|---|
| `Types.ParsePriority` | src/types/index.ts:1 | a string that parses as a priority is that priority's literal |
| `Types.PriorityLabelRoundTrip` | src/types/index.ts:1 | each of Low, Medium and High parses back from its literal, and no other string is a priority |
| `Types.ParseStatus` | src/types/index.ts:2 | a string that parses as a status is that status's literal |
| `Types.StatusLabelRoundTrip` | src/types/index.ts:2 | each of 'To Do', 'In Progress' and 'Done' parses back from its literal, and no fourth string is a status |
| `Seqs.Filter` | src/context/TaskContext.tsx:71 | `filter` keeps every element that satisfies the predicate, as often as it occurs in the input, drops every other element, and never lengthens the list |
| `Seqs.Map` | src/context/TaskContext.tsx:67 | `map` keeps the length and applies the function at every index |
| `Seqs.FilterIsSubsequence` | src/components/TaskBoard.tsx:23-29 | the result of `filter` is the input with some elements deleted, in the original order |
| `Seqs.SubsequenceLength` | src/components/TaskBoard.tsx:69-70 | a subsequence is never longer than the sequence it comes from |
| `Seqs.FilterKeepsAll` | src/context/TaskContext.tsx:71 | a filter that rejects nothing returns its input unchanged |
| `Seqs.FilterIdempotent` | src/context/TaskContext.tsx:71 | filtering twice by the same predicate is filtering once |
| `Seqs.FilterPartition3` | src/components/TaskList.tsx:22-26 | three filters by mutually exclusive, exhaustive predicates divide the input between them, counted with multiplicity |
| `Seqs.FilterExtensional` | src/components/TaskBoard.tsx:23-29 | predicates that agree on every element give the same filtered list |
| `Text.LeadingWhitespace` | src/components/TaskForm.tsx:28 | the count of leading characters that `trim` drops: all of them are whitespace, and the character after them is not |
| `Text.TrailingWhitespace` | src/components/TaskForm.tsx:28 | the count of trailing characters that `trim` drops: all of them are whitespace, and the character before them is not |
| `Text.Trim` | src/components/TaskForm.tsx:28-35 | `trim` drops the leading and trailing whitespace; its contract is carried by `Text.TrimIsSlice`, `Text.TrimEmptyIff` and `Text.TrimIdempotent` |
| `Text.TrimIsSlice` | src/components/TaskForm.tsx:34-35 | `trim` yields a slice `s[i..j]` with whitespace only outside it and no whitespace at either end of it |
| `Text.TrimEmptyIff` | src/components/TaskForm.tsx:28 | a string trims to '' exactly when it is all whitespace |
| `Text.TrimIdempotent` | src/components/TaskForm.tsx:34-35 | trimming a trimmed string changes nothing |
| `Text.ToLower` | src/components/TaskBoard.tsx:24 | lower-casing keeps the length, maps each of 'A'..'Z' to its lower-case letter and keeps every other character |
| `Text.ToLowerEqualIff` | src/components/TaskBoard.tsx:24 | two strings lower-case to the same string exactly when they agree character by character up to ASCII letter case |
| `Text.Includes` | src/components/TaskBoard.tsx:24 | `includes`; its contract is `Text.IncludesIff` (occurrence at some position) and `Text.IncludesEmpty` |
| `Text.IncludesIff` | src/components/TaskBoard.tsx:24 | `includes` holds exactly when the needle occurs at some position |
| `Text.IncludesEmpty` | src/components/TaskBoard.tsx:24 | every string includes '' |
| `TaskContext.NewTask` | src/context/TaskContext.tsx:58-62 | the new task carries every field of the caller's data, plus the generated id and createdAt |
| `TaskContext.Added` | src/context/TaskContext.tsx:57-64 | `[newTask, ...prev]`: one longer, the old list unchanged behind a new task that carries the caller's fields, the id and the creation time |
| `TaskContext.AddPreservesUniqueIds` | src/context/TaskContext.tsx:60-63 | with an id that no task has, adding keeps all ids distinct |
| `TaskContext.DeleteUndoesAdd` | src/context/TaskContext.tsx:57-72 | deleting the task just added, under a fresh id, restores the earlier list |
| `TaskContext.Merge` | src/context/TaskContext.tsx:67 | the spread: an empty patch keeps the task, a key the patch lacks keeps its old value (id, createdAt), and a status in the patch wins; see also `TaskContext.MergeLaws`, `TaskContext.MergeFieldsAsPatch` and `TaskContext.MergeOverwritesIdentity` |
| `TaskContext.Updated` | src/context/TaskContext.tsx:67 | the update keeps length and order, merges the patch into each task with that id, and leaves every other task as it was |
| `TaskContext.MergeLaws` | src/context/TaskContext.tsx:67 | merging an empty patch changes nothing, and merging the same patch twice is merging it once |
| `TaskContext.MergeFieldsAsPatch` | src/context/TaskContext.tsx:67 | a patch of all the editable fields sets exactly those fields and keeps id and createdAt |
| `TaskContext.MergeOverwritesIdentity` | src/context/TaskContext.tsx:67 | as written, a patch carrying id or createdAt overwrites them |
| `TaskContext.UpdateStatusOnly` | src/context/TaskContext.tsx:67 | a `{ status }` patch changes only the status of the matching tasks and nothing else |
| `TaskContext.UpdateAbsentIsNoop` | src/context/TaskContext.tsx:67 | updating an id that no task has leaves the list unchanged |
| `TaskContext.UpdateKeepsIds` | src/context/TaskContext.tsx:67 | a patch without an `id` key keeps every task's id, and so keeps ids unique |
| `TaskContext.UpdateKeepingIdentity` | src/context/TaskContext.tsx:67 | a patch without id and createdAt keeps every task's id and createdAt, and so keeps ids unique |
| `TaskContext.Deleted` | src/context/TaskContext.tsx:71 | after a delete no task has the id, and a task remains exactly when it was there and has another id |
| `TaskContext.DeleteIsSubsequence` | src/context/TaskContext.tsx:71 | the remaining tasks keep their relative order, and the list never grows |
| `TaskContext.DeleteAbsentIsNoop` | src/context/TaskContext.tsx:71 | deleting an id that no task has leaves the list unchanged |
| `TaskContext.DeleteIdempotent` | src/context/TaskContext.tsx:71 | deleting the same id twice is deleting it once |
| `TaskContext.DeletePreservesUniqueIds` | src/context/TaskContext.tsx:71 | deleting keeps ids distinct |
| `TaskContext.FieldsAsPatch` | src/components/TaskForm.tsx:33-42 | the form's `taskData`, passed as a patch, has no id and no createdAt key |
| `TaskContext.StatusPatch` | src/components/TaskList.tsx:46 | the drop's `{ status }` patch sets the status only, and has no id and no createdAt key |
| `TaskContext.TaskStore.constructor` | src/context/TaskContext.tsx:20 | the store starts with the list the persistent cell supplies |
| `TaskContext.TaskStore.AddTask` | src/context/TaskContext.tsx:57-64 | the list becomes `[newTask] + old`; with a fresh id, unique ids stay unique |
| `TaskContext.TaskStore.UpdateTask` | src/context/TaskContext.tsx:66-68 | the list becomes the mapped merge; with a patch without an `id` key, unique ids stay unique |
| `TaskContext.TaskStore.DeleteTask` | src/context/TaskContext.tsx:70-72 | the list becomes the filtered list, and unique ids stay unique |
| `TaskContext.UseTaskContext` | src/context/TaskContext.tsx:89-94 | the store is returned exactly when a provider exists; otherwise the result is the 'must be used within a TaskProvider' error |
| `TaskBoard.FilteredTasks` | src/components/TaskBoard.tsx:22-30 | a task is visible exactly when the search, status and priority conditions all hold |
| `TaskBoard.MatchesSearch` | src/components/TaskBoard.tsx:24 | the search condition; its contract is `TaskBoard.MatchesSearchIff`, `TaskBoard.EmptySearchMatchesAll` and `TaskBoard.SearchIsCaseInsensitive` |
| `TaskBoard.MatchesStatus` | src/components/TaskBoard.tsx:25 | 'All' or the task's own status; its consequences are `TaskBoard.NoFilterShowsAll` and `TaskBoard.EmptyTermFiltersByStatusAndPriority` |
| `TaskBoard.MatchesPriority` | src/components/TaskBoard.tsx:26 | 'All' or the task's own priority; its consequences are `TaskBoard.NoFilterShowsAll` and `TaskBoard.EmptyTermFiltersByStatusAndPriority` |
| `TaskBoard.IsVisible` | src/components/TaskBoard.tsx:24-28 | the conjunction of the three conditions; `TaskBoard.FilteredTasks` shows a task exactly when it holds |
| `TaskBoard.FilteredIsSubsequence` | src/components/TaskBoard.tsx:23-29 | the visible tasks keep the original order, and the visible count never exceeds the total |
| `TaskBoard.MatchesSearchIff` | src/components/TaskBoard.tsx:24 | the search holds exactly when the lower-cased term occurs in the lower-cased title |
| `TaskBoard.EmptySearchMatchesAll` | src/components/TaskBoard.tsx:24 | the empty term matches every task |
| `TaskBoard.SearchIsCaseInsensitive` | src/components/TaskBoard.tsx:24 | the search ignores the case of both term and title, and does not look at the description |
| `TaskBoard.NoFilterShowsAll` | src/components/TaskBoard.tsx:23-29 | with no term and both filters at 'All', the view is the whole list |
| `TaskBoard.EmptyTermFiltersByStatusAndPriority` | src/components/TaskBoard.tsx:25-26 | with an empty term, the view is exactly the tasks with the chosen status and priority, in order |
| `TaskList.Bucket` | src/components/TaskList.tsx:22-26 | a column holds exactly the input tasks with its status |
| `TaskList.GroupedTasks` | src/components/TaskList.tsx:22-26 | each of the three columns is the bucket of its status |
| `TaskList.ColumnsCoverStatuses` | src/components/TaskList.tsx:66 | the columns are To Do, In Progress and Done, and each status has exactly one |
| `TaskList.BucketsPartition` | src/components/TaskList.tsx:22-26 | every task lands in exactly one column, so the column sizes sum to the list's length |
| `TaskList.BucketKeepsOrder` | src/components/TaskList.tsx:22-26 | a column keeps the input order |
| `TaskList.HandleDragEnd` | src/components/TaskList.tsx:28-48 | a drop yields an update exactly when it has a destination in another column, and that update is `updateTask(draggableId, { status: destination })` |
| `TaskList.DropWithinColumnIsNoop` | src/components/TaskList.tsx:31-47 | a drop off the board or within one column leaves the list unchanged, whatever the indices |
| `TaskList.AfterDrop` | src/components/TaskList.tsx:28-48 | the list after a drop keeps its length and every task other than the dragged one; see `TaskList.DropWithinColumnIsNoop` and `TaskList.DropMovesTask` |
| `TaskList.DropMovesTask` | src/components/TaskList.tsx:42-46 | a drop into another column changes only the dragged task's status; the task lands in the destination column and in no other column |
| `TaskList.OnDragEnd` | src/components/TaskList.tsx:28-48 | the store changes by the drop's update, if there is one, and not otherwise |
| `TaskList.WriteSpecScenario` | src/context/TaskContext.tsx:57-67 | creating a To Do task on an empty board and dropping it on Done leaves To Do empty and Done holding that one task |
| `TaskForm.AssigneeValue` | src/components/TaskForm.tsx:38 | the blank choice becomes absent, and a picked user becomes its number |
| `TaskForm.InitialForm` | src/components/TaskForm.tsx:18-23 | the start state: no error; a new form is empty with Medium, To Do and no assignee; an edit copies title, priority, status and the description (or ''), and picks the assignee exactly when its id is present and not 0 |
| `TaskForm.TaskData` | src/components/TaskForm.tsx:33-39 | `taskData`: title and description are the trimmed inputs, so the submitted text is already trimmed and stays fixed under `trim`; the title is empty exactly when the input is all whitespace, and the assignee is converted |
| `TaskForm.HandleSubmit` | src/components/TaskForm.tsx:25-50 | an all-whitespace title gives the error 'Title is required' and no store call; otherwise the trimmed data goes to an edit of the existing task's id, or to a create when there is no existing task |
| `TaskForm.OnTitleChange` | src/components/TaskForm.tsx:71-74 | editing the title sets it, clears any pending error and changes nothing else |
| `TaskForm.Submit` | src/components/TaskForm.tsx:41-49 | a submit makes exactly the store call its outcome names, and no call when invalid |
| `TaskForm.AfterSubmit` | src/components/TaskForm.tsx:41-47 | a rejected submit keeps the list; a create adds one task with the form's data in front; an edit keeps the length |
| `TaskForm.NewFormDefaults` | src/components/TaskForm.tsx:18-23 | a new form starts empty, with priority Medium, status To Do and no assignee |
| `TaskForm.InvalidSubmitChangesNothing` | src/components/TaskForm.tsx:28-31 | a rejected submit leaves the tasks unchanged |
| `TaskForm.EditKeepsIdentity` | src/components/TaskForm.tsx:41-42 | an edit rewrites the editable fields of the edited task and keeps every id and createdAt, so ids stay unique |
| `TaskForm.CreateAddsOne` | src/components/TaskForm.tsx:44-45 | a create puts one new task, with the form's data, in front of the list |
| `TaskForm.EditUnchangedRoundTrip` | src/components/TaskForm.tsx:18-42 | opening a clean task for edit and saving it unchanged gives the same task back |
| `TaskForm.EditDropsAssigneeZero` | src/components/TaskForm.tsx:22 | a task assigned to user 0 loses its assignee when it is saved unchanged |
| `TaskCard.FindAssignee` | src/components/TaskCard.tsx:34 | a user is found only when the task has an assigneeId equal to that user's id; nothing is found exactly when no user has the id |
| `TaskCard.FindAssigneeIsFirst` | src/components/TaskCard.tsx:34 | the user found is the first one with that id |
| `TaskCard.AssigneeName` | src/components/TaskCard.tsx:105 | the found user's name, or 'Unassigned' |
| `TaskCard.AssigneeInitial` | src/components/TaskCard.tsx:103 | at most one character: '?' with no assignee, otherwise the name's first character, or '' for an empty name |
| `TaskCard.MissingAssigneeDisplay` | src/components/TaskCard.tsx:103-105 | an absent or dangling assignee shows 'Unassigned' and '?' |
| `TaskCard.FoundAssigneeDisplay` | src/components/TaskCard.tsx:103-105 | a found assignee with a non-empty name shows that name and its first character |
| `TaskCard.OnDeleteButton` | src/components/TaskCard.tsx:76-126 | only Delete calls `deleteTask`, with the card's id; Cancel and Delete both close the confirmation |
| `TaskCard.HandleDelete` | src/components/TaskCard.tsx:36-40 | confirming deletes the card's task from the store, after which no task has its id, and closes the confirmation |

## Left out

- The user fetch (src/context/TaskContext.tsx:25-55) and the `users`, `isUsersLoading` and `usersError` it publishes. It is an asynchronous network call with a teardown guard.
- Persistence. `useLocalStorage` is not part of this model, so the save/reload round trip and the storage failure policy are not modelled. The store's constructor takes the list the cell supplies.
- Debouncing. `useDebounce` is not part of this model, and its 300 ms timing is not modelled. The debounced term is a plain input.
- `crypto.randomUUID()` and `Date.now()`. They are parameters of `AddTask`, and the randomness of the id is not modelled.
- `Text.ToLower`: lower-cases ASCII letters only. JavaScript's `toLowerCase` also maps non-ASCII letters.
- `TaskCard.FoundAssigneeDisplay`: a Dafny string is a sequence of Unicode scalar values, while JavaScript strings are UTF-16 code units. For a name that starts outside the Basic Multilingual Plane, `charAt(0)` gives a lone surrogate, but the model's initial is the whole character. For the same reason, `trim` and `includes` are modelled on code points rather than on code units.
- `TaskCard.AssigneeInitial`: returns the name's first Unicode scalar value, whereas `charAt(0)` returns the first UTF-16 code unit. The two differ for a name that starts outside the Basic Multilingual Plane.
- The assignee select's `onChange` (src/components/TaskForm.tsx:132). It parses a string with `Number`, which is a foreign conversion. The select's value is modelled directly as `AssigneeInput`.
- A `Partial<Task>` that sets a required key (title, priority, status) to `undefined` is not representable: such a patch would leave a Task without that field.
- Status strings outside the three literals (for example from a tampered saved list). The closed `Status` datatype cannot hold them, so the columns' handling of an unknown status is not modelled.
- Toasts, JSX rendering, styling, the empty-list and hydration guards of `TaskList`, `toLocaleDateString`, the drag library's internals and `TaskControls`. These are presentation only.
