/** The board's derived view: the tasks that pass the search term, the status filter
    and the priority filter. */
module TaskBoard {
  import opened Seqs
  import opened Text
  import opened Types

  /** `Status | 'All'`. */
  datatype StatusFilter = AllStatuses | StatusIs(status: Status)

  /** `Priority | 'All'`. */
  datatype PriorityFilter = AllPriorities | PriorityIs(priority: Priority)

  /** The lower-cased title includes the lower-cased (debounced) term. */
  predicate MatchesSearch(t: Task, term: string) {
    Includes(ToLower(t.title), ToLower(term))
  }

  predicate MatchesStatus(t: Task, f: StatusFilter) {
    f == AllStatuses || t.status == f.status
  }

  predicate MatchesPriority(t: Task, f: PriorityFilter) {
    f == AllPriorities || t.priority == f.priority
  }

  predicate IsVisible(t: Task, term: string, sf: StatusFilter, pf: PriorityFilter) {
    MatchesSearch(t, term) && MatchesStatus(t, sf) && MatchesPriority(t, pf)
  }

  /** `filteredTasks`: a task is shown exactly when all three conditions hold. */
  function FilteredTasks(tasks: seq<Task>, term: string, sf: StatusFilter, pf: PriorityFilter): (r: seq<Task>)
    ensures forall t :: t in r <==> t in tasks && IsVisible(t, term, sf, pf)
  {
    Filter(tasks, (t: Task) => IsVisible(t, term, sf, pf))
  }

  /** The visible tasks are the total list with some tasks deleted, in the original order:
      the visible count never exceeds the total count. */
  lemma FilteredIsSubsequence(tasks: seq<Task>, term: string, sf: StatusFilter, pf: PriorityFilter)
    ensures IsSubsequence(FilteredTasks(tasks, term, sf, pf), tasks)
    ensures |FilteredTasks(tasks, term, sf, pf)| <= |tasks|
  {
    FilterIsSubsequence(tasks, (t: Task) => IsVisible(t, term, sf, pf));
    SubsequenceLength(FilteredTasks(tasks, term, sf, pf), tasks);
  }

  /** The search is a substring test on the lower-cased title. */
  lemma MatchesSearchIff(t: Task, term: string)
    ensures MatchesSearch(t, term) <==> exists i :: OccursAt(ToLower(t.title), ToLower(term), i)
  {
    IncludesIff(ToLower(t.title), ToLower(term));
  }

  /** The empty term matches every task. */
  lemma EmptySearchMatchesAll(t: Task)
    ensures MatchesSearch(t, "")
  {
    IncludesEmpty(ToLower(t.title));
  }

  /** The search ignores letter case on both sides, and never looks at the description. */
  lemma SearchIsCaseInsensitive(t: Task, term: string, d: Wrappers.Option<string>)
    ensures MatchesSearch(t, term) == MatchesSearch(t, ToLower(term))
    ensures MatchesSearch(t, term) == MatchesSearch(t.(title := ToLower(t.title)), term)
    ensures MatchesSearch(t, term) == MatchesSearch(t.(description := d), term)
  {
    ToLowerIdempotent(term);
    ToLowerIdempotent(t.title);
  }

  /** With no term and both filters at 'All', every task is shown, in order. */
  lemma NoFilterShowsAll(tasks: seq<Task>)
    ensures FilteredTasks(tasks, "", AllStatuses, AllPriorities) == tasks
  {
    forall i | 0 <= i < |tasks| ensures IsVisible(tasks[i], "", AllStatuses, AllPriorities) {
      EmptySearchMatchesAll(tasks[i]);
    }
    FilterKeepsAll(tasks, (t: Task) => IsVisible(t, "", AllStatuses, AllPriorities));
  }

  /** With an empty term, the view is exactly the tasks with the chosen status and priority. */
  lemma EmptyTermFiltersByStatusAndPriority(tasks: seq<Task>, s: Status, p: Priority)
    ensures FilteredTasks(tasks, "", StatusIs(s), PriorityIs(p))
         == Filter(tasks, (t: Task) => t.status == s && t.priority == p)
  {
    forall i | 0 <= i < |tasks| ensures MatchesSearch(tasks[i], "") {
      EmptySearchMatchesAll(tasks[i]);
    }
    FilterExtensional(tasks,
      (t: Task) => IsVisible(t, "", StatusIs(s), PriorityIs(p)),
      (t: Task) => t.status == s && t.priority == p);
  }
}
