/**
 * The list the `App` component shows: all tasks, or only the incomplete
 * ones when "hide on complete" is on, and the "N of M remaining" header
 * above it.
 */
module Visibility {
  import opened Wrappers
  import opened Tasks

  /** `todos.filter((todo) => !todo.completed)`. */
  function Incomplete(todos: seq<Task>): (r: seq<Task>)
    ensures forall t :: t in r <==> t in todos && !t.completed
    ensures IsSubsequence(r, todos)
    ensures |r| <= |todos|
  {
    if todos == [] then []
    else
      assert forall t :: t in todos <==> t == todos[0] || t in todos[1..];
      if todos[0].completed then Incomplete(todos[1..])
      else [todos[0]] + Incomplete(todos[1..])
  }

  /** The filter keeps every incomplete task as many times as it occurs
      and drops every completed one. */
  lemma {:induction false} IncompleteMultiplicity(todos: seq<Task>)
    ensures forall t :: multiset(Incomplete(todos))[t] == if t.completed then 0 else multiset(todos)[t]
  {
    if todos != [] {
      IncompleteMultiplicity(todos[1..]);
      assert todos == [todos[0]] + todos[1..];
    }
  }

  /** A list with no completed task passes the filter unchanged. */
  lemma {:induction false} IncompleteOfIncomplete(todos: seq<Task>)
    requires forall i :: 0 <= i < |todos| ==> !todos[i].completed
    ensures Incomplete(todos) == todos
  {
    if todos != [] {
      IncompleteOfIncomplete(todos[1..]);
    }
  }

  /** Filtering twice is filtering once. */
  lemma IncompleteIdempotent(todos: seq<Task>)
    ensures Incomplete(Incomplete(todos)) == Incomplete(todos)
  {
    var r := Incomplete(todos);
    assert forall i :: 0 <= i < |r| ==> r[i] in r;
    IncompleteOfIncomplete(r);
  }

  /** The visible list the save effect derives from `todos` and the
      `hideOnComplete` flag. */
  function Project(todos: seq<Task>, hideOnComplete: bool): (r: seq<Task>)
    ensures hideOnComplete ==> forall t :: t in r <==> t in todos && !t.completed
    ensures !hideOnComplete ==> r == todos
    ensures IsSubsequence(r, todos)
    ensures Incomplete(r) == Incomplete(todos)
  {
    if hideOnComplete then
      IncompleteIdempotent(todos);
      Incomplete(todos)
    else
      SubsequenceReflexive(todos);
      todos
  }

  /** The header "N of M remaining": N counts the incomplete tasks of the
      visible list, M all tasks; it is rendered only while the visible list
      is non-empty. */
  function Remaining(visible: seq<Task>, todos: seq<Task>): (h: Option<(nat, nat)>)
    ensures h.Some? <==> |visible| > 0
    ensures h.Some? ==> h.value.0 <= |visible| && h.value.1 == |todos|
  {
    if |visible| > 0 then Some((|Incomplete(visible)|, |todos|)) else None
  }

  /** Over a projected list the header counts exactly the incomplete tasks
      of the whole list, never more than the list's length, whichever way
      the flag is set. */
  lemma RemainingOfProjection(todos: seq<Task>, hideOnComplete: bool)
    ensures var h := Remaining(Project(todos, hideOnComplete), todos);
      && (h.Some? <==> if hideOnComplete then Incomplete(todos) != [] else todos != [])
      && (h.Some? ==> h.value.0 == |Incomplete(todos)| <= h.value.1 == |todos|)
  {
  }
}
