/**
 * The tasks of the to-do list and the three whole-list rewrites the `App`
 * component hands to `updateTodos`: a spread-append when a task is
 * submitted, a `filter` when one is deleted and a `map` when one is
 * clicked complete.
 */
module Tasks {

  /** A task id. A submitted task gets `Date.now()`, a millisecond stamp; a
      task preloaded from a category gets `uuidv4()`. JavaScript's `===`
      never equates a number with a string, and neither does this type. */
  datatype Id = Stamp(millis: int) | Uuid(uuid: string)

  datatype Task = Task(id: Id, text: string, completed: bool)

  /** The ids that occur in a list. */
  function Ids(s: seq<Task>): set<Id> {
    set t | t in s :: t.id
  }

  /** No two tasks of the list share an id. */
  predicate DistinctIds(s: seq<Task>) {
    forall i, j :: 0 <= i < j < |s| ==> s[i].id != s[j].id
  }

  /** `a` is `b` with some elements dropped and the rest kept in order. */
  predicate IsSubsequence<T(==)>(a: seq<T>, b: seq<T>)
    decreases |b|
  {
    if a == [] then true
    else if b == [] then false
    else (a[0] == b[0] && IsSubsequence(a[1..], b[1..])) || IsSubsequence(a, b[1..])
  }

  /** Every list is a subsequence of itself. */
  lemma {:induction false} SubsequenceReflexive<T>(s: seq<T>)
    ensures IsSubsequence(s, s)
  {
    if s != [] {
      SubsequenceReflexive(s[1..]);
    }
  }

  /** Number of tasks of `s` whose id is `id`. */
  function CountId(s: seq<Task>, id: Id): (n: nat)
    ensures n <= |s|
    ensures n == 0 <==> id !in Ids(s)
  {
    if s == [] then 0
    else
      assert Ids(s) == {s[0].id} + Ids(s[1..]) by {
        assert forall t :: t in s <==> t == s[0] || t in s[1..];
      }
      (if s[0].id == id then 1 else 0) + CountId(s[1..], id)
  }

  /** Submitting a task: the spread-append `[...prevTodos, { id, text,
      completed: false }]`. */
  function Create(todos: seq<Task>, id: Id, text: string): (r: seq<Task>)
    ensures |r| == |todos| + 1
    ensures r[..|todos|] == todos
    ensures r[|todos|].id == id && r[|todos|].text == text && !r[|todos|].completed
    ensures DistinctIds(todos) && id !in Ids(todos) ==> DistinctIds(r)
  {
    todos + [Task(id, text, false)]
  }

  /** Deleting a task: `prevTodos.filter((todo) => todo.id !== id)`. */
  function Delete(todos: seq<Task>, id: Id): (r: seq<Task>)
    ensures forall t :: t in r <==> t in todos && t.id != id
    ensures IsSubsequence(r, todos)
    ensures id !in Ids(todos) ==> r == todos
  {
    if todos == [] then []
    else
      assert forall t :: t in todos <==> t == todos[0] || t in todos[1..];
      if todos[0].id == id then Delete(todos[1..], id)
      else [todos[0]] + Delete(todos[1..], id)
  }

  /** One task of the `map` in the completion handler: the matching task
      gets `{ ...todo, completed: !todo.completed }`, any other is kept. */
  function Flip(todo: Task, id: Id): (r: Task)
    ensures r.id == todo.id && r.text == todo.text
    ensures r.completed == (todo.completed != (todo.id == id))
  {
    if todo.id == id then todo.(completed := !todo.completed) else todo
  }

  /** Clicking a task complete: `prevTodos.map(...)` with `Flip`. */
  function Toggle(todos: seq<Task>, id: Id): (r: seq<Task>)
    ensures |r| == |todos|
    ensures forall i :: 0 <= i < |r| ==> r[i].id == todos[i].id && r[i].text == todos[i].text
    ensures forall i :: 0 <= i < |r| ==> r[i].completed == (todos[i].completed != (todos[i].id == id))
  {
    if todos == [] then [] else [Flip(todos[0], id)] + Toggle(todos[1..], id)
  }

  /** Deleting shortens the list by the number of tasks with that id. */
  lemma {:induction false} DeleteLength(todos: seq<Task>, id: Id)
    ensures |Delete(todos, id)| == |todos| - CountId(todos, id)
  {
    if todos != [] {
      DeleteLength(todos[1..], id);
    }
  }

  /** Deleting from two lists joined is deleting from each. */
  lemma {:induction false} DeleteAppend(a: seq<Task>, b: seq<Task>, id: Id)
    ensures Delete(a + b, id) == Delete(a, id) + Delete(b, id)
  {
    if a != [] {
      assert (a + b)[1..] == a[1..] + b;
      DeleteAppend(a[1..], b, id);
    } else {
      assert a + b == b;
    }
  }

  /** Deleting the task just submitted, under a fresh id, restores the list. */
  lemma DeleteUndoesCreate(todos: seq<Task>, id: Id, text: string)
    requires id !in Ids(todos)
    ensures Delete(Create(todos, id, text), id) == todos
  {
    DeleteAppend(todos, [Task(id, text, false)], id);
    assert Delete([Task(id, text, false)], id) == [];
  }

  /** The tail of a list with distinct ids has distinct ids, none of them
      the head's. */
  lemma DistinctTail(s: seq<Task>)
    requires DistinctIds(s) && s != []
    ensures DistinctIds(s[1..]) && s[0].id !in Ids(s[1..])
  {
  }

  /** A task put in front of a list with distinct ids other than its own. */
  lemma DistinctCons(t: Task, s: seq<Task>)
    requires DistinctIds(s) && t.id !in Ids(s)
    ensures DistinctIds([t] + s)
  {
  }

  /** Deleting keeps the ids of a list distinct. */
  lemma {:induction false} DeleteKeepsDistinct(todos: seq<Task>, id: Id)
    requires DistinctIds(todos)
    ensures DistinctIds(Delete(todos, id))
  {
    if todos != [] {
      DistinctTail(todos);
      DeleteKeepsDistinct(todos[1..], id);
      if todos[0].id != id {
        DistinctCons(todos[0], Delete(todos[1..], id));
      }
    }
  }

  /** With distinct ids, an id occurs at most once. */
  lemma {:induction false} CountIdDistinct(s: seq<Task>, id: Id)
    requires DistinctIds(s)
    ensures CountId(s, id) <= 1
  {
    if s != [] {
      DistinctTail(s);
      CountIdDistinct(s[1..], id);
    }
  }

  /** Of N tasks with distinct ids, deleting one that is present leaves
      exactly N - 1. */
  lemma DeleteOneOfDistinct(todos: seq<Task>, id: Id)
    requires DistinctIds(todos) && id in Ids(todos)
    ensures |Delete(todos, id)| == |todos| - 1
  {
    DeleteLength(todos, id);
    CountIdDistinct(todos, id);
  }

  /** Two tasks submitted within the same millisecond share a stamp, and
      deleting either one deletes both. */
  lemma SameStampDeletedTogether(todos: seq<Task>, millis: int, a: string, b: string)
    ensures Delete(Create(Create(todos, Stamp(millis), a), Stamp(millis), b), Stamp(millis))
         == Delete(todos, Stamp(millis))
  {
    var first, second := Task(Stamp(millis), a, false), Task(Stamp(millis), b, false);
    assert Create(Create(todos, Stamp(millis), a), Stamp(millis), b) == todos + [first, second];
    DeleteAppend(todos, [first, second], Stamp(millis));
    assert Delete([first, second], Stamp(millis)) == [];
  }

  /** Clicking a task complete twice gives back the list it started from. */
  lemma ToggleTwice(todos: seq<Task>, id: Id)
    ensures Toggle(Toggle(todos, id), id) == todos
  {
  }

  /** Completion neither creates, loses nor duplicates ids; an absent id
      leaves the list as it was. */
  lemma ToggleKeepsIds(todos: seq<Task>, id: Id)
    ensures Ids(Toggle(todos, id)) == Ids(todos)
    ensures DistinctIds(todos) ==> DistinctIds(Toggle(todos, id))
    ensures id !in Ids(todos) ==> Toggle(todos, id) == todos
  {
  }

  /** A click on a card's delete button also reaches the card's own click
      handler, so the same batch deletes and then completes the id; the
      completion finds nothing left to flip. */
  lemma ToggleAfterDelete(todos: seq<Task>, id: Id)
    ensures Toggle(Delete(todos, id), id) == Delete(todos, id)
  {
  }
}
