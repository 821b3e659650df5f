/**
 * The browser's `localStorage` as the `App` component uses it: the whole
 * task list under the one key "todos". The JSON encoding is taken to be
 * lossless, so a stored value is the list itself.
 */
module Storage {
  import opened Tasks

  /** The key the list is kept under, and the one storage events are
      checked against. */
  const TodosKey: string := "todos"

  type Store = map<string, seq<Task>>

  /** `getTodosFromStorage`: the stored list, or `[]` when the key is
      absent. */
  function Load(store: Store): (todos: seq<Task>)
    ensures TodosKey !in store ==> todos == []
    ensures TodosKey in store ==> todos == store[TodosKey]
  {
    if TodosKey in store then store[TodosKey] else []
  }

  /** `saveTodosToStorage`: overwrite the "todos" entry, touching no other
      key. */
  function Save(store: Store, todos: seq<Task>): (r: Store)
    ensures r.Keys == store.Keys + {TodosKey}
    ensures r[TodosKey] == todos
    ensures forall k :: k in store && k != TodosKey ==> r[k] == store[k]
  {
    store[TodosKey := todos]
  }

  /** Loading after a save gives back exactly the saved list. */
  lemma LoadAfterSave(store: Store, todos: seq<Task>)
    ensures Load(Save(store, todos)) == todos
  {
  }

  /** A later save overwrites an earlier one: the last writer wins. */
  lemma SaveOverwrites(store: Store, first: seq<Task>, second: seq<Task>)
    ensures Save(Save(store, first), second) == Save(store, second)
  {
  }

  /** Saving what was just loaded changes the store only by creating the
      "todos" entry, as `[]`, when it was absent. */
  lemma SaveLoaded(store: Store)
    ensures Save(store, Load(store)) == if TodosKey in store then store else store[TodosKey := []]
  {
  }
}
