/**
 * The state shell of the `App` component: its React state (`todos`,
 * `visibleTodos`, `hideOnComplete`), the `firstRender` ref, the shared
 * `localStorage` and the toast notifications, with one method per event
 * handler and per effect.
 *
 * React runs an effect after the render that follows a state change; here
 * the caller runs it by calling the effect's method. Every handler of the
 * component either gives `todos` a new array or flips `hideOnComplete`, and
 * both are dependencies of the save effect, so it fires after each of them.
 */
module App {
  import opened Wrappers
  import opened Tasks
  import opened Visibility
  import opened Catalog
  import opened Storage

  /** The browser's `localStorage`, one object shared by every open tab. */
  class LocalStorage {
    var items: Store

    constructor (items: Store)
      ensures this.items == items
    {
      this.items := items;
    }

    /** `localStorage.setItem(key, value)`, from this tab or another. */
    method SetItem(key: string, value: seq<Task>)
      modifies this`items
      ensures items == old(items)[key := value]
    {
      items := items[key := value];
    }
  }

  /** One open tab running the component. */
  class AppState {
    var todos: seq<Task>
    var visible: seq<Task>
    var hideOnComplete: bool
    var firstRender: bool
    var notices: nat
    const storage: LocalStorage

    /** The first render: every `useState` and `useRef` at its initial value. */
    constructor (storage: LocalStorage)
      ensures this.storage == storage
      ensures todos == [] && visible == [] && !hideOnComplete && firstRender && notices == 0
    {
      this.storage := storage;
      todos, visible, hideOnComplete, firstRender, notices := [], [], false, true, 0;
    }

    /** The save effect has caught up with the state: the stored list and
        the visible list are those of `todos`. */
    predicate Settled()
      reads this, storage
    {
      && !firstRender
      && TodosKey in storage.items
      && storage.items[TodosKey] == todos
      && visible == Project(todos, hideOnComplete)
    }

    /** In a settled state the visible list keeps the order of the whole
        list, counts the same incomplete tasks, and a reload would see
        exactly `todos`. */
    lemma SettledView()
      requires Settled()
      ensures IsSubsequence(visible, todos)
      ensures |Incomplete(visible)| == |Incomplete(todos)| <= |todos|
      ensures Load(storage.items) == todos
    {
    }

    /** The "N of M remaining" header; in a settled state N is the number
        of incomplete tasks, and it is shown whenever one is visible. */
    function RemainingHeader(): (h: Option<(nat, nat)>)
      reads this, storage
      ensures h.Some? <==> |visible| > 0
      ensures Settled() && h.Some? ==> h.value.0 == |Incomplete(todos)| <= h.value.1 == |todos|
    {
      Remaining(visible, todos)
    }

    /** `handleSubmit`: the text in the input field becomes a new incomplete
        task at the end; `millis` is what `Date.now()` returned. */
    method HandleSubmit(millis: int, text: string)
      modifies this`todos
      ensures todos == Create(old(todos), Stamp(millis), text)
    {
      todos := Create(todos, Stamp(millis), text);
    }

    /** `handleDelete`. A click on a card's delete button also bubbles to
        the card's completion handler; by `ToggleAfterDelete` that second
        update changes nothing, so this method alone models the click. */
    method HandleDelete(id: Id)
      modifies this`todos
      ensures todos == Delete(old(todos), id)
    {
      todos := Delete(todos, id);
    }

    /** `handleComplete`. */
    method HandleComplete(id: Id)
      modifies this`todos
      ensures todos == Toggle(old(todos), id)
    {
      todos := Toggle(todos, id);
    }

    /** The "Clear all" button. */
    method ClearAll()
      modifies this`todos
      ensures todos == []
    {
      todos := [];
    }

    /** `handleCategoryClick`: the list is replaced, not merged, by the
        category's seed tasks, and an unknown category adds a toast. */
    method HandleCategoryClick(lists: SeedLists, category: string, uuids: seq<string>)
      requires |uuids| == SeedCount(lists, category)
      modifies this`todos, this`notices
      ensures todos == TodosByCategory(lists, category, uuids).tasks
      ensures notices == old(notices) + TodosByCategory(lists, category, uuids).notices
    {
      var preload := TodosByCategory(lists, category, uuids);
      todos := preload.tasks;
      notices := notices + preload.notices;
    }

    /** The settings menu's "Completed Tasks" option. */
    method ToggleHideOnComplete()
      modifies this`hideOnComplete
      ensures hideOnComplete == !old(hideOnComplete)
    {
      hideOnComplete := !hideOnComplete;
    }

    /** The mount effect: hydrate from storage. Registering the storage
        listener is not modelled; `HandleStorageChange` is its body. */
    method MountEffect()
      modifies this`todos
      ensures todos == Load(storage.items)
    {
      todos := Load(storage.items);
    }

    /** `handleStorageChange`: another tab changed `key` (`None` when it
        cleared the whole storage); only "todos" rehydrates. */
    method HandleStorageChange(key: Option<string>)
      modifies this`todos
      ensures key == Some(TodosKey) ==> todos == Load(storage.items)
      ensures key != Some(TodosKey) ==> todos == old(todos)
    {
      if key == Some(TodosKey) {
        todos := Load(storage.items);
      }
    }

    /** The effect on `[todos, hideOnComplete]`. Its first run only clears
        the `firstRender` latch; every later run saves `todos` and derives
        the visible list. */
    method SaveEffect()
      modifies this`firstRender, this`visible, storage`items
      ensures !firstRender
      ensures old(firstRender) ==> visible == old(visible) && storage.items == old(storage.items)
      ensures !old(firstRender) ==> storage.items == Save(old(storage.items), todos)
      ensures !old(firstRender) ==> visible == Project(todos, hideOnComplete) && Settled()
    {
      if firstRender {
        firstRender := false;
        return;
      }
      storage.SetItem(TodosKey, todos);
      if hideOnComplete {
        visible := Incomplete(todos);
      } else {
        visible := todos;
      }
    }
  }

  /** Opening a tab: the render, the commit that runs both effects (the
      save effect only clears its latch), and the commit of the hydrated
      list, which writes it back. */
  method Open(storage: LocalStorage) returns (tab: AppState)
    modifies storage`items
    ensures fresh(tab) && tab.storage == storage
    ensures tab.todos == Load(old(storage.items)) && !tab.hideOnComplete && tab.notices == 0
    ensures storage.items == Save(old(storage.items), tab.todos) && tab.Settled()
  {
    tab := new AppState(storage);
    tab.MountEffect();
    tab.SaveEffect();
    tab.SaveEffect();
  }

  /** On an empty storage: submit "buy milk", complete it, reload. The new
      page sees exactly that one task, completed. */
  method ReloadAfterCompleting(millis: int) returns (reloaded: seq<Task>)
    ensures reloaded == [Task(Stamp(millis), "buy milk", true)]
  {
    var storage := new LocalStorage(map[]);
    var tab := Open(storage);
    tab.HandleSubmit(millis, "buy milk");
    tab.SaveEffect();
    tab.HandleComplete(Stamp(millis));
    tab.SaveEffect();
    var again := Open(storage);
    reloaded := again.todos;
  }

  /** Two tabs on one storage. Tab B submits a task of its own, but before
      its save effect runs the storage event for tab A's new task arrives:
      B takes A's list whole, its own pending task is lost, and B's save
      then writes A's list back. */
  method CrossTabOverwrite(millisA: int, textA: string, millisB: int, textB: string)
    returns (a: seq<Task>, b: seq<Task>, stored: seq<Task>)
    ensures a == b == stored == [Task(Stamp(millisA), textA, false)]
  {
    var storage := new LocalStorage(map[]);
    var tabA := Open(storage);
    var tabB := Open(storage);
    tabA.HandleSubmit(millisA, textA);
    tabA.SaveEffect();
    tabB.HandleSubmit(millisB, textB);
    tabB.HandleStorageChange(Some(TodosKey));
    tabB.SaveEffect();
    a, b, stored := tabA.todos, tabB.todos, Load(storage.items);
  }
}
