# Todos: the task-list state machine of the `App` component

This project models the logic of the `App` React component of a small
single-user to-do list, and proves properties of that model. The component
lets a user submit, complete, delete and clear short text tasks. It can
preload a list from one of eight category tiles and can hide the completed
tasks. The whole list is kept in the browser's `localStorage` under the key
`"todos"`, and a storage listener keeps several open tabs in step.

The logic exists twice, in `src/App.jsx` (the current variant) and in
`src/App.js` (an older variant with inline markup). The two agree in every
handler and effect; `App.jsx` adds only a `loading` flag. The model is
written once. The table below cites one of the two files per row; the
matching lines of the other file are:

| logic | src/App.jsx | src/App.js |
|---|---|---|
| submit | 43-50 | 34-41 |
| delete | 53-55 | 43-45 |
| complete | 58-68 | 47-57 |
| load and save | 71-83 | 59-71 |
| icon lookup | 87-108 | 73-94 |
| seed tasks for a category | 110-131 | 96-117 |
| category click | 133-139 | 119-125 |
| mount effect and storage listener | 141-160 | 127-144 |
| save and projection effect | 162-175 | 146-159 |
| remaining header | 233-242 | 216-226 |
| clear all | 258-262 | 241-245 |

Modules, following the component's parts:

- `Tasks` (tasks.dfy): the `Task` record and the three list rewrites handed to
  `updateTodos`: spread-append (`Create`), `filter` (`Delete`) and `map`
  (`Toggle`).
- `Visibility` (visibility.dfy): the incomplete-task filter, the visible list
  derived from `hideOnComplete`, and the "N of M remaining" header.
- `Catalog` (catalog.dfy): the icon switch and the seed-task builder.
- `Storage` (storage.dfy): `getTodosFromStorage` and `saveTodosToStorage`
  over a map from keys to stored lists.
- `App` (app.dfy): a `LocalStorage` object shared by all tabs, and the class
  `AppState`, one tab's state. It has one method per handler and per effect.
  It also has three client methods: opening a tab, the reload scenario and a
  two-tab race.
- `Wrappers` (wrappers.dfy): `Option`.

React runs an effect after the render that follows a state change. Here the
caller runs the effect by calling `SaveEffect` after a handler. Every
handler of the component either gives `todos` a new array or flips
`hideOnComplete`, and both are dependencies of the effect, so in the
component the effect fires after every one of them. `Open` shows the start-up order. First
comes the mount effect. Then the first run of the save effect, which only
clears the `firstRender` latch. Then the commit of the hydrated list, whose
effect run saves it back.

Ids are supplied by the caller. `Date.now()` becomes `Id.Stamp(millis)`, so
`HandleSubmit` takes the millisecond count, and `uuidv4()` becomes
`Id.Uuid(text)`.

A click on a task card's delete button also bubbles to the card's own click
handler, so the same batch runs `handleDelete(id)` and then
`handleComplete(id)`. The completion then finds no task with that id
(`Tasks.ToggleAfterDelete`), so `HandleDelete` alone models the click. The toast is a counter, `notices`. The
imported `packingTodos` and `morningTodos` lists are a `SeedLists` parameter,
because their contents are not part of this model.

Four behaviours of the code worth knowing:

- The save-guard does not stop the hydrated list from being saved. The latch
  suppresses only the save of the initial empty state. The next commit
  writes the hydrated list straight back, and an absent key becomes a stored
  `[]` (`Open`, `Storage.SaveLoaded`).
- Ids made with `Date.now()` are not guaranteed unique. Two tasks submitted
  in the same millisecond share an id, and deleting one deletes both
  (`Tasks.SameStampDeletedTogether`). So distinct ids are a hypothesis of the
  lemmas that need them, not an invariant of the state.
- An empty submission is accepted and makes a task with empty text.
- A stored value that fails to parse is not caught by the code. With the
  lossless encoding assumed here, that case cannot arise.

## Model

| member | source | states |
|---|---|---|
| Tasks.CountId | src/App.jsx:54 | counts the tasks carrying an id: at most the list's length, and zero exactly when the id is absent |
| Tasks.Create | src/App.jsx:45-48 | submitting appends exactly one task at the end, with the given id and text and `completed` false; every earlier task stays where it was; a fresh id keeps the ids distinct |
| Tasks.Delete | src/App.jsx:54 | the result holds exactly the tasks whose id differs from the argument, as a subsequence of the input (order kept); an absent id leaves the list unchanged |
| Tasks.DeleteLength | src/App.js:44 | deleting shortens the list by exactly the number of tasks carrying the id |
| Tasks.DeleteAppend | src/App.js:44 | deleting from two joined lists is deleting from each and joining the results |
| Tasks.DeleteUndoesCreate | src/App.jsx:43-55 | deleting the task just submitted under a fresh id gives back the list before the submission |
| Tasks.CountIdDistinct | src/App.js:44 | in a list with distinct ids an id occurs at most once |
| Tasks.DeleteOneOfDistinct | src/App.jsx:53-55 | of N tasks with distinct ids, deleting one that is present leaves exactly N - 1 |
| Tasks.DeleteKeepsDistinct | src/App.js:43-45 | deleting keeps the ids of a list distinct |
| Tasks.SameStampDeletedTogether | src/App.jsx:47 | two tasks submitted under the same millisecond stamp are both deleted by one delete, leaving what deleting that stamp from the earlier list leaves |
| Tasks.Flip | src/App.jsx:60-66 | the map callback keeps id and text and flips `completed` exactly when the id matches |
| Tasks.Toggle | src/App.jsx:59-67 | length, order, ids and texts are kept; `completed` flips on exactly the tasks whose id matches |
| Tasks.ToggleTwice | src/App.js:47-57 | completing the same id twice gives back the original list |
| Tasks.ToggleKeepsIds | src/App.jsx:58-68 | completing keeps the set of ids and their distinctness; an absent id leaves the list unchanged |
| Tasks.ToggleAfterDelete | src/components/TaskCard.jsx:22-37 | completing an id right after deleting it changes nothing, so a delete click that bubbles to the card's click handler still amounts to a delete |
| Visibility.Incomplete | src/App.jsx:171 | the result contains a task exactly when the input contains it and it is incomplete; it is a subsequence of the input, so never longer |
| Visibility.IncompleteMultiplicity | src/App.js:155 | each incomplete task occurs in the result as many times as in the input, and no completed task occurs; with the subsequence property this fixes the result as the filter |
| Visibility.IncompleteOfIncomplete | src/App.js:155 | a list with no completed task passes the filter unchanged |
| Visibility.IncompleteIdempotent | src/App.js:155 | filtering twice is filtering once |
| Visibility.Project | src/App.jsx:170-174 | with the flag set, exactly the incomplete tasks; without it, the list itself; either way a subsequence with the same incomplete tasks as the whole list |
| Visibility.Remaining | src/App.jsx:233-241 | the header is present exactly when the visible list is non-empty; then N is at most the visible list's length and M is the length of the whole list |
| Visibility.RemainingOfProjection | src/App.jsx:233-242 | over the visible list, the header is shown exactly when there is a task to show, and then N is the number of incomplete tasks of the whole list and N <= M = the list's length |
| Catalog.IconFor | src/App.jsx:87-108 | total lookup: the default glyph is returned exactly for strings outside the eight categories, and every glyph is non-empty |
| Catalog.IconsDistinct | src/App.js:73-94 | the eight categories have eight different glyphs |
| Catalog.SeedTexts | src/App.jsx:112-122 | seed texts exist exactly for "packing" and "morning" |
| Catalog.BuildSeed | src/App.jsx:124-130 | one task per seed text, in order, with the i-th fresh id and `completed` false |
| Catalog.BuildSeedDistinct | src/App.js:110-116 | distinct fresh ids give tasks with distinct ids |
| Catalog.TodosByCategory | src/App.jsx:110-131 | a known category yields its seed tasks, in order, incomplete, with no notice; any other yields the empty list and exactly one "Category not found" notice |
| Catalog.PreloadFresh | src/App.js:96-117 | every preloaded task is incomplete and, with distinct fresh ids, no two share an id |
| Storage.Load | src/App.jsx:71-79 | hydration gives `[]` when the "todos" key is absent, and the stored list otherwise |
| Storage.Save | src/App.jsx:81-83 | the "todos" entry holds the saved list afterwards, and every other key keeps its value |
| Storage.LoadAfterSave | src/App.js:59-71 | loading after a save gives back exactly the saved list |
| Storage.SaveOverwrites | src/App.js:69-71 | a later save replaces an earlier one; nothing is merged |
| Storage.SaveLoaded | src/App.jsx:162-168 | saving what was just loaded changes the storage only by creating an empty "todos" entry when none existed |
| App.LocalStorage.SetItem | src/App.jsx:82 | the key gets the new value; all other keys are unchanged |
| App.AppState.constructor | src/App.jsx:10-17 | first render: no tasks, nothing visible, completed tasks struck through rather than hidden, the latch set, no notices |
| App.AppState.SettledView | src/App.jsx:162-175 | once the save effect has caught up, the visible list is a subsequence of the whole list with the same incomplete tasks, never more than the list's length, and a reload sees exactly the current list |
| App.AppState.RemainingHeader | src/App.jsx:233-242 | the header is shown exactly when a task is visible; once settled, N is the number of incomplete tasks and N <= M = the number of tasks |
| App.AppState.HandleSubmit | src/App.js:34-41 | the list becomes `Create` of the old one, under the stamp id of the given millisecond count; nothing else in the state changes |
| App.AppState.HandleDelete | src/App.js:43-45 | the list becomes `Delete` of the old one; nothing else changes |
| App.AppState.HandleComplete | src/App.js:47-57 | the list becomes `Toggle` of the old one; nothing else changes |
| App.AppState.ClearAll | src/App.js:241-245 | the list becomes empty; nothing else changes |
| App.AppState.HandleCategoryClick | src/App.jsx:133-139 | the list is replaced, not merged, by the category's seed tasks; the notice count grows by the lookup's notices |
| App.AppState.ToggleHideOnComplete | src/App.jsx:30-32 | the hide flag flips; nothing else changes |
| App.AppState.MountEffect | src/App.jsx:141-143 | the list becomes what storage holds under "todos", or `[]` |
| App.AppState.HandleStorageChange | src/App.jsx:147-152 | a change of "todos" replaces the list by the stored one; a change of any other key, or a clear, changes nothing |
| App.AppState.SaveEffect | src/App.jsx:162-175 | the first run only clears the latch and leaves storage and the visible list alone; every later run writes the list under "todos" and sets the visible list to its projection, which leaves the state settled; the latch never comes back |
| App.Open | src/App.js:127-159 | a freshly opened tab holds what storage held, and ends settled with that list written back |
| App.ReloadAfterCompleting | src/App.jsx:141-175 | submit "buy milk" on an empty storage, complete it, reload: the new page holds exactly that one task, completed |
| App.CrossTabOverwrite | src/App.js:131-136 | a tab that gets a storage event before its own save takes the other tab's list whole, and its pending task is lost; both tabs and the storage then hold the other tab's list |

## Left out

- Rendering, styling and the `twMerge` classes are presentation. So are the input field's state (`newTodo`, `handleInputChange`, the reset after submit), the `loading` flag of `App.jsx`, and the markup of the `Menu`, `TaskCard` and `CategoryCard` components. These forward callbacks; the one extra effect, a delete click bubbling into a completion, is covered by `Tasks.ToggleAfterDelete`.
- `Date.now()` and `uuidv4()` are a clock and a random source. Their results are parameters: the millisecond count of `HandleSubmit`, and the `uuids` of `HandleCategoryClick`, one per seed text.
- `react-hot-toast` is a display library. It is modelled only as the `notices` counter.
- `JSON.stringify` and `JSON.parse` are library calls. The storage holds task lists directly, as an encoding without loss. So the parse failure that the code does not catch, and the empty string that `if (todos)` treats as absent, are not modelled.
- `localStorage.getItem` and `localStorage.setItem` are taken never to fail. In a browser they can throw, for instance when the storage is full or disabled; the code catches neither, so the throw escapes the mount or save effect. `Storage.Load`, `Storage.Save` and `App.LocalStorage.SetItem` are total, and `Storage.LoadAfterSave`, `App.AppState.SettledView` and `App.Open` hold only for a storage that never throws.
- `window.addEventListener` and `removeEventListener` are event plumbing. Only the listener's body, `HandleStorageChange`, is modelled.
- React's scheduling is not modelled: its batching of several updates into one render, and its skipping of an effect whose dependencies did not change. The caller runs `SaveEffect` explicitly. The timing of events from other tabs is represented only by the order of calls, as in `CrossTabOverwrite`.
- The undo and redo hotkey effect is commented out (src/App.jsx:177-211), so it is dead code.
- The contents of `packingTodos` and `morningTodos` live in `./lists`, which is not part of this model.
- App.AppState.SettledView: "the visible list is a subsequence of the list" is proved only for settled states, those after a save-effect run. Between a handler and the effect, the component renders a stale visible list, so the property does not hold at every moment.
