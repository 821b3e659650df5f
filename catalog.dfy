/**
 * The category tiles offered on an empty list: an icon per category and a
 * preload that replaces the list with fresh tasks built from the
 * category's seed texts.
 */
module Catalog {
  import opened Wrappers
  import opened Tasks

  /** The tiles, in the order they are rendered. */
  const Categories: seq<string> :=
    ["packing", "groceries", "work", "school", "fitness", "morning", "evening", "weekend"]

  /** The glyph of a category the switch does not list. */
  const DefaultIcon: string := "\U{1F4E6}"

  /** The seed texts of the imported `packingTodos` and `morningTodos`
      lists, whose contents are not part of this model. */
  datatype SeedLists = SeedLists(packing: seq<string>, morning: seq<string>)

  /** `getIconForCategory`: a switch over the eight categories. */
  function IconFor(category: string): (icon: string)
    ensures icon == DefaultIcon <==> category !in Categories
    ensures |icon| > 0
  {
    if category == "packing" then "\U{1F3DC}\U{FE0F}"
    else if category == "groceries" then "\U{1F6D2}"
    else if category == "work" then "\U{1F4BC}"
    else if category == "school" then "\U{1F393}"
    else if category == "fitness" then "\U{1F3CB}\U{FE0F}"
    else if category == "morning" then "\U{2600}\U{FE0F}"
    else if category == "evening" then "\U{1F319}"
    else if category == "weekend" then "\U{1F389}"
    else DefaultIcon
  }

  /** No two tiles show the same icon. */
  lemma IconsDistinct(i: nat, j: nat)
    requires i < j < |Categories|
    ensures IconFor(Categories[i]) != IconFor(Categories[j])
  {
  }

  /** The seed texts the switch of `getTodosByCategory` selects; `None` is
      its default branch, the one that raises "Category not found". */
  function SeedTexts(lists: SeedLists, category: string): (r: Option<seq<string>>)
    ensures r.Some? <==> category == "packing" || category == "morning"
  {
    if category == "packing" then Some(lists.packing)
    else if category == "morning" then Some(lists.morning)
    else None
  }

  /** How many fresh ids the preload of `category` asks `uuidv4()` for. */
  function SeedCount(lists: SeedLists, category: string): nat {
    |SeedTexts(lists, category).GetOr([])|
  }

  /** The `map` at the end of `getTodosByCategory`: one task per seed text,
      with the id the generator gave for that position. */
  function BuildSeed(texts: seq<string>, uuids: seq<string>): (r: seq<Task>)
    requires |uuids| == |texts|
    ensures |r| == |texts|
    ensures forall i :: 0 <= i < |r| ==> r[i].id == Uuid(uuids[i]) && r[i].text == texts[i] && !r[i].completed
  {
    if texts == [] then [] else [Task(Uuid(uuids[0]), texts[0], false)] + BuildSeed(texts[1..], uuids[1..])
  }

  /** Distinct uuids give tasks with distinct ids. */
  lemma BuildSeedDistinct(texts: seq<string>, uuids: seq<string>)
    requires |uuids| == |texts|
    requires forall i, j :: 0 <= i < j < |uuids| ==> uuids[i] != uuids[j]
    ensures DistinctIds(BuildSeed(texts, uuids))
  {
  }

  /** What `getTodosByCategory` returns, and how many "Category not found"
      toasts it raised. */
  datatype Preload = Preload(tasks: seq<Task>, notices: nat)

  /** `getTodosByCategory`. The i-th fresh id in `uuids` is what the i-th
      call of `uuidv4()` returns. */
  function TodosByCategory(lists: SeedLists, category: string, uuids: seq<string>): (p: Preload)
    requires |uuids| == SeedCount(lists, category)
    ensures category == "packing" || category == "morning" ==>
      && p.notices == 0
      && |p.tasks| == |SeedTexts(lists, category).value|
      && forall i :: 0 <= i < |p.tasks| ==>
           p.tasks[i].text == SeedTexts(lists, category).value[i]
           && p.tasks[i].id == Uuid(uuids[i]) && !p.tasks[i].completed
    ensures category != "packing" && category != "morning" ==> p.tasks == [] && p.notices == 1
  {
    match SeedTexts(lists, category)
    case Some(texts) => Preload(BuildSeed(texts, uuids), 0)
    case None => Preload([], 1)
  }

  /** Every preloaded task starts incomplete, and with distinct uuids no two
      preloaded tasks share an id. */
  lemma PreloadFresh(lists: SeedLists, category: string, uuids: seq<string>)
    requires |uuids| == SeedCount(lists, category)
    requires forall i, j :: 0 <= i < j < |uuids| ==> uuids[i] != uuids[j]
    ensures var p := TodosByCategory(lists, category, uuids);
      DistinctIds(p.tasks) && forall t :: t in p.tasks ==> !t.completed
  {
  }
}
