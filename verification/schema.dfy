/**
 * The row shapes of the three tables (todos, app_state, trophy_counts),
 * their insert and partial-update shapes, and the column defaults.
 */
module Schema {
  import opened Wrappers

  /** A point in time or a duration, in whole milliseconds. */
  type Millis = int

  /** The `status` column: a text enum of exactly these three values. */
  datatype Status = Planning | Running | Finished

  /** A row of the todos table; `id` is a serial primary key. */
  datatype Todo = Todo(id: int, content: string, completed: bool, order: int)

  /** The insert shape of a todo: every column but `id`; `completed` may be omitted. */
  datatype InsertTodo = InsertTodo(content: string, completed: Option<bool>, order: int)

  /** A partial update of a todo: each supplied field overwrites its column. */
  datatype TodoPatch = TodoPatch(content: Option<string>, completed: Option<bool>, order: Option<int>)

  /** The singleton app-state row. `startTime` is a nullable timestamp with no default. */
  datatype AppState = AppState(
    id: int,
    title: string,
    startTime: Option<Millis>,
    status: Status,
    paperColor: string,
    backgroundColor: string)

  /**
   * The insert shape of the app state (every column but `id`, each optional)
   * and, the same thing, a partial update of it. `startTime` is
   * `Some(None)` when the caller supplies an explicit null.
   */
  datatype AppStatePatch = AppStatePatch(
    title: Option<string>,
    startTime: Option<Option<Millis>>,
    status: Option<Status>,
    paperColor: Option<string>,
    backgroundColor: Option<string>)

  /** The singleton trophy histogram row: one counter per tier 1..8. */
  datatype TrophyCounts = TrophyCounts(
    id: int,
    tier1: int, tier2: int, tier3: int, tier4: int,
    tier5: int, tier6: int, tier7: int, tier8: int)

  const DefaultTitle: string := "My To-Do List"
  const DefaultPaperColor: string := "#fefcf5"
  const DefaultBackgroundColor: string := "#f1f5f9"

  /** The patch with no field supplied. */
  const EmptyPatch := AppStatePatch(None, None, None, None, None)

  /** A tier that has a counter column. */
  predicate IsTier(tier: int) {
    1 <= tier <= 8
  }

  /** The counter of `tier` in `h`. */
  function Count(h: TrophyCounts, tier: int): int
    requires IsTier(tier)
  {
    match tier
    case 1 => h.tier1
    case 2 => h.tier2
    case 3 => h.tier3
    case 4 => h.tier4
    case 5 => h.tier5
    case 6 => h.tier6
    case 7 => h.tier7
    case _ => h.tier8
  }

  /** The row a todo insert produces under the given serial id. */
  function NewTodoRow(id: int, ins: InsertTodo): (t: Todo)
    ensures t.id == id && t.content == ins.content && t.order == ins.order
    ensures t.completed <==> ins.completed == Some(true)
  {
    Todo(id, ins.content, ins.completed.GetOr(false), ins.order)
  }

  /** The row an app-state insert produces: omitted columns take their defaults. */
  function NewAppStateRow(id: int, ins: AppStatePatch): (s: AppState)
    ensures s.id == id
    ensures ins.title.None? ==> s.title == "My To-Do List"
    ensures ins.status.None? ==> s.status == Planning
    ensures ins.startTime.None? ==> s.startTime.None?
    ensures ins.paperColor.None? ==> s.paperColor == "#fefcf5"
    ensures ins.backgroundColor.None? ==> s.backgroundColor == "#f1f5f9"
    ensures ins.title.Some? ==> s.title == ins.title.value
    ensures ins.status.Some? ==> s.status == ins.status.value
    ensures ins.startTime.Some? ==> s.startTime == ins.startTime.value
    ensures ins.paperColor.Some? ==> s.paperColor == ins.paperColor.value
    ensures ins.backgroundColor.Some? ==> s.backgroundColor == ins.backgroundColor.value
  {
    AppState(
      id,
      ins.title.GetOr(DefaultTitle),
      ins.startTime.GetOr(None),
      ins.status.GetOr(Planning),
      ins.paperColor.GetOr(DefaultPaperColor),
      ins.backgroundColor.GetOr(DefaultBackgroundColor))
  }

  /** The row a trophy-counts insert with no values produces: every counter 0. */
  function NewTrophyCountsRow(id: int): (h: TrophyCounts)
    ensures h.id == id
    ensures forall tier | IsTier(tier) :: Count(h, tier) == 0
  {
    TrophyCounts(id, 0, 0, 0, 0, 0, 0, 0, 0)
  }
}
