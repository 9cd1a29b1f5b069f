/**
 * The storage layer (`DatabaseStorage`) over an in-memory database: the todos
 * table as a sequence of rows, the two singleton tables as optional rows, and
 * the todos id sequence as a counter.
 */
module Storage {
  import opened Wrappers
  import opened Schema
  import opened Ordering

  /** The id a serial column hands out first; the singleton tables only ever get this one. */
  const FirstSerialId := 1

  datatype Db = Db(
    todos: seq<Todo>,
    nextTodoId: int,
    appState: Option<AppState>,
    trophies: Option<TrophyCounts>)

  /** The database before anything is inserted. */
  const EmptyDb := Db([], FirstSerialId, None, None)

  /** What a storage call returns: the database afterwards and the call's value. */
  datatype Reply<T> = Reply(db: Db, value: T)

  // ---------------------------------------------------------------- todos

  /** No todo of `s` has id `id`. */
  ghost predicate Absent(s: seq<Todo>, id: int) {
    forall i | 0 <= i < |s| :: s[i].id != id
  }

  /** The todos, ascending by `order`. */
  function GetTodos(db: Db): (r: seq<Todo>)
    ensures SortedByOrder(r)
    ensures multiset(r) == multiset(db.todos)
  {
    SortByOrder(db.todos)
  }

  /** Inserts a todo under the next serial id and returns the new row. */
  function CreateTodo(db: Db, ins: InsertTodo): (r: Reply<Todo>)
    ensures r.db.todos == db.todos + [r.value]
    ensures r.value.id == db.nextTodoId && r.db.nextTodoId == db.nextTodoId + 1
    ensures r.value.content == ins.content && r.value.order == ins.order
    ensures r.value.completed <==> ins.completed == Some(true)
    ensures r.db.appState == db.appState && r.db.trophies == db.trophies
  {
    var t := NewTodoRow(db.nextTodoId, ins);
    Reply(db.(todos := db.todos + [t], nextTodoId := db.nextTodoId + 1), t)
  }

  /** `t` with every supplied field of `patch` written over it. */
  function ApplyTodoPatch(t: Todo, patch: TodoPatch): (u: Todo)
    ensures u.id == t.id
    ensures u.content == (if patch.content.Some? then patch.content.value else t.content)
    ensures u.completed == (if patch.completed.Some? then patch.completed.value else t.completed)
    ensures u.order == (if patch.order.Some? then patch.order.value else t.order)
  {
    Todo(t.id, patch.content.GetOr(t.content), patch.completed.GetOr(t.completed), patch.order.GetOr(t.order))
  }

  /** The position of the first todo of `s` with id `id`, if any. */
  function FindById(s: seq<Todo>, id: int): (r: Option<nat>)
    ensures r.None? <==> Absent(s, id)
    ensures r.Some? ==> r.value < |s| && s[r.value].id == id
    ensures r.Some? ==> Absent(s[..r.value], id)
  {
    if |s| == 0 then None
    else if s[0].id == id then Some(0)
    else
      match FindById(s[1..], id)
      case None => None
      case Some(k) =>
        assert s[..k + 1] == [s[0]] + s[1..][..k];
        Some(k + 1)
  }

  /** Applies `f` to every todo with id `id` and leaves the others as they are. */
  function UpdateWhereId(s: seq<Todo>, id: int, f: Todo -> Todo): (r: seq<Todo>)
    ensures |r| == |s|
    ensures forall i | 0 <= i < |s| :: r[i] == (if s[i].id == id then f(s[i]) else s[i])
  {
    seq(|s|, i requires 0 <= i < |s| => if s[i].id == id then f(s[i]) else s[i])
  }

  /**
   * Writes `patch` over the todo with id `id` and returns the updated row;
   * returns nothing and changes nothing when no todo has that id.
   */
  function UpdateTodo(db: Db, id: int, patch: TodoPatch): (r: Reply<Option<Todo>>)
    ensures r.value.None? <==> Absent(db.todos, id)
    ensures r.value.None? ==> r.db == db
    ensures r.value.Some? ==> r.value.value.id == id && r.value.value in r.db.todos
    ensures |r.db.todos| == |db.todos|
    ensures forall i | 0 <= i < |db.todos| && db.todos[i].id != id :: r.db.todos[i] == db.todos[i]
    ensures forall i | 0 <= i < |db.todos| && db.todos[i].id == id ::
      r.db.todos[i] == ApplyTodoPatch(db.todos[i], patch)
    ensures r.db.nextTodoId == db.nextTodoId
    ensures r.db.appState == db.appState && r.db.trophies == db.trophies
  {
    match FindById(db.todos, id)
    case None =>
      assert UpdateWhereId(db.todos, id, t => ApplyTodoPatch(t, patch)) == db.todos;
      Reply(db, None)
    case Some(k) =>
      var todos := UpdateWhereId(db.todos, id, t => ApplyTodoPatch(t, patch));
      Reply(db.(todos := todos), Some(todos[k]))
  }

  /** The todos of `s` that `keep` admits, in their original sequence. */
  function Filter(s: seq<Todo>, keep: Todo -> bool): (r: seq<Todo>)
    ensures |r| <= |s|
    ensures forall x | x in r :: x in s && keep(x)
    ensures (forall i | 0 <= i < |s| :: keep(s[i])) ==> r == s
  {
    if |s| == 0 then []
    else
      var rest := Filter(s[1..], keep);
      if keep(s[0]) then [s[0]] + rest else rest
  }

  /** Each admitted row survives with its multiplicity; every other row is gone. */
  lemma {:induction false} FilterCounts(s: seq<Todo>, keep: Todo -> bool)
    ensures forall t :: multiset(Filter(s, keep))[t] == (if keep(t) then multiset(s)[t] else 0)
    ensures forall t :: t in Filter(s, keep) <==> t in s && keep(t)
  {
    if |s| > 0 {
      FilterCounts(s[1..], keep);
      assert s == [s[0]] + s[1..];
    }
    var r := Filter(s, keep);
    assert forall t :: t in r <==> t in multiset(r);
    assert forall t :: t in s <==> t in multiset(s);
  }

  /** Deletes the todo with id `id`; every other todo stays. */
  function DeleteTodo(db: Db, id: int): (r: Db)
    ensures forall t :: t in r.todos <==> t in db.todos && t.id != id
    ensures forall t: Todo | t.id != id :: multiset(r.todos)[t] == multiset(db.todos)[t]
    ensures Absent(db.todos, id) ==> r.todos == db.todos
    ensures r.nextTodoId == db.nextTodoId
    ensures r.appState == db.appState && r.trophies == db.trophies
  {
    var todos := Filter(db.todos, (t: Todo) => t.id != id);
    FilterCounts(db.todos, (t: Todo) => t.id != id);
    db.(todos := todos)
  }

  /** The last position of `x` in `s`, if any. */
  function LastIndexOf(s: seq<int>, x: int): (r: Option<nat>)
    ensures r.None? <==> x !in s
    ensures r.Some? ==> r.value < |s| && s[r.value] == x
    ensures r.Some? ==> forall j | r.value < j < |s| :: s[j] != x
  {
    if |s| == 0 then None
    else if s[|s| - 1] == x then Some(|s| - 1)
    else
      var r := LastIndexOf(s[..|s| - 1], x);
      assert s == s[..|s| - 1] + [s[|s| - 1]];
      r
  }

  /**
   * The order `t` ends with after the ids `ids` are reordered: the last
   * position its id takes in `ids` (a later update of the same row wins), or
   * its own order when the id is not listed.
   */
  function ReorderedOrder(t: Todo, ids: seq<int>): int {
    match LastIndexOf(ids, t.id)
    case Some(k) => k
    case None => t.order
  }

  /**
   * Sets the order of each listed todo to the index of its id in `ids`, one
   * update after another, and returns the todos sorted by order.
   */
  method ReorderTodos(db: Db, ids: seq<int>) returns (r: Reply<seq<Todo>>)
    ensures |r.db.todos| == |db.todos|
    ensures forall i | 0 <= i < |db.todos| ::
      r.db.todos[i] == db.todos[i].(order := ReorderedOrder(db.todos[i], ids))
    ensures forall i | 0 <= i < |db.todos| && db.todos[i].id !in ids :: r.db.todos[i] == db.todos[i]
    ensures forall i, k | 0 <= i < |db.todos| && 0 <= k < |ids| && db.todos[i].id == ids[k] ::
      k <= r.db.todos[i].order < |ids| && ids[r.db.todos[i].order] == db.todos[i].id
    ensures SortedByOrder(r.value) && multiset(r.value) == multiset(r.db.todos)
    ensures r.db.nextTodoId == db.nextTodoId
    ensures r.db.appState == db.appState && r.db.trophies == db.trophies
  {
    var todos := db.todos;
    var k := 0;
    while k < |ids|
      invariant 0 <= k <= |ids|
      invariant |todos| == |db.todos|
      invariant forall i | 0 <= i < |todos| ::
        todos[i] == db.todos[i].(order := ReorderedOrder(db.todos[i], ids[..k]))
    {
      assert ids[..k + 1] == ids[..k] + [ids[k]];
      todos := UpdateWhereId(todos, ids[k], (t: Todo) => t.(order := k));
      k := k + 1;
    }
    assert ids[..k] == ids;
    var db' := db.(todos := todos);
    r := Reply(db', GetTodos(db'));
  }

  // ---------------------------------------------------------------- app state

  /** The row `getAppState` inserts when the table is empty: status and title given, the rest defaulted. */
  const InitialAppStateInsert := AppStatePatch(Some(DefaultTitle), None, Some(Planning), None, None)

  /** The singleton app state; created with its defaults when there is none yet. */
  function GetAppState(db: Db): (r: Reply<AppState>)
    ensures db.appState.Some? ==> r == Reply(db, db.appState.value)
    ensures db.appState.None? ==>
      && r.value.status == Planning && r.value.startTime.None?
      && r.value.title == "My To-Do List"
      && r.value.paperColor == "#fefcf5" && r.value.backgroundColor == "#f1f5f9"
    ensures r.db.appState == Some(r.value)
    ensures r.db.todos == db.todos && r.db.nextTodoId == db.nextTodoId && r.db.trophies == db.trophies
  {
    match db.appState
    case Some(s) => Reply(db, s)
    case None =>
      var s := NewAppStateRow(FirstSerialId, InitialAppStateInsert);
      Reply(db.(appState := Some(s)), s)
  }

  /** `s` with every supplied field of `patch` written over it. */
  function ApplyAppStatePatch(s: AppState, patch: AppStatePatch): (u: AppState)
    ensures u.id == s.id
    ensures u.title == (if patch.title.Some? then patch.title.value else s.title)
    ensures u.startTime == (if patch.startTime.Some? then patch.startTime.value else s.startTime)
    ensures u.status == (if patch.status.Some? then patch.status.value else s.status)
    ensures u.paperColor == (if patch.paperColor.Some? then patch.paperColor.value else s.paperColor)
    ensures u.backgroundColor == (if patch.backgroundColor.Some? then patch.backgroundColor.value else s.backgroundColor)
  {
    AppState(
      s.id,
      patch.title.GetOr(s.title),
      patch.startTime.GetOr(s.startTime),
      patch.status.GetOr(s.status),
      patch.paperColor.GetOr(s.paperColor),
      patch.backgroundColor.GetOr(s.backgroundColor))
  }

  /** Makes sure the singleton exists, then writes the supplied fields over it. */
  function UpdateAppState(db: Db, patch: AppStatePatch): (r: Reply<AppState>)
    ensures r.value == ApplyAppStatePatch(GetAppState(db).value, patch)
    ensures r.db.appState == Some(r.value)
    ensures r.db.todos == db.todos && r.db.nextTodoId == db.nextTodoId && r.db.trophies == db.trophies
  {
    var current := GetAppState(db);
    var s := ApplyAppStatePatch(current.value, patch);
    Reply(current.db.(appState := Some(s)), s)
  }

  /**
   * Back to planning with no start time, keeping title and colours; deletes
   * the completed todos and keeps the others for the next session.
   */
  function ResetAppState(db: Db): (r: Reply<AppState>)
    ensures r.value.status == Planning && r.value.startTime.None?
    ensures var before := GetAppState(db).value;
      && r.value.id == before.id && r.value.title == before.title
      && r.value.paperColor == before.paperColor && r.value.backgroundColor == before.backgroundColor
    ensures r.db.appState == Some(r.value)
    ensures forall t :: t in r.db.todos <==> t in db.todos && !t.completed
    ensures forall t: Todo | !t.completed :: multiset(r.db.todos)[t] == multiset(db.todos)[t]
    ensures r.db.nextTodoId == db.nextTodoId && r.db.trophies == db.trophies
  {
    var current := GetAppState(db);
    var s := ApplyAppStatePatch(current.value, AppStatePatch(None, Some(None), Some(Planning), None, None));
    var todos := Filter(db.todos, (t: Todo) => !t.completed);
    FilterCounts(db.todos, (t: Todo) => !t.completed);
    Reply(current.db.(appState := Some(s), todos := todos), s)
  }

  // ---------------------------------------------------------------- trophies

  /** The singleton histogram; created with every counter 0 when there is none yet. */
  function GetTrophyCounts(db: Db): (r: Reply<TrophyCounts>)
    ensures db.trophies.Some? ==> r == Reply(db, db.trophies.value)
    ensures db.trophies.None? ==> forall tier | IsTier(tier) :: Count(r.value, tier) == 0
    ensures r.db.trophies == Some(r.value)
    ensures r.db.todos == db.todos && r.db.nextTodoId == db.nextTodoId && r.db.appState == db.appState
  {
    match db.trophies
    case Some(h) => Reply(db, h)
    case None =>
      var h := NewTrophyCountsRow(FirstSerialId);
      Reply(db.(trophies := Some(h)), h)
  }

  /** `h` with the counter of `tier` raised by one. */
  function Bump(h: TrophyCounts, tier: int): (u: TrophyCounts)
    requires IsTier(tier)
    ensures u.id == h.id
    ensures Count(u, tier) == Count(h, tier) + 1
    ensures forall other | IsTier(other) && other != tier :: Count(u, other) == Count(h, other)
  {
    match tier
    case 1 => h.(tier1 := h.tier1 + 1)
    case 2 => h.(tier2 := h.tier2 + 1)
    case 3 => h.(tier3 := h.tier3 + 1)
    case 4 => h.(tier4 := h.tier4 + 1)
    case 5 => h.(tier5 := h.tier5 + 1)
    case 6 => h.(tier6 := h.tier6 + 1)
    case 7 => h.(tier7 := h.tier7 + 1)
    case _ => h.(tier8 := h.tier8 + 1)
  }

  /** Raises the counter of `tier` by one, creating the histogram first if needed. */
  function IncrementTrophy(db: Db, tier: int): (r: Reply<TrophyCounts>)
    requires IsTier(tier)
    ensures var before := GetTrophyCounts(db).value;
      && r.value.id == before.id
      && Count(r.value, tier) == Count(before, tier) + 1
      && forall other | IsTier(other) && other != tier :: Count(r.value, other) == Count(before, other)
    ensures r.db.trophies == Some(r.value)
    ensures r.db.todos == db.todos && r.db.nextTodoId == db.nextTodoId && r.db.appState == db.appState
  {
    var current := GetTrophyCounts(db);
    var h := Bump(current.value, tier);
    Reply(current.db.(trophies := Some(h)), h)
  }
}
