/**
 * The session lifecycle (planning, running, finished, back to planning) as
 * the composition of the notepad's handlers with the storage operations
 * their requests reach. The client's view is what it loads: the app-state
 * singleton (created on first access) and the todos in display order.
 */
module Session {
  import opened Wrappers
  import opened Schema
  import opened Ordering
  import opened Storage
  import opened Notepad

  /** A user action on the notepad. */
  datatype Event =
    | StartOrCompleteClicked(now: Millis)
    | CheckClicked(id: int, completed: bool)
    | TaskAdded(text: string)
    | EditSaved(id: int, text: string)
    | DeleteClicked(id: int)
    | ResetClicked
    | TitleEdited(title: string)
    | PaperColorPicked(color: string)
    | BackgroundColorPicked(color: string)

  /** Sends an app-state update when there is one. */
  function SendStateUpdate(db: Db, patch: Option<AppStatePatch>): Db {
    match patch
    case Some(p) => UpdateAppState(db, p).db
    case None => db
  }

  /** Sends a todo update when there is one. */
  function SendTodoUpdate(db: Db, u: Option<TodoUpdate>): Db {
    match u
    case Some(x) => UpdateTodo(db, x.id, x.patch).db
    case None => db
  }

  /**
   * The database after one user action. The title field only accepts input
   * while planning; the colour pickers and the delete button are never
   * disabled.
   */
  function Step(db: Db, ev: Event): Db {
    var loaded := GetAppState(db);
    var status := Some(loaded.value.status);
    var db := loaded.db;
    match ev
    case StartOrCompleteClicked(now) =>
      SendStateUpdate(db, StartOrComplete(status, GetTodos(db), now).patch)
    case CheckClicked(id, completed) =>
      SendTodoUpdate(db, HandleCheck(status, id, completed))
    case TaskAdded(text) =>
      (match HandleAddTask(text, GetTodos(db))
       case Some(ins) => CreateTodo(db, ins).db
       case None => db)
    case EditSaved(id, text) =>
      SendTodoUpdate(db, SaveEdit(text, id))
    case DeleteClicked(id) =>
      DeleteTodo(db, id)
    case ResetClicked =>
      ResetAppState(db).db
    case TitleEdited(title) =>
      if status == Some(Planning) then UpdateAppState(db, EmptyPatch.(title := Some(title))).db else db
    case PaperColorPicked(color) =>
      UpdateAppState(db, EmptyPatch.(paperColor := Some(color))).db
    case BackgroundColorPicked(color) =>
      UpdateAppState(db, EmptyPatch.(backgroundColor := Some(color))).db
  }

  /** The database after a sequence of user actions. */
  function Run(db: Db, evs: seq<Event>): Db
    decreases |evs|
  {
    if |evs| == 0 then db else Run(Step(db, evs[0]), evs[1..])
  }

  // ---------------------------------------------------------------- transitions

  /** The app state as the client sees it: the stored one, or the one first access creates. */
  function Current(db: Db): AppState {
    GetAppState(db).value
  }

  /**
   * Start from planning or finished with at least one todo: the session is
   * running from `now`; the todos and the cosmetic fields are as they were.
   */
  lemma StartRuns(db: Db, now: Millis)
    requires Current(db).status == Planning || Current(db).status == Finished
    requires |db.todos| > 0
    ensures Step(db, StartOrCompleteClicked(now)).appState ==
      Some(Current(db).(status := Running, startTime := Some(now)))
    ensures Step(db, StartOrCompleteClicked(now)).todos == db.todos
  {
    SortKeepsElements(db.todos);
  }

  /** Start with no todo at all does nothing beyond loading the app state. */
  lemma StartWithoutTodosIgnored(db: Db, now: Millis)
    requires Current(db).status != Running
    requires |db.todos| == 0
    ensures Step(db, StartOrCompleteClicked(now)) == GetAppState(db).db
  {
  }

  /**
   * Complete while running with at least one todo done: the session is
   * finished and keeps its start time, so the elapsed time can be measured.
   */
  lemma CompleteFinishes(db: Db, now: Millis)
    requires Current(db).status == Running
    requires exists i | 0 <= i < |db.todos| :: db.todos[i].completed
    ensures Step(db, StartOrCompleteClicked(now)).appState == Some(Current(db).(status := Finished))
    ensures Step(db, StartOrCompleteClicked(now)).todos == db.todos
  {
    var i :| 0 <= i < |db.todos| && db.todos[i].completed;
    var sorted := GetTodos(GetAppState(db).db);
    assert db.todos[i] in multiset(sorted);
    var j :| 0 <= j < |sorted| && sorted[j] == db.todos[i];
  }

  /** Complete while running with nothing done does nothing. */
  lemma CompleteWithoutDoneIgnored(db: Db, now: Millis)
    requires Current(db).status == Running
    requires forall i | 0 <= i < |db.todos| :: !db.todos[i].completed
    ensures Step(db, StartOrCompleteClicked(now)) == GetAppState(db).db
  {
    var sorted := GetTodos(GetAppState(db).db);
    forall j | 0 <= j < |sorted|
      ensures !sorted[j].completed
    {
      assert sorted[j] in multiset(db.todos);
    }
  }

  /** Checking a box outside a running session changes nothing. */
  lemma CheckIgnoredUnlessRunning(db: Db, id: int, completed: bool)
    requires Current(db).status != Running
    ensures Step(db, CheckClicked(id, completed)) == GetAppState(db).db
  {
  }

  /** The title is editable only while planning: outside planning an edit changes nothing. */
  lemma TitleIgnoredUnlessPlanning(db: Db, title: string)
    requires Current(db).status != Planning
    ensures Step(db, TitleEdited(title)) == GetAppState(db).db
  {
  }

  /** While planning, a title edit sets the title and nothing else. */
  lemma TitleEditedWhilePlanning(db: Db, title: string)
    requires Current(db).status == Planning
    ensures Current(Step(db, TitleEdited(title))) == Current(db).(title := title)
    ensures Step(db, TitleEdited(title)).todos == db.todos
  {
  }

  /** Saving an edit that is white space only changes nothing. */
  lemma BlankEditIgnored(db: Db, id: int, text: string)
    requires IsBlank(text)
    ensures Step(db, EditSaved(id, text)) == GetAppState(db).db
  {
  }

  /** Reset from any state: planning, no start time, only the unfinished todos left. */
  lemma ResetToPlanning(db: Db)
    ensures var after := Step(db, ResetClicked);
      && after.appState.Some?
      && after.appState.value.status == Planning
      && after.appState.value.startTime.None?
      && (forall t :: t in after.todos <==> t in db.todos && !t.completed)
  {
  }

  /** No user action touches the trophy histogram. */
  lemma StepKeepsTrophies(db: Db, ev: Event)
    ensures Step(db, ev).trophies == db.trophies
  {
    match ev
    case StartOrCompleteClicked(_) =>
    case CheckClicked(_, _) =>
    case TaskAdded(_) =>
    case EditSaved(_, _) =>
    case DeleteClicked(_) =>
    case ResetClicked =>
    case TitleEdited(_) =>
    case PaperColorPicked(_) =>
    case BackgroundColorPicked(_) =>
  }

  /** No sequence of user actions touches the trophy histogram, reset included. */
  lemma {:induction false} RunKeepsTrophies(db: Db, evs: seq<Event>)
    ensures Run(db, evs).trophies == db.trophies
    decreases |evs|
  {
    if |evs| > 0 {
      StepKeepsTrophies(db, evs[0]);
      RunKeepsTrophies(Step(db, evs[0]), evs[1..]);
    }
  }

  // ---------------------------------------------------------------- invariant

  /**
   * What every reachable database satisfies: todo ids are distinct and below
   * the next serial id, and a session has a start time exactly when it is
   * running or finished.
   */
  ghost predicate Valid(db: Db) {
    && IdsFresh(db.todos, db.nextTodoId)
    && (db.appState.Some? ==> (db.appState.value.status == Planning <==> db.appState.value.startTime.None?))
  }

  lemma EmptyValid()
    ensures Valid(EmptyDb)
  {
  }

  /** Todo ids are below `next` and pairwise distinct. */
  ghost predicate IdsFresh(s: seq<Todo>, next: int) {
    && (forall i | 0 <= i < |s| :: s[i].id < next)
    && (forall i, j | 0 <= i < j < |s| :: s[i].id != s[j].id)
  }

  /** Filtering todos keeps their ids fresh and distinct. */
  lemma {:induction false} FilterKeepsIdsFresh(s: seq<Todo>, keep: Todo -> bool, next: int)
    requires IdsFresh(s, next)
    ensures IdsFresh(Filter(s, keep), next)
    decreases |s|
  {
    if |s| > 0 {
      var tail := s[1..];
      assert IdsFresh(tail, next) by {
        assert forall i | 0 <= i < |tail| :: tail[i] == s[i + 1];
      }
      FilterKeepsIdsFresh(tail, keep, next);
      var rest := Filter(tail, keep);
      assert s == [s[0]] + tail;
      if keep(s[0]) {
        assert Filter(s, keep) == [s[0]] + rest;
        ConsFresh(s[0], rest, tail, next);
      } else {
        assert Filter(s, keep) == rest;
      }
    }
  }

  /** Prepending a todo whose id is fresh for `rest`, which is drawn from `tail`. */
  lemma ConsFresh(t: Todo, rest: seq<Todo>, tail: seq<Todo>, next: int)
    requires IdsFresh([t] + tail, next)
    requires IdsFresh(rest, next)
    requires forall x | x in rest :: x in tail
    ensures IdsFresh([t] + rest, next)
  {
    var r := [t] + rest;
    forall i | 0 <= i < |rest|
      ensures rest[i].id != t.id
    {
      assert rest[i] in tail;
      var k :| 0 <= k < |tail| && tail[k] == rest[i];
      assert ([t] + tail)[k + 1] == rest[i];
      assert ([t] + tail)[0] == t;
    }
    assert ([t] + tail)[0] == t;
    assert forall i | 1 <= i < |r| :: r[i] == rest[i - 1];
  }

  /** Every user action keeps the database valid. */
  lemma StepValid(db: Db, ev: Event)
    requires Valid(db)
    ensures Valid(Step(db, ev))
  {
    match ev
    case DeleteClicked(id) =>
      FilterKeepsIdsFresh(db.todos, (t: Todo) => t.id != id, db.nextTodoId);
    case ResetClicked =>
      FilterKeepsIdsFresh(db.todos, (t: Todo) => !t.completed, db.nextTodoId);
    case TaskAdded(text) =>
      AddValid(db, text);
    case StartOrCompleteClicked(now) =>
      StartOrCompleteValid(db, now);
    case _ =>
  }

  lemma AddValid(db: Db, text: string)
    requires Valid(db)
    ensures Valid(Step(db, TaskAdded(text)))
  {
    var loaded := GetAppState(db).db;
    match HandleAddTask(text, GetTodos(loaded))
    case None =>
    case Some(ins) =>
      AppendFresh(db.todos, CreateTodo(loaded, ins).value, db.nextTodoId);
  }

  /** Appending a todo that carries the next serial id keeps ids fresh for the following one. */
  lemma AppendFresh(s: seq<Todo>, t: Todo, next: int)
    requires IdsFresh(s, next) && t.id == next
    ensures IdsFresh(s + [t], next + 1)
  {
    var r := s + [t];
    assert forall i | 0 <= i < |s| :: r[i] == s[i];
    assert r[|s|] == t;
  }

  lemma StartOrCompleteValid(db: Db, now: Millis)
    requires Valid(db)
    ensures Valid(Step(db, StartOrCompleteClicked(now)))
  {
  }

  /** Every sequence of user actions keeps the database valid. */
  lemma {:induction false} RunValid(db: Db, evs: seq<Event>)
    requires Valid(db)
    ensures Valid(Run(db, evs))
    decreases |evs|
  {
    if |evs| > 0 {
      StepValid(db, evs[0]);
      RunValid(Step(db, evs[0]), evs[1..]);
    }
  }

  // ---------------------------------------------------------------- histogram

  /** How often `tier` occurs in `tiers`. */
  function Occurrences(tiers: seq<int>, tier: int): nat {
    multiset(tiers)[tier]
  }

  /** Records one trophy per tier in `tiers`, in sequence. */
  function RecordTrophies(db: Db, tiers: seq<int>): Db
    requires forall i | 0 <= i < |tiers| :: IsTier(tiers[i])
    decreases |tiers|
  {
    if |tiers| == 0 then db else RecordTrophies(IncrementTrophy(db, tiers[0]).db, tiers[1..])
  }

  /**
   * After recording `tiers`, each counter has grown by exactly the number of
   * times its tier was recorded, so no counter ever decreases.
   */
  lemma {:induction false} RecordTrophiesCounts(db: Db, tiers: seq<int>, tier: int)
    requires forall i | 0 <= i < |tiers| :: IsTier(tiers[i])
    requires IsTier(tier)
    ensures Count(GetTrophyCounts(RecordTrophies(db, tiers)).value, tier) ==
      Count(GetTrophyCounts(db).value, tier) + Occurrences(tiers, tier)
    decreases |tiers|
  {
    if |tiers| > 0 {
      assert tiers == [tiers[0]] + tiers[1..];
      RecordTrophiesCounts(IncrementTrophy(db, tiers[0]).db, tiers[1..], tier);
    }
  }
}
