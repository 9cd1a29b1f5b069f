/**
 * The notepad's event handlers, apart from rendering: each turns the
 * client's view (the app-state status and the cached todos) and the user's
 * input into the storage request it issues, or into none when its guard
 * rejects the event.
 */
module Notepad {
  import opened Wrappers
  import opened Schema
  import opened Ordering

  // ---------------------------------------------------------------- String.prototype.trim

  /** The characters `trim` removes: white space and line terminators. */
  predicate IsJsWhitespace(c: char) {
    || c == '\U{0009}' || c == '\U{000A}' || c == '\U{000B}' || c == '\U{000C}' || c == '\U{000D}'
    || c == '\U{0020}' || c == '\U{00A0}' || c == '\U{1680}'
    || ('\U{2000}' <= c <= '\U{200A}')
    || c == '\U{2028}' || c == '\U{2029}' || c == '\U{202F}' || c == '\U{205F}'
    || c == '\U{3000}' || c == '\U{FEFF}'
  }

  /** Nothing but white space (the empty string included). */
  predicate IsBlank(s: string) {
    forall i | 0 <= i < |s| :: IsJsWhitespace(s[i])
  }

  /** How many white-space characters `s` starts with. */
  function LeadingBlanks(s: string): (k: nat)
    ensures k <= |s| && IsBlank(s[..k])
    ensures k < |s| ==> !IsJsWhitespace(s[k])
  {
    if |s| > 0 && IsJsWhitespace(s[0]) then
      var k := LeadingBlanks(s[1..]);
      assert s[..k + 1] == [s[0]] + s[1..][..k];
      k + 1
    else 0
  }

  /** Where the white space `s` ends with begins. */
  function TrailingBlanksStart(s: string): (j: nat)
    ensures j <= |s| && IsBlank(s[j..])
    ensures 0 < j ==> !IsJsWhitespace(s[j - 1])
  {
    if |s| > 0 && IsJsWhitespace(s[|s| - 1]) then
      var j := TrailingBlanksStart(s[..|s| - 1]);
      assert forall i | j <= i < |s| - 1 :: s[i] == s[..|s| - 1][i];
      j
    else |s|
  }

  /** `s.trim()`: a middle slice of `s` with no white space at either end. */
  function Trim(s: string): (r: string)
    ensures exists i, j | 0 <= i <= j <= |s| :: r == s[i..j] && IsBlank(s[..i]) && IsBlank(s[j..])
    ensures |r| > 0 ==> !IsJsWhitespace(r[0]) && !IsJsWhitespace(r[|r| - 1])
  {
    var i := LeadingBlanks(s);
    var a := s[i..];
    var k := TrailingBlanksStart(a);
    var j := i + k;
    assert s[j..] == a[k..];
    assert s[i..j] == a[..k];
    assert 0 < k ==> a[..k][k - 1] == a[k - 1];
    assert 0 < k ==> s[i..j][0] == s[i];
    s[i..j]
  }

  /** The trimmed string is empty exactly when the string is all white space. */
  lemma TrimEmptyIffBlank(s: string)
    ensures Trim(s) == "" <==> IsBlank(s)
  {
    var r := Trim(s);
    var i, j :| 0 <= i <= j <= |s| && r == s[i..j] && IsBlank(s[..i]) && IsBlank(s[j..]);
    if r == "" {
      forall k | 0 <= k < |s|
        ensures IsJsWhitespace(s[k])
      {
        if k < i {
          assert s[k] == s[..i][k];
        } else {
          assert s[k] == s[j..][k - j];
        }
      }
    } else {
      assert r[0] == s[i];
    }
  }

  // ---------------------------------------------------------------- handlers

  /** The completed flags of the todos, in order. */
  function Flags(todos: seq<Todo>): seq<bool> {
    seq(|todos|, i requires 0 <= i < |todos| => todos[i].completed)
  }

  /** The number of completed todos (`todos.filter(t => t.completed).length`). */
  function CompletedCount(todos: seq<Todo>): (n: nat)
    ensures n == multiset(Flags(todos))[true]
    ensures n <= |todos|
    ensures n > 0 <==> exists i | 0 <= i < |todos| :: todos[i].completed
  {
    if |todos| == 0 then 0
    else
      var rest := CompletedCount(todos[1..]);
      assert forall i | 1 <= i < |todos| :: todos[i] == todos[1..][i - 1];
      assert Flags(todos) == [todos[0].completed] + Flags(todos[1..]);
      (if todos[0].completed then 1 else 0) + rest
  }

  /** The app-state update that starts a session at `now`. */
  function StartPatch(now: Millis): AppStatePatch {
    AppStatePatch(None, Some(Some(now)), Some(Running), None, None)
  }

  /** The app-state update that completes a session; the start time is not supplied. */
  const CompletePatch := AppStatePatch(None, None, Some(Finished), None, None)

  /** What the start-or-complete button does: the update it sends, and whether the trophy dialog opens. */
  datatype ButtonEffect = ButtonEffect(patch: Option<AppStatePatch>, showTrophy: bool)

  /**
   * The start-or-complete button. From planning or finished it starts a
   * session when there is at least one todo; while running it completes the
   * session, opening the trophy dialog, when at least one todo is done.
   * Every other case, an app state not loaded yet included, does nothing.
   */
  function StartOrComplete(status: Option<Status>, todos: seq<Todo>, now: Millis): (e: ButtonEffect)
    ensures e.patch.Some? && e.patch.value.status == Some(Running) <==>
      (status == Some(Planning) || status == Some(Finished)) && |todos| > 0
    ensures e.patch.Some? && e.patch.value.status == Some(Running) ==>
      e.patch.value.startTime == Some(Some(now)) && !e.showTrophy
    ensures e.patch.Some? && e.patch.value.status == Some(Finished) <==>
      status == Some(Running) && exists i | 0 <= i < |todos| :: todos[i].completed
    ensures e.patch.Some? && e.patch.value.status == Some(Finished) ==>
      e.patch.value.startTime.None? && e.showTrophy
    ensures e.patch.Some? ==> e.patch.value.status.Some?
    ensures e.patch.Some? ==> e.patch.value.title.None? && e.patch.value.paperColor.None? && e.patch.value.backgroundColor.None?
    ensures e.patch.None? <==>
      !((status == Some(Planning) || status == Some(Finished)) && |todos| > 0) &&
      !(status == Some(Running) && exists i | 0 <= i < |todos| :: todos[i].completed)
    ensures e.patch.None? ==> !e.showTrophy
  {
    if status == Some(Planning) || status == Some(Finished) then
      if |todos| == 0 then ButtonEffect(None, false)
      else ButtonEffect(Some(StartPatch(now)), false)
    else if status == Some(Running) then
      if CompletedCount(todos) > 0 then ButtonEffect(Some(CompletePatch), true)
      else ButtonEffect(None, false)
    else ButtonEffect(None, false)
  }

  /** A request to update one todo. */
  datatype TodoUpdate = TodoUpdate(id: int, patch: TodoPatch)

  /** Checking a todo's box: sends the new completed flag, but only while running. */
  function HandleCheck(status: Option<Status>, id: int, completed: bool): (u: Option<TodoUpdate>)
    ensures u.Some? <==> status == Some(Running)
    ensures u.Some? ==> u.value.id == id && u.value.patch == TodoPatch(None, Some(completed), None)
  {
    if status != Some(Running) then None
    else Some(TodoUpdate(id, TodoPatch(None, Some(completed), None)))
  }

  /** `Math.max(0, ...orders)`. */
  function MaxOrder(todos: seq<Todo>): (m: int)
    ensures 0 <= m
    ensures forall i | 0 <= i < |todos| :: todos[i].order <= m
    ensures m == 0 || exists i | 0 <= i < |todos| :: todos[i].order == m
  {
    if |todos| == 0 then 0
    else
      var rest := MaxOrder(todos[1..]);
      assert forall i | 1 <= i < |todos| :: todos[i] == todos[1..][i - 1];
      if todos[0].order > rest then todos[0].order else rest
  }

  /**
   * Adding a task: rejected when the input is white space only; otherwise a
   * not-completed todo with the input as typed (untrimmed), ordered after
   * every existing todo and never below 1.
   */
  function HandleAddTask(newTask: string, todos: seq<Todo>): (ins: Option<InsertTodo>)
    ensures ins.None? <==> IsBlank(newTask)
    ensures ins.Some? ==> ins.value.content == newTask && ins.value.completed == Some(false)
    ensures ins.Some? ==> 1 <= ins.value.order
    ensures ins.Some? ==> forall i | 0 <= i < |todos| :: todos[i].order < ins.value.order
    ensures ins.Some? ==> ins.value.order == 1 || exists i | 0 <= i < |todos| :: ins.value.order == todos[i].order + 1
  {
    TrimEmptyIffBlank(newTask);
    if Trim(newTask) == "" then None
    else Some(InsertTodo(newTask, Some(false), MaxOrder(todos) + 1))
  }

  /** Saving an edit: rejected when the edited text is white space only; otherwise only the content is sent. */
  function SaveEdit(editContent: string, id: int): (u: Option<TodoUpdate>)
    ensures u.None? <==> IsBlank(editContent)
    ensures u.Some? ==> u.value.id == id && u.value.patch == TodoPatch(Some(editContent), None, None)
  {
    TrimEmptyIffBlank(editContent);
    if Trim(editContent) == "" then None
    else Some(TodoUpdate(id, TodoPatch(Some(editContent), None, None)))
  }

  /** The list as displayed: the todos in ascending order. */
  function SortedTodos(todos: seq<Todo>): (r: seq<Todo>)
    ensures SortedByOrder(r)
    ensures multiset(r) == multiset(todos)
  {
    SortByOrder(todos)
  }
}
