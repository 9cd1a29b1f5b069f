# Notepad-Tasks: session lifecycle, trophy tiers and URL templates in Dafny

Notepad-Tasks is a single-user to-do list. The user writes tasks while the
session is *planning*. They start a timed *running* phase, check tasks off,
and complete the session. The session is then *finished*, and a trophy tier
(1 best, 8 worst) is awarded from the elapsed time. A reset returns the
session to *planning* and deletes every completed task.

This project models the parts of the code that hold logic:

- `Schema` (`schema.dfy`): the rows of the three tables (todos, the
  app-state singleton, the trophy-count singleton), their insert and
  partial-update shapes, and the column defaults.
- `Storage` (`storage.dfy`): `DatabaseStorage`, as pure functions over an
  in-memory database. The database is a sequence of todo rows, the serial
  counter for todo ids, and the two optional singleton rows. `ReorderTodos`
  is a method with a loop.
- `Ordering` (`ordering.dfy`): the stable sort by `order`. The database's
  `ORDER BY` and the client's `sortedTodos` both use it.
- `Notepad` (`notepad.dfy`): the notepad component's event handlers. Each
  handler turns the client's view and the user's input into the storage
  request it sends, or into no request when its guard rejects the event.
  The module also models `String.prototype.trim`.
- `Session` (`session.dfy`): the lifecycle. `Step` applies one user action:
  it runs the handler on the loaded app state and the sorted todos, then
  applies the resulting request to the database. The module also proves an
  invariant that every action keeps, and how the histogram counts.
- `Trophy` (`trophy.dfy`): the tier rule, the title table and the colour
  classes of the trophy dialog.
- `Routes` (`routes.dfy`): the API path templates and `buildUrl`. It
  includes JavaScript's first-occurrence string `replace` with its `$`
  substitution patterns, and `String(n)` for integers.
- `Wrappers` (`wrappers.dfy`): `Option`, which stands for `undefined`/NULL.

Times are whole milliseconds (`Millis = int`). With `Hour = 3 600 000`, the
tier of an elapsed time `d` is 1 when `d <= 4 * Hour`. Otherwise it is
`min(8, 1 + ceil((d - 4 * Hour) / (3 * Hour)))`, and the ceiling is computed
with integer division.

Two consequences of the code are worth stating up front:

- The tier depends only on the elapsed time between the start and the latest
  render while the trophy dialog is open: the notepad passes a fresh
  `new Date()` as `endTime` on every render and the dialog's effect depends
  on it, so each re-render recomputes the tier. There is no calendar-day rule.
- A reset always deletes exactly the completed todos; no option deletes all
  of them.

## Model

| member | source | states |
|---|---|---|
| `Schema.NewTodoRow` | shared/schema.ts:5-10 | a new todo row keeps the inserted content and order, takes the serial id, and is completed only when the insert says so (the default is false) |
| `Schema.NewAppStateRow` | shared/schema.ts:13-20 | an inserted app-state row takes each supplied field; an omitted one gets its default: title "My To-Do List", no start time, status planning, paper "#fefcf5", background "#f1f5f9" |
| `Schema.NewTrophyCountsRow` | shared/schema.ts:23-33 | a fresh histogram has all eight counters at 0 |
| `Storage.GetTodos` | server/storage.ts:24-26 | the todos come back as a permutation of the stored rows, ascending by `order` |
| `Storage.CreateTodo` | server/storage.ts:28-31 | the new row is appended under the next serial id with the inserted fields; the singletons do not change |
| `Storage.UpdateTodo` | server/storage.ts:33-39 | with no row of that id, nothing is returned and nothing changes; otherwise the matching row gets the patch, every other row stays the same, and the updated row is returned |
| `Storage.ApplyTodoPatch` | server/storage.ts:33-37 | each supplied field overwrites its column; each omitted field and the id keep their values |
| `Storage.DeleteTodo` | server/storage.ts:41-43 | a todo survives exactly when its id differs from the one deleted, with the same multiplicity; deleting a missing id leaves the list unchanged |
| `Storage.ReorderTodos` | server/storage.ts:45-52 | each listed todo's order becomes the last index of its id in the list; unlisted todos are unchanged; the result is sorted and a permutation of the rows |
| `Storage.GetAppState` | server/storage.ts:54-64 | an existing singleton is returned and nothing changes; otherwise one is created in planning with title "My To-Do List", no start time and the default colours |
| `Storage.ApplyAppStatePatch` | server/storage.ts:66-79 | only the supplied fields change; the id and every omitted field stay the same |
| `Storage.UpdateAppState` | server/storage.ts:66-79 | the singleton (created first if it is missing) is overwritten by the patch; todos and trophies are untouched |
| `Storage.ResetAppState` | server/storage.ts:81-97 | from any state: status planning and no start time, with id, title and colours kept; a todo survives exactly when it is not completed, and trophies are untouched |
| `Storage.GetTrophyCounts` | server/storage.ts:99-106 | an existing histogram is returned unchanged; otherwise a zeroed one is created |
| `Storage.Bump` | server/storage.ts:112-116 | the counter of the given tier goes up by one, and the other seven counters keep their values |
| `Storage.IncrementTrophy` | server/storage.ts:108-123 | for a tier in 1..8, that counter goes up by exactly one and the other seven keep their values; todos and app state are untouched |
| `Ordering.SortByOrder` | client/src/components/Notepad.tsx:104 | the result is ascending by `order` and a permutation of the input |
| `Notepad.Trim` | client/src/components/Notepad.tsx:76 | `trim` returns a middle slice of the input that has only white space around it and none at either of its own ends |
| `Notepad.TrimEmptyIffBlank` | client/src/components/Notepad.tsx:76 | a string trims to empty exactly when it is all white space |
| `Notepad.CompletedCount` | client/src/components/Notepad.tsx:55 | the count is the number of todos whose completed flag is set, so it is positive exactly when some todo is completed |
| `Notepad.StartOrComplete` | client/src/components/Notepad.tsx:47-61 | a start is sent exactly when the status is planning or finished and some todo exists, and it carries running plus start time `now`; a completion is sent exactly when the status is running and some todo is done, and it sets only finished and opens the dialog; in every other case (an unloaded state included) nothing is sent |
| `Notepad.HandleCheck` | client/src/components/Notepad.tsx:87-91 | the completed flag is sent exactly when the session is running, and only that flag |
| `Notepad.MaxOrder` | client/src/components/Notepad.tsx:77 | `Math.max(0, ...orders)` is at least 0 and every order, and it is 0 or one of the orders |
| `Notepad.HandleAddTask` | client/src/components/Notepad.tsx:74-85 | rejected exactly when the input is white space only; otherwise the input as typed is inserted as not completed, with order `Math.max(0, ...orders) + 1`: above every existing order, and either 1 or one more than some existing order |
| `Notepad.SaveEdit` | client/src/components/Notepad.tsx:98-102 | rejected exactly when the edit is white space only; otherwise only the content is sent |
| `Notepad.SortedTodos` | client/src/components/Notepad.tsx:104 | the displayed list is a permutation of the todos, ascending by `order` |
| `Session.StartRuns` | client/src/components/Notepad.tsx:48-53 | a start from planning or finished with at least one todo gives status running and start time `now`; title, colours and todos are as before |
| `Session.StartWithoutTodosIgnored` | client/src/components/Notepad.tsx:48-49 | a start with no todo changes nothing |
| `Session.CompleteFinishes` | client/src/components/Notepad.tsx:54-59 | a completion while running with some todo done gives status finished and keeps the start time |
| `Session.CompleteWithoutDoneIgnored` | client/src/components/Notepad.tsx:55-56 | a completion while running with nothing done changes nothing |
| `Session.CheckIgnoredUnlessRunning` | client/src/components/Notepad.tsx:87-90 | checking a box outside a running session changes nothing |
| `Session.BlankEditIgnored` | client/src/components/Notepad.tsx:98-99 | saving a white-space-only edit changes nothing |
| `Session.TitleIgnoredUnlessPlanning` | client/src/components/Notepad.tsx:168-174 | the title input is disabled outside planning: an edit there changes nothing |
| `Session.TitleEditedWhilePlanning` | client/src/components/Notepad.tsx:168-174 | while planning, a title edit sets the title; every other app-state field and the todos are as before |
| `Session.ResetToPlanning` | server/storage.ts:81-94 | after a reset the status is planning with no start time, and exactly the todos that were not completed remain |
| `Session.StepKeepsTrophies` | server/storage.ts:81-97 | no user action, reset included, changes the trophy histogram |
| `Session.RunKeepsTrophies` | server/storage.ts:81-97 | no sequence of user actions changes the trophy histogram |
| `Session.StepValid` | server/storage.ts:28-97 | every user action keeps todo ids distinct and below the next serial id; it also keeps "no start time exactly when planning" |
| `Session.RunValid` | server/storage.ts:28-97 | the same invariant holds after any sequence of user actions |
| `Session.RecordTrophiesCounts` | server/storage.ts:108-123 | after recording a sequence of tiers, each counter has grown by exactly the number of times its tier occurs, so no counter decreases |
| `Trophy.Tier` | client/src/components/TrophyModal.tsx:35-46 | the tier lies in 1..8; it is 1 exactly when the elapsed time is at most 4 h (exactly 4 h and negative times included); it is 8 exactly when the time is over 22 h; in between, tier t covers (4 + 3(t-2)) h, exclusive, to (4 + 3(t-1)) h, inclusive |
| `Trophy.TierMonotone` | client/src/components/TrophyModal.tsx:38-46 | more elapsed time never gives a better (smaller) tier |
| `Trophy.TierCountsThresholds` | client/src/components/TrophyModal.tsx:38-46 | the tier is one plus the number of thresholds 4 h, 7 h, .., 22 h that the elapsed time strictly exceeds |
| `Trophy.TierBands` | client/src/components/TrophyModal.tsx:40-46 | up to 4 h gives tier 1, (4 h, 7 h] gives tier 2, and over 22 h gives tier 8 |
| `Trophy.DialogTier` | client/src/components/TrophyModal.tsx:20-48 | an open dialog with a start time shows the elapsed-time tier of `endTime - startTime` (the time of the render that ran the effect), which is 1 plus the number of thresholds (4 h, 7 h, …, 22 h) passed, so it lies in 1..8; otherwise the tier already shown stays (0 at mount) |
| `Trophy.NoStartKeepsInitialTier` | client/src/components/TrophyModal.tsx:20-33 | without a start time the dialog's tier stays 0 |
| `Trophy.TrophyTitle` | client/src/components/TrophyModal.tsx:64-69 | a tier in 0..8 gets its entry in the nine-entry table; any other index gets "Participant" |
| `Trophy.TitlesDistinct` | client/src/components/TrophyModal.tsx:64-69 | tier 1 is "Diamond" and tier 8 is "Participation"; the nine titles all differ, and none of them is "Participant" |
| `Trophy.TrophyColor` | client/src/components/TrophyModal.tsx:56-62 | the fallback class is given exactly to the tiers outside 1..4, including 0 |
| `Trophy.ColorsDistinct` | client/src/components/TrophyModal.tsx:56-62 | tiers 1..4 get four different colour classes |
| `Routes.BuildUrl` | shared/routes.ts:80-88 | with no parameter object, or with an empty one, the path comes back unchanged |
| `Routes.FillOne` | shared/routes.ts:83-85 | filling one parameter is one first-occurrence replace of `":" + key` by the value's string form |
| `Routes.ReplaceFirstReplacesFirstOccurrence` | shared/routes.ts:84 | when the pattern occurs nowhere the string is unchanged; otherwise the occurrence that has no earlier one is the one replaced, by the `$`-expanded replacement, with the text on both sides kept |
| `Routes.IndexOfFrom` | shared/routes.ts:84 | the position found is an occurrence with none before it; "nothing found" means there is no occurrence at all |
| `Routes.FirstOccurrence` | shared/routes.ts:84 | when the text before an occurrence does not contain the pattern's first character, that occurrence is the first one |
| `Routes.ReplaceInContext` | shared/routes.ts:84 | in `prefix + placeholder + suffix`, where the prefix lacks the placeholder's first character, the placeholder is the text that gets replaced |
| `Routes.FillLiteralInContext` | shared/routes.ts:80-88 | a value without dollar signs fills a placeholder that no colon precedes verbatim, keeping the text on both sides |
| `Routes.SubstituteLiteral` | shared/routes.ts:84 | a replacement containing no `$` is inserted verbatim |
| `Routes.AbsentKeyUnchanged` | shared/routes.ts:84 | a key whose placeholder does not occur leaves the URL unchanged |
| `Routes.ReplaceFirstKeepsLater` | shared/routes.ts:84 | for any replacement value, `$` patterns included, every later non-overlapping occurrence of the placeholder survives the replace, shifted by the length of the expanded replacement minus the placeholder's |
| `Routes.SecondPlaceholderRemains` | shared/routes.ts:84 | `/a/:id/:id` with id 7 becomes `/a/7/:id` |
| `Routes.DollarAmpersandKeepsPlaceholder` | shared/routes.ts:84 | a string value `$&` puts the matched placeholder back, so the URL is unchanged |
| `Routes.TodoItemUrl` | shared/routes.ts:80-88 | `buildUrl('/api/todos/:id', {id: n})` is `'/api/todos/' + String(n)` |
| `Routes.NatToDecimal` | shared/routes.ts:84 | a natural number is written as one or more decimal digits, with no leading zero: a string of two or more digits never starts with 0 |
| `Routes.IntToDecimal` | shared/routes.ts:84 | the string form of an integer contains no `$`, so filling it in is never subject to substitution |
| `Routes.DecimalRoundTrip` | shared/routes.ts:84 | reading back the decimal string of any integer gives that integer |

## Left out

- Trophy.DialogTier: models one run of the dialog's effect. Because `endTime` is a fresh `new Date()` on every render, the effect runs again on each re-render while the dialog is open (mutation state changes, refetches, window focus). Each run is this function with that render's time; the sequence of re-renders is not modelled.
- Rendering, animation, sounds, confetti, date formatting and the `setTimeout` delays are not modelled. They decide nothing about the state.
- The request/cache layer (`use-todos.ts`) is not modelled. `Session.Step` reads the client's view straight from the database, assuming the cache is current.
- The Express handlers and request validation (`server/routes.ts`) are not modelled. Requests are typed values, so a malformed body cannot be expressed.
- The trophy routes and hooks are not modelled. `server/routes.ts` refers to `api.trophies`, but `shared/routes.ts` does not define it, and no client code shown calls `incrementTrophy`. The histogram is therefore modelled as storage operations only, with no link to the tier rule.
- Concurrency is not modelled. Every storage call is one atomic step, so the double `getAppState`/`getTrophyCounts` reads cannot lose an update.
- Storage.ReorderTodos: the updates run one after another, so a repeated id ends at its last index. Under `Promise.all` their order is not fixed.
- Storage.GetTodos: the result is promised to be sorted and a permutation of the rows, and nothing more. The database may order ties either way; the model's sort happens to be stable.
- Storage.UpdateTodo: a patch that supplies no field is modelled as rewriting the row unchanged. What the query builder does with an empty SET is not part of this model.
- Storage.UpdateAppState: the same holds for a patch that supplies no field.
- Storage.IncrementTrophy: a tier in 1..8 is a precondition. For other tiers the source builds a column name that does not exist.
- Integer widths are not modelled. Ids, orders and counters are unbounded integers; the database's 32-bit columns and serial overflow are left out.
- Trophy.Tier: hours are exact ratios of integer milliseconds. Floating-point rounding at exact boundaries is ignored, and so is an unparsable start time, which gives NaN in the source.
- Routes.IntToDecimal: numbers are written in plain decimal. JavaScript uses exponent notation from 10^21 upward and writes fractions; no serial id reaches either case.
- Routes.BuildUrl: the parameters are taken as a sequence of entries in enumeration order. JavaScript enumerates integer-like keys first; that ordering is left to the caller.
- `startEditing` and the other local input state of the notepad are not modelled. They only set what the edit box shows.
