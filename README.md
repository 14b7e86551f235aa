# Task-list engine: a Dafny model

This project models the engine behind the task-list web app in `src/App.js`. The engine keeps:

- a view of tasks, each with id, title, description, due date, completion flag, creation time and owner;
- the signed-in user and the last authentication error;
- in cloud mode, the writes it asks the backend to perform.

It runs in one of two modes, fixed for the session:

- **Local mode** (no database configured). Create, toggle, delete and edit change the view at once. Every task created here is owned by `local-user`.
- **Cloud mode**. Create, toggle, delete and edit only request a write: `AddDoc`, `UpdateCompleted`, `UpdateFields` or `DeleteDoc`. The view changes only when the backend delivers a snapshot of the user's documents. While nobody is signed in, every mutation is refused. Nothing is written, the view is left alone, and the error "タスクを操作するにはサインインが必要です。" is set when sign-in is enabled.

Modules, one per file:

- `Text` (`text.dfy`): ECMAScript `String.prototype.trim`, over the WhiteSpace and LineTerminator code points.
- `TaskList` (`tasklist.dfy`): the task record, plus the list operations the view applies. These are the toggle map, the edit map, the delete filter and the open-task count.
- `DisplayOrder` (`displayorder.dfy`): the display order `sortedTasks`. It is a stable sort, as ECMAScript's `Array.prototype.sort` is. Open tasks come first, then completed ones, each group by ascending creation time.
- `CloudStore` (`cloudstore.dfy`): snapshot documents, their normalisation into tasks, and the write requests.
- `Auth` (`auth.dfy`): the message for each provider error code, and the sign-in form check.
- `Board` (`board.dfy`): the class `TaskBoard`. It holds the mutable state (`tasks`, `user`, `authError`, `requests`) and one method per handler. Its invariant `Valid` states:
  - a local board never requests a write;
  - every task on a local board is owned by `local-user`, with a trimmed, non-empty title;
  - a cloud board with nobody signed in shows no tasks.

The nondeterministic inputs are parameters:

- the generated local id, `Date.now()` at creation, and the clock reading used when a snapshot document has no timestamp;
- whether the backend accepted an `addDoc`.

On a change of identity the code empties the view only when the user becomes absent (`src/App.js:139-145`). A direct switch from one user to another keeps the old user's tasks in view until the new user's first snapshot arrives. `Board.TaskBoard.ObserveUser` states exactly that.

## Model

| member | source | states |
|---|---|---|
| Text.Trim | src/App.js:266 | the trimmed title has no whitespace at either end, and is empty exactly when the input is all whitespace, which is the emptiness test of every title check |
| Text.TrimIsInterior | src/App.js:266 | trimming only removes a whitespace-only prefix and a whitespace-only suffix; the result is the slice of the input between them |
| Text.TrimIdempotent | src/App.js:271-272 | trimming twice gives the same text as trimming once, so a sanitised title or description is stable |
| Text.TrimStartDropsPrefix | src/App.js:266 | what the leading trim drops is a whitespace-only prefix, and what remains is the rest of the input |
| Text.TrimEndDropsSuffix | src/App.js:266 | what the trailing trim drops is a whitespace-only suffix, and what remains is the start of the input |
| TaskList.Filter | src/App.js:378 | `Array.prototype.filter`, as used here and by the open count at `src/App.js:325`, never yields more elements than it is given; what it keeps is stated by the lemmas below |
| TaskList.FilterKeepsAccepted | src/App.js:378 | a filter keeps the accepted elements in their original order, and an element is in the result iff it was in the input and is accepted |
| TaskList.FilterMultiset | src/App.js:378 | a filter keeps each accepted element with its full multiplicity and drops every other element entirely |
| TaskList.FilterAppend | src/App.js:325 | filtering a concatenation is the concatenation of the filtered parts |
| TaskList.IncompleteCount | src/App.js:325 | the open-task counter never exceeds the number of tasks |
| TaskList.CountsPartition | src/App.js:325 | the open count plus the independently counted completed tasks equals the total shown beside it (`src/App.js:718`) |
| TaskList.FilterCountPermutation | src/App.js:316-325 | the open count of any reordering of the list, such as the displayed order, is the open count of the list |
| TaskList.Toggled | src/App.js:345-351 | the local toggle keeps length and order, flips `completed` of exactly the tasks whose id matches, and changes no other field |
| TaskList.ToggledTwice | src/App.js:345-351 | toggling the same id twice restores the original list |
| TaskList.ToggledAbsent | src/App.js:345-351 | toggling an id that no task carries leaves the list unchanged |
| TaskList.ToggleMovesCountByOne | src/App.js:325 | when exactly one task carries the id, a toggle raises the open count by one if that task was completed, and lowers it by one if it was open |
| TaskList.Edited | src/App.js:463-475 | the local edit gives each matching task the four new fields while it keeps its id, creation time and owner; every other task is unchanged, and the length is kept |
| TaskList.EditedIdempotent | src/App.js:463-475 | applying the same edit twice is applying it once |
| TaskList.Remaining | src/App.js:378 | the local delete keeps the surviving tasks in their original order, and a task survives iff it was there and carries a different id |
| TaskList.RemainingMultiset | src/App.js:378 | the delete removes every occurrence of tasks with the id, and every other task keeps its multiplicity |
| TaskList.RemainingAbsent | src/App.js:378 | deleting an id that no task carries leaves the list unchanged |
| DisplayOrder.Insert | src/App.js:317-322 | one insertion step of the sort adds exactly the inserted task to the multiset of tasks |
| DisplayOrder.InsertSorted | src/App.js:317-322 | inserting into a list ordered by the comparator keeps it ordered |
| DisplayOrder.SortedTasks | src/App.js:316-323 | the display is a permutation of the tasks in which every earlier task may precede every later one: open before completed, then by non-decreasing `createdAt` |
| DisplayOrder.InsertStable | src/App.js:317-322 | an insertion step never reorders tasks that share a sort key |
| DisplayOrder.SortedTasksStable | src/App.js:316-323 | for every sort key, the tasks with that key appear in the display in their list order, as with ECMAScript's stable sort |
| DisplayOrder.OpenPrefix | src/App.js:316-323 | in an ordered list the open tasks are exactly the prefix whose length is the open count |
| DisplayOrder.DisplayOpenFirst | src/App.js:316-325 | the displayed task at position i is completed iff i is at least `incompleteCount`, so the open tasks are all on top |
| DisplayOrder.SortedPair | src/App.js:316-323 | two tasks are displayed in list order when the first may precede the second, and swapped otherwise |
| DisplayOrder.CompletingFirstOfTwoMovesItDown | src/App.test.js:26-40 | two open tasks created in order are shown in that order, and completing the first moves it below the second |
| CloudStore.CreatedAtMillis | src/App.js:152-160 | the creation time is the client timestamp, the server timestamp or the clock reading, and the clock is used only when the document carries neither timestamp |
| CloudStore.ServerMillisBeforeClock | src/App.js:156-159 | without a client timestamp, a resolved server timestamp orders the document whatever the clock says |
| CloudStore.Normalise | src/App.js:162-170 | a document becomes a task with its id and owner, the creation time of the fallback chain, each field it holds kept, each missing title, description or due date empty, and `completed` true only when the document stores `true` |
| CloudStore.EmptyDocDefaults | src/App.js:162-170 | a document with no fields becomes an open task with empty title, description and due date, no owner, created at the clock reading |
| CloudStore.NormaliseAll | src/App.js:150-171 | a snapshot gives one task per document in the snapshot's order, each the document normalised, so each keeps its document's id and owner |
| CloudStore.SnapshotScope | src/App.js:136-173 | when every document belongs to the user, as the owner query asks, every task in the view belongs to that user |
| CloudStore.AddDocEcho | src/App.js:299-307 | the document stored for a create comes back as exactly the requested task, ordered by the client timestamp, whether or not the server timestamp has resolved |
| CloudStore.ClientMillisTakePrecedence | src/App.js:152-160 | a document carrying a numeric `createdAtMillis` is ordered by it whatever the server timestamp and the clock say |
| Auth.ResolveAuthErrorMessage | src/App.js:196-217 | the message is not the generic failure iff the error has a non-empty code among the six known ones, and it is always one of the seven messages |
| Auth.KnownCodesHaveDistinctMessages | src/App.js:201-213 | two different known codes never get the same message |
| Auth.IsAuthFormValid | src/App.js:106-107 | the form is valid iff the email holds some non-whitespace character and the password has at least six characters |
| Board.TaskBoard.constructor | src/App.js:91-105 | the engine starts with an empty view, nobody signed in, no error and no writes; cloud mode iff a database is configured, sign-in enabled iff also an auth service is |
| Board.TaskBoard.RefuseUnsigned | src/App.js:291-296 | a refused mutation sets the sign-in error only when sign-in is enabled, and otherwise keeps the previous error |
| Board.TaskBoard.CreateTask | src/App.js:260-314 | a title that trims to empty is refused with nothing changed; local mode appends exactly the new task (trimmed title and description, given due date and flag, the timestamp, owner `local-user`); cloud mode without a user is refused; cloud mode with a user requests one `AddDoc` owned by the user and reports the backend's outcome; `Valid` is kept |
| Board.TaskBoard.AddTask | src/App.js:327-337 | the quick-add refuses at once when sign-in is enabled and nobody is signed in; otherwise it creates an open task with the typed title and empty description and due date; the input is cleared iff the task was created |
| Board.TaskBoard.ToggleTask | src/App.js:339-370 | no target does nothing; local mode applies `Toggled`; cloud mode without a user is refused without a write; with a user it requests storing the negation of the target's state and leaves the view alone |
| Board.TaskBoard.DeleteTask | src/App.js:372-393 | an empty id does nothing; local mode applies `Remaining`; cloud mode without a user is refused without a write; with a user it requests one `DeleteDoc` |
| Board.TaskBoard.EditTask | src/App.js:452-501 | a title that trims to empty or a missing id changes nothing; local mode applies `Edited` with the trimmed fields; cloud mode without a user is refused; with a user it requests one `UpdateFields` and leaves the view alone |
| Board.TaskBoard.ObserveUser | src/App.js:109-145 | an identity change records the user and clears the error; the view is emptied when nobody is signed in any more and kept otherwise; no write is requested |
| Board.TaskBoard.ApplySnapshot | src/App.js:139-182 | a snapshot replaces the whole view with its normalised documents, and a snapshot scoped to the user leaves only that user's tasks in view |

## Left out

- `handleAuthSubmit` and `handleSignOut` (`src/App.js:219-258`) call the authentication provider asynchronously. Only their pure parts are modelled: the error message table, the form check, and the resulting identity changes through `ObserveUser`.
- `handleDialogDelete` (`src/App.js:503-510`) only calls `handleDeleteTask` with the dialog's id and closes the dialog. Its effect on the tasks is `DeleteTask`.
- The create branch of `handleDialogSubmit` (`src/App.js:439-450`) only calls `createTask` with the dialog's fields. Its effect is `CreateTask`.
- Dialog and theme state, the quick-add input text, the loading and submitting flags, and all rendering are presentation only. The dialog closing after an edit is not modelled.
- `formatDueDate` depends on JavaScript `Date` parsing and Japanese locale formatting.
- Asynchronous interleaving is not modelled: await points, listeners firing between handler steps, and the cancellation of a subscription on an identity change. Each handler is one atomic step.
- Failures of `updateDoc` and `deleteDoc` are only logged by the source. The model records the request whatever the backend does.
- `console.error` logging.
- `Date.now()` and `Math.random()` are parameters. Ids are not checked for uniqueness, so toggle, edit and delete act on every task with the given id, as the source's map and filter do.
- CloudStore.NormaliseAll: takes one clock reading `now` for the whole snapshot, whereas the source calls `Date.now()` once per document that has no timestamp.
- CloudStore.Doc: models creation times (`createdAtMillis`, the server timestamp and `Task.createdAt`) as integer milliseconds; fractional, `NaN` or infinite JavaScript numbers are not represented, and with `NaN` the source's comparator is inconsistent and its display order is left to the engine.
- CloudStore.Doc: holds each field already typed (text, flag, millisecond number). It does not capture `?? ''` or `Boolean(...)` applied to values of other JavaScript types, or a non-numeric `createdAtMillis`.
- Auth.IsAuthFormValid: counts the password's length in Unicode scalar values, whereas JavaScript's `.length` counts UTF-16 code units. The two differ only for characters outside the Basic Multilingual Plane.
- `src/firebase.js` (environment configuration) is represented only by the two constructor flags of `TaskBoard`.
- A description that is not a string, which the source replaces with `''`, cannot occur: descriptions are strings in the model.
