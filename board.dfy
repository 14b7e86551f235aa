/** The task-list engine behind the UI: the view `tasks`, the signed-in user, the
    last auth error, and the writes requested from the cloud backend. Local mode
    changes the view at once; cloud mode only requests a write and leaves the view
    to the next snapshot. In cloud mode, every mutation is refused while nobody is
    signed in. */
module Board {
  import opened Wrappers
  import opened Text
  import opened TaskList
  import opened CloudStore
  import opened Auth

  /** An authenticated identity; the engine uses only its uid. */
  datatype User = User(uid: string)

  /** A task as the local create builds it and the local edit keeps it: owned by the
      local user, with a trimmed non-empty title and a trimmed description. */
  predicate LocalWellFormed(t: Task) {
    t.ownerId == Some(LocalOwner) && t.title != [] && IsTrimmed(t.title) && IsTrimmed(t.description)
  }

  predicate AllLocalWellFormed(tasks: seq<Task>) {
    forall i :: 0 <= i < |tasks| ==> LocalWellFormed(tasks[i])
  }

  class TaskBoard {
    /** Cloud mode: a database is configured. Fixed for the session. */
    const useFirestore: bool
    /** Sign-in is available (cloud mode with an auth service). */
    const isAuthEnabled: bool

    var tasks: seq<Task>
    var user: Option<User>
    var authError: Option<string>
    /** Every write requested from the backend, oldest first. */
    var requests: seq<WriteRequest>

    ghost predicate Valid()
      reads this
    {
      && (isAuthEnabled ==> useFirestore)
      && (!isAuthEnabled ==> user.None?)
      && (!useFirestore ==> requests == [] && AllLocalWellFormed(tasks))
      && (useFirestore && user.None? ==> tasks == [])
    }

    /** Cloud mode with nobody signed in: the state in which mutations are refused. */
    predicate SignInMissing()
      reads this
    {
      useFirestore && user.None?
    }

    /** The auth error after a refused mutation: the sign-in message when sign-in is
        enabled, otherwise the previous error. */
    function ErrorAfterRefusal(previous: Option<string>): Option<string> {
      if isAuthEnabled then Some(SignInRequired) else previous
    }

    /** The engine at start-up: empty view, nobody signed in, no error, no writes. */
    constructor (hasDatabase: bool, hasAuth: bool)
      ensures Valid()
      ensures useFirestore == hasDatabase && isAuthEnabled == (hasDatabase && hasAuth)
      ensures tasks == [] && user == None && authError == None && requests == []
    {
      useFirestore := hasDatabase;
      isAuthEnabled := hasDatabase && hasAuth;
      tasks := [];
      user := None;
      authError := None;
      requests := [];
    }

    method RefuseUnsigned()
      modifies this`authError
      ensures authError == ErrorAfterRefusal(old(authError))
    {
      if isAuthEnabled {
        authError := Some(SignInRequired);
      }
    }

    /** `createTask`. A title that is only whitespace is refused. Local mode appends one
        task; cloud mode asks for a document and reports whether the backend accepted
        it. `localId` and `timestamp` stand for the generated id and `Date.now()`. */
    method CreateTask(title: string, description: string, dueDate: string, completed: bool,
                      localId: string, timestamp: int, addDocSucceeds: bool) returns (ok: bool)
      requires Valid()
      modifies this
      ensures Valid()
      ensures user == old(user)
      ensures Trim(title) == "" ==>
        !ok && tasks == old(tasks) && requests == old(requests) && authError == old(authError)
      ensures Trim(title) != "" && !useFirestore ==>
        && ok
        && tasks == old(tasks) + [Task(localId, Trim(title), Trim(description), dueDate, completed, timestamp, Some(LocalOwner))]
        && requests == old(requests) && authError == old(authError)
      ensures Trim(title) != "" && old(SignInMissing()) ==>
        !ok && tasks == old(tasks) && requests == old(requests) && authError == ErrorAfterRefusal(old(authError))
      ensures Trim(title) != "" && useFirestore && user.Some? ==>
        && ok == addDocSucceeds
        && tasks == old(tasks) && authError == old(authError)
        && requests == old(requests) + [AddDoc(Trim(title), Trim(description), dueDate, completed, user.value.uid, timestamp)]
    {
      var trimmedTitle := Trim(title);
      if trimmedTitle == [] {
        return false;
      }
      var sanitizedDescription := Trim(description);
      if !useFirestore {
        var task := Task(localId, trimmedTitle, sanitizedDescription, dueDate, completed, timestamp, Some(LocalOwner));
        assert LocalWellFormed(task);
        tasks := tasks + [task];
        return true;
      }
      if user.None? {
        RefuseUnsigned();
        return false;
      }
      requests := requests + [AddDoc(trimmedTitle, sanitizedDescription, dueDate, completed, user.value.uid, timestamp)];
      ok := addDocSucceeds;
    }

    /** `handleAddTask`: the quick-add form. It refuses at once when sign-in is enabled
        and nobody is signed in, and otherwise creates an open task with the typed
        title and no description or due date. `cleared` is whether the form's input
        is cleared, which happens exactly when the task was created. */
    method AddTask(title: string, localId: string, timestamp: int, addDocSucceeds: bool) returns (cleared: bool)
      requires Valid()
      modifies this
      ensures Valid()
      ensures user == old(user)
      ensures cleared <==> Trim(title) != "" && (!useFirestore || (user.Some? && addDocSucceeds))
      ensures tasks == if !useFirestore && Trim(title) != ""
        then old(tasks) + [Task(localId, Trim(title), "", "", false, timestamp, Some(LocalOwner))]
        else old(tasks)
      ensures requests == if useFirestore && user.Some? && Trim(title) != ""
        then old(requests) + [AddDoc(Trim(title), "", "", false, user.value.uid, timestamp)]
        else old(requests)
      ensures authError == if isAuthEnabled && user.None? then Some(SignInRequired) else old(authError)
    {
      if isAuthEnabled && user.None? {
        authError := Some(SignInRequired);
        return false;
      }
      assert Trim("") == "" by {
        assert AllWhitespace("");
      }
      cleared := CreateTask(title, "", "", false, localId, timestamp, addDocSucceeds);
    }

    /** `handleToggleTask`: local mode flips `completed` of every task with the target's
        id; cloud mode asks the backend to store the negation of the target's state. */
    method ToggleTask(target: Option<Task>)
      requires Valid()
      modifies this
      ensures Valid()
      ensures user == old(user)
      ensures target.None? ==>
        tasks == old(tasks) && requests == old(requests) && authError == old(authError)
      ensures target.Some? && !useFirestore ==>
        tasks == Toggled(old(tasks), target.value.id) && requests == old(requests) && authError == old(authError)
      ensures target.Some? && old(SignInMissing()) ==>
        tasks == old(tasks) && requests == old(requests) && authError == ErrorAfterRefusal(old(authError))
      ensures target.Some? && useFirestore && user.Some? ==>
        && tasks == old(tasks) && authError == old(authError)
        && requests == old(requests) + [UpdateCompleted(target.value.id, !target.value.completed)]
    {
      if target.None? {
        return;
      }
      if !useFirestore {
        tasks := Toggled(tasks, target.value.id);
        return;
      }
      if user.None? {
        RefuseUnsigned();
        return;
      }
      requests := requests + [UpdateCompleted(target.value.id, !target.value.completed)];
    }

    /** `handleDeleteTask`: an empty id does nothing; local mode drops every task with
        the id; cloud mode asks the backend to delete the document. */
    method DeleteTask(id: string)
      requires Valid()
      modifies this
      ensures Valid()
      ensures user == old(user)
      ensures id == "" ==>
        tasks == old(tasks) && requests == old(requests) && authError == old(authError)
      ensures id != "" && !useFirestore ==>
        tasks == Remaining(old(tasks), id) && requests == old(requests) && authError == old(authError)
      ensures id != "" && old(SignInMissing()) ==>
        tasks == old(tasks) && requests == old(requests) && authError == ErrorAfterRefusal(old(authError))
      ensures id != "" && useFirestore && user.Some? ==>
        tasks == old(tasks) && authError == old(authError) && requests == old(requests) + [DeleteDoc(id)]
    {
      if id == "" {
        return;
      }
      if !useFirestore {
        tasks := Remaining(tasks, id);
        return;
      }
      if user.None? {
        RefuseUnsigned();
        return;
      }
      requests := requests + [DeleteDoc(id)];
    }

    /** The edit branch of `handleDialogSubmit`. It is refused when the title is only
        whitespace or the dialog carries no id. Local mode rewrites the four fields of
        the matching tasks; cloud mode asks the backend to update the document. */
    method EditTask(dialogId: Option<string>, title: string, description: string, dueDate: string, completed: bool)
      requires Valid()
      modifies this
      ensures Valid()
      ensures user == old(user)
      ensures Trim(title) == "" || dialogId.None? || dialogId == Some("") ==>
        tasks == old(tasks) && requests == old(requests) && authError == old(authError)
      ensures Trim(title) != "" && dialogId.Some? && dialogId.value != "" && !useFirestore ==>
        && tasks == Edited(old(tasks), dialogId.value, Fields(Trim(title), Trim(description), dueDate, completed))
        && requests == old(requests) && authError == old(authError)
      ensures Trim(title) != "" && dialogId.Some? && dialogId.value != "" && old(SignInMissing()) ==>
        tasks == old(tasks) && requests == old(requests) && authError == ErrorAfterRefusal(old(authError))
      ensures Trim(title) != "" && dialogId.Some? && dialogId.value != "" && useFirestore && user.Some? ==>
        && tasks == old(tasks) && authError == old(authError)
        && requests == old(requests) + [UpdateFields(dialogId.value, Fields(Trim(title), Trim(description), dueDate, completed))]
    {
      var trimmedTitle := Trim(title);
      if trimmedTitle == [] || dialogId.None? || dialogId.value == "" {
        return;
      }
      var fields := Fields(trimmedTitle, Trim(description), dueDate, completed);
      if !useFirestore {
        tasks := Edited(tasks, dialogId.value, fields);
        return;
      }
      if user.None? {
        RefuseUnsigned();
        return;
      }
      requests := requests + [UpdateFields(dialogId.value, fields)];
    }

    /** The auth-state listener, registered only when sign-in is enabled: it records the
        new user and clears the auth error. When nobody is signed in any more the
        subscription goes away and the view is emptied; a new user keeps the view
        until that user's first snapshot arrives. */
    method ObserveUser(next: Option<User>)
      requires Valid() && isAuthEnabled
      modifies this
      ensures Valid()
      ensures user == next && authError == None && requests == old(requests)
      ensures tasks == if next.None? then [] else old(tasks)
    {
      user := next;
      authError := None;
      if next.None? {
        tasks := [];
      }
    }

    /** The snapshot listener, live only in cloud mode with a signed-in user: the view
        becomes the snapshot's documents, normalised, replacing whatever it held. A
        snapshot scoped to the user leaves only that user's tasks in view. */
    method ApplySnapshot(docs: seq<Doc>, now: int)
      requires Valid() && useFirestore && user.Some?
      modifies this`tasks
      ensures Valid()
      ensures tasks == NormaliseAll(docs, now)
      ensures (forall d :: d in docs ==> d.ownerId == Some(user.value.uid)) ==>
        forall t :: t in tasks ==> t.ownerId == Some(user.value.uid)
    {
      tasks := NormaliseAll(docs, now);
      if forall d :: d in docs ==> d.ownerId == Some(user.value.uid) {
        SnapshotScope(docs, now, user.value.uid);
      }
    }
  }

  /** A local session: add a task, complete it, delete it. */
  method LocalSession() {
    var board := new TaskBoard(false, false);
    assert !IsWhitespace("Draft report"[0]);
    var cleared := board.AddTask("Draft report", "1-a", 100, false);
    assert cleared && |board.tasks| == 1 && IncompleteCount(board.tasks) == 1;
    var task := board.tasks[0];
    assert task.title == Trim("Draft report");
    board.ToggleTask(Some(task));
    assert board.tasks[0].completed;
    assert IncompleteCount(board.tasks) == 0;
    board.DeleteTask(task.id);
    assert board.tasks == [];
  }

  /** A cloud session with nobody signed in: adding is refused, nothing is written. */
  method UnsignedCloudSession() {
    var board := new TaskBoard(true, true);
    var cleared := board.AddTask("x", "1-a", 100, true);
    assert !cleared && board.tasks == [] && board.requests == [];
    assert board.authError == Some(SignInRequired);
  }
}
