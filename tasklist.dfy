/** The task record and the list operations the engine applies to the view:
    the map of a toggle or an edit, the filter of a delete, the filter-and-count
    of the open-task counter. */
module TaskList {
  import opened Wrappers

  /** The owner written into every task created in local mode. */
  const LocalOwner: string := "local-user"

  /** One task as held in the view. `ownerId` is absent for a document without one. */
  datatype Task = Task(
    id: string,
    title: string,
    description: string,
    dueDate: string,
    completed: bool,
    createdAt: int,
    ownerId: Option<string>)

  /** The four fields an edit rewrites, already sanitised. */
  datatype Fields = Fields(title: string, description: string, dueDate: string, completed: bool)

  /** `a` is `b` with some elements dropped and the rest kept in order. */
  predicate SubseqOf<T(==,!new)>(a: seq<T>, b: seq<T>)
    decreases |b|
  {
    if a == [] then true
    else if b == [] then false
    else (a[0] == b[0] && SubseqOf(a[1..], b[1..])) || SubseqOf(a, b[1..])
  }

  /** `Array.prototype.filter`: the elements of `s` that `keep` accepts, in order. */
  function Filter<T>(s: seq<T>, keep: T -> bool): (r: seq<T>)
    ensures |r| <= |s|
  {
    if s == [] then []
    else if keep(s[0]) then [s[0]] + Filter(s[1..], keep)
    else Filter(s[1..], keep)
  }

  /** The filter keeps exactly the accepted elements, in their original order. */
  lemma {:induction false} FilterKeepsAccepted<T(!new)>(s: seq<T>, keep: T -> bool)
    ensures SubseqOf(Filter(s, keep), s)
    ensures forall x :: x in Filter(s, keep) <==> x in s && keep(x)
  {
    if s != [] {
      FilterKeepsAccepted(s[1..], keep);
      var r := Filter(s, keep);
      var rest := Filter(s[1..], keep);
      if keep(s[0]) {
        assert r[0] == s[0] && r[1..] == rest;
      } else if r != [] {
        assert SubseqOf(r, s[1..]);
      }
    }
  }

  lemma FilterCons<T(!new)>(x: T, s: seq<T>, keep: T -> bool)
    ensures Filter([x] + s, keep) == (if keep(x) then [x] else []) + Filter(s, keep)
  {
    assert ([x] + s)[1..] == s;
  }

  /** Filtering distributes over concatenation. */
  lemma {:induction false} FilterAppend<T(!new)>(a: seq<T>, b: seq<T>, keep: T -> bool)
    ensures Filter(a + b, keep) == Filter(a, keep) + Filter(b, keep)
  {
    if a != [] {
      var head := if keep(a[0]) then [a[0]] else [];
      calc {
        Filter(a + b, keep);
        { assert a + b == [a[0]] + (a[1..] + b); }
        Filter([a[0]] + (a[1..] + b), keep);
        { FilterCons(a[0], a[1..] + b, keep); }
        head + Filter(a[1..] + b, keep);
        { FilterAppend(a[1..], b, keep); }
        head + (Filter(a[1..], keep) + Filter(b, keep));
        (head + Filter(a[1..], keep)) + Filter(b, keep);
        { assert a == [a[0]] + a[1..]; FilterCons(a[0], a[1..], keep); }
        Filter(a, keep) + Filter(b, keep);
      }
    } else {
      assert a + b == b;
    }
  }

  /** The filter keeps every accepted element as often as it occurs, and nothing else. */
  lemma {:induction false} FilterMultiset<T(!new)>(s: seq<T>, keep: T -> bool)
    ensures forall x :: multiset(Filter(s, keep))[x] == if keep(x) then multiset(s)[x] else 0
  {
    if s != [] {
      FilterMultiset(s[1..], keep);
      assert s == [s[0]] + s[1..];
    }
  }

  /** How many elements a filter keeps depends only on the multiset filtered. */
  lemma FilterCountPermutation<T(!new)>(a: seq<T>, b: seq<T>, keep: T -> bool)
    requires multiset(a) == multiset(b)
    ensures |Filter(a, keep)| == |Filter(b, keep)|
  {
    FilterMultiset(a, keep);
    FilterMultiset(b, keep);
    assert multiset(Filter(a, keep)) == multiset(Filter(b, keep));
    assert |multiset(Filter(a, keep))| == |Filter(a, keep)|;
    assert |multiset(Filter(b, keep))| == |Filter(b, keep)|;
  }

  predicate IsOpen(t: Task) { !t.completed }

  predicate IsDone(t: Task) { t.completed }

  /** `incompleteCount`: the length of the list filtered to open tasks. */
  function IncompleteCount(tasks: seq<Task>): (n: nat)
    ensures n <= |tasks|
  {
    |Filter(tasks, IsOpen)|
  }

  /** The number of completed tasks, counted independently of `IncompleteCount`. */
  function CompletedCount(tasks: seq<Task>): (n: nat)
  {
    |Filter(tasks, IsDone)|
  }

  lemma IncompleteCountCons(t: Task, tasks: seq<Task>)
    ensures IncompleteCount([t] + tasks) == (if t.completed then 0 else 1) + IncompleteCount(tasks)
  {
    FilterCons(t, tasks, IsOpen);
  }

  /** Open and completed tasks together make up the whole list, so the count shown
      beside the total never drifts from it. */
  lemma {:induction false} CountsPartition(tasks: seq<Task>)
    ensures IncompleteCount(tasks) + CompletedCount(tasks) == |tasks|
  {
    if tasks != [] {
      CountsPartition(tasks[1..]);
      assert tasks == [tasks[0]] + tasks[1..];
      FilterCons(tasks[0], tasks[1..], IsOpen);
      FilterCons(tasks[0], tasks[1..], IsDone);
    }
  }

  /** A task as the toggle leaves it: `completed` flipped when its id matches. */
  function Flip(t: Task, id: string): Task {
    if t.id == id then t.(completed := !t.completed) else t
  }

  /** The local toggle, `tasks.map(...)` with `Flip`: same length and order, only
      `completed` of the matching tasks changes. */
  function Toggled(tasks: seq<Task>, id: string): (r: seq<Task>)
    ensures |r| == |tasks|
    ensures forall i :: 0 <= i < |tasks| ==>
      r[i] == tasks[i].(completed := if tasks[i].id == id then !tasks[i].completed else tasks[i].completed)
  {
    if tasks == [] then [] else [Flip(tasks[0], id)] + Toggled(tasks[1..], id)
  }

  /** Toggling the same id twice gives back the original list. */
  lemma ToggledTwice(tasks: seq<Task>, id: string)
    ensures Toggled(Toggled(tasks, id), id) == tasks
  {
  }

  /** With exactly one task carrying the id, a toggle moves the open-task counter by one:
      up when that task was completed, down when it was open. */
  lemma {:induction false} ToggleMovesCountByOne(tasks: seq<Task>, k: nat)
    requires k < |tasks|
    requires forall j :: 0 <= j < |tasks| && j != k ==> tasks[j].id != tasks[k].id
    ensures IncompleteCount(Toggled(tasks, tasks[k].id)) ==
      if tasks[k].completed then IncompleteCount(tasks) + 1 else IncompleteCount(tasks) - 1
  {
    var id := tasks[k].id;
    var rest := tasks[1..];
    var flipped := Flip(tasks[0], id);
    assert tasks == [tasks[0]] + rest;
    assert Toggled(tasks, id) == [flipped] + Toggled(rest, id);
    IncompleteCountCons(tasks[0], rest);
    IncompleteCountCons(flipped, Toggled(rest, id));
    if k == 0 {
      ToggledAbsent(rest, id);
    } else {
      assert rest[k - 1] == tasks[k];
      assert flipped == tasks[0];
      ToggleMovesCountByOne(rest, k - 1);
    }
  }

  /** Toggling an id no task carries changes nothing. */
  lemma ToggledAbsent(tasks: seq<Task>, id: string)
    requires forall j :: 0 <= j < |tasks| ==> tasks[j].id != id
    ensures Toggled(tasks, id) == tasks
  {
    var r := Toggled(tasks, id);
    assert forall j :: 0 <= j < |tasks| ==> r[j] == tasks[j];
  }

  /** A task as the edit leaves it: the four dialog fields replaced when its id matches. */
  function Revise(t: Task, id: string, f: Fields): Task {
    if t.id == id
    then t.(title := f.title, description := f.description, dueDate := f.dueDate, completed := f.completed)
    else t
  }

  /** The local edit, `tasks.map(...)` with `Revise`. The result is pinned down field
      by field: the matching tasks carry the new fields and keep their id, creation
      time and owner; every other task is unchanged. */
  function Edited(tasks: seq<Task>, id: string, f: Fields): (r: seq<Task>)
    ensures |r| == |tasks|
    ensures forall i :: 0 <= i < |tasks| ==>
      && r[i].id == tasks[i].id
      && r[i].createdAt == tasks[i].createdAt
      && r[i].ownerId == tasks[i].ownerId
      && (tasks[i].id == id ==> Fields(r[i].title, r[i].description, r[i].dueDate, r[i].completed) == f)
      && (tasks[i].id != id ==> r[i] == tasks[i])
  {
    if tasks == [] then [] else [Revise(tasks[0], id, f)] + Edited(tasks[1..], id, f)
  }

  /** Submitting the same edit twice has the effect of submitting it once. */
  lemma EditedIdempotent(tasks: seq<Task>, id: string, f: Fields)
    ensures Edited(Edited(tasks, id, f), id, f) == Edited(tasks, id, f)
  {
  }

  function NotId(id: string): Task -> bool {
    (t: Task) => t.id != id
  }

  /** The local delete, `tasks.filter(task => task.id !== id)`: every task with the
      id is gone, every other task stays, and the survivors keep their order. */
  function Remaining(tasks: seq<Task>, id: string): (r: seq<Task>)
    ensures SubseqOf(r, tasks)
    ensures forall t :: t in r <==> t in tasks && t.id != id
  {
    FilterKeepsAccepted(tasks, NotId(id));
    Filter(tasks, NotId(id))
  }

  /** Delete drops exactly the occurrences of tasks with the id: every other task
      keeps its multiplicity. */
  lemma RemainingMultiset(tasks: seq<Task>, id: string)
    ensures forall t :: multiset(Remaining(tasks, id))[t] == if t.id == id then 0 else multiset(tasks)[t]
  {
    FilterMultiset(tasks, NotId(id));
  }

  /** Deleting an id that no task carries leaves the list as it is. */
  lemma {:induction false} RemainingAbsent(tasks: seq<Task>, id: string)
    requires forall t :: t in tasks ==> t.id != id
    ensures Remaining(tasks, id) == tasks
  {
    if tasks != [] {
      RemainingAbsent(tasks[1..], id);
      assert tasks == [tasks[0]] + tasks[1..];
      FilterCons(tasks[0], tasks[1..], NotId(id));
    }
  }
}
