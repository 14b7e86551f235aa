/** The display order `sortedTasks`: open tasks first, then completed ones, each
    group by ascending creation time. The view sorts a copy of the list with a
    comparator; ECMAScript's sort is stable, so tasks with equal keys keep the
    order they have in the list. */
module DisplayOrder {
  import opened TaskList

  /** The comparator's "a may come before b": `a.completed === b.completed ?
      a.createdAt - b.createdAt <= 0 : !a.completed`. */
  predicate Precedes(a: Task, b: Task) {
    if a.completed == b.completed then a.createdAt <= b.createdAt else !a.completed
  }

  /** Every earlier task may come before every later one. */
  predicate Sorted(s: seq<Task>) {
    forall i, j :: 0 <= i < j < |s| ==> Precedes(s[i], s[j])
  }

  /** Places `x` before the first task it may precede, so after every task whose
      key is smaller and before every task with an equal or larger key. */
  function Insert(x: Task, s: seq<Task>): (r: seq<Task>)
    ensures multiset(r) == multiset(s) + multiset{x}
  {
    if s == [] then [x]
    else if Precedes(x, s[0]) then [x] + s
    else
      assert s == [s[0]] + s[1..];
      [s[0]] + Insert(x, s[1..])
  }

  lemma {:induction false} InsertSorted(x: Task, s: seq<Task>)
    requires Sorted(s)
    ensures Sorted(Insert(x, s))
  {
    if s != [] && !Precedes(x, s[0]) {
      var rest := Insert(x, s[1..]);
      InsertSorted(x, s[1..]);
      forall j | 0 <= j < |rest|
        ensures Precedes(s[0], rest[j])
      {
        assert rest[j] in multiset(rest);
        if rest[j] != x {
          assert rest[j] in multiset(s[1..]);
          var k :| 0 <= k < |s[1..]| && s[1..][k] == rest[j];
          assert s[k + 1] == rest[j];
        }
      }
    }
  }

  /** `sortedTasks`: a permutation of the list in which every open task precedes
      every completed one and each group is in non-decreasing `createdAt` order. */
  function SortedTasks(tasks: seq<Task>): (r: seq<Task>)
    ensures multiset(r) == multiset(tasks)
    ensures Sorted(r)
  {
    if tasks == [] then []
    else
      var rest := SortedTasks(tasks[1..]);
      assert tasks == [tasks[0]] + tasks[1..];
      InsertSorted(tasks[0], rest);
      Insert(tasks[0], rest)
  }

  /** The tasks sharing one sort key (completion state and creation time). */
  function SameKey(completed: bool, createdAt: int): Task -> bool {
    (t: Task) => t.completed == completed && t.createdAt == createdAt
  }

  lemma FilterSingleton(t: Task, keep: Task -> bool)
    ensures Filter([t], keep) == if keep(t) then [t] else []
  {
    assert [t][1..] == [];
  }

  /** Two tasks whose keys differ can trade places without changing which of them a key filter keeps. */
  lemma FilterPairSwap(x: Task, y: Task, completed: bool, createdAt: int)
    requires !Precedes(x, y)
    ensures Filter([y], SameKey(completed, createdAt)) + Filter([x], SameKey(completed, createdAt))
         == Filter([x], SameKey(completed, createdAt)) + Filter([y], SameKey(completed, createdAt))
  {
    var key := SameKey(completed, createdAt);
    assert !(key(x) && key(y));
    FilterSingleton(x, key);
    FilterSingleton(y, key);
  }

  lemma {:induction false} InsertStable(x: Task, s: seq<Task>, completed: bool, createdAt: int)
    ensures Filter(Insert(x, s), SameKey(completed, createdAt)) == Filter([x] + s, SameKey(completed, createdAt))
  {
    var key := SameKey(completed, createdAt);
    if s != [] && !Precedes(x, s[0]) {
      var fx, f0, tail := Filter([x], key), Filter([s[0]], key), Filter(s[1..], key);
      FilterPairSwap(x, s[0], completed, createdAt);
      assert Insert(x, s) == [s[0]] + Insert(x, s[1..]);
      FilterAppend([s[0]], Insert(x, s[1..]), key);
      InsertStable(x, s[1..], completed, createdAt);
      FilterAppend([x], s[1..], key);
      assert Filter(Insert(x, s), key) == f0 + (fx + tail);
      FilterAppend([s[0]], s[1..], key);
      assert [s[0]] + s[1..] == s;
      FilterAppend([x], s, key);
      assert Filter([x] + s, key) == fx + (f0 + tail);
    }
  }

  /** The sort is stable: for every key, the tasks with that key appear in the
      display in the same relative order as in the list. */
  lemma {:induction false} SortedTasksStable(tasks: seq<Task>, completed: bool, createdAt: int)
    ensures Filter(SortedTasks(tasks), SameKey(completed, createdAt)) == Filter(tasks, SameKey(completed, createdAt))
  {
    if tasks != [] {
      var key := SameKey(completed, createdAt);
      var rest := tasks[1..];
      calc {
        Filter(SortedTasks(tasks), key);
        Filter(Insert(tasks[0], SortedTasks(rest)), key);
        { InsertStable(tasks[0], SortedTasks(rest), completed, createdAt); }
        Filter([tasks[0]] + SortedTasks(rest), key);
        { FilterAppend([tasks[0]], SortedTasks(rest), key); }
        Filter([tasks[0]], key) + Filter(SortedTasks(rest), key);
        { SortedTasksStable(rest, completed, createdAt); }
        Filter([tasks[0]], key) + Filter(rest, key);
        { FilterAppend([tasks[0]], rest, key); assert [tasks[0]] + rest == tasks; }
        Filter(tasks, key);
      }
    }
  }

  /** In a sorted list the open tasks form the prefix whose length is the open-task count. */
  lemma {:induction false} OpenPrefix(s: seq<Task>)
    requires Sorted(s)
    ensures forall i :: 0 <= i < |s| ==> (s[i].completed <==> IncompleteCount(s) <= i)
  {
    if s != [] {
      var rest := s[1..];
      assert s == [s[0]] + rest;
      IncompleteCountCons(s[0], rest);
      OpenPrefix(rest);
      forall i | 0 <= i < |s|
        ensures s[i].completed <==> IncompleteCount(s) <= i
      {
        if i > 0 {
          assert s[i] == rest[i - 1];
        }
        if s[0].completed && rest != [] {
          assert Precedes(s[0], rest[0]);
        }
      }
    }
  }

  /** The display shows exactly `incompleteCount` open tasks on top and the
      completed ones below them. */
  lemma DisplayOpenFirst(tasks: seq<Task>)
    ensures var view := SortedTasks(tasks);
      forall i :: 0 <= i < |view| ==> (view[i].completed <==> IncompleteCount(tasks) <= i)
  {
    var view := SortedTasks(tasks);
    FilterCountPermutation(view, tasks, IsOpen);
    OpenPrefix(view);
  }

  /** How the display arranges two tasks: in list order when the first may precede
      the second, swapped otherwise. */
  lemma SortedPair(x: Task, y: Task)
    ensures SortedTasks([x, y]) == if Precedes(x, y) then [x, y] else [y, x]
  {
    assert [x, y][1..] == [y];
    assert [y][1..] == [];
    assert SortedTasks([y]) == [y];
    assert SortedTasks([x, y]) == Insert(x, [y]);
    if !Precedes(x, y) {
      assert Insert(x, [y]) == [y] + Insert(x, []);
    }
  }

  /** Two open tasks created one after the other are shown in creation order;
      completing the first one moves it below the second. */
  lemma CompletingFirstOfTwoMovesItDown(a: Task, b: Task)
    requires !a.completed && !b.completed && a.createdAt <= b.createdAt && a.id != b.id
    ensures SortedTasks([a, b]) == [a, b]
    ensures SortedTasks(Toggled([a, b], a.id)) == [b, a.(completed := true)]
  {
    var done := a.(completed := true);
    SortedPair(a, b);
    var toggled := Toggled([a, b], a.id);
    assert toggled[0] == done && toggled[1] == b;
    assert toggled == [done, b];
    SortedPair(done, b);
  }
}
