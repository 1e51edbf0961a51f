/**
 * Task-list helpers of `src/utils/helpers.ts`: the newest-first sort and the
 * completed / incomplete filters. Sequences are values, so "sorts a copy and
 * leaves the input alone" holds by construction.
 */
module Helpers {
  import opened TaskTypes

  /** Ordered by creation time, newest first (non-increasing `createdAt`). */
  predicate NewestFirst(s: seq<Task>) {
    forall i, j :: 0 <= i < j < |s| ==> s[i].createdAt >= s[j].createdAt
  }

  /**
   * Puts `t` in front of the first element that is not newer than it, which
   * keeps `t` ahead of the elements it ties with.
   */
  function Insert(t: Task, s: seq<Task>): (r: seq<Task>)
    requires NewestFirst(s)
    ensures NewestFirst(r)
    ensures multiset(r) == multiset(s) + multiset{t}
    ensures |r| == |s| + 1
  {
    if s == [] || s[0].createdAt <= t.createdAt then
      [t] + s
    else
      var rest := Insert(t, s[1..]);
      InsertBehindHead(t, s, rest);
      [s[0]] + rest
  }

  /** Inserting behind a head that is newer than `t` keeps the head in front. */
  lemma {:induction false} InsertBehindHead(t: Task, s: seq<Task>, rest: seq<Task>)
    requires NewestFirst(s) && s != [] && s[0].createdAt > t.createdAt
    requires NewestFirst(rest) && multiset(rest) == multiset(s[1..]) + multiset{t}
    ensures NewestFirst([s[0]] + rest)
    ensures multiset([s[0]] + rest) == multiset(s) + multiset{t}
  {
    assert s == [s[0]] + s[1..];
    forall k | 0 <= k < |rest| ensures rest[k].createdAt <= s[0].createdAt {
      assert rest[k] in multiset(rest);
      if rest[k] != t {
        assert rest[k] in multiset(s[1..]);
        var j :| 0 <= j < |s[1..]| && s[1..][j] == rest[k];
        assert s[j + 1] == rest[k];
      }
    }
  }

  /**
   * `[...tasks].sort((a, b) => b.createdAt - a.createdAt)`: a stable sort,
   * newest first, of a copy of the list.
   */
  function SortTasksByDate(tasks: seq<Task>): (r: seq<Task>)
    ensures NewestFirst(r)
    ensures multiset(r) == multiset(tasks)
    ensures |r| == |tasks|
  {
    if tasks == [] then []
    else
      assert tasks == [tasks[0]] + tasks[1..];
      Insert(tasks[0], SortTasksByDate(tasks[1..]))
  }

  /** The tasks created at instant `d`, in list order. */
  function CreatedAt(s: seq<Task>, d: Timestamp): seq<Task> {
    if s == [] then []
    else (if s[0].createdAt == d then [s[0]] else []) + CreatedAt(s[1..], d)
  }

  lemma {:induction false} CreatedAtInsert(t: Task, s: seq<Task>, d: Timestamp)
    requires NewestFirst(s)
    ensures CreatedAt(Insert(t, s), d) == (if t.createdAt == d then [t] else []) + CreatedAt(s, d)
  {
    if s == [] || s[0].createdAt <= t.createdAt {
      var r := [t] + s;
      assert r[0] == t && r[1..] == s;
    } else {
      var rest := Insert(t, s[1..]);
      CreatedAtInsert(t, s[1..], d);
      var r := [s[0]] + rest;
      assert r[0] == s[0] && r[1..] == rest;
      assert CreatedAt(r, d) == (if s[0].createdAt == d then [s[0]] else []) + CreatedAt(rest, d);
      assert CreatedAt(s, d) == (if s[0].createdAt == d then [s[0]] else []) + CreatedAt(s[1..], d);
    }
  }

  /**
   * The sort is stable: tasks created at the same instant keep their
   * relative order, as the comparator returns 0 for them.
   */
  lemma {:induction false} SortIsStable(tasks: seq<Task>, d: Timestamp)
    ensures CreatedAt(SortTasksByDate(tasks), d) == CreatedAt(tasks, d)
  {
    if tasks != [] {
      SortIsStable(tasks[1..], d);
      CreatedAtInsert(tasks[0], SortTasksByDate(tasks[1..]), d);
    }
  }

  /** `tasks.filter(task => task.completed)`. */
  function FilterCompletedTasks(tasks: seq<Task>): (r: seq<Task>)
    ensures forall t :: t in r <==> t in tasks && t.completed
    ensures |r| <= |tasks|
  {
    if tasks == [] then []
    else (if tasks[0].completed then [tasks[0]] else []) + FilterCompletedTasks(tasks[1..])
  }

  /** `tasks.filter(task => !task.completed)`. */
  function FilterIncompleteTasks(tasks: seq<Task>): (r: seq<Task>)
    ensures forall t :: t in r <==> t in tasks && !t.completed
    ensures |r| <= |tasks|
  {
    if tasks == [] then []
    else (if tasks[0].completed then [] else [tasks[0]]) + FilterIncompleteTasks(tasks[1..])
  }

  /** `filterCompletedTasks` keeps list order: it distributes over concatenation. */
  lemma {:induction false} CompletedKeepsOrder(a: seq<Task>, b: seq<Task>)
    ensures FilterCompletedTasks(a + b) == FilterCompletedTasks(a) + FilterCompletedTasks(b)
  {
    if a == [] {
      assert a + b == b;
    } else {
      var ab := a + b;
      assert ab[0] == a[0] && ab[1..] == a[1..] + b;
      assert FilterCompletedTasks(ab)
          == (if a[0].completed then [a[0]] else []) + FilterCompletedTasks(a[1..] + b);
      CompletedKeepsOrder(a[1..], b);
    }
  }

  /** `filterIncompleteTasks` keeps list order: it distributes over concatenation. */
  lemma {:induction false} IncompleteKeepsOrder(a: seq<Task>, b: seq<Task>)
    ensures FilterIncompleteTasks(a + b) == FilterIncompleteTasks(a) + FilterIncompleteTasks(b)
  {
    if a == [] {
      assert a + b == b;
    } else {
      var ab := a + b;
      assert ab[0] == a[0] && ab[1..] == a[1..] + b;
      assert FilterIncompleteTasks(ab)
          == (if a[0].completed then [] else [a[0]]) + FilterIncompleteTasks(a[1..] + b);
      IncompleteKeepsOrder(a[1..], b);
    }
  }

  /** The two filters split the list: every task lands in exactly one of them. */
  lemma {:induction false} FiltersPartition(tasks: seq<Task>)
    ensures multiset(FilterCompletedTasks(tasks)) + multiset(FilterIncompleteTasks(tasks)) == multiset(tasks)
    ensures |FilterCompletedTasks(tasks)| + |FilterIncompleteTasks(tasks)| == |tasks|
  {
    if tasks != [] {
      FiltersPartition(tasks[1..]);
      var c, i := FilterCompletedTasks(tasks[1..]), FilterIncompleteTasks(tasks[1..]);
      assert tasks == [tasks[0]] + tasks[1..];
      if tasks[0].completed {
        assert FilterCompletedTasks(tasks) == [tasks[0]] + c;
        assert FilterIncompleteTasks(tasks) == i;
      } else {
        assert FilterCompletedTasks(tasks) == c;
        assert FilterIncompleteTasks(tasks) == [tasks[0]] + i;
      }
    }
  }

  /** No task is both completed-filtered and incomplete-filtered. */
  lemma FiltersDisjoint(tasks: seq<Task>, t: Task)
    ensures !(t in FilterCompletedTasks(tasks) && t in FilterIncompleteTasks(tasks))
  {
  }
}
