/**
 * The device-local record store (`DatabaseService` over a Realm table whose
 * primary key is the task id). The table is a map from id to record; the
 * queries are functions over that map, the writes are methods of
 * `TaskDatabase`, which holds the one table the whole application shares.
 */
module Database {
  import opened TaskTypes

  type Table = map<string, Task>

  /** Every record is stored under its own id, the table's primary key. */
  predicate KeyedById(tasks: Table) {
    forall id :: id in tasks ==> tasks[id].id == id
  }

  /** `getAllTasks`' query: the records owned by `userId`. */
  function AllTasks(tasks: Table, userId: string): (r: Table)
    ensures forall id :: id in r <==> id in tasks && tasks[id].userId == userId
    ensures forall id :: id in r ==> r[id] == tasks[id]
  {
    map id | id in tasks && tasks[id].userId == userId :: tasks[id]
  }

  /** `getUnsyncedTasks`' query: the records owned by `userId` not yet synced. */
  function UnsyncedTasks(tasks: Table, userId: string): (r: Table)
    ensures forall id :: id in r <==> id in tasks && tasks[id].userId == userId && !tasks[id].synced
    ensures forall id :: id in r ==> r[id] == tasks[id]
  {
    map id | id in tasks && tasks[id].userId == userId && !tasks[id].synced :: tasks[id]
  }

  /** The unsynced records of a user are some of that user's records. */
  lemma UnsyncedAmongAll(tasks: Table, userId: string)
    ensures UnsyncedTasks(tasks, userId).Keys <= AllTasks(tasks, userId).Keys
    ensures forall id :: id in UnsyncedTasks(tasks, userId) ==>
      UnsyncedTasks(tasks, userId)[id] == AllTasks(tasks, userId)[id]
  {
  }

  /**
   * `Object.assign(task, updates, {updatedAt: now})` on the record `id`, if
   * there is one: the clock wins over any `updatedAt` in the patch.
   */
  function Updated(tasks: Table, id: string, patch: TaskPatch, now: Timestamp): (r: Table)
    ensures r.Keys == tasks.Keys
    ensures id in tasks ==> r[id].updatedAt == now
    ensures id in tasks ==> r[id] == Apply(tasks[id], patch.(updatedAt := Some(now)))
    ensures forall k :: k in tasks && k != id ==> r[k] == tasks[k]
    ensures id !in tasks ==> r == tasks
  {
    if id in tasks then tasks[id := Apply(tasks[id], patch).(updatedAt := now)] else tasks
  }

  /**
   * `markTaskAsSynced` applied to every id in `ids`: only the flag changes
   * (no new `updatedAt`), and only for ids that are present.
   */
  function MarkedSynced(tasks: Table, ids: set<string>): (r: Table)
    ensures r.Keys == tasks.Keys
    ensures forall k :: k in r ==> r[k] == tasks[k].(synced := tasks[k].synced || k in ids)
  {
    map k | k in tasks :: if k in ids then tasks[k].(synced := true) else tasks[k]
  }

  /** Marking `ids` synced removes exactly those ids from the unsynced query. */
  lemma {:induction false} UnsyncedAfterMarking(tasks: Table, ids: set<string>, userId: string)
    ensures UnsyncedTasks(MarkedSynced(tasks, ids), userId).Keys
         == UnsyncedTasks(tasks, userId).Keys - ids
    ensures AllTasks(MarkedSynced(tasks, ids), userId).Keys == AllTasks(tasks, userId).Keys
  {
    var after := MarkedSynced(tasks, ids);
    forall k | k in UnsyncedTasks(after, userId)
      ensures k in UnsyncedTasks(tasks, userId).Keys - ids
    {
      assert after[k] == tasks[k].(synced := tasks[k].synced || k in ids);
    }
    forall k | k in UnsyncedTasks(tasks, userId).Keys - ids
      ensures k in UnsyncedTasks(after, userId)
    {
      assert after[k] == tasks[k];
    }
    forall k | k in AllTasks(tasks, userId)
      ensures k in AllTasks(after, userId)
    {
      assert after[k].userId == tasks[k].userId;
    }
  }

  /** A merge-update that clears the flag makes the record unsynced for its owner. */
  lemma {:induction false} UpdateUnsyncs(tasks: Table, id: string, patch: TaskPatch, now: Timestamp)
    requires id in tasks
    ensures var r := Updated(tasks, id, WithSyncedFlag(patch, false), now);
      id in UnsyncedTasks(r, r[id].userId)
  {
    var r := Updated(tasks, id, WithSyncedFlag(patch, false), now);
    assert r[id] == Apply(tasks[id], WithSyncedFlag(patch, false)).(updatedAt := now);
    assert !r[id].synced;
  }

  /** `deleteTask` twice is `deleteTask` once. */
  lemma DeleteIdempotent(tasks: Table, id: string)
    ensures (tasks - {id}) - {id} == tasks - {id}
  {
  }

  /** The writes keep every record under its own id. */
  lemma {:induction false} WritesKeepKeying(tasks: Table, id: string, patch: TaskPatch, now: Timestamp, ids: set<string>)
    requires KeyedById(tasks)
    ensures KeyedById(Updated(tasks, id, patch, now))
    ensures KeyedById(MarkedSynced(tasks, ids))
    ensures KeyedById(tasks - {id})
  {
    var u := Updated(tasks, id, patch, now);
    forall k | k in u ensures u[k].id == k {
      if k == id { assert u[k] == Apply(tasks[k], patch.(updatedAt := Some(now))); }
    }
    var m := MarkedSynced(tasks, ids);
    forall k | k in m ensures m[k].id == k {
      assert m[k] == tasks[k].(synced := tasks[k].synced || k in ids);
    }
  }

  function IdsOf(s: seq<Task>): set<string> {
    set t | t in s :: t.id
  }

  lemma IdsOfSnoc(s: seq<Task>, t: Task)
    ensures IdsOf(s + [t]) == IdsOf(s) + {t.id}
  {
    assert forall x :: x in s + [t] <==> x in s || x == t;
  }

  /** `s` lists the records of `m`, each exactly once, in some order. */
  predicate Lists(s: seq<Task>, m: Table) {
    && (forall i :: 0 <= i < |s| ==> s[i].id in m && m[s[i].id] == s[i])
    && (forall i, j :: 0 <= i < j < |s| ==> s[i].id != s[j].id)
    && IdsOf(s) == m.Keys
  }

  /**
   * Materialises query results as an array (`results.map(...)`). Realm's
   * result order is not part of the model, so any order is allowed.
   */
  method ToList(m: Table) returns (s: seq<Task>)
    requires KeyedById(m)
    ensures Lists(s, m)
    ensures |s| == |m|
  {
    s := [];
    var rest := m.Keys;
    assert m - rest == map[];
    while rest != {}
      invariant ListsExcept(s, m, rest)
      decreases rest
    {
      var k :| k in rest;
      ListsExceptStep(s, m, rest, k);
      s := s + [m[k]];
      rest := rest - {k};
    }
    assert m - rest == m;
  }

  /** The loop state of `ToList`: `s` lists the records whose ids are not in `rest`. */
  predicate ListsExcept(s: seq<Task>, m: Table, rest: set<string>) {
    rest <= m.Keys && Lists(s, m - rest) && |s| + |rest| == |m|
  }

  lemma {:induction false} ListsExceptStep(s: seq<Task>, m: Table, rest: set<string>, k: string)
    requires KeyedById(m) && ListsExcept(s, m, rest) && k in rest
    ensures ListsExcept(s + [m[k]], m, rest - {k})
  {
    var s', r' := s + [m[k]], rest - {k};
    assert m[k].id == k;
    IdsOfSnoc(s, m[k]);
    forall i | 0 <= i < |s'| ensures s'[i].id in m - r' && (m - r')[s'[i].id] == s'[i] {
      if i < |s| {
        assert s'[i] == s[i];
      }
    }
    forall i, j | 0 <= i < j < |s'| ensures s'[i].id != s'[j].id {
      if j == |s| {
        assert s'[i] == s[i] && s[i].id in m - rest;
      } else {
        assert s'[i] == s[i] && s'[j] == s[j];
      }
    }
    assert (m - r').Keys == (m - rest).Keys + {k};
  }


  /** The shared local table, `DatabaseService`. */
  class TaskDatabase {
    var tasks: Table

    ghost predicate Valid()
      reads this
    {
      KeyedById(tasks)
    }

    constructor ()
      ensures Valid() && tasks == map[]
    {
      tasks := map[];
    }

    /** `getAllTasks`: exactly the records of `userId`, in some order. */
    method GetAllTasks(userId: string) returns (r: seq<Task>)
      requires Valid()
      ensures Lists(r, AllTasks(tasks, userId))
    {
      r := ToList(AllTasks(tasks, userId));
    }

    /** `getUnsyncedTasks`: exactly the unsynced records of `userId`. */
    method GetUnsyncedTasks(userId: string) returns (r: seq<Task>)
      requires Valid()
      ensures Lists(r, UnsyncedTasks(tasks, userId))
      ensures |r| == |UnsyncedTasks(tasks, userId)|
    {
      r := ToList(UnsyncedTasks(tasks, userId));
    }

    /** `getTaskById`: the stored record, or null when the id is absent. */
    function GetTaskById(id: string): (r: Option<Task>)
      reads this
      ensures r.Some? <==> id in tasks
      ensures r.Some? ==> r.value == tasks[id]
    {
      if id in tasks then Some(tasks[id]) else None
    }

    /** `createTask`: inserts under the primary key; a taken key throws. */
    method CreateTask(t: Task) returns (ok: bool)
      requires Valid()
      modifies this
      ensures Valid()
      ensures ok == (t.id !in old(tasks))
      ensures tasks == if ok then old(tasks)[t.id := t] else old(tasks)
    {
      ok := t.id !in tasks;
      if ok {
        tasks := tasks[t.id := t];
      }
    }

    /** `updateTask`: merge-update with a fresh `updatedAt`; absent id is a no-op. */
    method UpdateTask(id: string, updates: TaskPatch, now: Timestamp)
      requires Valid()
      modifies this
      ensures Valid()
      ensures tasks == Updated(old(tasks), id, updates, now)
    {
      if id in tasks {
        tasks := tasks[id := Apply(tasks[id], updates).(updatedAt := now)];
      }
      WritesKeepKeying(old(tasks), id, updates, now, {});
    }

    /** `deleteTask`: removes `id` if present. */
    method DeleteTask(id: string)
      requires Valid()
      modifies this
      ensures Valid()
      ensures tasks == old(tasks) - {id}
    {
      if id in tasks {
        tasks := tasks - {id};
      }
    }

    /** `markTaskAsSynced`: sets only the flag of `id`, if present. */
    method MarkTaskAsSynced(id: string)
      requires Valid()
      modifies this
      ensures Valid()
      ensures tasks == MarkedSynced(old(tasks), {id})
    {
      if id in tasks {
        tasks := tasks[id := tasks[id].(synced := true)];
      }
      WritesKeepKeying(old(tasks), id, EmptyPatch, 0, {id});
    }

    /** `clearAllTasks`: empties the table. */
    method ClearAllTasks()
      modifies this
      ensures Valid()
      ensures tasks == map[]
    {
      tasks := map[];
    }
  }
}
