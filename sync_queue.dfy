/**
 * The retry queue of the offline sync engine (`src/services/syncService.ts`)
 * as values: its entries, `addToSyncQueue`'s replace-on-collision rule, and
 * the functions that say what `syncNow` and `processSyncQueue` leave in it.
 */
module SyncQueue {
  import opened TaskTypes
  import Database
  import opened RemoteStore
  import opened Propagation

  datatype SyncAction = CreateAction | UpdateAction | DeleteAction

  datatype QueueItem = QueueItem(taskId: string, action: SyncAction)

  /** At most one entry per task id. */
  predicate UniqueIds(q: seq<QueueItem>) {
    forall i, j :: 0 <= i < j < |q| ==> q[i].taskId != q[j].taskId
  }

  function QueueIds(q: seq<QueueItem>): set<string> {
    set x | x in q :: x.taskId
  }

  /** `queue.filter(item => !ids.has(item.taskId))`. */
  function WithoutIds(q: seq<QueueItem>, ids: set<string>): (r: seq<QueueItem>)
    ensures forall x :: x in r <==> x in q && x.taskId !in ids
    ensures |r| <= |q|
  {
    if q == [] then []
    else (if q[0].taskId in ids then [] else [q[0]]) + WithoutIds(q[1..], ids)
  }

  lemma {:induction false} WithoutIdsConcat(a: seq<QueueItem>, b: seq<QueueItem>, ids: set<string>)
    ensures WithoutIds(a + b, ids) == WithoutIds(a, ids) + WithoutIds(b, ids)
  {
    if a == [] {
      assert a + b == b;
    } else {
      var ab := a + b;
      assert ab[0] == a[0] && ab[1..] == a[1..] + b;
      WithoutIdsConcat(a[1..], b, ids);
    }
  }

  lemma {:induction false} WithoutIdsTwice(q: seq<QueueItem>, a: set<string>, b: set<string>)
    ensures WithoutIds(WithoutIds(q, a), b) == WithoutIds(q, a + b)
  {
    if q != [] {
      WithoutIdsTwice(q[1..], a, b);
      var head := if q[0].taskId in a then [] else [q[0]];
      WithoutIdsConcat(head, WithoutIds(q[1..], a), b);
      if q[0].taskId !in a {
        WithoutIdsSingle(q[0], b);
      }
    }
  }

  lemma {:induction false} WithoutIdsNoop(q: seq<QueueItem>, ids: set<string>)
    requires forall i :: 0 <= i < |q| ==> q[i].taskId !in ids
    ensures WithoutIds(q, ids) == q
  {
    if q != [] {
      assert forall i :: 0 <= i < |q[1..]| ==> q[1..][i] == q[i + 1];
      WithoutIdsNoop(q[1..], ids);
      assert q == [q[0]] + q[1..];
    }
  }

  lemma {:induction false} WithoutIdsUnique(q: seq<QueueItem>, ids: set<string>)
    requires UniqueIds(q)
    ensures UniqueIds(WithoutIds(q, ids))
  {
    if q != [] {
      WithoutIdsUnique(q[1..], ids);
      var rest := WithoutIds(q[1..], ids);
      forall x | x in rest ensures x.taskId != q[0].taskId {
        var k :| 0 <= k < |q[1..]| && q[1..][k] == x;
        assert q[k + 1] == x;
      }
    }
  }

  lemma WithoutIdsSingle(x: QueueItem, ids: set<string>)
    ensures WithoutIds([x], ids) == if x.taskId in ids then [] else [x]
  {
    assert [x][1..] == [];
  }

  /**
   * `addToSyncQueue(id, action)`: drop every entry for `id`, then append
   * the new one.
   */
  function Enqueued(q: seq<QueueItem>, id: string, action: SyncAction): (r: seq<QueueItem>)
    ensures |r| > 0 && r[|r| - 1] == QueueItem(id, action)
  {
    WithoutIds(q, {id}) + [QueueItem(id, action)]
  }

  /**
   * After `addToSyncQueue(id, action)` the only entry for `id` is the last
   * one, carrying `action`, and the other entries are as before, in the same
   * order.
   */
  lemma {:induction false} EnqueuedReplacesEntry(q: seq<QueueItem>, id: string, action: SyncAction)
    ensures var r := Enqueued(q, id, action);
      && r[|r| - 1] == QueueItem(id, action)
      && (forall i :: 0 <= i < |r| - 1 ==> r[i].taskId != id)
      && WithoutIds(r, {id}) == WithoutIds(q, {id})
  {
    var r := Enqueued(q, id, action);
    var w := WithoutIds(q, {id});
    forall i | 0 <= i < |r| - 1 ensures r[i].taskId != id {
      assert r[i] == w[i] && w[i] in w;
    }
    WithoutIdsConcat(w, [QueueItem(id, action)], {id});
    WithoutIdsTwice(q, {id}, {id});
    WithoutIdsSingle(QueueItem(id, action), {id});
    assert {id} + {id} == {id};
    assert WithoutIds(w + [QueueItem(id, action)], {id}) == w + [];
  }

  /** `addToSyncQueue` keeps "at most one entry per task id". */
  lemma {:induction false} EnqueuedKeepsUnique(q: seq<QueueItem>, id: string, action: SyncAction)
    requires UniqueIds(q)
    ensures UniqueIds(Enqueued(q, id, action))
  {
    WithoutIdsUnique(q, {id});
    EnqueuedReplacesEntry(q, id, action);
  }

  /**
   * Queue collapse: enqueuing for the same id twice is the same as enqueuing
   * only the later intent.
   */
  lemma {:induction false} EnqueuedCollapses(q: seq<QueueItem>, id: string, first: SyncAction, second: SyncAction)
    ensures Enqueued(Enqueued(q, id, first), id, second) == Enqueued(q, id, second)
  {
    var w := WithoutIds(q, {id});
    WithoutIdsConcat(w, [QueueItem(id, first)], {id});
    WithoutIdsTwice(q, {id}, {id});
    WithoutIdsSingle(QueueItem(id, first), {id});
    assert {id} + {id} == {id};
    assert WithoutIds(w + [QueueItem(id, first)], {id}) == w + [];
  }

  // ---------------------------------------------------------------------
  // What `syncNow` enqueues

  /**
   * The retry entries `syncNow` appends while it walks the unsynced records
   * `ts`: `{id, 'update'}` for each record whose propagation fails.
   */
  function FailedPushes(ts: seq<Task>, docs: map<string, Task>, failing: set<RemoteCall>): (r: seq<QueueItem>)
    ensures |r| <= |ts|
  {
    if ts == [] then []
    else
      var last := ts[|ts| - 1];
      FailedPushes(ts[..|ts| - 1], docs, failing)
        + (if PushFails(docs, failing, last.id) then [QueueItem(last.id, UpdateAction)] else [])
  }

  /** The entries are exactly the update entries of the records that fail. */
  lemma {:induction false} FailedPushesMembers(ts: seq<Task>, docs: map<string, Task>, failing: set<RemoteCall>, x: QueueItem)
    ensures x in FailedPushes(ts, docs, failing) <==>
      x.action == UpdateAction && x.taskId in Failed(Database.IdsOf(ts), docs, failing)
  {
    if ts != [] {
      var init, last := ts[..|ts| - 1], ts[|ts| - 1];
      FailedPushesMembers(init, docs, failing, x);
      assert ts == init + [last];
      Database.IdsOfSnoc(init, last);
    }
  }

  /** The queue `syncNow`'s loop builds: one `addToSyncQueue` per failure. */
  function QueueAfterPushes(q: seq<QueueItem>, ts: seq<Task>, docs: map<string, Task>, failing: set<RemoteCall>): seq<QueueItem> {
    if ts == [] then q
    else
      var last := ts[|ts| - 1];
      var before := QueueAfterPushes(q, ts[..|ts| - 1], docs, failing);
      if PushFails(docs, failing, last.id) then Enqueued(before, last.id, UpdateAction) else before
  }

  lemma QueueAfterPushesSnoc(q: seq<QueueItem>, ts: seq<Task>, t: Task, docs: map<string, Task>, failing: set<RemoteCall>)
    ensures QueueAfterPushes(q, ts + [t], docs, failing)
         == if PushFails(docs, failing, t.id) then Enqueued(QueueAfterPushes(q, ts, docs, failing), t.id, UpdateAction)
            else QueueAfterPushes(q, ts, docs, failing)
  {
    assert (ts + [t])[..|ts|] == ts;
  }

  /** One failure appended to the closed form of the queue. */
  lemma {:induction false} QueueAfterFailure(q: seq<QueueItem>, failed: set<string>, fp: seq<QueueItem>, id: string)
    requires forall x :: x in fp ==> x.taskId != id
    ensures Enqueued(WithoutIds(q, failed) + fp, id, UpdateAction)
         == WithoutIds(q, failed + {id}) + (fp + [QueueItem(id, UpdateAction)])
  {
    WithoutIdsConcat(WithoutIds(q, failed), fp, {id});
    WithoutIdsTwice(q, failed, {id});
    WithoutIdsNoop(fp, {id});
  }

  /**
   * The queue `syncNow` leaves, in closed form: the old entries of the
   * records that failed are replaced, and one `update` entry per failed
   * record is appended in listing order.
   */
  lemma {:induction false} QueueAfterPushesClosed(q: seq<QueueItem>, ts: seq<Task>, docs: map<string, Task>, failing: set<RemoteCall>)
    requires forall i, j :: 0 <= i < j < |ts| ==> ts[i].id != ts[j].id
    ensures QueueAfterPushes(q, ts, docs, failing)
         == WithoutIds(q, Failed(Database.IdsOf(ts), docs, failing)) + FailedPushes(ts, docs, failing)
  {
    if ts == [] {
      WithoutIdsNoop(q, {});
      assert Failed(Database.IdsOf(ts), docs, failing) == {};
      assert q + [] == q;
    } else {
      var init, t := ts[..|ts| - 1], ts[|ts| - 1];
      QueueAfterPushesClosed(q, init, docs, failing);
      LastIdIsNew(ts);
      assert ts == init + [t];
      ClosedFormStep(q, init, t, docs, failing);
    }
  }

  /** The closed form of the queue, extended by one record new to the prefix. */
  lemma {:induction false} ClosedFormStep(q: seq<QueueItem>, init: seq<Task>, t: Task, docs: map<string, Task>, failing: set<RemoteCall>)
    requires t.id !in Database.IdsOf(init)
    requires QueueAfterPushes(q, init, docs, failing)
          == WithoutIds(q, Failed(Database.IdsOf(init), docs, failing)) + FailedPushes(init, docs, failing)
    ensures QueueAfterPushes(q, init + [t], docs, failing)
         == WithoutIds(q, Failed(Database.IdsOf(init + [t]), docs, failing)) + FailedPushes(init + [t], docs, failing)
  {
    var ts := init + [t];
    assert ts[..|ts| - 1] == init && ts[|ts| - 1] == t;
    Database.IdsOfSnoc(init, t);
    var failed := Failed(Database.IdsOf(init), docs, failing);
    var fp := FailedPushes(init, docs, failing);
    if PushFails(docs, failing, t.id) {
      assert Failed(Database.IdsOf(ts), docs, failing) == failed + {t.id};
      forall x | x in fp ensures x.taskId != t.id {
        FailedPushesMembers(init, docs, failing, x);
      }
      QueueAfterFailure(q, failed, fp, t.id);
    } else {
      assert Failed(Database.IdsOf(ts), docs, failing) == failed;
      assert fp + [] == fp;
    }
  }

  // ---------------------------------------------------------------------
  // What `processSyncQueue` does with a snapshot of the queue

  /**
   * Retrying `item` fails: a delete whose remote call throws, or an update
   * of a record that still exists locally whose propagation throws. An
   * update of a record no longer stored locally is dropped silently.
   */
  predicate ItemFails(local: Database.Table, docs: map<string, Task>, failing: set<RemoteCall>, item: QueueItem) {
    if item.action == DeleteAction then DeleteCall(item.taskId) in failing
    else item.taskId in local && PushFails(docs, failing, item.taskId)
  }

  /** The entries of `items` whose retry fails, in order. */
  function FailedItems(items: seq<QueueItem>, local: Database.Table, docs: map<string, Task>, failing: set<RemoteCall>): (r: seq<QueueItem>)
    ensures |r| <= |items|
  {
    if items == [] then []
    else
      var last := items[|items| - 1];
      FailedItems(items[..|items| - 1], local, docs, failing)
        + (if ItemFails(local, docs, failing, last) then [last] else [])
  }

  /** The ids whose update entry propagates the local record. */
  function PushedIds(items: seq<QueueItem>, local: Database.Table, docs: map<string, Task>, failing: set<RemoteCall>): (r: set<string>)
    ensures r <= local.Keys
    ensures r <= QueueIds(items)
  {
    if items == [] then {}
    else
      var init, last := items[..|items| - 1], items[|items| - 1];
      assert items == init + [last];
      assert forall x :: x in init ==> x in items;
      PushedIds(init, local, docs, failing)
        + (if last.action != DeleteAction && last.taskId in local && !PushFails(docs, failing, last.taskId)
           then {last.taskId} else {})
  }

  /** The ids whose delete entry reaches the remote store. */
  function DeletedIds(items: seq<QueueItem>, failing: set<RemoteCall>): (r: set<string>)
    ensures r <= QueueIds(items)
  {
    if items == [] then {}
    else
      var init, last := items[..|items| - 1], items[|items| - 1];
      assert items == init + [last];
      assert forall x :: x in init ==> x in items;
      DeletedIds(init, failing)
        + (if last.action == DeleteAction && DeleteCall(last.taskId) !in failing then {last.taskId} else {})
  }

  lemma ProcessedSnoc(items: seq<QueueItem>, x: QueueItem, local: Database.Table, docs: map<string, Task>, failing: set<RemoteCall>)
    ensures FailedItems(items + [x], local, docs, failing)
         == FailedItems(items, local, docs, failing) + (if ItemFails(local, docs, failing, x) then [x] else [])
    ensures PushedIds(items + [x], local, docs, failing)
         == PushedIds(items, local, docs, failing)
            + (if x.action != DeleteAction && x.taskId in local && !PushFails(docs, failing, x.taskId) then {x.taskId} else {})
    ensures DeletedIds(items + [x], failing)
         == DeletedIds(items, failing) + (if x.action == DeleteAction && DeleteCall(x.taskId) !in failing then {x.taskId} else {})
  {
    assert (items + [x])[..|items|] == items;
  }

  /** The next entry of a queue with distinct ids is new to the entries before it. */
  lemma {:induction false} NextEntryIsNew(done: seq<QueueItem>, rest: seq<QueueItem>)
    requires UniqueIds(done + rest) && rest != []
    ensures rest[0].taskId !in QueueIds(done)
    ensures (done + [rest[0]]) + rest[1..] == done + rest
  {
    var q := done + rest;
    assert q[|done|] == rest[0];
    forall x | x in done ensures x.taskId != rest[0].taskId {
      var j :| 0 <= j < |done| && done[j] == x;
      assert q[j] == x;
    }
    assert rest == [rest[0]] + rest[1..];
  }

  /** After a retry pass the queue holds exactly the entries that failed. */
  lemma {:induction false} FailedItemsMembers(items: seq<QueueItem>, local: Database.Table, docs: map<string, Task>, failing: set<RemoteCall>, x: QueueItem)
    ensures x in FailedItems(items, local, docs, failing) <==> x in items && ItemFails(local, docs, failing, x)
  {
    if items != [] {
      var init, last := items[..|items| - 1], items[|items| - 1];
      FailedItemsMembers(init, local, docs, failing, x);
      assert items == init + [last];
    }
  }

  lemma {:induction false} FailedItemsIds(items: seq<QueueItem>, local: Database.Table, docs: map<string, Task>, failing: set<RemoteCall>)
    ensures QueueIds(FailedItems(items, local, docs, failing)) <= QueueIds(items)
  {
    forall x | x in FailedItems(items, local, docs, failing) ensures x in items {
      FailedItemsMembers(items, local, docs, failing, x);
    }
  }

  /** The entries left after a retry pass still have distinct ids. */
  lemma {:induction false} FailedItemsUnique(items: seq<QueueItem>, local: Database.Table, docs: map<string, Task>, failing: set<RemoteCall>)
    requires UniqueIds(items)
    ensures UniqueIds(FailedItems(items, local, docs, failing))
  {
    if items != [] {
      var init, last := items[..|items| - 1], items[|items| - 1];
      assert UniqueIds(init);
      FailedItemsUnique(init, local, docs, failing);
      var r := FailedItems(init, local, docs, failing);
      forall x | x in r ensures x.taskId != last.taskId {
        FailedItemsMembers(init, local, docs, failing, x);
        var k :| 0 <= k < |init| && init[k] == x;
        assert items[k] == x;
      }
    }
  }

  /**
   * An update entry for a record that no longer exists locally is dropped:
   * it is not re-queued, and it neither writes nor deletes a document.
   */
  lemma {:induction false} OrphanUpdateDropped(items: seq<QueueItem>, local: Database.Table, docs: map<string, Task>, failing: set<RemoteCall>, x: QueueItem)
    requires UniqueIds(items)
    requires x in items && x.action != DeleteAction && x.taskId !in local
    ensures x !in FailedItems(items, local, docs, failing)
    ensures x.taskId !in PushedIds(items, local, docs, failing)
    ensures x.taskId !in DeletedIds(items, failing)
  {
    FailedItemsMembers(items, local, docs, failing, x);
    DeletedNeedsDeleteEntry(items, failing, x);
  }

  lemma {:induction false} DeletedNeedsDeleteEntry(items: seq<QueueItem>, failing: set<RemoteCall>, x: QueueItem)
    requires UniqueIds(items)
    requires x in items && x.action != DeleteAction
    ensures x.taskId !in DeletedIds(items, failing)
  {
    var init, last := items[..|items| - 1], items[|items| - 1];
    assert items == init + [last];
    if x == last {
      forall y | y in init ensures y.taskId != x.taskId {
        var k :| 0 <= k < |init| && init[k] == y;
        assert items[k] == y;
      }
      assert x.taskId !in QueueIds(init);
    } else {
      assert x in init;
      var k :| 0 <= k < |init| && init[k] == x;
      assert items[k] == x;
      assert last.taskId != x.taskId;
      DeletedNeedsDeleteEntry(init, failing, x);
    }
  }
}
