/**
 * The offline sync engine of `src/services/syncService.ts`: a retry queue,
 * a busy flag and an auto-sync timer over the shared local table and the
 * remote store. Connectivity is the boolean `online`; the status the engine
 * dispatches to the task slice is the field `status`.
 */
module SyncEngine {
  import opened TaskTypes
  import opened Database
  import opened RemoteStore
  import opened SyncQueue
  import opened Propagation

  /** The default auto-sync period, in milliseconds. */
  const SYNC_INTERVAL: nat := 30000

  /** A running auto-sync interval, `syncInterval`. */
  datatype AutoSync = AutoSync(handle: nat, userId: string, intervalMs: nat)

  /** The value of `getSyncQueueStatus()`. */
  datatype QueueStatus = QueueStatus(count: nat, isSyncing: bool, items: seq<QueueItem>)

  // ---------------------------------------------------------------------
  // Step lemmas for the loops

  /** The loop's prefix folds, once the whole listing of `u` is walked. */
  lemma {:induction false} SyncNowDone(ts: seq<Task>, u: Table, docs: map<string, Task>, failing: set<RemoteCall>, q0: seq<QueueItem>)
    requires Lists(ts, u)
    ensures ts[..|ts|] == ts
    ensures SyncedIds(ts, docs, failing) == Succeeded(u.Keys, docs, failing)
    ensures QueueAfterPushes(q0, ts, docs, failing)
         == WithoutIds(q0, Failed(u.Keys, docs, failing)) + FailedPushes(ts, docs, failing)
  {
    assert ts[..|ts|] == ts;
    SyncedIdsAreSucceeded(ts, docs, failing);
    QueueAfterPushesClosed(q0, ts, docs, failing);
  }

  /**
   * What `syncNow` leaves unsynced is exactly what it enqueued: every record
   * of the user still unsynced afterwards has an `update` entry in the new
   * queue, and every entry added is for such a record.
   */
  lemma {:induction false} SyncNowQueuesTheFailures(local: Table, docs: map<string, Task>, failing: set<RemoteCall>,
                                                     userId: string, ts: seq<Task>, q: seq<QueueItem>)
    requires Lists(ts, UnsyncedTasks(local, userId))
    ensures var u := UnsyncedTasks(local, userId).Keys;
      var after := MarkedSynced(local, Succeeded(u, docs, failing));
      var q' := WithoutIds(q, Failed(u, docs, failing)) + FailedPushes(ts, docs, failing);
      && (forall id :: id in UnsyncedTasks(after, userId) <==> id in Failed(u, docs, failing))
      && (forall id :: id in UnsyncedTasks(after, userId) ==> QueueItem(id, UpdateAction) in q')
      && (forall x :: x in q' ==> x in q || (x.action == UpdateAction && x.taskId in UnsyncedTasks(after, userId)))
  {
    var u := UnsyncedTasks(local, userId).Keys;
    var after := MarkedSynced(local, Succeeded(u, docs, failing));
    var q' := WithoutIds(q, Failed(u, docs, failing)) + FailedPushes(ts, docs, failing);
    UnsyncedAfterMarking(local, Succeeded(u, docs, failing), userId);
    forall id | id in UnsyncedTasks(after, userId) ensures QueueItem(id, UpdateAction) in q' {
      FailedPushesMembers(ts, docs, failing, QueueItem(id, UpdateAction));
    }
    forall x | x in q' && x !in q
      ensures x.action == UpdateAction && x.taskId in UnsyncedTasks(after, userId)
    {
      FailedPushesMembers(ts, docs, failing, x);
    }
  }

  /**
   * A run in which every propagation succeeds converges: nothing of the user
   * stays unsynced, and the synced-flag invariant is kept.
   */
  lemma {:induction false} CleanSyncConverges(local: Table, docs: map<string, Task>, failing: set<RemoteCall>, userId: string)
    requires Consistent(local, docs)
    requires forall id :: id in UnsyncedTasks(local, userId) ==> !PushFails(docs, failing, id)
    ensures var ok := Succeeded(UnsyncedTasks(local, userId).Keys, docs, failing);
      && UnsyncedTasks(MarkedSynced(local, ok), userId) == map[]
      && Consistent(MarkedSynced(local, ok), Pushed(docs, local, ok))
  {
    var u := UnsyncedTasks(local, userId).Keys;
    var ok := Succeeded(u, docs, failing);
    assert ok == u;
    UnsyncedAfterMarking(local, ok, userId);
    PushKeepsConsistent(local, docs, ok);
  }

  /**
   * One step of `processSyncQueue`'s loop: if the state after the entries
   * `done` is in closed form, so is the state one `RetryOne(item)` later.
   * The entry's id is new, so the record and the document it reads are
   * still the ones the pass started from.
   */
  lemma {:induction false} ProcessStep(done: seq<QueueItem>, item: QueueItem, local: Table, docs: map<string, Task>,
                                       failing: set<RemoteCall>, pushed: set<string>, deleted: set<string>, failed: bool,
                                       pushed': set<string>, deleted': set<string>, local': Table, docs': map<string, Task>)
    requires item.taskId !in QueueIds(done)
    requires pushed == PushedIds(done, local, docs, failing) && deleted == DeletedIds(done, failing)
    requires failed == ItemFails(MarkedSynced(local, pushed), Pushed(docs, local, pushed) - deleted, failing, item)
    requires pushed' == if item.action != DeleteAction && item.taskId in local && !failed then pushed + {item.taskId} else pushed
    requires deleted' == if item.action == DeleteAction && !failed then deleted + {item.taskId} else deleted
    requires local' == if item.action != DeleteAction && item.taskId in local && !failed
                       then MarkedSynced(MarkedSynced(local, pushed), {item.taskId}) else MarkedSynced(local, pushed)
    requires docs' == if failed then Pushed(docs, local, pushed) - deleted
                      else if item.action == DeleteAction then (Pushed(docs, local, pushed) - deleted) - {item.taskId}
                      else if item.taskId in local then (Pushed(docs, local, pushed) - deleted)[item.taskId := local[item.taskId]]
                      else Pushed(docs, local, pushed) - deleted
    ensures failed == ItemFails(local, docs, failing, item)
    ensures pushed' == PushedIds(done + [item], local, docs, failing)
    ensures deleted' == DeletedIds(done + [item], failing)
    ensures local' == MarkedSynced(local, pushed')
    ensures docs' == Pushed(docs, local, pushed') - deleted'
  {
    var id := item.taskId;
    ProcessedSnoc(done, item, local, docs, failing);
    assert id !in pushed && id !in deleted;
    assert (id in Pushed(docs, local, pushed) - deleted) == (id in docs);
    if !failed {
      if item.action == DeleteAction {
        DeleteGoneStep(Pushed(docs, local, pushed), deleted, id);
      } else if id in local {
        MarkStep(local, pushed, id);
        PushGoneStep(docs, local, pushed, deleted, id);
      }
    }
  }

  lemma DeleteGoneStep(m: map<string, Task>, gone: set<string>, id: string)
    ensures (m - gone) - {id} == m - (gone + {id})
  {
  }

  lemma UniqueSnoc(q: seq<QueueItem>, x: QueueItem)
    requires UniqueIds(q) && x.taskId !in QueueIds(q)
    ensures UniqueIds(q + [x])
    ensures QueueIds(q + [x]) == QueueIds(q) + {x.taskId}
  {
    var r := q + [x];
    forall i | 0 <= i < |q| ensures r[i].taskId != x.taskId {
      assert r[i] == q[i] && q[i] in q;
    }
    assert forall y :: y in r <==> y in q || y == x;
  }

  /** The engine's module state, `syncQueue`, `isSyncing` and `syncInterval`. */
  class SyncService {
    const db: TaskDatabase
    const server: RemoteTaskStore
    var queue: seq<QueueItem>
    var isSyncing: bool
    var status: SyncStatus
    /** The connectivity NetInfo reports (`isConnected && isInternetReachable`). */
    var online: bool
    var timer: Option<AutoSync>
    var nextHandle: nat
    /** The intervals the runtime still fires. */
    ghost var live: set<nat>

    ghost predicate Valid()
      reads this`queue, this`live, this`timer, this`nextHandle, db, server
    {
      && db.Valid() && server.Valid()
      && UniqueIds(queue)
      && live == (if timer.Some? then {timer.value.handle} else {})
      && (timer.Some? ==> timer.value.handle < nextHandle)
    }

    constructor (db: TaskDatabase, server: RemoteTaskStore, online: bool)
      requires db.Valid() && server.Valid()
      ensures Valid()
      ensures this.db == db && this.server == server && this.online == online
      ensures queue == [] && !isSyncing && status == Idle && timer == None
    {
      this.db := db;
      this.server := server;
      this.online := online;
      queue := [];
      isSyncing := false;
      status := Idle;
      timer := None;
      nextHandle := 0;
      live := {};
    }

    /** `getSyncQueueStatus`. */
    function GetSyncQueueStatus(): (r: QueueStatus)
      reads this
      ensures r.count == |r.items|
      ensures r.items == queue && r.isSyncing == isSyncing
    {
      QueueStatus(|queue|, isSyncing, queue)
    }

    /** `isOnline`. */
    function IsOnline(): bool
      reads this
    {
      online
    }

    /** `addToSyncQueue`: replace any entry for `taskId` by one at the end. */
    method AddToSyncQueue(taskId: string, action: SyncAction)
      requires Valid()
      modifies this`queue
      ensures Valid()
      ensures queue == Enqueued(old(queue), taskId, action)
    {
      EnqueuedKeepsUnique(queue, taskId, action);
      queue := WithoutIds(queue, {taskId}) + [QueueItem(taskId, action)];
    }

    /**
     * `startAutoSync(userId)` with the period left out: the default argument
     * `intervalMs = 30000` is `SYNC_INTERVAL`.
     */
    method StartDefaultAutoSync(userId: string)
      requires Valid()
      modifies this`timer, this`nextHandle, this`live
      ensures Valid()
      ensures timer == Some(AutoSync(old(nextHandle), userId, SYNC_INTERVAL))
      ensures live == {old(nextHandle)}
    {
      StartAutoSync(userId, SYNC_INTERVAL);
    }

    /** `startAutoSync`: clears the running interval, if any, then starts one. */
    method StartAutoSync(userId: string, intervalMs: nat)
      requires Valid()
      modifies this`timer, this`nextHandle, this`live
      ensures Valid()
      ensures timer == Some(AutoSync(old(nextHandle), userId, intervalMs))
      ensures live == {old(nextHandle)}
      ensures old(timer).Some? ==> old(timer).value.handle !in live
    {
      if timer.Some? {
        live := live - {timer.value.handle};
      }
      var h := nextHandle;
      nextHandle := nextHandle + 1;
      live := live + {h};
      timer := Some(AutoSync(h, userId, intervalMs));
    }

    /** `stopAutoSync`: clears the interval; a no-op when none runs. */
    method StopAutoSync()
      requires Valid()
      modifies this`timer, this`live
      ensures Valid()
      ensures timer == None && live == {}
      ensures old(timer).None? ==> live == old(live)
    {
      if timer.Some? {
        live := live - {timer.value.handle};
        timer := None;
      }
    }

    /**
     * `syncNow`: pushes every unsynced record of `userId`, in the order the
     * store lists them (`processed`). `readFails` is the local read throwing.
     */
    method SyncNow(userId: string, readFails: bool) returns (ghost processed: seq<Task>)
      requires Valid()
      modifies this`queue, this`isSyncing, this`status, db, server`docs
      ensures Valid()
      ensures isSyncing == old(isSyncing)
      ensures old(isSyncing) ==>
        queue == old(queue) && status == old(status) && db.tasks == old(db.tasks) && server.docs == old(server.docs)
      ensures !old(isSyncing) && readFails ==>
        queue == old(queue) && status == Error && db.tasks == old(db.tasks) && server.docs == old(server.docs)
      ensures !old(isSyncing) && !readFails ==>
        var u := UnsyncedTasks(old(db.tasks), userId);
        var ok := Succeeded(u.Keys, old(server.docs), server.failing);
        && Lists(processed, u)
        && status == Synced
        && db.tasks == MarkedSynced(old(db.tasks), ok)
        && server.docs == Pushed(old(server.docs), old(db.tasks), ok)
        && queue == WithoutIds(old(queue), Failed(u.Keys, old(server.docs), server.failing))
                    + FailedPushes(processed, old(server.docs), server.failing)
      ensures !old(isSyncing) && Consistent(old(db.tasks), old(server.docs)) ==>
        Consistent(db.tasks, server.docs)
    {
      processed := [];
      if isSyncing {
        return;
      }
      isSyncing := true;
      status := Syncing;
      if readFails {
        status := Error;
        isSyncing := false;
        return;
      }
      processed := PushUnsynced(userId);
      status := Synced;
      isSyncing := false;
    }

    /**
     * One iteration of `syncNow`'s loop: push the record; mark it synced on
     * success, enqueue `{id, 'update'}` on failure.
     */
    method SyncOne(t: Task) returns (pushed: bool)
      requires Valid()
      modifies this`queue, db, server`docs
      ensures Valid()
      ensures pushed == !PushFails(old(server.docs), server.failing, t.id)
      ensures db.tasks == if pushed then MarkedSynced(old(db.tasks), {t.id}) else old(db.tasks)
      ensures server.docs == if pushed then old(server.docs)[t.id := t] else old(server.docs)
      ensures queue == if pushed then old(queue) else Enqueued(old(queue), t.id, UpdateAction)
    {
      pushed := server.Push(t);
      if pushed {
        db.MarkTaskAsSynced(t.id);
      } else {
        AddToSyncQueue(t.id, UpdateAction);
      }
    }

    /** The body of `syncNow` once the busy flag is set and the read succeeds. */
    method PushUnsynced(userId: string) returns (ghost processed: seq<Task>)
      requires Valid()
      modifies this`queue, db, server`docs
      ensures Valid()
      ensures var u := UnsyncedTasks(old(db.tasks), userId);
        var ok := Succeeded(u.Keys, old(server.docs), server.failing);
        && Lists(processed, u)
        && db.tasks == MarkedSynced(old(db.tasks), ok)
        && server.docs == Pushed(old(server.docs), old(db.tasks), ok)
        && queue == WithoutIds(old(queue), Failed(u.Keys, old(server.docs), server.failing))
                    + FailedPushes(processed, old(server.docs), server.failing)
        && (Consistent(old(db.tasks), old(server.docs)) ==> Consistent(db.tasks, server.docs))
    {
      var ts := db.GetUnsyncedTasks(userId);
      processed := ts;
      ghost var local0, docs0, q0 := db.tasks, server.docs, queue;
      ghost var u := UnsyncedTasks(local0, userId);
      ghost var ok := PushAll(ts, u);
      SyncNowDone(ts, u, docs0, server.failing, q0);
      if Consistent(local0, docs0) {
        PushKeepsConsistent(local0, docs0, ok);
      }
    }

    /**
     * `syncNow`'s loop over the listing `ts` of the records `u`: the records
     * pushed successfully are marked synced, a failure enqueues an update.
     */
    method PushAll(ts: seq<Task>, ghost u: Table) returns (ghost ok: set<string>)
      requires Valid()
      requires Lists(ts, u)
      requires forall id :: id in u ==> id in db.tasks && db.tasks[id] == u[id]
      modifies this`queue, db, server`docs
      ensures Valid()
      ensures ok == SyncedIds(ts, old(server.docs), server.failing) && ok <= old(db.tasks).Keys
      ensures db.tasks == MarkedSynced(old(db.tasks), ok)
      ensures server.docs == Pushed(old(server.docs), old(db.tasks), ok)
      ensures queue == QueueAfterPushes(old(queue), ts, old(server.docs), server.failing)
    {
      ghost var local0, docs0, q0 := db.tasks, server.docs, queue;
      ok := {};
      ghost var done: seq<Task> := [];
      var rest := ts;
      MarkNone(local0);
      PushNone(docs0, local0);
      while rest != []
        invariant Valid()
        invariant done + rest == ts
        invariant ok == SyncedIds(done, docs0, server.failing) && ok <= local0.Keys
        invariant db.tasks == MarkedSynced(local0, ok)
        invariant server.docs == Pushed(docs0, local0, ok)
        invariant queue == QueueAfterPushes(q0, done, docs0, server.failing)
        decreases |rest|
      {
        var t := rest[0];
        ListingStep(done, rest, u, local0);
        var pushed := SyncOne(t);
        ghost var ok' := if pushed then ok + {t.id} else ok;
        PushMarkStep(done, t, local0, docs0, server.failing, ok, pushed, ok', db.tasks, server.docs);
        QueueAfterPushesSnoc(q0, done, t, docs0, server.failing);
        ok, done := ok', done + [t];
        rest := rest[1..];
      }
      assert done == ts;
    }

    /**
     * `processSyncQueue`: retries a snapshot of the queue once; the failed
     * entries are pushed back in order.
     */
    method ProcessSyncQueue()
      requires Valid()
      modifies this`queue, this`isSyncing, db, server`docs
      ensures Valid()
      ensures isSyncing == old(isSyncing)
      ensures old(isSyncing) || old(queue) == [] || !online ==>
        queue == old(queue) && db.tasks == old(db.tasks) && server.docs == old(server.docs)
      ensures !(old(isSyncing) || old(queue) == [] || !online) ==>
        var pushed := PushedIds(old(queue), old(db.tasks), old(server.docs), server.failing);
        && queue == FailedItems(old(queue), old(db.tasks), old(server.docs), server.failing)
        && db.tasks == MarkedSynced(old(db.tasks), pushed)
        && server.docs == Pushed(old(server.docs), old(db.tasks), pushed) - DeletedIds(old(queue), server.failing)
    {
      if isSyncing || |queue| == 0 {
        return;
      }
      if !online {
        return;
      }
      isSyncing := true;
      var snapshot := queue;
      queue := [];
      RetryAll(snapshot);
      isSyncing := false;
    }

    /**
     * `processSyncQueue`'s loop over the snapshot `items` of the queue, which
     * was emptied: every entry that fails is pushed back, in order.
     */
    method RetryAll(items: seq<QueueItem>)
      requires Valid() && UniqueIds(items) && queue == []
      modifies this`queue, db, server`docs
      ensures Valid()
      ensures var pushed := PushedIds(items, old(db.tasks), old(server.docs), server.failing);
        && queue == FailedItems(items, old(db.tasks), old(server.docs), server.failing)
        && db.tasks == MarkedSynced(old(db.tasks), pushed)
        && server.docs == Pushed(old(server.docs), old(db.tasks), pushed) - DeletedIds(items, server.failing)
    {
      ghost var local0, docs0 := db.tasks, server.docs;
      ghost var pushedIds: set<string> := {};
      ghost var deletedIds: set<string> := {};
      ghost var done: seq<QueueItem> := [];
      var rest := items;
      MarkNone(local0);
      PushNone(docs0, local0);
      while rest != []
        invariant Valid()
        invariant done + rest == items
        invariant pushedIds == PushedIds(done, local0, docs0, server.failing)
        invariant deletedIds == DeletedIds(done, server.failing)
        invariant queue == FailedItems(done, local0, docs0, server.failing)
        invariant db.tasks == MarkedSynced(local0, pushedIds)
        invariant server.docs == Pushed(docs0, local0, pushedIds) - deletedIds
        decreases |rest|
      {
        var item := rest[0];
        NextEntryIsNew(done, rest);
        var failed := RetryOne(item);
        ghost var pushed' := if item.action != DeleteAction && item.taskId in local0 && !failed
                             then pushedIds + {item.taskId} else pushedIds;
        ghost var deleted' := if item.action == DeleteAction && !failed then deletedIds + {item.taskId} else deletedIds;
        ProcessStep(done, item, local0, docs0, server.failing, pushedIds, deletedIds, failed,
                    pushed', deleted', db.tasks, server.docs);
        if failed {
          FailedItemsIds(done, local0, docs0, server.failing);
          Requeue(item);
        }
        pushedIds, deletedIds, done := pushed', deleted', done + [item];
        rest := rest[1..];
      }
      assert done == items;
    }

    /** `syncQueue.push(item)` for an entry whose id the queue does not hold. */
    method Requeue(item: QueueItem)
      requires Valid() && item.taskId !in QueueIds(queue)
      modifies this`queue
      ensures Valid()
      ensures queue == old(queue) + [item]
    {
      UniqueSnoc(queue, item);
      queue := queue + [item];
    }

    /**
     * One iteration of `processSyncQueue`'s loop: a delete entry deletes the
     * document; an update entry pushes the local record, if it still exists,
     * and marks it synced. `failed` is the call throwing.
     */
    method RetryOne(item: QueueItem) returns (failed: bool)
      requires Valid()
      modifies db, server`docs
      ensures Valid()
      ensures failed == ItemFails(old(db.tasks), old(server.docs), server.failing, item)
      ensures db.tasks == if item.action != DeleteAction && item.taskId in old(db.tasks) && !failed
                          then MarkedSynced(old(db.tasks), {item.taskId}) else old(db.tasks)
      ensures server.docs == if failed then old(server.docs)
                             else if item.action == DeleteAction then old(server.docs) - {item.taskId}
                             else if item.taskId in old(db.tasks) then old(server.docs)[item.taskId := old(db.tasks)[item.taskId]]
                             else old(server.docs)
    {
      failed := false;
      if item.action == DeleteAction {
        var ok := server.DeleteTask(item.taskId);
        failed := !ok;
      } else {
        var task := db.GetTaskById(item.taskId);
        if task.Some? {
          var pushed := server.Push(task.value);
          if pushed {
            db.MarkTaskAsSynced(item.taskId);
          }
          failed := !pushed;
        }
      }
    }

    /**
     * `syncTask`: clears the local flag (a merge-update, so `updatedAt`
     * becomes `now`), then pushes the caller's copy or enqueues an update.
     * It always answers true.
     */
    method SyncTask(task: Task, now: Timestamp) returns (r: bool)
      requires Valid()
      modifies this`queue, db, server`docs
      ensures Valid()
      ensures r
      ensures var local1 := Updated(old(db.tasks), task.id, WithSyncedFlag(EmptyPatch, false), now);
        if !online || PushFails(old(server.docs), server.failing, task.id) then
          && db.tasks == local1
          && server.docs == old(server.docs)
          && queue == Enqueued(old(queue), task.id, UpdateAction)
        else
          && db.tasks == MarkedSynced(local1, {task.id})
          && server.docs == old(server.docs)[task.id := task]
          && queue == old(queue)
      ensures task.id in db.tasks && !db.tasks[task.id].synced ==> QueueItem(task.id, UpdateAction) in queue
    {
      db.UpdateTask(task.id, WithSyncedFlag(EmptyPatch, false), now);
      if !online {
        AddToSyncQueue(task.id, UpdateAction);
        return true;
      }
      var pushed := server.Push(task);
      if pushed {
        db.MarkTaskAsSynced(task.id);
      } else {
        AddToSyncQueue(task.id, UpdateAction);
      }
      return true;
    }

    /** `deleteTask`: removes the remote document, or enqueues a delete. */
    method DeleteTask(taskId: string)
      requires Valid()
      modifies this`queue, server`docs
      ensures Valid()
      ensures if online && DeleteCall(taskId) !in server.failing then
          server.docs == old(server.docs) - {taskId} && queue == old(queue)
        else
          server.docs == old(server.docs) && queue == Enqueued(old(queue), taskId, DeleteAction)
    {
      if !online {
        AddToSyncQueue(taskId, DeleteAction);
        return;
      }
      var ok := server.DeleteTask(taskId);
      if !ok {
        AddToSyncQueue(taskId, DeleteAction);
      }
    }

    /**
     * The listener `initialize` installs: on a connectivity change, retry the
     * queue when online, otherwise report `idle`.
     */
    method OnInitialNetworkChange(isConnected: bool, isInternetReachable: bool)
      requires Valid()
      modifies this`online, this`queue, this`isSyncing, this`status, db, server`docs
      ensures Valid()
      ensures online == (isConnected && isInternetReachable)
      ensures isSyncing == old(isSyncing)
      ensures !online ==>
        status == Idle && queue == old(queue) && db.tasks == old(db.tasks) && server.docs == old(server.docs)
      ensures online ==> status == old(status)
      ensures online && (old(isSyncing) || old(queue) == []) ==>
        queue == old(queue) && db.tasks == old(db.tasks) && server.docs == old(server.docs)
      ensures online && !old(isSyncing) && old(queue) != [] ==>
        var pushed := PushedIds(old(queue), old(db.tasks), old(server.docs), server.failing);
        && queue == FailedItems(old(queue), old(db.tasks), old(server.docs), server.failing)
        && db.tasks == MarkedSynced(old(db.tasks), pushed)
        && server.docs == Pushed(old(server.docs), old(db.tasks), pushed) - DeletedIds(old(queue), server.failing)
    {
      online := isConnected && isInternetReachable;
      if online {
        ProcessSyncQueue();
      } else {
        status := Idle;
      }
    }

    /**
     * The listener `setupNetworkListener(userId)` installs: when online,
     * retry the queue and then sync `userId`'s records, otherwise report
     * `idle`. The two calls are taken to run one after the other;
     * `local1`, `docs1` and `q1` are the state between them, and
     * `processed` is `syncNow`'s listing.
     */
    method OnNetworkChange(userId: string, isConnected: bool, isInternetReachable: bool, readFails: bool)
      returns (ghost local1: Table, ghost docs1: map<string, Task>, ghost q1: seq<QueueItem>, ghost processed: seq<Task>)
      requires Valid()
      modifies this`online, this`queue, this`isSyncing, this`status, db, server`docs
      ensures Valid()
      ensures online == (isConnected && isInternetReachable)
      ensures isSyncing == old(isSyncing)
      ensures !online ==>
        status == Idle && queue == old(queue) && db.tasks == old(db.tasks) && server.docs == old(server.docs)
      // processSyncQueue, from the old state to the state between the calls
      ensures online && (old(isSyncing) || old(queue) == []) ==>
        q1 == old(queue) && local1 == old(db.tasks) && docs1 == old(server.docs)
      ensures online && !old(isSyncing) && old(queue) != [] ==>
        var pushed := PushedIds(old(queue), old(db.tasks), old(server.docs), server.failing);
        && q1 == FailedItems(old(queue), old(db.tasks), old(server.docs), server.failing)
        && local1 == MarkedSynced(old(db.tasks), pushed)
        && docs1 == Pushed(old(server.docs), old(db.tasks), pushed) - DeletedIds(old(queue), server.failing)
      // syncNow, from the state between the calls to the new state
      ensures online && old(isSyncing) ==>
        queue == q1 && status == old(status) && db.tasks == local1 && server.docs == docs1
      ensures online && !old(isSyncing) && readFails ==>
        queue == q1 && status == Error && db.tasks == local1 && server.docs == docs1
      ensures online && !old(isSyncing) && !readFails ==>
        var u := UnsyncedTasks(local1, userId);
        var ok := Succeeded(u.Keys, docs1, server.failing);
        && Lists(processed, u)
        && status == Synced
        && db.tasks == MarkedSynced(local1, ok)
        && server.docs == Pushed(docs1, local1, ok)
        && queue == WithoutIds(q1, Failed(u.Keys, docs1, server.failing))
                    + FailedPushes(processed, docs1, server.failing)
      ensures online && !old(isSyncing) && !readFails ==>
        forall id :: id in UnsyncedTasks(db.tasks, userId) ==> QueueItem(id, UpdateAction) in queue
    {
      online := isConnected && isInternetReachable;
      if online {
        ProcessSyncQueue();
        local1, docs1, q1 := db.tasks, server.docs, queue;
        processed := SyncNow(userId, readFails);
        if !isSyncing && !readFails {
          SyncNowQueuesTheFailures(local1, docs1, server.failing, userId, processed, q1);
        }
      } else {
        local1, docs1, q1, processed := db.tasks, server.docs, queue, [];
        status := Idle;
      }
    }

    /**
     * One tick of the auto-sync interval: `syncNow` for the timer's user
     * when online; `processed` is its listing.
     */
    method AutoSyncTick(readFails: bool) returns (ghost processed: seq<Task>)
      requires Valid() && timer.Some?
      modifies this`queue, this`isSyncing, this`status, db, server`docs
      ensures Valid()
      ensures isSyncing == old(isSyncing)
      ensures !online || old(isSyncing) ==>
        queue == old(queue) && status == old(status) && db.tasks == old(db.tasks) && server.docs == old(server.docs)
      ensures online && !old(isSyncing) && readFails ==>
        queue == old(queue) && status == Error && db.tasks == old(db.tasks) && server.docs == old(server.docs)
      ensures online && !old(isSyncing) && !readFails ==>
        var u := UnsyncedTasks(old(db.tasks), timer.value.userId);
        var ok := Succeeded(u.Keys, old(server.docs), server.failing);
        && Lists(processed, u)
        && status == Synced
        && db.tasks == MarkedSynced(old(db.tasks), ok)
        && server.docs == Pushed(old(server.docs), old(db.tasks), ok)
        && queue == WithoutIds(old(queue), Failed(u.Keys, old(server.docs), server.failing))
                    + FailedPushes(processed, old(server.docs), server.failing)
      ensures online && !old(isSyncing) && !readFails ==>
        forall id :: id in UnsyncedTasks(db.tasks, timer.value.userId) ==> QueueItem(id, UpdateAction) in queue
      ensures !old(isSyncing) && Consistent(old(db.tasks), old(server.docs)) ==>
        Consistent(db.tasks, server.docs)
    {
      processed := [];
      if online {
        ghost var local1, docs1, q1 := db.tasks, server.docs, queue;
        processed := SyncNow(timer.value.userId, readFails);
        if !old(isSyncing) && !readFails {
          SyncNowQueuesTheFailures(local1, docs1, server.failing, timer.value.userId, processed, q1);
        }
      }
    }
  }
}
