/**
 * The earlier sync engine of `src2/services/syncService.ts`: no retry queue
 * and no busy flag. A record whose propagation fails stays unsynced and is
 * retried by the next run; a run that propagated anything ends with a sync
 * notification carrying the number of records it fetched.
 */
module LegacySync {
  import opened TaskTypes
  import opened Database
  import opened RemoteStore
  import opened Propagation
  import SyncEngine

  /**
   * After a run in which every propagation succeeded, the next run fetches
   * nothing: it makes no remote call and changes nothing.
   */
  lemma {:induction false} RerunAfterCleanRunIsIdle(local: Table, docs: map<string, Task>, failing: set<RemoteCall>, userId: string)
    requires forall id :: id in UnsyncedTasks(local, userId) ==> !PushFails(docs, failing, id)
    ensures var ok := Succeeded(UnsyncedTasks(local, userId).Keys, docs, failing);
      var local1, docs1 := MarkedSynced(local, ok), Pushed(docs, local, ok);
      && UnsyncedTasks(local1, userId) == map[]
      && MarkedSynced(local1, Succeeded(UnsyncedTasks(local1, userId).Keys, docs1, failing)) == local1
      && Pushed(docs1, local1, Succeeded(UnsyncedTasks(local1, userId).Keys, docs1, failing)) == docs1
  {
    var u := UnsyncedTasks(local, userId).Keys;
    var ok := Succeeded(u, docs, failing);
    assert ok == u;
    var local1, docs1 := MarkedSynced(local, ok), Pushed(docs, local, ok);
    UnsyncedAfterMarking(local, ok, userId);
    assert UnsyncedTasks(local1, userId).Keys == {};
    assert Succeeded({}, docs1, failing) == {};
    MarkNone(local1);
    PushNone(docs1, local1);
  }

  /** The engine's module state (`syncInterval`) with the notifications shown. */
  class LegacySyncService {
    const db: TaskDatabase
    const server: RemoteTaskStore
    var status: SyncStatus
    /** What NetInfo reports as `isConnected`. */
    var online: bool
    var timer: Option<SyncEngine.AutoSync>
    var nextHandle: nat
    /** The intervals the runtime still fires. */
    ghost var live: set<nat>
    /** The counts of the sync notifications shown, oldest first. */
    var notifications: seq<nat>

    ghost predicate Valid()
      reads this`live, this`timer, this`nextHandle, db, server
    {
      && db.Valid() && server.Valid()
      && live == (if timer.Some? then {timer.value.handle} else {})
      && (timer.Some? ==> timer.value.handle < nextHandle)
    }

    constructor (db: TaskDatabase, server: RemoteTaskStore, online: bool)
      requires db.Valid() && server.Valid()
      ensures Valid()
      ensures this.db == db && this.server == server && this.online == online
      ensures status == Idle && timer == None && notifications == []
    {
      this.db := db;
      this.server := server;
      this.online := online;
      status := Idle;
      timer := None;
      nextHandle := 0;
      live := {};
      notifications := [];
    }

    /** `isOnline`: `isConnected`, false when unknown. */
    function IsOnline(): bool
      reads this
    {
      online
    }

    /** `startAutoSync`: clears the running interval, if any, then starts one. */
    method StartAutoSync(userId: string, intervalMs: nat)
      requires Valid()
      modifies this`timer, this`nextHandle, this`live
      ensures Valid()
      ensures timer == Some(SyncEngine.AutoSync(old(nextHandle), userId, intervalMs))
      ensures live == {old(nextHandle)}
      ensures old(timer).Some? ==> old(timer).value.handle !in live
    {
      if timer.Some? {
        live := live - {timer.value.handle};
      }
      var h := nextHandle;
      nextHandle := nextHandle + 1;
      live := live + {h};
      timer := Some(SyncEngine.AutoSync(h, userId, intervalMs));
    }

    /** `stopAutoSync`: clears the interval; a no-op when none runs. */
    method StopAutoSync()
      requires Valid()
      modifies this`timer, this`live
      ensures Valid()
      ensures timer == None && live == {}
      ensures old(timer).None? ==> live == old(live)
    {
      if timer.Some? {
        live := live - {timer.value.handle};
        timer := None;
      }
    }

    /**
     * `syncNow`: pushes every unsynced record of `userId`; failures are
     * swallowed and leave the record unsynced. `readFails` is the local read
     * throwing, `notifyFails` the notification throwing; either ends the run
     * in `error`.
     */
    method SyncNow(userId: string, readFails: bool, notifyFails: bool)
      requires Valid()
      modifies this`status, this`notifications, db, server`docs
      ensures Valid()
      ensures readFails ==>
        status == Error && notifications == old(notifications)
        && db.tasks == old(db.tasks) && server.docs == old(server.docs)
      ensures !readFails ==>
        var u := UnsyncedTasks(old(db.tasks), userId);
        var ok := Succeeded(u.Keys, old(server.docs), server.failing);
        && db.tasks == MarkedSynced(old(db.tasks), ok)
        && server.docs == Pushed(old(server.docs), old(db.tasks), ok)
        && UnsyncedTasks(db.tasks, userId).Keys == Failed(u.Keys, old(server.docs), server.failing)
        && (|u| == 0 ==> db.tasks == old(db.tasks) && server.docs == old(server.docs))
        && status == (if |u| > 0 && notifyFails then Error else Synced)
        && notifications == (if |u| == 0 || notifyFails then old(notifications) else old(notifications) + [|u|])
      ensures Consistent(old(db.tasks), old(server.docs)) ==> Consistent(db.tasks, server.docs)
    {
      status := Syncing;
      if readFails {
        status := Error;
        return;
      }
      ghost var local0, docs0 := db.tasks, server.docs;
      var count := PushUnsynced(userId);
      if Consistent(local0, docs0) {
        PushKeepsConsistent(local0, docs0, Succeeded(UnsyncedTasks(local0, userId).Keys, docs0, server.failing));
      }
      Finish(count, notifyFails);
    }

    /**
     * The end of a run that fetched `count` records: `synced`, then the
     * notification when anything was fetched; its failure turns the status
     * into `error`.
     */
    method Finish(count: nat, notifyFails: bool)
      requires Valid()
      modifies this`status, this`notifications
      ensures Valid()
      ensures status == (if count > 0 && notifyFails then Error else Synced)
      ensures notifications == (if count == 0 || notifyFails then old(notifications) else old(notifications) + [count])
    {
      status := Synced;
      if count == 0 {
        return;
      }
      if notifyFails {
        status := Error;
      } else {
        notifications := notifications + [count];
      }
    }

    /**
     * The body of `syncNow` once the read succeeds: the number of unsynced
     * records fetched, after pushing each of them.
     */
    method PushUnsynced(userId: string) returns (count: nat)
      requires Valid()
      modifies db, server`docs
      ensures Valid()
      ensures count == |UnsyncedTasks(old(db.tasks), userId)|
      ensures var ok := Succeeded(UnsyncedTasks(old(db.tasks), userId).Keys, old(server.docs), server.failing);
        db.tasks == MarkedSynced(old(db.tasks), ok) && server.docs == Pushed(old(server.docs), old(db.tasks), ok)
      ensures UnsyncedTasks(db.tasks, userId).Keys
           == Failed(UnsyncedTasks(old(db.tasks), userId).Keys, old(server.docs), server.failing)
      ensures count == 0 ==> db.tasks == old(db.tasks) && server.docs == old(server.docs)
    {
      ghost var local0, docs0 := db.tasks, server.docs;
      var ts := db.GetUnsyncedTasks(userId);
      WalkOutcome(ts, local0, docs0, server.failing, userId);
      count := |ts|;
      if count > 0 {
        ghost var ok := PushAll(ts, UnsyncedTasks(local0, userId));
        assert ok == Succeeded(UnsyncedTasks(local0, userId).Keys, docs0, server.failing);
      }
    }

    /** The loop of `syncNow` over the listing `ts` of the records `u`. */
    method PushAll(ts: seq<Task>, ghost u: Table) returns (ghost ok: set<string>)
      requires Valid()
      requires Lists(ts, u)
      requires forall id :: id in u ==> id in db.tasks && db.tasks[id] == u[id]
      modifies db, server`docs
      ensures Valid()
      ensures ok == SyncedIds(ts, old(server.docs), server.failing) && ok <= old(db.tasks).Keys
      ensures db.tasks == MarkedSynced(old(db.tasks), ok)
      ensures server.docs == Pushed(old(server.docs), old(db.tasks), ok)
    {
      ghost var local0, docs0 := db.tasks, server.docs;
      ok := {};
      ghost var done: seq<Task> := [];
      var rest := ts;
      MarkNone(local0);
      PushNone(docs0, local0);
      while rest != []
        invariant Valid()
        invariant done + rest == ts
        invariant ok == SyncedIds(done, docs0, server.failing) && ok <= local0.Keys
        invariant db.tasks == MarkedSynced(local0, ok)
        invariant server.docs == Pushed(docs0, local0, ok)
        decreases |rest|
      {
        var t := rest[0];
        ListingStep(done, rest, u, local0);
        var pushed := server.Push(t);
        if pushed {
          db.MarkTaskAsSynced(t.id);
        }
        ghost var ok' := if pushed then ok + {t.id} else ok;
        PushMarkStep(done, t, local0, docs0, server.failing, ok, pushed, ok', db.tasks, server.docs);
        ok, done := ok', done + [t];
        rest := rest[1..];
      }
      assert done == ts;
    }

    /**
     * The listener `setupNetworkListener(userId)` installs: sync `userId`'s
     * records when connected, otherwise report `idle`.
     */
    method OnNetworkChange(userId: string, isConnected: bool, readFails: bool, notifyFails: bool)
      requires Valid()
      modifies this`online, this`status, this`notifications, db, server`docs
      ensures Valid()
      ensures online == isConnected
      ensures !isConnected ==>
        status == Idle && notifications == old(notifications)
        && db.tasks == old(db.tasks) && server.docs == old(server.docs)
      ensures isConnected && readFails ==>
        status == Error && notifications == old(notifications)
        && db.tasks == old(db.tasks) && server.docs == old(server.docs)
      ensures isConnected && !readFails ==>
        var u := UnsyncedTasks(old(db.tasks), userId);
        var ok := Succeeded(u.Keys, old(server.docs), server.failing);
        && db.tasks == MarkedSynced(old(db.tasks), ok)
        && server.docs == Pushed(old(server.docs), old(db.tasks), ok)
        && UnsyncedTasks(db.tasks, userId).Keys == Failed(u.Keys, old(server.docs), server.failing)
        && (|u| == 0 ==> db.tasks == old(db.tasks) && server.docs == old(server.docs))
        && status == (if |u| > 0 && notifyFails then Error else Synced)
        && notifications == (if |u| == 0 || notifyFails then old(notifications) else old(notifications) + [|u|])
      ensures Consistent(old(db.tasks), old(server.docs)) ==> Consistent(db.tasks, server.docs)
    {
      online := isConnected;
      if isConnected {
        SyncNow(userId, readFails, notifyFails);
      } else {
        status := Idle;
      }
    }

    /** One tick of the auto-sync interval: `syncNow` for the timer's user when connected. */
    method AutoSyncTick(readFails: bool, notifyFails: bool)
      requires Valid() && timer.Some?
      modifies this`status, this`notifications, db, server`docs
      ensures Valid()
      ensures !online ==>
        status == old(status) && notifications == old(notifications)
        && db.tasks == old(db.tasks) && server.docs == old(server.docs)
      ensures online && readFails ==>
        status == Error && notifications == old(notifications)
        && db.tasks == old(db.tasks) && server.docs == old(server.docs)
      ensures online && !readFails ==>
        var u := UnsyncedTasks(old(db.tasks), timer.value.userId);
        var ok := Succeeded(u.Keys, old(server.docs), server.failing);
        && db.tasks == MarkedSynced(old(db.tasks), ok)
        && server.docs == Pushed(old(server.docs), old(db.tasks), ok)
        && UnsyncedTasks(db.tasks, timer.value.userId).Keys == Failed(u.Keys, old(server.docs), server.failing)
        && (|u| == 0 ==> db.tasks == old(db.tasks) && server.docs == old(server.docs))
        && status == (if |u| > 0 && notifyFails then Error else Synced)
        && notifications == (if |u| == 0 || notifyFails then old(notifications) else old(notifications) + [|u|])
      ensures Consistent(old(db.tasks), old(server.docs)) ==> Consistent(db.tasks, server.docs)
    {
      if online {
        SyncNow(timer.value.userId, readFails, notifyFails);
      }
    }
  }
}
