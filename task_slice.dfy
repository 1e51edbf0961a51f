/**
 * The task slice of `src/store/slices/taskSlice.ts`: the list the screens
 * show with its flags, the reducers that update it in place, and the thunks
 * that write the local table, start the remote call without awaiting it and
 * return. `syncTasks` alone awaits its remote calls.
 */
module TaskSlice {
  import opened TaskTypes
  import opened Database
  import opened RemoteStore
  import Helpers
  import Propagation

  /** The outcome of a thunk: its payload, or a rejection (`rejectWithValue`). */
  datatype ThunkResult<T> = Fulfilled(value: T) | Rejected

  /** The payload of `updateTask` and `toggleTaskComplete`. */
  datatype UpdatePayload = UpdatePayload(taskId: string, updates: TaskPatch)

  // ---------------------------------------------------------------------
  // The list operations of the reducers

  /** `tasks.findIndex(t => t.id === id)`: the first index with that id, or -1. */
  function FindIndex(tasks: seq<Task>, id: string): (r: int)
    ensures -1 <= r < |tasks|
    ensures r >= 0 ==> tasks[r].id == id && forall j :: 0 <= j < r ==> tasks[j].id != id
    ensures r == -1 <==> forall j :: 0 <= j < |tasks| ==> tasks[j].id != id
  {
    if tasks == [] then -1
    else if tasks[0].id == id then 0
    else
      var k := FindIndex(tasks[1..], id);
      assert forall j :: 1 <= j < |tasks| ==> tasks[j] == tasks[1..][j - 1];
      if k == -1 then -1 else k + 1
  }

  /**
   * The update reducers: `{...tasks[index], ...updates}` at the first index
   * with the id, nothing when there is none.
   */
  function MergedAt(tasks: seq<Task>, id: string, updates: TaskPatch): (r: seq<Task>)
    // only the first record with the id changes; the length and every id stay
    ensures |r| == |tasks|
    ensures forall j :: 0 <= j < |tasks| ==> r[j].id == tasks[j].id
    ensures forall j :: 0 <= j < |tasks| && tasks[j].id != id ==> r[j] == tasks[j]
    ensures forall j :: 0 <= j < |tasks| && tasks[j].id == id ==>
      r[j] == if (forall k :: 0 <= k < j ==> tasks[k].id != id) then Apply(tasks[j], updates) else tasks[j]
    // a list without the id is unchanged
    ensures (forall j :: 0 <= j < |tasks| ==> tasks[j].id != id) ==> r == tasks
  {
    var index := FindIndex(tasks, id);
    if index == -1 then tasks else tasks[index := Apply(tasks[index], updates)]
  }

  /** `tasks.filter(t => t.id !== id)`. */
  function Without(tasks: seq<Task>, id: string): (r: seq<Task>)
    ensures forall t :: t in r <==> t in tasks && t.id != id
    ensures |r| <= |tasks|
  {
    if tasks == [] then []
    else (if tasks[0].id == id then [] else [tasks[0]]) + Without(tasks[1..], id)
  }

  /** The delete filter keeps the order of the rest: it distributes over concatenation. */
  lemma {:induction false} WithoutKeepsOrder(a: seq<Task>, b: seq<Task>, id: string)
    ensures Without(a + b, id) == Without(a, id) + Without(b, id)
  {
    if a == [] {
      assert a + b == b;
    } else {
      var ab := a + b;
      assert ab[0] == a[0] && ab[1..] == a[1..] + b;
      WithoutKeepsOrder(a[1..], b, id);
    }
  }

  /** Deleting leaves no record with the id to find, and deleting again changes nothing. */
  lemma {:induction false} WithoutRemovesAll(tasks: seq<Task>, id: string)
    ensures FindIndex(Without(tasks, id), id) == -1
    ensures Without(Without(tasks, id), id) == Without(tasks, id)
  {
    var r := Without(tasks, id);
    assert forall j :: 0 <= j < |r| ==> r[j] in r;
    WithoutNoop(r, id);
  }

  lemma {:induction false} WithoutNoop(tasks: seq<Task>, id: string)
    requires forall i :: 0 <= i < |tasks| ==> tasks[i].id != id
    ensures Without(tasks, id) == tasks
  {
    if tasks != [] {
      assert forall i :: 0 <= i < |tasks[1..]| ==> tasks[1..][i] == tasks[i + 1];
      WithoutNoop(tasks[1..], id);
      assert tasks == [tasks[0]] + tasks[1..];
    }
  }

  // ---------------------------------------------------------------------
  // The slice state and its reducers

  /** `TaskState`, which the reducers update in place. */
  class TaskListState {
    var tasks: seq<Task>
    var loading: bool
    var error: Option<string>
    var syncStatus: SyncStatus

    /** `initialState`. */
    constructor ()
      ensures tasks == [] && !loading && error == None && syncStatus == Idle
    {
      tasks := [];
      loading := false;
      error := None;
      syncStatus := Idle;
    }

    /** `clearError`. */
    method ClearError()
      modifies this`error
      ensures error == None
    {
      error := None;
    }

    /** `setSyncStatus`. */
    method SetSyncStatus(status: SyncStatus)
      modifies this`syncStatus
      ensures syncStatus == status
    {
      syncStatus := status;
    }

    /** `fetchTasks.pending`. */
    method FetchPending()
      modifies this`loading, this`error
      ensures loading && error == None
    {
      loading := true;
      error := None;
    }

    /** `fetchTasks.fulfilled`: the list is replaced by the payload. */
    method FetchFulfilled(payload: seq<Task>)
      modifies this`loading, this`tasks
      ensures !loading && tasks == payload
    {
      loading := false;
      tasks := payload;
    }

    /** `fetchTasks.rejected`. */
    method FetchRejected(message: string)
      modifies this`loading, this`error
      ensures !loading && error == Some(message)
    {
      loading := false;
      error := Some(message);
    }

    /** `createTask.fulfilled`: `unshift`, so the new task comes first. */
    method CreateFulfilled(t: Task)
      modifies this`tasks
      ensures tasks == [t] + old(tasks)
      ensures |tasks| == |old(tasks)| + 1 && tasks[0] == t && tasks[1..] == old(tasks)
    {
      tasks := [t] + tasks;
    }

    /** `createTask.rejected`. */
    method CreateRejected(message: string)
      modifies this`error
      ensures error == Some(message)
    {
      error := Some(message);
    }

    /** `updateTask.fulfilled`: merge into the first task with the id, if any. */
    method UpdateFulfilled(payload: UpdatePayload)
      modifies this`tasks
      ensures tasks == MergedAt(old(tasks), payload.taskId, payload.updates)
    {
      var index := FindIndex(tasks, payload.taskId);
      if index != -1 {
        tasks := tasks[index := Apply(tasks[index], payload.updates)];
      }
    }

    /** `deleteTask.fulfilled`: drop every task with the id. */
    method DeleteFulfilled(taskId: string)
      modifies this`tasks
      ensures tasks == Without(old(tasks), taskId)
    {
      tasks := Without(tasks, taskId);
    }

    /** `toggleTaskComplete.fulfilled`: the same merge as `updateTask.fulfilled`. */
    method ToggleFulfilled(payload: UpdatePayload)
      modifies this`tasks
      ensures tasks == MergedAt(old(tasks), payload.taskId, payload.updates)
    {
      UpdateFulfilled(payload);
    }

    /** `syncTasks.pending`. */
    method SyncPending()
      modifies this`syncStatus
      ensures syncStatus == Syncing
    {
      syncStatus := Syncing;
    }

    /** `syncTasks.fulfilled`: `synced`, and the list is replaced by the remote one. */
    method SyncFulfilled(payload: seq<Task>)
      modifies this`syncStatus, this`tasks
      ensures syncStatus == Synced && tasks == payload
    {
      syncStatus := Synced;
      tasks := payload;
    }

    /** `syncTasks.rejected`. */
    method SyncRejected()
      modifies this`syncStatus
      ensures syncStatus == Error
    {
      syncStatus := Error;
    }
  }

  // ---------------------------------------------------------------------
  // The thunks

  /**
   * The record `createTask` builds: not completed, not synced, owned by
   * `userId`, created and updated at `now`; an absent reminder is null.
   */
  function NewTask(id: string, userId: string, data: TaskFormData, now: Timestamp): (r: Task)
    ensures r.id == id && r.userId == userId
    ensures !r.completed && !r.synced
    ensures r.title == data.title && r.description == data.description && r.reminderTime == data.reminderTime
    ensures r.createdAt == now && r.updatedAt == now
  {
    Task(id, data.title, data.description, false, userId, now, now, data.reminderTime, false)
  }

  /** The patch `{completed, synced: false}` of `toggleTaskComplete`. */
  function ToggleUpdates(completed: bool): (r: TaskPatch)
    ensures forall t :: Apply(t, r) == t.(completed := completed, synced := false)
  {
    EmptyPatch.(completed := Some(completed), synced := Some(false))
  }

  /** The remote create followed, on success, by `markTaskAsSynced`. */
  method CreateRemotely(db: TaskDatabase, server: RemoteTaskStore, t: Task) returns (ok: bool)
    requires db.Valid() && server.Valid()
    modifies db, server`docs
    ensures db.Valid() && server.Valid()
    ensures ok == (CreateCall(t.id) !in server.failing)
    ensures server.docs == if ok then old(server.docs)[t.id := t] else old(server.docs)
    ensures db.tasks == if ok then MarkedSynced(old(db.tasks), {t.id}) else old(db.tasks)
  {
    ok := server.CreateTask(t);
    if ok {
      db.MarkTaskAsSynced(t.id);
    }
  }

  /** The remote merge-update followed, on success, by `markTaskAsSynced`. */
  method UpdateRemotely(db: TaskDatabase, server: RemoteTaskStore, taskId: string, updates: TaskPatch) returns (ok: bool)
    requires db.Valid() && server.Valid()
    modifies db, server`docs
    ensures db.Valid() && server.Valid()
    ensures ok == (UpdateCall(taskId) !in server.failing && taskId in old(server.docs))
    ensures server.docs == if ok then old(server.docs)[taskId := Apply(old(server.docs)[taskId], updates)] else old(server.docs)
    ensures db.tasks == if ok then MarkedSynced(old(db.tasks), {taskId}) else old(db.tasks)
  {
    ok := server.UpdateTask(taskId, updates);
    if ok {
      db.MarkTaskAsSynced(taskId);
    }
  }

  /**
   * The remote call a thunk starts and does not await. Its continuation runs
   * `markTaskAsSynced` once the call succeeds and swallows a failure; it runs
   * after the thunk has returned, when `Settle` is called.
   */
  datatype Detached =
    | CreateLater(task: Task)
    | UpdateLater(taskId: string, updates: TaskPatch)
    | DeleteLater(taskId: string)

  /** A detached call runs to its end: the remote write, then the local mark on success. */
  method Settle(db: TaskDatabase, server: RemoteTaskStore, d: Detached) returns (ok: bool)
    requires db.Valid() && server.Valid()
    modifies db, server`docs
    ensures db.Valid() && server.Valid()
    ensures d.CreateLater? ==>
      && ok == (CreateCall(d.task.id) !in server.failing)
      && server.docs == (if ok then old(server.docs)[d.task.id := d.task] else old(server.docs))
      && db.tasks == (if ok then MarkedSynced(old(db.tasks), {d.task.id}) else old(db.tasks))
    ensures d.UpdateLater? ==>
      && ok == (UpdateCall(d.taskId) !in server.failing && d.taskId in old(server.docs))
      && server.docs == (if ok then old(server.docs)[d.taskId := Apply(old(server.docs)[d.taskId], d.updates)] else old(server.docs))
      && db.tasks == (if ok then MarkedSynced(old(db.tasks), {d.taskId}) else old(db.tasks))
    ensures d.DeleteLater? ==>
      && ok == (DeleteCall(d.taskId) !in server.failing)
      && server.docs == (if ok then old(server.docs) - {d.taskId} else old(server.docs))
      && db.tasks == old(db.tasks)
  {
    match d {
      case CreateLater(t) =>
        ok := CreateRemotely(db, server, t);
      case UpdateLater(taskId, updates) =>
        ok := UpdateRemotely(db, server, taskId, updates);
      case DeleteLater(taskId) =>
        ok := server.DeleteTask(taskId);
    }
  }

  /**
   * `fetchTasks`: the local records of `userId`. The remote list it also
   * requests is discarded.
   */
  method FetchTasks(db: TaskDatabase, userId: string) returns (r: ThunkResult<seq<Task>>)
    requires db.Valid()
    ensures r.Fulfilled? && Lists(r.value, AllTasks(db.tasks, userId))
  {
    var local := db.GetAllTasks(userId);
    r := Fulfilled(local);
  }

  /**
   * `createTask`: stores the new record, unsynced, and returns it, leaving
   * the remote create detached. A taken id makes the local insert throw:
   * rejected, nothing written, nothing started.
   */
  method CreateTask(db: TaskDatabase, userId: string, data: TaskFormData, id: string, now: Timestamp)
    returns (r: ThunkResult<Task>, later: Option<Detached>)
    requires db.Valid()
    modifies db
    ensures db.Valid()
    ensures id in old(db.tasks) ==> r.Rejected? && later == None && db.tasks == old(db.tasks)
    ensures id !in old(db.tasks) ==>
      var t := NewTask(id, userId, data, now);
      r == Fulfilled(t) && later == Some(CreateLater(t)) && db.tasks == old(db.tasks)[id := t]
  {
    var t := NewTask(id, userId, data, now);
    var stored := db.CreateTask(t);
    if !stored {
      return Rejected, None;
    }
    r, later := Fulfilled(t), Some(CreateLater(t));
  }

  /**
   * `updateTask`: merge-updates the local record with `synced: false` and
   * returns that patch, leaving the remote update of `updates` detached.
   */
  method UpdateTask(db: TaskDatabase, taskId: string, updates: TaskPatch, now: Timestamp)
    returns (r: ThunkResult<UpdatePayload>, later: Detached)
    requires db.Valid()
    modifies db
    ensures db.Valid()
    ensures r == Fulfilled(UpdatePayload(taskId, WithSyncedFlag(updates, false)))
    ensures later == UpdateLater(taskId, updates)
    ensures db.tasks == Updated(old(db.tasks), taskId, WithSyncedFlag(updates, false), now)
  {
    db.UpdateTask(taskId, WithSyncedFlag(updates, false), now);
    r, later := Fulfilled(UpdatePayload(taskId, WithSyncedFlag(updates, false))), UpdateLater(taskId, updates);
  }

  /** `deleteTask`: deletes locally and leaves the remote delete detached. */
  method DeleteTask(db: TaskDatabase, taskId: string) returns (r: ThunkResult<string>, later: Detached)
    requires db.Valid()
    modifies db
    ensures db.Valid()
    ensures r == Fulfilled(taskId) && later == DeleteLater(taskId)
    ensures db.tasks == old(db.tasks) - {taskId}
  {
    db.DeleteTask(taskId);
    r, later := Fulfilled(taskId), DeleteLater(taskId);
  }

  /**
   * `toggleTaskComplete`: writes `{completed, synced: false}` locally and
   * returns that patch, leaving the remote update of `{completed}` detached.
   */
  method ToggleTaskComplete(db: TaskDatabase, taskId: string, completed: bool, now: Timestamp)
    returns (r: ThunkResult<UpdatePayload>, later: Detached)
    requires db.Valid()
    modifies db
    ensures db.Valid()
    ensures r == Fulfilled(UpdatePayload(taskId, ToggleUpdates(completed)))
    ensures later == UpdateLater(taskId, EmptyPatch.(completed := Some(completed)))
    ensures db.tasks == Updated(old(db.tasks), taskId, ToggleUpdates(completed), now)
  {
    var updates := ToggleUpdates(completed);
    db.UpdateTask(taskId, updates, now);
    r, later := Fulfilled(UpdatePayload(taskId, updates)), UpdateLater(taskId, EmptyPatch.(completed := Some(completed)));
  }

  // ---------------------------------------------------------------------
  // `syncTasks`

  /** The ids among `ids` whose remote create succeeds. */
  function Created(ids: set<string>, failing: set<RemoteCall>): (r: set<string>)
    ensures r <= ids
    ensures forall id :: id in r <==> id in ids && CreateCall(id) !in failing
  {
    set id | id in ids && CreateCall(id) !in failing
  }

  /**
   * One step of `syncTasks`' loop: if the state after the records `done` is
   * in closed form, so is the state one `CreateRemotely(t)` later.
   */
  lemma {:induction false} CreateStep(done: seq<Task>, t: Task, local: Table, docs: map<string, Task>, failing: set<RemoteCall>,
                                      ok: set<string>, created: bool, ok': set<string>, local': Table, docs': map<string, Task>)
    requires t.id in local && local[t.id] == t
    requires ok == Created(IdsOf(done), failing) && ok <= local.Keys
    requires created == (CreateCall(t.id) !in failing)
    requires ok' == if created then ok + {t.id} else ok
    requires local' == if created then MarkedSynced(MarkedSynced(local, ok), {t.id}) else MarkedSynced(local, ok)
    requires docs' == if created then Pushed(docs, local, ok)[t.id := t] else Pushed(docs, local, ok)
    ensures ok' == Created(IdsOf(done + [t]), failing) && ok' <= local.Keys
    ensures local' == MarkedSynced(local, ok')
    ensures docs' == Pushed(docs, local, ok')
  {
    IdsOfSnoc(done, t);
    if created {
      Propagation.MarkStep(local, ok, t.id);
      Propagation.PushStep(docs, local, ok, t.id);
    }
  }

  /**
   * `syncTasks`: creates every unsynced record of `userId` remotely, with
   * no existence test, so an existing document is overwritten; marks it
   * synced on success and swallows failures; then answers the owner's remote
   * list, or rejects when that request fails.
   */
  method SyncTasks(db: TaskDatabase, server: RemoteTaskStore, userId: string) returns (r: ThunkResult<seq<Task>>)
    requires db.Valid() && server.Valid()
    modifies db, server`docs
    ensures db.Valid() && server.Valid()
    ensures var ok := Created(UnsyncedTasks(old(db.tasks), userId).Keys, server.failing);
      db.tasks == MarkedSynced(old(db.tasks), ok) && server.docs == Pushed(old(server.docs), old(db.tasks), ok)
    ensures r.Fulfilled? <==> ListCall(userId) !in server.failing
    ensures r.Fulfilled? ==>
      |r.value| == |RemoteView(server.docs, userId)| &&
      (forall t :: t in r.value <==> t in RemoteView(server.docs, userId).Values) && Helpers.NewestFirst(r.value)
  {
    var ts := db.GetUnsyncedTasks(userId);
    ghost var u := UnsyncedTasks(db.tasks, userId);
    CreateAll(db, server, ts, u);
    assert IdsOf(ts) == u.Keys;
    var remote := server.GetUserTasks(userId);
    if remote.None? {
      return Rejected;
    }
    r := Fulfilled(remote.value);
  }

  /** `syncTasks`' loop over the listing `ts` of the records `u`. */
  method CreateAll(db: TaskDatabase, server: RemoteTaskStore, ts: seq<Task>, ghost u: Table)
    requires db.Valid() && server.Valid()
    requires Lists(ts, u)
    requires forall id :: id in u ==> id in db.tasks && db.tasks[id] == u[id]
    modifies db, server`docs
    ensures db.Valid() && server.Valid()
    ensures var ok := Created(IdsOf(ts), server.failing);
      db.tasks == MarkedSynced(old(db.tasks), ok) && server.docs == Pushed(old(server.docs), old(db.tasks), ok)
  {
    ghost var local0, docs0 := db.tasks, server.docs;
    ghost var ok: set<string> := {};
    ghost var done: seq<Task> := [];
    var rest := ts;
    Propagation.MarkNone(local0);
    Propagation.PushNone(docs0, local0);
    assert Created(IdsOf(done), server.failing) == {};
    while rest != []
      invariant db.Valid() && server.Valid()
      invariant done + rest == ts
      invariant ok == Created(IdsOf(done), server.failing) && ok <= local0.Keys
      invariant db.tasks == MarkedSynced(local0, ok)
      invariant server.docs == Pushed(docs0, local0, ok)
      decreases |rest|
    {
      var t := rest[0];
      Propagation.ListingStep(done, rest, u, local0);
      var created := CreateRemotely(db, server, t);
      ghost var ok' := if created then ok + {t.id} else ok;
      CreateStep(done, t, local0, docs0, server.failing, ok, created, ok', db.tasks, server.docs);
      ok, done := ok', done + [t];
      rest := rest[1..];
    }
    assert done == ts;
  }

  /**
   * After `syncTasks` every record it created remotely is in the list it
   * answers, as the remote copy converted with `synced: true`.
   */
  lemma {:induction false} CreatedRecordsListed(local: Table, docs: map<string, Task>, failing: set<RemoteCall>, userId: string, id: string)
    requires id in Created(UnsyncedTasks(local, userId).Keys, failing)
    ensures var ok := Created(UnsyncedTasks(local, userId).Keys, failing);
      local[id].(synced := true) in RemoteView(Pushed(docs, local, ok), userId).Values
  {
    var ok := Created(UnsyncedTasks(local, userId).Keys, failing);
    var d := Pushed(docs, local, ok);
    assert d[id] == local[id];
    assert RemoteView(d, userId)[id] == local[id].(synced := true);
  }
}
