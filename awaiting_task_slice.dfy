/**
 * The task slice of `src3/store/slices/taskSlice.ts`. It shares the state,
 * most reducers and `syncTasks` with `src/store/slices/taskSlice.ts`
 * (module `TaskSlice`). The difference is that every thunk awaits its remote
 * call: the update payloads report whether it succeeded, and `fetchTasks`
 * answers the remote list, falling back to the local one when the remote
 * request fails. `createTask` also raises and drops `loading`.
 */
module AwaitingTaskSlice {
  import opened TaskTypes
  import opened Database
  import opened RemoteStore
  import opened TaskSlice
  import Helpers

  /** `createTask.pending`. */
  method CreatePending(s: TaskListState)
    modifies s`loading, s`error
    ensures s.loading && s.error == None
  {
    s.loading := true;
    s.error := None;
  }

  /** `createTask.fulfilled`: `loading` drops and the new task comes first. */
  method CreateFulfilled(s: TaskListState, t: Task)
    modifies s`loading, s`tasks
    ensures !s.loading && s.tasks == [t] + old(s.tasks)
  {
    s.loading := false;
    s.CreateFulfilled(t);
  }

  /** `createTask.rejected`. */
  method CreateRejected(s: TaskListState, message: string)
    modifies s`loading, s`error
    ensures !s.loading && s.error == Some(message)
  {
    s.loading := false;
    s.CreateRejected(message);
  }

  /**
   * `fetchTasks`: the owner's remote list, newest first; when that request
   * fails, the local records instead.
   */
  method FetchTasks(db: TaskDatabase, server: RemoteTaskStore, userId: string) returns (r: ThunkResult<seq<Task>>)
    requires db.Valid() && server.Valid()
    ensures r.Fulfilled?
    ensures ListCall(userId) !in server.failing ==>
      |r.value| == |RemoteView(server.docs, userId)| &&
      (forall t :: t in r.value <==> t in RemoteView(server.docs, userId).Values) && Helpers.NewestFirst(r.value)
    ensures ListCall(userId) in server.failing ==> Lists(r.value, AllTasks(db.tasks, userId))
  {
    var local := db.GetAllTasks(userId);
    var remote := server.GetUserTasks(userId);
    if remote.Some? {
      r := Fulfilled(remote.value);
    } else {
      r := Fulfilled(local);
    }
  }

  /**
   * `createTask`: stores the new record, unsynced, then awaits the remote
   * create. On success the record is marked synced and the payload says
   * `synced: true`; otherwise the payload is the unsynced record. A taken id
   * makes the local insert throw: rejected, nothing written.
   */
  method CreateTask(db: TaskDatabase, server: RemoteTaskStore, userId: string, data: TaskFormData, id: string, now: Timestamp)
    returns (r: ThunkResult<Task>)
    requires db.Valid() && server.Valid()
    modifies db, server`docs
    ensures db.Valid() && server.Valid()
    ensures id in old(db.tasks) ==> r.Rejected? && db.tasks == old(db.tasks) && server.docs == old(server.docs)
    ensures id !in old(db.tasks) ==>
      var t := NewTask(id, userId, data, now);
      var ok := CreateCall(id) !in server.failing;
      && r == Fulfilled(t.(synced := ok))
      && db.tasks == old(db.tasks)[id := t.(synced := ok)]
      && server.docs == (if ok then old(server.docs)[id := t] else old(server.docs))
  {
    var t := NewTask(id, userId, data, now);
    var stored := db.CreateTask(t);
    if !stored {
      return Rejected;
    }
    var ok := CreateRemotely(db, server, t);
    r := Fulfilled(t.(synced := ok));
  }

  /**
   * `updateTask`: merge-updates the local record with `synced: false`, then
   * awaits the remote update of `updates`. On success the record is marked
   * synced and the payload carries `synced: true`, otherwise `synced: false`.
   */
  method UpdateTask(db: TaskDatabase, server: RemoteTaskStore, taskId: string, updates: TaskPatch, now: Timestamp)
    returns (r: ThunkResult<UpdatePayload>)
    requires db.Valid() && server.Valid()
    modifies db, server`docs
    ensures db.Valid() && server.Valid()
    ensures var ok := UpdateCall(taskId) !in server.failing && taskId in old(server.docs);
      var local1 := Updated(old(db.tasks), taskId, WithSyncedFlag(updates, false), now);
      && r == Fulfilled(UpdatePayload(taskId, WithSyncedFlag(updates, ok)))
      && db.tasks == (if ok then MarkedSynced(local1, {taskId}) else local1)
      && server.docs == (if ok then old(server.docs)[taskId := Apply(old(server.docs)[taskId], updates)] else old(server.docs))
  {
    db.UpdateTask(taskId, WithSyncedFlag(updates, false), now);
    var ok := UpdateRemotely(db, server, taskId, updates);
    r := Fulfilled(UpdatePayload(taskId, WithSyncedFlag(updates, ok)));
  }

  /**
   * `toggleTaskComplete`: writes `{completed, synced: false}` locally, then
   * awaits the remote update of `{completed}`; the payload's `synced` says
   * whether it succeeded, and on success the record is marked synced.
   */
  method ToggleTaskComplete(db: TaskDatabase, server: RemoteTaskStore, taskId: string, completed: bool, now: Timestamp)
    returns (r: ThunkResult<UpdatePayload>)
    requires db.Valid() && server.Valid()
    modifies db, server`docs
    ensures db.Valid() && server.Valid()
    ensures var ok := UpdateCall(taskId) !in server.failing && taskId in old(server.docs);
      var local1 := Updated(old(db.tasks), taskId, ToggleUpdates(completed), now);
      && r == Fulfilled(UpdatePayload(taskId, EmptyPatch.(completed := Some(completed), synced := Some(ok))))
      && db.tasks == (if ok then MarkedSynced(local1, {taskId}) else local1)
      && server.docs == (if ok then old(server.docs)[taskId := Apply(old(server.docs)[taskId], EmptyPatch.(completed := Some(completed)))]
                         else old(server.docs))
  {
    db.UpdateTask(taskId, ToggleUpdates(completed), now);
    var ok := UpdateRemotely(db, server, taskId, EmptyPatch.(completed := Some(completed)));
    r := Fulfilled(UpdatePayload(taskId, EmptyPatch.(completed := Some(completed), synced := Some(ok))));
  }

  /** `deleteTask`: deletes locally, then awaits the remote delete; a remote failure is swallowed. */
  method DeleteTask(db: TaskDatabase, server: RemoteTaskStore, taskId: string) returns (r: ThunkResult<string>)
    requires db.Valid() && server.Valid()
    modifies db, server`docs
    ensures db.Valid() && server.Valid()
    ensures r == Fulfilled(taskId)
    ensures db.tasks == old(db.tasks) - {taskId}
    ensures server.docs == if DeleteCall(taskId) !in server.failing then old(server.docs) - {taskId} else old(server.docs)
  {
    db.DeleteTask(taskId);
    var ok := server.DeleteTask(taskId);
    r := Fulfilled(taskId);
  }

  /**
   * The two slices' `createTask` end in the same local table: the detached
   * create of `src/store/slices/taskSlice.ts`, once settled with outcome
   * `ok`, leaves what the awaiting create leaves.
   */
  lemma DetachedCreateMatchesAwaited(local: Table, t: Task, ok: bool)
    requires !t.synced
    ensures (if ok then MarkedSynced(local[t.id := t], {t.id}) else local[t.id := t]) == local[t.id := t.(synced := ok)]
  {
    if !ok {
      assert t.(synced := ok) == t;
    }
  }

  /**
   * The payload of the awaiting update agrees with the local record: merging
   * it into the record as it stood gives the record the thunk left behind,
   * whichever way the remote call went.
   */
  lemma {:induction false} UpdatePayloadMatchesLocal(local: Table, taskId: string, updates: TaskPatch, now: Timestamp, ok: bool)
    requires taskId in local
    ensures var local1 := Updated(local, taskId, WithSyncedFlag(updates, false), now);
      var after := if ok then MarkedSynced(local1, {taskId}) else local1;
      after[taskId] == Apply(local[taskId], WithSyncedFlag(updates, ok)).(updatedAt := now)
  {
    var local1 := Updated(local, taskId, WithSyncedFlag(updates, false), now);
    assert local1[taskId] == Apply(local[taskId], WithSyncedFlag(updates, false)).(updatedAt := now);
    if ok {
      assert MarkedSynced(local1, {taskId})[taskId] == local1[taskId].(synced := true);
    }
  }

  /**
   * The thunks' own marks do not keep the synced-flag invariant. A record
   * with an offline title edit, over a remote copy with the old title, is
   * toggled online: the remote update carries only `completed`, yet the
   * record is then marked synced with a title the remote copy lacks.
   */
  lemma ToggleMarkCanBreakConsistent()
    ensures var x := Task("x", "b", "", false, "u", 0, 0, None, false);
      var local := map["x" := x];
      var docs := map["x" := x.(title := "a", synced := true)];
      var local1 := Updated(local, "x", ToggleUpdates(true), 1);
      var docs1 := docs["x" := Apply(docs["x"], EmptyPatch.(completed := Some(true)))];
      Consistent(local, docs) && !Consistent(MarkedSynced(local1, {"x"}), docs1)
  {
    var x := Task("x", "b", "", false, "u", 0, 0, None, false);
    var local := map["x" := x];
    var docs := map["x" := x.(title := "a", synced := true)];
    var local1 := Updated(local, "x", ToggleUpdates(true), 1);
    var docs1 := docs["x" := Apply(docs["x"], EmptyPatch.(completed := Some(true)))];
    var marked := MarkedSynced(local1, {"x"});
    assert marked["x"].synced && marked["x"].title == "b";
    assert docs1["x"].title == "a";
    assert !SamePayload(docs1["x"], marked["x"]);
  }
}
