# TaskManagementApp: the offline sync core, as a verified Dafny model

TaskManagementApp is a React Native task list. Each task is stored in a
device-local table (`DatabaseService`, over Realm) and copied to a remote
document store (Firestore). A task carries a `synced` flag that says whether
the remote copy is up to date. This project models the logic that keeps the
two copies together, and proves what that logic promises.

- **Local record store** (`database.dfy`, module `Database`). A map from id to
  record; the id is the primary key. The queries (`getAllTasks`,
  `getUnsyncedTasks`, `getTaskById`) are functions. The writes are methods of
  the class `TaskDatabase`, which holds the one table the whole application
  shares.
- **Remote store** (`remote_store.dfy`, module `RemoteStore`). A map from id to
  document. Which remote calls fail (network or server error) is decided by a
  failure oracle: the set `failing` of calls that throw. The "look it up, then
  update it or create it" step both sync engines use is `Push`.
- **Offline sync engine** (`sync_service.dfy`, module `SyncEngine`, class
  `SyncService`), from `src/services/syncService.ts`. It has a retry queue with
  at most one entry per task, a busy flag, a status and an auto-sync timer.
  The queue as values, and the closed forms of what `syncNow` and
  `processSyncQueue` leave in it, are in `sync_queue.dfy` (module
  `SyncQueue`). The walk over unsynced records that both engines share is in
  `propagation.dfy` (module `Propagation`).
- **Earlier sync engine** (`legacy_sync_service.dfy`, module `LegacySync`), from
  `src2/services/syncService.ts`. It has no queue and no busy flag, and shows a
  notification with the number of records fetched.
- **Task slice**, first variant (`task_slice.dfy`, module `TaskSlice`), from
  `src/store/slices/taskSlice.ts`. The state `TaskListState`, its reducers, and
  the thunks. A thunk writes locally, starts the remote call without awaiting
  it, and returns. The started call is the value `Detached`, and `Settle` runs
  it later.
- **Task slice**, awaiting variant (`awaiting_task_slice.dfy`, module
  `AwaitingTaskSlice`), from `src3/store/slices/taskSlice.ts`. Its thunks await
  the remote call, so the payload reports the outcome.
- **Auth slice** (`auth_slice.dfy`), from `src3/store/slices/authSlice.ts`.
- **Theme slice** (`theme_slice.dfy`), from `src/store/slices/themeSlice.ts`.
- **List helpers** (`helpers.dfy`) and **form validators** (`validators.dfy`),
  from `src/utils`.
- **Record types** (`task_types.dfy`): `Task`, `TaskFormData`, the
  `Partial<Task>` patch and its spread merge `Apply`.

Every `await` is taken to be atomic, so the model is sequential. A run of a
sync engine is specified against closed-form functions of the state it
started from. For example, after `syncNow`:

- the local table is `MarkedSynced(old, Succeeded(...))`;
- the documents are `Pushed(old docs, old table, Succeeded(...))`;
- the queue is `WithoutIds(old queue, Failed(...)) + FailedPushes(...)`.

Lemmas about those functions state what the source promises:

- failures are exactly what remains unsynced;
- every unsynced record has an `update` entry in the queue;
- queue entries stay unique;
- the synced flag stays truthful: every record marked synced has a remote
  copy with the same payload (`Consistent`).

Three details of the code that a reader might not expect:

- The sync engines are not the only writers of `synced: true`. In both task
  slices the thunks set it themselves (`markTaskAsSynced` after a successful
  remote write), and the model has that.
- Those marks do not keep the synced-flag invariant. The update thunks send
  only the patch and then mark the whole record synced, and `syncTask` pushes
  the caller's copy and then marks the stored record. A record with an
  unsynced offline edit that is then toggled online ends up marked synced
  while its remote copy lacks the edit. `ToggleMarkCanBreakConsistent`
  exhibits such a state. `Consistent` is proved only for the engines' runs
  (`syncNow`, `processSyncQueue`).
- `validatePassword` compares JavaScript's `length`, which counts UTF-16 code
  units. So "at least six characters" holds only for text inside the Basic
  Multilingual Plane. `PasswordLengthBounds` states both sides.

## Model

| member | source | states |
|---|---|---|
| TaskTypes.Apply | src3/types/task.types.ts:2-12 | The spread merge `{...t, ...p}` keeps the id; for each of the eight patchable fields, a present value replaces the old one and an absent one keeps it; the empty patch changes nothing |
| TaskTypes.WithSyncedFlag | src/store/slices/taskSlice.ts:72 | The patch `{...updates, synced: b}` leaves every record it is applied to with flag `b` |
| TaskTypes.FullPatchIsPut | src/services/syncService.ts:55-56 | Updating a document with every field of a record of the same id leaves exactly that record, so update-if-exists and create both end in a put |
| TaskTypes.ApplyIdempotent | src/database/index.ts:53-61 | Merging the same patch twice is merging it once |
| TaskTypes.SamePayload | src/api/taskService.ts:12-16 | Two records have the same payload exactly when they differ at most in the sync flag and the two timestamps, which the remote create replaces by server time |
| Helpers.Insert | src/utils/helpers.ts:27-31 | Inserting into a newest-first list keeps it newest first and adds exactly the one element |
| Helpers.SortTasksByDate | src/utils/helpers.ts:27-31 | The result is newest first (non-increasing `createdAt`) and a permutation of the input, of the same length; the input is a value and is left alone |
| Helpers.SortIsStable | src/utils/helpers.ts:28-30 | Tasks created at the same instant keep their relative order, because the comparator returns 0 for them |
| Helpers.CreatedAtInsert | src/utils/helpers.ts:28-30 | Insertion puts the new task ahead of the tasks it ties with and keeps their order |
| Helpers.FilterCompletedTasks | src/utils/helpers.ts:33-35 | Exactly the completed tasks remain, and the list does not grow |
| Helpers.FilterIncompleteTasks | src/utils/helpers.ts:37-39 | Exactly the incomplete tasks remain, and the list does not grow |
| Helpers.CompletedKeepsOrder | src/utils/helpers.ts:33-35 | The completed filter distributes over concatenation, so the original order is kept |
| Helpers.IncompleteKeepsOrder | src/utils/helpers.ts:37-39 | The incomplete filter distributes over concatenation, so the original order is kept |
| Helpers.FiltersPartition | src/utils/helpers.ts:33-39 | The two filters split the list: their multisets add up to the input's, and their lengths add up to its length |
| Helpers.FiltersDisjoint | src/utils/helpers.ts:33-39 | No task is in both filtered lists |
| Database.AllTasks | src/database/index.ts:11-27 | Exactly the records whose owner is `userId`, unchanged |
| Database.UnsyncedTasks | src/database/index.ts:73-89 | Exactly the records of `userId` whose flag is false, unchanged |
| Database.UnsyncedAmongAll | src/database/index.ts:73-89 | The unsynced records of a user are among that user's records (`getAllTasks`, lines 11-27), with the same values |
| Database.Updated | src/database/index.ts:53-61 | The merge-update: the patched fields change, `updatedAt` becomes `now` even when the patch carries its own, other records are unchanged, and an absent id leaves the table as it was |
| Database.MarkedSynced | src/database/index.ts:91-99 | Only the flag of the given ids changes, to true; `updatedAt` and the key set stay |
| Database.UnsyncedAfterMarking | src/database/index.ts:91-99 | After marking, the unsynced query loses exactly the marked ids, and the owner query is unchanged |
| Database.UpdateUnsyncs | src/database/index.ts:53-61 | A merge-update with `synced: false` puts the record in its owner's unsynced query |
| Database.DeleteIdempotent | src/database/index.ts:63-71 | Deleting an id twice is deleting it once |
| Database.WritesKeepKeying | src/database/realm/schemas.ts:17 | Update, mark and delete keep every record under its own id, the primary key |
| Database.ToList | src/database/index.ts:13-26 | The materialised query result lists every record of the query exactly once |
| Database.TaskDatabase.constructor | src/database/realm/realmConfig.ts:13-22 | The shared table, keyed by id, starts empty as on a fresh install |
| Database.TaskDatabase.GetAllTasks | src/database/index.ts:11-27 | The result lists exactly the records of `userId` |
| Database.TaskDatabase.GetUnsyncedTasks | src/database/index.ts:73-89 | The result lists exactly the unsynced records of `userId` |
| Database.TaskDatabase.GetTaskById | src/database/index.ts:29-44 | The stored record for `id`, or null exactly when `id` is absent |
| Database.TaskDatabase.CreateTask | src/database/index.ts:46-51 | Inserts under the primary key; succeeds exactly when the id is fresh, and a taken id changes nothing |
| Database.TaskDatabase.UpdateTask | src/database/index.ts:53-61 | The table becomes `Updated(old, id, updates, now)` |
| Database.TaskDatabase.DeleteTask | src/database/index.ts:63-71 | Removes only `id`; an absent id is a no-op |
| Database.TaskDatabase.MarkTaskAsSynced | src/database/index.ts:91-99 | The table becomes `MarkedSynced(old, {id})` |
| Database.TaskDatabase.ClearAllTasks | src/database/index.ts:101-107 | The table is empty |
| RemoteStore.Succeeded | src/services/syncService.ts:52-60 | The ids whose propagation succeeds: a subset that contains every id whose push does not fail |
| RemoteStore.Failed | src/services/syncService.ts:61-64 | The ids whose propagation fails: disjoint from the succeeded ones, and together they make all the ids |
| RemoteStore.Pushed | src/services/syncService.ts:52-60 | After propagation each pushed id holds its local record, and every other document is unchanged |
| RemoteStore.PushKeepsConsistent | src/services/syncService.ts:52-60 | Pushing some records and marking exactly those synced keeps every record marked synced backed by a remote copy with the same payload |
| RemoteStore.Consistent | src/services/syncService.ts:52-60 | The synced-flag invariant: every local record marked synced has a remote document with the same payload; a table with no synced record satisfies it against any documents |
| RemoteStore.RemoteView | src/api/taskService.ts:54-75 | The owner's documents, each converted with `synced: true` |
| RemoteStore.RemoteTaskStore.constructor | src/api/firebaseConfig.ts:11-14 | The `tasks` collection starts with no documents, keyed by id, and the failing calls are the given oracle |
| RemoteStore.RemoteTaskStore.GetTask | src/api/taskService.ts:83-108 | A failure, null exactly when the document is absent, or the document with `synced: true` |
| RemoteStore.RemoteTaskStore.CreateTask | src/api/taskService.ts:8-22 | Create is a put by id; on failure nothing changes |
| RemoteStore.RemoteTaskStore.UpdateTask | src/api/taskService.ts:25-38 | Merges into an existing document; a missing document makes the call fail and changes nothing |
| RemoteStore.RemoteTaskStore.DeleteTask | src/api/taskService.ts:41-51 | Removes the document; deleting a missing one succeeds |
| RemoteStore.RemoteTaskStore.Push | src/services/syncService.ts:54-60 | Look up, then update if present or create: on success the document is the local record; on any failure nothing changes |
| RemoteStore.RemoteTaskStore.GetUserTasks | src/api/taskService.ts:54-80 | Fails exactly when the list call fails; otherwise exactly the owner's documents with `synced: true`, newest first |
| Propagation.SyncedIdsAreSucceeded | src/services/syncService.ts:52-65 | The ids a walk over a listing marks, gathered in order, are the ids whose push succeeds |
| Propagation.LastIdIsNew | src/services/syncService.ts:52 | In a listing with distinct ids, the last id is absent from the prefix |
| Propagation.ListingStep | src/services/syncService.ts:52 | The next record of a listing is new to the records before it and is the stored record |
| Propagation.PushMarkStep | src/services/syncService.ts:53-60 | One push-and-mark step keeps the walk in closed form, and whether it fails depends only on the documents the walk started from |
| Propagation.WalkOutcome | src/services/syncService.ts:52-65 | After a walk over the unsynced records, exactly the records whose push failed stay unsynced, and an empty listing changes nothing |
| SyncQueue.WithoutIds | src/services/syncService.ts:76 | The filter keeps exactly the entries whose id is not removed |
| SyncQueue.WithoutIdsConcat | src/services/syncService.ts:76 | The filter distributes over concatenation, so order is kept |
| SyncQueue.WithoutIdsTwice | src/services/syncService.ts:76 | Filtering twice is filtering by the union once |
| SyncQueue.WithoutIdsNoop | src/services/syncService.ts:76 | A queue without the ids is left unchanged |
| SyncQueue.WithoutIdsUnique | src/services/syncService.ts:76 | Filtering keeps the ids distinct |
| SyncQueue.Enqueued | src/services/syncService.ts:75-78 | After `addToSyncQueue(id, a)` the last entry is `{id, a}` |
| SyncQueue.EnqueuedReplacesEntry | src/services/syncService.ts:75-78 | After `addToSyncQueue(id, a)` the only entry for `id` is the last one, with action `a`, and the other entries are as before, in the same order |
| SyncQueue.EnqueuedKeepsUnique | src/services/syncService.ts:76-77 | `addToSyncQueue` keeps at most one entry per task id |
| SyncQueue.EnqueuedCollapses | src/services/syncService.ts:75-78 | Two enqueues for the same id leave what the later one alone leaves |
| SyncQueue.FailedPushes | src/services/syncService.ts:61-64 | The retry entries `syncNow` appends number at most one per record |
| SyncQueue.FailedPushesMembers | src/services/syncService.ts:61-64 | Those entries are exactly the `update` entries of the records whose push fails |
| SyncQueue.QueueAfterFailure | src/services/syncService.ts:61-64 | One more failure fits the closed form of the queue |
| SyncQueue.QueueAfterPushesClosed | src/services/syncService.ts:52-65 | The queue after `syncNow`'s loop: the old entries of the failed records are dropped, and one `update` entry per failure is appended in listing order |
| SyncQueue.ClosedFormStep | src/services/syncService.ts:52-65 | The closed form extends by one record new to the prefix |
| SyncQueue.FailedItems | src/services/syncService.ts:87-106 | The entries of a retry pass that fail are at most the entries retried |
| SyncQueue.PushedIds | src/services/syncService.ts:94-100 | The ids whose update entry propagates are stored locally and come from the queue |
| SyncQueue.DeletedIds | src/services/syncService.ts:90-92 | The ids whose delete entry reaches the remote store come from the queue |
| SyncQueue.NextEntryIsNew | src/services/syncService.ts:87 | The next entry of a queue with distinct ids is new to the entries before it |
| SyncQueue.FailedItemsMembers | src/services/syncService.ts:102-105 | After a retry pass the queue holds exactly the entries that failed |
| SyncQueue.FailedItemsIds | src/services/syncService.ts:102-105 | The re-queued ids were in the snapshot |
| SyncQueue.FailedItemsUnique | src/services/syncService.ts:102-105 | The re-queued entries have distinct ids |
| SyncQueue.OrphanUpdateDropped | src/services/syncService.ts:93-101 | An update entry whose local record is gone is not re-queued and neither writes nor deletes any document |
| SyncQueue.DeletedNeedsDeleteEntry | src/services/syncService.ts:90-92 | Only a delete entry deletes a document |
| SyncEngine.SyncNowDone | src/services/syncService.ts:52-65 | Once the whole listing is walked, the marked ids and the queue are in the closed form over the unsynced records |
| SyncEngine.SyncNowQueuesTheFailures | src/services/syncService.ts:52-69 | After `syncNow` a record stays unsynced exactly when its push failed, each has an `update` entry in the queue, and every new entry is for such a record |
| SyncEngine.CleanSyncConverges | src/services/syncService.ts:52-60 | A run in which every push succeeds leaves nothing of the user unsynced and keeps the synced flag truthful |
| SyncEngine.ProcessStep | src/services/syncService.ts:87-106 | One retry step keeps `processSyncQueue`'s pass in closed form |
| SyncEngine.UniqueSnoc | src/services/syncService.ts:104 | Pushing back an entry with a new id keeps the ids distinct |
| SyncEngine.SyncService.constructor | src/services/syncService.ts:9-11 | Empty queue, not syncing, idle, no timer |
| SyncEngine.SyncService.GetSyncQueueStatus | src/services/syncService.ts:166 | The count is the number of entries, and the entries and flag are the engine's |
| SyncEngine.SyncService.IsOnline | src/services/syncService.ts:157-164 | The connectivity the engine acts on: the field `online`, which stands for `isConnected && isInternetReachable`, with a failing fetch read as offline |
| SyncEngine.SyncService.AddToSyncQueue | src/services/syncService.ts:75-78 | The queue becomes `Enqueued(old, id, action)` and keeps distinct ids |
| SyncEngine.SyncService.StartAutoSync | src/services/syncService.ts:27-33 | The running interval is cleared before a new one with the given user and period starts |
| SyncEngine.SyncService.StartDefaultAutoSync | src/services/syncService.ts:27 | `startAutoSync(userId)` with the period left out installs a timer for that user with the default period of 30000 ms |
| SyncEngine.SyncService.StopAutoSync | src/services/syncService.ts:35-40 | The interval is cleared and the handle is null; with no timer nothing changes |
| SyncEngine.SyncService.SyncNow | src/services/syncService.ts:42-73 | With the busy flag set, nothing changes. A failed read gives `error` and nothing else changes. Otherwise every unsynced record is pushed, the succeeded ones are marked, and failures are queued as `update` entries. The status is then `synced` and the busy flag is back to false, including for an empty listing. The synced flag stays truthful |
| SyncEngine.SyncService.SyncOne | src/services/syncService.ts:53-64 | One record: push and mark on success, enqueue `{id, 'update'}` on failure |
| SyncEngine.SyncService.PushUnsynced | src/services/syncService.ts:45-65 | The run's body over the listed unsynced records, in closed form |
| SyncEngine.SyncService.PushAll | src/services/syncService.ts:52-65 | The loop over a listing, in closed form |
| SyncEngine.SyncService.ProcessSyncQueue | src/services/syncService.ts:80-108 | Busy, empty queue or offline: nothing changes. Otherwise every snapshot entry is retried once, the queue becomes exactly the failed entries, pushed records are marked synced and delete entries remove documents |
| SyncEngine.SyncService.RetryAll | src/services/syncService.ts:87-106 | The loop over the snapshot, in closed form |
| SyncEngine.SyncService.Requeue | src/services/syncService.ts:104 | A failed entry goes back at the end |
| SyncEngine.SyncService.RetryOne | src/services/syncService.ts:88-105 | One entry: a delete removes the document; an update pushes the local record if it still exists and marks it; a failure changes nothing |
| SyncEngine.SyncService.SyncTask | src/services/syncService.ts:110-130 | The local flag is cleared first, with a new `updatedAt`. Offline or on failure, `{id, 'update'}` is enqueued; otherwise the copy is pushed and marked. The answer is always true |
| SyncEngine.SyncService.DeleteTask | src/services/syncService.ts:132-143 | Online with success, the document is removed; offline or on failure, `{id, 'delete'}` is enqueued |
| SyncEngine.SyncService.OnInitialNetworkChange | src/services/syncService.ts:15-25 | Offline gives `idle` with nothing else changed; online leaves the status and has `processSyncQueue`'s outcome: nothing changes when busy or the queue is empty, otherwise the queue is exactly the failed entries and the table and documents are in closed form |
| SyncEngine.SyncService.OnNetworkChange | src/services/syncService.ts:145-155 | Offline gives `idle` with nothing else changed; online chains the closed forms of `processSyncQueue` (old state to the state between the calls) and `syncNow` (that state to the new one), and afterwards every unsynced record of the user has an `update` entry |
| SyncEngine.SyncService.AutoSyncTick | src/services/syncService.ts:29-31 | Offline or busy, nothing changes; online, the tick has `syncNow`'s outcome for the timer's user: `error` on a failed read, otherwise `synced` with the table, documents and queue in closed form, and the synced-flag invariant kept |
| LegacySync.RerunAfterCleanRunIsIdle | src2/services/syncService.ts:36-46 | After a run in which every push succeeded, a second run finds nothing unsynced and changes nothing |
| LegacySync.LegacySyncService.constructor | src2/services/syncService.ts:10 | Idle, no timer, no notification |
| LegacySync.LegacySyncService.IsOnline | src2/services/syncService.ts:94-97 | The connectivity the engine acts on: the field `online`, which stands for `isConnected`, false when unknown |
| LegacySync.LegacySyncService.StartAutoSync | src2/services/syncService.ts:14-25 | The running interval is cleared before a new one starts |
| LegacySync.LegacySyncService.StopAutoSync | src2/services/syncService.ts:28-33 | The interval is cleared and the handle is null; with no timer nothing changes |
| LegacySync.LegacySyncService.SyncNow | src2/services/syncService.ts:36-76 | A failed read gives `error`. An empty listing gives `synced` with no remote call. Otherwise every unsynced record is pushed and marked on success; exactly the failures stay unsynced and nothing is queued. The status is `synced`, and one notification carries the number of records fetched, failures included |
| LegacySync.LegacySyncService.Finish | src2/services/syncService.ts:68-71 | `synced`, then the notification when anything was fetched; a failing notification gives `error` |
| LegacySync.LegacySyncService.PushUnsynced | src2/services/syncService.ts:39-66 | The count fetched, and the closed-form state after the loop |
| LegacySync.LegacySyncService.PushAll | src2/services/syncService.ts:49-66 | The loop over a listing, in closed form |
| LegacySync.LegacySyncService.OnNetworkChange | src2/services/syncService.ts:79-91 | Offline gives `idle` with nothing else changed; online has `syncNow`'s outcome: `error` on a failed read, otherwise the successes marked and pushed, exactly the failures left unsynced, and the status and notification given by the fetched count |
| LegacySync.LegacySyncService.AutoSyncTick | src2/services/syncService.ts:19-23 | Not connected, nothing changes; connected, the tick has `syncNow`'s outcome for the timer's user, status and notification included |
| TaskSlice.FindIndex | src/store/slices/taskSlice.ts:170 | The first index with the id, or -1 exactly when there is none |
| TaskSlice.MergedAt | src/store/slices/taskSlice.ts:169-183 | Only the first record with the id changes, merged with the updates. Length, ids and every other record stay, and a list without the id is unchanged |
| TaskSlice.Without | src/store/slices/taskSlice.ts:175-177 | Exactly the records with another id remain |
| TaskSlice.WithoutKeepsOrder | src/store/slices/taskSlice.ts:176 | The delete filter distributes over concatenation, so the order of the rest is kept |
| TaskSlice.WithoutRemovesAll | src/store/slices/taskSlice.ts:176 | No record with the id is left, and deleting again changes nothing |
| TaskSlice.WithoutNoop | src/store/slices/taskSlice.ts:176 | A list without the id is unchanged |
| TaskSlice.TaskListState.constructor | src/store/slices/taskSlice.ts:8-13 | No tasks, not loading, no error, idle |
| TaskSlice.TaskListState.ClearError | src/store/slices/taskSlice.ts:143-145 | The error is cleared |
| TaskSlice.TaskListState.SetSyncStatus | src/store/slices/taskSlice.ts:146-148 | The status is the payload |
| TaskSlice.TaskListState.FetchPending | src/store/slices/taskSlice.ts:151-154 | Loading, no error |
| TaskSlice.TaskListState.FetchFulfilled | src/store/slices/taskSlice.ts:155-158 | Not loading; the list is the payload |
| TaskSlice.TaskListState.FetchRejected | src/store/slices/taskSlice.ts:159-162 | Not loading; the error is the payload |
| TaskSlice.TaskListState.CreateFulfilled | src/store/slices/taskSlice.ts:163-165 | The new task is at index 0, the list grows by one, and the rest follows unchanged |
| TaskSlice.TaskListState.CreateRejected | src/store/slices/taskSlice.ts:166-168 | The error is the payload |
| TaskSlice.TaskListState.UpdateFulfilled | src/store/slices/taskSlice.ts:169-174 | The list becomes `MergedAt(old, id, updates)` |
| TaskSlice.TaskListState.DeleteFulfilled | src/store/slices/taskSlice.ts:175-177 | The list becomes `Without(old, id)` |
| TaskSlice.TaskListState.ToggleFulfilled | src/store/slices/taskSlice.ts:178-183 | The same merge as the update reducer |
| TaskSlice.TaskListState.SyncPending | src/store/slices/taskSlice.ts:184-186 | `syncing` |
| TaskSlice.TaskListState.SyncFulfilled | src/store/slices/taskSlice.ts:187-190 | `synced`, and the list is the payload |
| TaskSlice.TaskListState.SyncRejected | src/store/slices/taskSlice.ts:191-193 | `error` |
| TaskSlice.NewTask | src/store/slices/taskSlice.ts:40-50 | The new record is not completed and not synced, owned by `userId`, created and updated at `now`, with the form's fields and an absent reminder as null |
| TaskSlice.ToggleUpdates | src/store/slices/taskSlice.ts:106 | The patch sets exactly `completed` and clears `synced` |
| TaskSlice.CreateRemotely | src/store/slices/taskSlice.ts:53-57 | The remote create, and on success the local mark |
| TaskSlice.UpdateRemotely | src/store/slices/taskSlice.ts:74-78 | The remote update, and on success the local mark |
| TaskSlice.Settle | src/store/slices/taskSlice.ts:53-112 | A started call (the `.then` chains at lines 53-57, 74-78 and 108-112, the delete at 91) runs to its end: the remote write, then on success the local mark; a delete touches only the remote store; a failure is swallowed |
| TaskSlice.FetchTasks | src/store/slices/taskSlice.ts:15-31 | Fulfilled with exactly the local records of the user |
| TaskSlice.CreateTask | src/store/slices/taskSlice.ts:33-63 | A fresh id: the new record is written locally, returned still unsynced, and its remote create is started. A taken id: rejected, nothing written, nothing started |
| TaskSlice.UpdateTask | src/store/slices/taskSlice.ts:65-84 | The local record is merged with `synced: false`, and the payload carries `synced: false` whatever the remote outcome; the remote update of `updates` is started |
| TaskSlice.DeleteTask | src/store/slices/taskSlice.ts:86-97 | The record is deleted locally, the id is returned, and the remote delete is started |
| TaskSlice.ToggleTaskComplete | src/store/slices/taskSlice.ts:99-118 | `{completed, synced: false}` is written locally and returned; the remote update of `{completed}` is started |
| TaskSlice.Created | src/store/slices/taskSlice.ts:127-128 | The ids whose remote create succeeds |
| TaskSlice.CreateStep | src/store/slices/taskSlice.ts:126-129 | One create-and-mark step keeps the loop of `syncTasks` in closed form |
| TaskSlice.SyncTasks | src/store/slices/taskSlice.ts:120-137 | Every unsynced record is created remotely with no existence test and marked on success, and failures are swallowed. The thunk is fulfilled exactly when the list call succeeds, with the owner's documents newest first, one entry per document |
| TaskSlice.CreateAll | src/store/slices/taskSlice.ts:125-130 | The loop over the unsynced listing, in closed form |
| TaskSlice.CreatedRecordsListed | src/store/slices/taskSlice.ts:125-134 | Every record `syncTasks` created is in the list it answers, as the remote copy with `synced: true` |
| AwaitingTaskSlice.CreatePending | src3/store/slices/taskSlice.ts:195-198 | Loading, no error |
| AwaitingTaskSlice.CreateFulfilled | src3/store/slices/taskSlice.ts:199-202 | Not loading; the new task comes first |
| AwaitingTaskSlice.CreateRejected | src3/store/slices/taskSlice.ts:203-206 | Not loading; the error is the payload |
| AwaitingTaskSlice.FetchTasks | src3/store/slices/taskSlice.ts:17-36 | The owner's remote list, newest first and one entry per document, when the list call succeeds; the local records otherwise |
| AwaitingTaskSlice.CreateTask | src3/store/slices/taskSlice.ts:38-73 | The record is written locally first. On remote success it is marked and returned with `synced: true`; otherwise it is returned with `synced: false`. A taken id is rejected and nothing is written |
| AwaitingTaskSlice.UpdateTask | src3/store/slices/taskSlice.ts:75-98 | The local record is merged with `synced: false`; the returned flag is true exactly when the remote update succeeded, in which case the record is marked |
| AwaitingTaskSlice.DeleteTask | src3/store/slices/taskSlice.ts:100-120 | Deleted locally and returned; the remote delete is awaited and its failure swallowed |
| AwaitingTaskSlice.ToggleTaskComplete | src3/store/slices/taskSlice.ts:122-141 | `{completed, synced: false}` is written locally; the payload's flag is true exactly when the remote update succeeded |
| AwaitingTaskSlice.DetachedCreateMatchesAwaited | src3/store/slices/taskSlice.ts:58-68 | The detached create of the first slice, once settled, leaves the same local table as the awaiting create |
| AwaitingTaskSlice.UpdatePayloadMatchesLocal | src3/store/slices/taskSlice.ts:83-92 | Merging the payload into the record as it stood gives the record the thunk left, whichever way the remote call went |
| AwaitingTaskSlice.ToggleMarkCanBreakConsistent | src3/store/slices/taskSlice.ts:125-136 | A state where the synced-flag invariant holds and, after an online toggle's remote `{completed}` update and local mark, no longer holds: the record is marked synced with an offline title edit the remote copy lacks |
| AuthSlice.AuthState.constructor | src3/store/slices/authSlice.ts:8-13 | No user, not authenticated, not loading, no error |
| AuthSlice.AuthState.SetUser | src3/store/slices/authSlice.ts:68-71 | The user is the payload, and authenticated exactly when it is non-null |
| AuthSlice.AuthState.ClearError | src3/store/slices/authSlice.ts:72-74 | The error is cleared |
| AuthSlice.AuthState.SignInPending | src3/store/slices/authSlice.ts:78-81 | Loading, no error, for `signUp` and likewise `login` (lines 93-96) |
| AuthSlice.AuthState.SignInFulfilled | src3/store/slices/authSlice.ts:82-86 | Not loading; the user is the payload and authenticated, for `signUp` and likewise `login` (lines 97-101) |
| AuthSlice.AuthState.SignInRejected | src3/store/slices/authSlice.ts:87-90 | Not loading; the error is the payload; the user and the flag stay, for `signUp` and likewise `login` (lines 102-105) |
| AuthSlice.AuthState.LogoutPending | src3/store/slices/authSlice.ts:108-110 | Only `loading` changes |
| AuthSlice.AuthState.LogoutFulfilled | src3/store/slices/authSlice.ts:111-116 | No user, not authenticated, not loading, no error |
| AuthSlice.AuthState.LogoutRejected | src3/store/slices/authSlice.ts:117-120 | Not loading; the error is the payload; still signed in |
| AuthSlice.AuthState.CheckAuthStateFulfilled | src3/store/slices/authSlice.ts:123-126 | The user is the payload, and authenticated exactly when it is non-null |
| ThemeSlice.Toggled | src/store/slices/themeSlice.ts:24 | The other mode |
| ThemeSlice.ToggleTwice | src/store/slices/themeSlice.ts:24 | Toggling twice gives the mode back |
| ThemeSlice.ThemeState.constructor | src/store/slices/themeSlice.ts:11-13 | The mode starts light |
| ThemeSlice.ThemeState.SetThemeMode | src/store/slices/themeSlice.ts:19-22 | The mode is the payload, persisted under `@theme_mode` |
| ThemeSlice.ThemeState.ToggleTheme | src/store/slices/themeSlice.ts:23-26 | The mode flips, and the new mode is persisted under `@theme_mode` |
| Validators.IsWhitespace | src/utils/validators.ts:3 | JavaScript's `\s` class, which `trim` also strips; it holds neither `@` nor `.`, and lies inside the Basic Multilingual Plane |
| Validators.MatchesEmailPattern | src/utils/validators.ts:3 | The language of `^[^\s@]+@[^\s@]+\.[^\s@]+$`; a string in it has at least five characters and does not start or end with white space |
| Validators.ValidateEmail | src/utils/validators.ts:2-5 | `validateEmail`: an accepted address has at least five characters, contains `@` and does not start with it; it agrees with the pattern by `ValidateEmailMatchesPattern` |
| Validators.CountAt | src/utils/validators.ts:3 | The number of `@`, zero exactly when there is none |
| Validators.IndexOfAt | src/utils/validators.ts:3 | The first `@`, or the length when there is none |
| Validators.CountAtSplit | src/utils/validators.ts:3 | The count of `@` splits at the first `@` |
| Validators.ValidateEmailMatchesPattern | src/utils/validators.ts:2-5 | `validateEmail` accepts exactly the language of the pattern `^[^\s@]+@[^\s@]+\.[^\s@]+$`: no white space, one `@` with something before it, and after it a `.` that is neither first nor last |
| Validators.CheckedEmailMatches | src/utils/validators.ts:2-5 | A string `validateEmail` accepts matches the pattern |
| Validators.MatchingEmailChecks | src/utils/validators.ts:2-5 | A string that matches the pattern is accepted by `validateEmail` |
| Validators.SplitChecks | src/utils/validators.ts:3 | A split the pattern accepts is accepted by `validateEmail` |
| Validators.OnlyAt | src/utils/validators.ts:3 | A string whose only `@` is at `i` has its first `@` at `i` and exactly one |
| Validators.RunChars | src/utils/validators.ts:3 | The characters of a `[^\s@]+` run are neither `@` nor white space |
| Validators.Utf16Length | src/utils/validators.ts:8 | JavaScript's `length` lies between the character count and twice it, and equals it inside the Basic Multilingual Plane |
| Validators.ValidatePassword | src/utils/validators.ts:7-9 | `validatePassword`: six characters always pass, and a passing password has at least three |
| Validators.PasswordLengthBounds | src/utils/validators.ts:7-9 | Six characters always pass and fewer than three never do; inside the Basic Multilingual Plane the rule is exactly `\|p\| >= 6` |
| Validators.TrimStart | src/utils/validators.ts:12 | A suffix of the input that starts with no white space, and only white space was dropped |
| Validators.TrimEnd | src/utils/validators.ts:12 | A prefix of the input that ends with no white space, and only white space was dropped |
| Validators.Trim | src/utils/validators.ts:12 | `String.prototype.trim`: the result is the slice of the input between its leading and its trailing white space, everything cut off is white space, and neither end of a non-empty result is white space |
| Validators.TrimWithoutWhitespace | src/utils/validators.ts:12 | A string with no white space is its own trim |
| Validators.ValidateTaskTitle | src/utils/validators.ts:11-13 | `validateTaskTitle`: a valid title is non-empty, and a title that starts with a character other than white space is valid |
| Validators.TaskTitleNeedsNonBlank | src/utils/validators.ts:11-13 | A title is valid exactly when it has a character that is not white space |
| Validators.ValidatePasswordMatch | src/utils/validators.ts:15-20 | `validatePasswordMatch`: equal strings match, and matching strings have the same JavaScript length |
| Validators.PasswordMatchIsEquivalence | src/utils/validators.ts:15-20 | Matching is reflexive, symmetric and transitive |

## Left out

- User interface: screens, components, navigation, theme tables and the
  date formatters they use. They only render.
- Firestore and Firebase Auth are not called. The remote store is a map keyed
  by id with a failure oracle (`RemoteTaskStore.failing`). Server-side
  timestamps, which replace `createdAt` and `updatedAt` in the remote copy,
  are not modelled. The synced-flag invariant therefore compares payload
  fields only (`SamePayload`).
- `RemoteStore.RemoteTaskStore.GetUserTasks`: the remote list converts a
  missing reminder to `undefined`. The model keeps the stored value.
- The authentication service behind the auth thunks is not modelled. Its
  outcomes arrive as reducer payloads. The cases `checkAuthState.pending` and
  `checkAuthState.rejected` have no reducer, so the slice is unchanged by
  them.
- Error messages: a rejection carries the message text only as the reducer
  parameter `message`. Which text the remote store or Realm produces is not
  modelled.
- Local notifications: the earlier engine records only the count it would
  show (`notifications`). A failing notification is the input `notifyFails`.
- Connectivity is the field `online`, set by the network listener's inputs.
  NetInfo itself, `isOnline`'s `fetch` of the state, and `store.ts` are not
  modelled.
- Concurrency: every `await` is atomic. The listener's `processSyncQueue`
  followed by `syncNow` (src/services/syncService.ts:148-149) is taken to run
  one after the other, not interleaved. A detached remote call of the first
  task slice runs whole when `Settle` is called, after the thunk has
  returned. The model does not interleave it with other writes.
- `TaskSlice.FetchTasks`: the remote list it requests is discarded and its
  failure swallowed, so that call is left out.
- Timers: `setInterval` is not modelled. Only the replacement and clearing of
  the handle are modelled, plus one tick as `AutoSyncTick`.
- Randomness and the clock: `generateId` is the parameter `id`, and
  `new Date()` is the parameter `now`. `createTask` reads the clock twice; the
  model uses one `now` for both fields.
- `debounce`, the `toLocale*` formatters, `DatabaseService.initialize` and the
  Realm configuration are not modelled. `TaskDatabase` starts empty, as on a
  fresh install; records persisted by an earlier launch are not modelled.
- A throwing Realm read or write (an uninitialised database, a failed write
  transaction) is not modelled. The thunks' rejected paths other than
  `createTask`'s taken id therefore do not occur: `TaskSlice.FetchTasks` and
  `AwaitingTaskSlice.FetchTasks` always fulfil, and the `UpdateTask`,
  `DeleteTask` and `ToggleTaskComplete` thunks of both slices always fulfil.
  `TaskSlice.SyncTasks` rejects only when the remote list call fails. The
  reducers for those rejections (`FetchRejected`, `SyncRejected`) are
  modelled on their own.
- `TaskTypes.TaskPatch` has no `id` field, though `Partial<Task>` allows one.
  A patch carrying an id would rewrite the record's id (`Object.assign` in
  src/database/index.ts:58, the spread in src/store/slices/taskSlice.ts:172)
  and so break the keying by primary key. No caller in the source passes one
  (the task detail screens build the patch from form fields only).
- Logging (`console.*`) is not modelled.
- Theme persistence: `AsyncStorage` is the ghost map `ThemeState.storage`.
  The write is taken to succeed at once.
- Strings are sequences of Unicode scalar values. JavaScript strings are
  UTF-16, which matters only for `length` (`Utf16Length`).
