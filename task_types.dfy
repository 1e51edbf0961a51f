/**
 * Record types shared by the local store, the remote store, the sync engines
 * and the Redux slices: the task record, its partial-update form and the
 * observable sync status.
 */
module TaskTypes {

  datatype Option<T> = None | Some(value: T)

  /** A `Date`, as milliseconds since the epoch. */
  type Timestamp = int

  /** One task record; `reminderTime == None` stands for `null`. */
  datatype Task = Task(
    id: string,
    title: string,
    description: string,
    completed: bool,
    userId: string,
    createdAt: Timestamp,
    updatedAt: Timestamp,
    reminderTime: Option<Timestamp>,
    synced: bool)

  /** What the task form hands to `createTask`. */
  datatype TaskFormData = TaskFormData(
    title: string,
    description: string,
    reminderTime: Option<Timestamp>)

  /**
   * `Partial<Task>`: every field may be left out (`None`). A present
   * `reminderTime` carries the new, possibly null, reminder.
   */
  datatype TaskPatch = TaskPatch(
    title: Option<string>,
    description: Option<string>,
    completed: Option<bool>,
    userId: Option<string>,
    createdAt: Option<Timestamp>,
    updatedAt: Option<Timestamp>,
    reminderTime: Option<Option<Timestamp>>,
    synced: Option<bool>)

  /** The observable status of synchronisation. */
  datatype SyncStatus = Idle | Syncing | Synced | Error

  const EmptyPatch := TaskPatch(None, None, None, None, None, None, None, None)

  function Pick<T>(patched: Option<T>, current: T): T {
    if patched.Some? then patched.value else current
  }

  /**
   * Spread merge `{...t, ...p}`: every field present in `p` replaces the one
   * of `t`; the id is never part of a patch.
   */
  function Apply(t: Task, p: TaskPatch): (r: Task)
    ensures r.id == t.id
    ensures p.title.Some? ==> r.title == p.title.value
    ensures p.title.None? ==> r.title == t.title
    ensures p.description.Some? ==> r.description == p.description.value
    ensures p.description.None? ==> r.description == t.description
    ensures p.completed.Some? ==> r.completed == p.completed.value
    ensures p.completed.None? ==> r.completed == t.completed
    ensures p.userId.Some? ==> r.userId == p.userId.value
    ensures p.userId.None? ==> r.userId == t.userId
    ensures p.createdAt.Some? ==> r.createdAt == p.createdAt.value
    ensures p.createdAt.None? ==> r.createdAt == t.createdAt
    ensures p.updatedAt.Some? ==> r.updatedAt == p.updatedAt.value
    ensures p.updatedAt.None? ==> r.updatedAt == t.updatedAt
    ensures p.reminderTime.Some? ==> r.reminderTime == p.reminderTime.value
    ensures p.reminderTime.None? ==> r.reminderTime == t.reminderTime
    ensures p.synced.Some? ==> r.synced == p.synced.value
    ensures p.synced.None? ==> r.synced == t.synced
    ensures p == EmptyPatch ==> r == t
  {
    Task(t.id, Pick(p.title, t.title), Pick(p.description, t.description),
         Pick(p.completed, t.completed), Pick(p.userId, t.userId),
         Pick(p.createdAt, t.createdAt), Pick(p.updatedAt, t.updatedAt),
         Pick(p.reminderTime, t.reminderTime), Pick(p.synced, t.synced))
  }

  /** The patch `{...p, synced: b}`. */
  function WithSyncedFlag(p: TaskPatch, b: bool): (r: TaskPatch)
    ensures forall t :: Apply(t, r).synced == b
  {
    p.(synced := Some(b))
  }

  /** A whole record used as a patch, as in `updateTask(task.id, task)`. */
  function FullPatch(t: Task): TaskPatch {
    TaskPatch(Some(t.title), Some(t.description), Some(t.completed), Some(t.userId),
              Some(t.createdAt), Some(t.updatedAt), Some(t.reminderTime), Some(t.synced))
  }

  /**
   * Updating a record with a whole record of the same id leaves exactly that
   * record: an update with the full payload is a put.
   */
  lemma FullPatchIsPut(d: Task, t: Task)
    requires d.id == t.id
    ensures Apply(d, FullPatch(t)) == t
  {
  }

  /** Applying the same patch twice is applying it once. */
  lemma ApplyIdempotent(t: Task, p: TaskPatch)
    ensures Apply(Apply(t, p), p) == Apply(t, p)
  {
  }

  /** The payload fields, ignoring the sync flag and the server-set timestamps. */
  predicate SamePayload(a: Task, b: Task)
    ensures SamePayload(a, b) <==> a.(synced := b.synced, createdAt := b.createdAt, updatedAt := b.updatedAt) == b
  {
    a.id == b.id && a.title == b.title && a.description == b.description &&
    a.completed == b.completed && a.userId == b.userId && a.reminderTime == b.reminderTime
  }
}
