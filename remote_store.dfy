/**
 * The remote store as the sync code sees it: a collection of documents keyed
 * by task id. `createTask` is a put by id, `updateTask` merges into an
 * existing document (and fails on a missing one), `getTask` answers null for
 * a missing document, `deleteTask` of a missing document succeeds. Whether a
 * call fails (network or server error) is decided by an oracle: the set of
 * calls that fail. Server-side timestamps are not modelled.
 */
module RemoteStore {
  import opened TaskTypes
  import Database
  import Helpers

  /** One kind of remote call, with the id (or owner) it is about. */
  datatype RemoteCall =
    | GetCall(id: string)
    | CreateCall(id: string)
    | UpdateCall(id: string)
    | DeleteCall(id: string)
    | ListCall(userId: string)

  /** The outcome of `getTask`: a thrown error, null, or the document. */
  datatype Fetched = FetchFailed | Absent | Present(task: Task)

  /**
   * Propagating a record with "get, then update if present, else create"
   * fails when the lookup fails or the branch it picks fails.
   */
  predicate PushFails(docs: map<string, Task>, failing: set<RemoteCall>, id: string) {
    GetCall(id) in failing ||
    (if id in docs then UpdateCall(id) in failing else CreateCall(id) in failing)
  }

  /** The ids among `ids` whose propagation succeeds. */
  function Succeeded(ids: set<string>, docs: map<string, Task>, failing: set<RemoteCall>): (r: set<string>)
    ensures r <= ids
    ensures forall id :: id in ids && !PushFails(docs, failing, id) ==> id in r
  {
    set id | id in ids && !PushFails(docs, failing, id)
  }

  /** The ids among `ids` whose propagation fails. */
  function Failed(ids: set<string>, docs: map<string, Task>, failing: set<RemoteCall>): (r: set<string>)
    ensures r <= ids
    ensures r !! Succeeded(ids, docs, failing)
    ensures r + Succeeded(ids, docs, failing) == ids
  {
    set id | id in ids && PushFails(docs, failing, id)
  }

  /**
   * The documents after the local records `ids` were propagated: each such
   * id now holds the local record, every other document is as it was.
   */
  function Pushed(docs: map<string, Task>, local: Database.Table, ids: set<string>): (r: map<string, Task>)
    requires ids <= local.Keys
    ensures r.Keys == docs.Keys + ids
    ensures forall k :: k in ids ==> r[k] == local[k]
    ensures forall k :: k in docs && k !in ids ==> r[k] == docs[k]
  {
    map k | k in docs.Keys + ids :: if k in ids then local[k] else docs[k]
  }

  /**
   * The synced-flag invariant: every local record marked synced has a remote
   * document with the same payload.
   */
  ghost predicate Consistent(local: Database.Table, docs: map<string, Task>)
    ensures (forall id :: id in local ==> !local[id].synced) ==> Consistent(local, docs)
    ensures Consistent(local, docs) ==> forall id :: id in local && local[id].synced ==> id in docs
  {
    forall id :: id in local && local[id].synced ==> id in docs && SamePayload(docs[id], local[id])
  }

  /**
   * Propagating some records and marking exactly those synced keeps the
   * synced-flag invariant.
   */
  lemma {:induction false} PushKeepsConsistent(local: Database.Table, docs: map<string, Task>, ids: set<string>)
    requires Consistent(local, docs)
    requires ids <= local.Keys
    ensures Consistent(Database.MarkedSynced(local, ids), Pushed(docs, local, ids))
  {
    var l, d := Database.MarkedSynced(local, ids), Pushed(docs, local, ids);
    forall id | id in l && l[id].synced
      ensures id in d && SamePayload(d[id], l[id])
    {
      assert l[id] == local[id].(synced := local[id].synced || id in ids);
      if id in ids {
        assert d[id] == local[id];
      } else {
        assert local[id].synced;
      }
    }
  }

  /** The documents of `userId` as `getUserTasks` converts them (`synced: true`). */
  function RemoteView(docs: map<string, Task>, userId: string): (r: Database.Table)
    ensures r.Keys == Database.AllTasks(docs, userId).Keys
    ensures forall id :: id in r ==> r[id] == docs[id].(synced := true)
  {
    map id | id in docs && docs[id].userId == userId :: docs[id].(synced := true)
  }

  /** The remote task collection. */
  class RemoteTaskStore {
    var docs: map<string, Task>
    /** The oracle: the calls that throw right now. */
    var failing: set<RemoteCall>

    ghost predicate Valid()
      reads this
    {
      Database.KeyedById(docs)
    }

    constructor (failing: set<RemoteCall>)
      ensures Valid() && docs == map[] && this.failing == failing
    {
      docs := map[];
      this.failing := failing;
    }

    /** `getTask`: the document converted with `synced: true`, or null. */
    method GetTask(id: string) returns (r: Fetched)
      ensures r.FetchFailed? <==> GetCall(id) in failing
      ensures !r.FetchFailed? ==> (r.Present? <==> id in docs)
      ensures r.Present? ==> r.task == docs[id].(synced := true)
    {
      if GetCall(id) in failing {
        r := FetchFailed;
      } else if id in docs {
        r := Present(docs[id].(synced := true));
      } else {
        r := Absent;
      }
    }

    /** `createTask`: puts the record under its id. */
    method CreateTask(t: Task) returns (ok: bool)
      requires Valid()
      modifies this`docs
      ensures Valid()
      ensures ok == (CreateCall(t.id) !in failing)
      ensures docs == if ok then old(docs)[t.id := t] else old(docs)
    {
      ok := CreateCall(t.id) !in failing;
      if ok {
        docs := docs[t.id := t];
      }
    }

    /** `updateTask`: merges into an existing document; a missing one throws. */
    method UpdateTask(id: string, updates: TaskPatch) returns (ok: bool)
      requires Valid()
      modifies this`docs
      ensures Valid()
      ensures ok == (UpdateCall(id) !in failing && id in old(docs))
      ensures docs == if ok then old(docs)[id := Apply(old(docs)[id], updates)] else old(docs)
    {
      ok := UpdateCall(id) !in failing && id in docs;
      if ok {
        docs := docs[id := Apply(docs[id], updates)];
      }
    }

    /** `deleteTask`: removes the document; a missing one is no error. */
    method DeleteTask(id: string) returns (ok: bool)
      requires Valid()
      modifies this`docs
      ensures Valid()
      ensures ok == (DeleteCall(id) !in failing)
      ensures docs == if ok then old(docs) - {id} else old(docs)
    {
      ok := DeleteCall(id) !in failing;
      if ok {
        docs := docs - {id};
      }
    }

    /**
     * The propagation both sync engines perform for one record: look the
     * document up, then update it with every field of `t` if it exists,
     * else create it. Any of the calls throwing leaves the store unchanged.
     */
    method Push(t: Task) returns (pushed: bool)
      requires Valid()
      modifies this`docs
      ensures Valid()
      ensures pushed == !PushFails(old(docs), failing, t.id)
      ensures docs == if pushed then old(docs)[t.id := t] else old(docs)
    {
      var fetched := GetTask(t.id);
      pushed := false;
      if fetched.Present? {
        FullPatchIsPut(docs[t.id], t);
        pushed := UpdateTask(t.id, FullPatch(t));
      } else if fetched.Absent? {
        pushed := CreateTask(t);
      }
    }

    /** `getUserTasks`: the owner's documents, newest first, or a thrown error. */
    method GetUserTasks(userId: string) returns (r: Option<seq<Task>>)
      requires Valid()
      ensures r.Some? <==> ListCall(userId) !in failing
      ensures r.Some? ==> |r.value| == |RemoteView(docs, userId)|
      ensures r.Some? ==> forall t :: t in r.value <==> t in RemoteView(docs, userId).Values
      ensures r.Some? ==> Helpers.NewestFirst(r.value)
    {
      if ListCall(userId) in failing {
        return None;
      }
      var view := RemoteView(docs, userId);
      var found := Database.ToList(view);
      var sorted := Helpers.SortTasksByDate(found);
      forall t ensures t in sorted <==> t in view.Values {
        assert t in sorted <==> t in multiset(found);
        if t in view.Values {
          var k :| k in view && view[k] == t;
          assert t.id == k;
          assert k in Database.IdsOf(found);
          var x :| x in found && x.id == k;
        }
      }
      r := Some(sorted);
    }
  }
}
