/**
 * Propagation of local records to the remote store, as both sync engines do
 * it: for each record, look the document up, then update it if it exists,
 * else create it, and mark the record synced when that succeeds. The
 * functions give the state after a walk over a listing in closed form.
 */
module Propagation {
  import opened TaskTypes
  import opened Database
  import opened RemoteStore

  /** The ids among `ts` whose propagation succeeds, gathered in list order. */
  function SyncedIds(ts: seq<Task>, docs: map<string, Task>, failing: set<RemoteCall>): set<string> {
    if ts == [] then {}
    else
      var last := ts[|ts| - 1];
      SyncedIds(ts[..|ts| - 1], docs, failing) + (if PushFails(docs, failing, last.id) then {} else {last.id})
  }


  lemma SyncedIdsSnoc(ts: seq<Task>, t: Task, docs: map<string, Task>, failing: set<RemoteCall>)
    ensures SyncedIds(ts + [t], docs, failing)
         == SyncedIds(ts, docs, failing) + (if PushFails(docs, failing, t.id) then {} else {t.id})
  {
    assert (ts + [t])[..|ts|] == ts;
  }


  /** The ids gathered in list order are the ids of the list that succeed. */
  lemma {:induction false} SyncedIdsAreSucceeded(ts: seq<Task>, docs: map<string, Task>, failing: set<RemoteCall>)
    ensures SyncedIds(ts, docs, failing) == Succeeded(IdsOf(ts), docs, failing)
  {
    if ts != [] {
      var init, last := ts[..|ts| - 1], ts[|ts| - 1];
      SyncedIdsAreSucceeded(init, docs, failing);
      assert ts == init + [last];
      IdsOfSnoc(init, last);
    }
  }

  lemma {:induction false} LastIdIsNew(ts: seq<Task>)
    requires ts != []
    requires forall i, j :: 0 <= i < j < |ts| ==> ts[i].id != ts[j].id
    ensures ts[|ts| - 1].id !in IdsOf(ts[..|ts| - 1])
  {
    var init := ts[..|ts| - 1];
    forall t | t in init ensures t.id != ts[|ts| - 1].id {
      var j :| 0 <= j < |init| && init[j] == t;
      assert ts[j] == t;
    }
  }


  lemma MarkNone(local: Table)
    ensures MarkedSynced(local, {}) == local
  {
  }

  lemma {:induction false} PushNone(docs: map<string, Task>, local: Table)
    ensures Pushed(docs, local, {}) == docs
    ensures Pushed(docs, local, {}) - {} == docs
  {
    var r := Pushed(docs, local, {});
    assert r.Keys == docs.Keys;
    assert r - {} == r;
  }

  lemma MarkStep(local: Table, ids: set<string>, id: string)
    ensures MarkedSynced(MarkedSynced(local, ids), {id}) == MarkedSynced(local, ids + {id})
  {
  }

  lemma {:induction false} PushStep(docs: map<string, Task>, local: Table, ids: set<string>, id: string)
    requires ids + {id} <= local.Keys
    ensures Pushed(docs, local, ids)[id := local[id]] == Pushed(docs, local, ids + {id})
  {
    var a, b := Pushed(docs, local, ids)[id := local[id]], Pushed(docs, local, ids + {id});
    assert a.Keys == b.Keys;
    forall k | k in a ensures a[k] == b[k] {
      if k != id && k !in ids {
        assert k in docs;
      }
    }
  }

  /** The next record of a listing is new to the records before it. */
  lemma {:induction false} ListingStep(done: seq<Task>, rest: seq<Task>, u: Table, local: Table)
    requires Lists(done + rest, u) && rest != []
    requires forall id :: id in u ==> id in local && local[id] == u[id]
    ensures rest[0].id !in IdsOf(done)
    ensures rest[0].id in local && local[rest[0].id] == rest[0]
    ensures (done + [rest[0]]) + rest[1..] == done + rest
  {
    var ts := done + rest;
    assert ts[|done|] == rest[0];
    forall t | t in done ensures t.id != rest[0].id {
      var j :| 0 <= j < |done| && done[j] == t;
      assert ts[j] == t;
    }
    assert u[rest[0].id] == rest[0];
    assert rest == [rest[0]] + rest[1..];
  }

  lemma {:induction false} PushGoneStep(docs: map<string, Task>, local: Table, ids: set<string>, gone: set<string>, id: string)
    requires ids + {id} <= local.Keys
    requires id !in gone
    ensures (Pushed(docs, local, ids) - gone)[id := local[id]] == Pushed(docs, local, ids + {id}) - gone
  {
    var a, b := (Pushed(docs, local, ids) - gone)[id := local[id]], Pushed(docs, local, ids + {id}) - gone;
    assert a.Keys == b.Keys;
    forall k | k in a ensures a[k] == b[k] {
      if k != id && k !in ids {
        assert k in docs;
      }
    }
  }

  /**
   * One step of a walk over a listing: if the state after the records
   * `done` is in closed form, so is the state after pushing `t` and, on
   * success, marking it synced. The record is new to `done`, so whether its
   * push fails depends only on the documents the walk started from.
   */
  lemma {:induction false} PushMarkStep(done: seq<Task>, t: Task, local: Table, docs: map<string, Task>,
                                        failing: set<RemoteCall>, ok: set<string>, pushed: bool,
                                        ok': set<string>, local': Table, docs': map<string, Task>)
    requires t.id !in IdsOf(done) && t.id in local && local[t.id] == t
    requires ok == SyncedIds(done, docs, failing) && ok <= local.Keys
    requires pushed == !PushFails(Pushed(docs, local, ok), failing, t.id)
    requires ok' == if pushed then ok + {t.id} else ok
    requires local' == if pushed then MarkedSynced(MarkedSynced(local, ok), {t.id}) else MarkedSynced(local, ok)
    requires docs' == if pushed then Pushed(docs, local, ok)[t.id := t] else Pushed(docs, local, ok)
    ensures pushed == !PushFails(docs, failing, t.id)
    ensures ok' == SyncedIds(done + [t], docs, failing) && ok' <= local.Keys
    ensures local' == MarkedSynced(local, ok')
    ensures docs' == Pushed(docs, local, ok')
  {
    SyncedIdsSnoc(done, t, docs, failing);
    SyncedIdsAreSucceeded(done, docs, failing);
    assert t.id !in ok;
    assert PushFails(Pushed(docs, local, ok), failing, t.id) == PushFails(docs, failing, t.id);
    if pushed {
      MarkStep(local, ok, t.id);
      PushStep(docs, local, ok, t.id);
    }
  }

  /**
   * After a walk over the listing `ts` of the unsynced records of `userId`:
   * the records pushed are the ones whose push succeeds, the ones left
   * unsynced are the ones whose push fails, and an empty listing changes
   * nothing.
   */
  lemma {:induction false} WalkOutcome(ts: seq<Task>, local: Table, docs: map<string, Task>, failing: set<RemoteCall>, userId: string)
    requires Lists(ts, UnsyncedTasks(local, userId))
    ensures var u := UnsyncedTasks(local, userId).Keys;
      var ok := SyncedIds(ts, docs, failing);
      && ok == Succeeded(u, docs, failing) && ok <= local.Keys
      && UnsyncedTasks(MarkedSynced(local, ok), userId).Keys == Failed(u, docs, failing)
      && (|ts| == 0 ==> MarkedSynced(local, ok) == local && Pushed(docs, local, ok) == docs)
  {
    var u := UnsyncedTasks(local, userId).Keys;
    var ok := SyncedIds(ts, docs, failing);
    SyncedIdsAreSucceeded(ts, docs, failing);
    UnsyncedAfterMarking(local, ok, userId);
    if ts == [] {
      MarkNone(local);
      PushNone(docs, local);
    }
  }
}
