/** The cache of finished executions: a map by execution ID, an eviction order over all of them, and a
    per-workflow index of at most ten IDs whose last one answers lookups. */
module HistoryCache {
  import opened Options
  import opened Sequences

  /** A finished execution, with the workflow it belongs to. */
  datatype Record = Record(workflowUUID: string, status: string)

  datatype History = History(records: map<nat, Record>, byUUID: map<string, seq<nat>>, order: seq<nat>)

  const EMPTY := History(map[], map[], [])
  const MAX_HISTORY_BY_UUID := 10
  const DEFAULT_MAX_HISTORY_CACHE := 1000

  function Limit(maxCache: int): (limit: nat)
    ensures limit > 0
  {
    if maxCache <= 0 then DEFAULT_MAX_HISTORY_CACHE else maxCache
  }

  // ---------------------------------------------------------------- sequences of IDs

  function Without(s: seq<nat>, id: nat): seq<nat> {
    if s == [] then [] else if s[0] == id then s[1..] else [s[0]] + Without(s[1..], id)
  }

  ghost predicate Suffix(a: seq<nat>, b: seq<nat>) {
    |a| <= |b| && b[|b| - |a|..] == a
  }

  function Newest(s: seq<nat>): seq<nat> {
    if |s| > MAX_HISTORY_BY_UUID then s[|s| - MAX_HISTORY_BY_UUID..] else s
  }

  lemma {:induction false} WithoutMembers(s: seq<nat>, id: nat)
    requires NoRepeat(s)
    ensures NoRepeat(Without(s, id))
    ensures forall x :: x in Without(s, id) <==> x in s && x != id
    ensures |Without(s, id)| == if id in s then |s| - 1 else |s|
  {
    if s != [] {
      assert s == [s[0]] + s[1..];
      assert s[0] !in s[1..];
      if s[0] != id {
        WithoutMembers(s[1..], id);
        var rest := Without(s[1..], id);
        assert forall x :: x in Without(s, id) <==> x == s[0] || x in rest;
        assert forall i :: 0 <= i < |rest| ==> rest[i] in rest;
      } else {
        assert forall x :: x in s <==> x == s[0] || x in s[1..];
      }
    }
  }

  lemma {:induction false} WithoutInFront(a: seq<nat>, b: seq<nat>, id: nat)
    requires id in a
    ensures Without(a + b, id) == Without(a, id) + b
  {
    assert (a + b)[1..] == a[1..] + b;
    if a[0] != id {
      WithoutInFront(a[1..], b, id);
    }
  }

  lemma {:induction false} WithoutInBack(a: seq<nat>, b: seq<nat>, id: nat)
    requires id !in a
    ensures Without(a + b, id) == a + Without(b, id)
  {
    if a == [] {
      assert a + b == b;
    } else {
      assert (a + b)[1..] == a[1..] + b;
      WithoutInBack(a[1..], b, id);
      assert a == [a[0]] + a[1..];
    }
  }

  lemma SuffixNoRepeat(a: seq<nat>, b: seq<nat>)
    requires Suffix(a, b) && NoRepeat(b)
    ensures NoRepeat(a)
  {
  }

  lemma TakeTake(s: seq<nat>, i: nat, j: nat)
    requires j <= i <= |s|
    ensures s[..i][..j] == s[..j]
  {
  }

  lemma SuffixWithout(a: seq<nat>, b: seq<nat>, id: nat)
    requires Suffix(a, b) && NoRepeat(b)
    ensures Suffix(Without(a, id), Without(b, id))
  {
    var front := b[..|b| - |a|];
    assert b == front + a;
    if id in front {
      WithoutInFront(front, a, id);
      var k :| 0 <= k < |front| && b[k] == id;
      assert forall j :: 0 <= j < |a| ==> a[j] == b[|front| + j];
      WithoutAbsent(a, id);
    } else {
      WithoutInBack(front, a, id);
    }
  }

  lemma {:induction false} WithoutAbsent(s: seq<nat>, id: nat)
    requires id !in s
    ensures Without(s, id) == s
  {
    if s != [] {
      WithoutAbsent(s[1..], id);
    }
  }

  // ---------------------------------------------------------------- the executions of one workflow

  /** The IDs of the order that belong to the workflow. */
  ghost function Of(records: map<nat, Record>, order: seq<nat>, uuid: string): seq<nat> {
    if order == [] then []
    else
      (if order[0] in records && records[order[0]].workflowUUID == uuid then [order[0]] else [])
      + Of(records, order[1..], uuid)
  }

  lemma {:induction false} OfMembers(records: map<nat, Record>, order: seq<nat>, uuid: string)
    requires NoRepeat(order)
    ensures NoRepeat(Of(records, order, uuid))
    ensures forall x :: x in Of(records, order, uuid) <==> x in order && x in records && records[x].workflowUUID == uuid
  {
    if order != [] {
      OfMembers(records, order[1..], uuid);
    }
  }

  lemma {:induction false} OfAppend(records: map<nat, Record>, order: seq<nat>, id: nat, r: Record, uuid: string)
    requires id !in order
    ensures Of(records[id := r], order + [id], uuid)
         == Of(records, order, uuid) + (if r.workflowUUID == uuid then [id] else [])
  {
    if order == [] {
      assert order + [id] == [id];
      assert [id][1..] == [];
      assert Of(records[id := r], [id], uuid) == (if r.workflowUUID == uuid then [id] else []) + Of(records[id := r], [], uuid);
    } else {
      assert (order + [id])[1..] == order[1..] + [id];
      assert order[0] != id;
      OfAppend(records, order[1..], id, r, uuid);
    }
  }

  lemma {:induction false} OfWithout(records: map<nat, Record>, order: seq<nat>, id: nat, uuid: string)
    requires NoRepeat(order)
    ensures Of(records - {id}, Without(order, id), uuid) == Without(Of(records, order, uuid), id)
  {
    if order != [] {
      if order[0] == id {
        OfWithoutHead(records, order, uuid);
      } else {
        OfWithout(records, order[1..], id, uuid);
        OfWithoutLater(records, order, id, uuid);
      }
    }
  }

  lemma OfWithoutLater(records: map<nat, Record>, order: seq<nat>, id: nat, uuid: string)
    requires order != [] && order[0] != id
    requires Of(records - {id}, Without(order[1..], id), uuid) == Without(Of(records, order[1..], uuid), id)
    ensures Of(records - {id}, Without(order, id), uuid) == Without(Of(records, order, uuid), id)
  {
    var head, rest := order[0], Of(records, order[1..], uuid);
    var mine := head in records && records[head].workflowUUID == uuid;
    assert Without(order, id)[1..] == Without(order[1..], id);
    assert Of(records - {id}, Without(order, id), uuid) == (if mine then [head] else []) + Without(rest, id);
    if mine {
      WithoutInBack([head], rest, id);
    } else {
      assert [] + rest == rest;
      assert [] + Without(rest, id) == Without(rest, id);
    }
  }

  lemma OfWithoutHead(records: map<nat, Record>, order: seq<nat>, uuid: string)
    requires NoRepeat(order) && order != []
    ensures Of(records - {order[0]}, order[1..], uuid) == Without(Of(records, order, uuid), order[0])
  {
    var id := order[0];
    var rest := Of(records, order[1..], uuid);
    OfUnaffected(records, order[1..], id, uuid);
    OfMembers(records, order[1..], uuid);
    WithoutAbsent(rest, id);
    assert ([id] + rest)[1..] == rest;
    assert [] + rest == rest;
  }

  lemma {:induction false} OfUnaffected(records: map<nat, Record>, order: seq<nat>, id: nat, uuid: string)
    requires id !in order
    ensures Of(records - {id}, order, uuid) == Of(records, order, uuid)
  {
    if order != [] {
      OfUnaffected(records, order[1..], id, uuid);
    }
  }

  // ---------------------------------------------------------------- what every operation keeps

  /** The per-workflow index is a suffix of at most ten of the workflow's retained IDs. */
  ghost predicate Indexed(h: History, uuid: string) {
    uuid in h.byUUID ==>
      && 0 < |h.byUUID[uuid]| <= MAX_HISTORY_BY_UUID
      && Suffix(h.byUUID[uuid], Of(h.records, h.order, uuid))
  }

  ghost predicate Valid(h: History) {
    && NoRepeat(h.order)
    && (forall id :: id in h.order <==> id in h.records)
    && (forall uuid :: Indexed(h, uuid))
  }

  // ---------------------------------------------------------------- the operations on values

  function WithoutEntry(byUUID: map<string, seq<nat>>, uuid: string, id: nat): map<string, seq<nat>> {
    if uuid !in byUUID || id !in byUUID[uuid] then byUUID
    else
      var left := Without(byUUID[uuid], id);
      if left == [] then byUUID - {uuid} else byUUID[uuid := left]
  }

  function Appended(h: History, uuid: string, id: nat, r: Record): History {
    var ids := if uuid in h.byUUID then h.byUUID[uuid] else [];
    History(h.records[id := r], h.byUUID[uuid := Newest(ids + [id])], h.order + [id])
  }

  function Dropped(h: History, uuid: string, id: nat): History {
    History(h.records - {id}, WithoutEntry(h.byUUID, uuid, id), Without(h.order, id))
  }

  function OldestEvicted(h: History): History
    requires h.order != []
  {
    var id := h.order[0];
    History(h.records - {id},
            if id in h.records then WithoutEntry(h.byUUID, h.records[id].workflowUUID, id) else h.byUUID,
            h.order[1..])
  }

  function Evicted(h: History, limit: nat): History
    decreases |h.order|
  {
    if |h.order| <= limit then h else Evicted(OldestEvicted(h), limit)
  }

  function Persisted(h: History, uuid: string, id: nat, r: Record, limit: nat): History {
    Evicted(Appended(h, uuid, id, r), limit)
  }

  function Lookup(h: History, uuid: string): Option<Record> {
    if uuid in h.byUUID && h.byUUID[uuid] != [] && h.byUUID[uuid][|h.byUUID[uuid]| - 1] in h.records
    then Some(h.records[h.byUUID[uuid][|h.byUUID[uuid]| - 1]])
    else None
  }

  function Retried(h: History, uuid: string): History {
    if Lookup(h, uuid).None? then h else Dropped(h, uuid, h.byUUID[uuid][|h.byUUID[uuid]| - 1])
  }

  // ---------------------------------------------------------------- the cache

  class Cache {
    const maxHistoryCache: int
    var workflowHistory: map<nat, Record>
    var workflowHistoryByUUID: map<string, seq<nat>>
    var historyOrder: seq<nat>
    var runningEntries: set<string>

    function Value(): History
      reads this
    {
      History(workflowHistory, workflowHistoryByUUID, historyOrder)
    }

    constructor (maxHistoryCache: int)
      ensures Value() == EMPTY && this.maxHistoryCache == maxHistoryCache && runningEntries == {}
    {
      this.maxHistoryCache := maxHistoryCache;
      workflowHistory, workflowHistoryByUUID, historyOrder, runningEntries := map[], map[], [], {};
    }

    method RemoveHistoryByUUIDEntry(uuid: string, execID: nat)
      modifies `workflowHistoryByUUID
      ensures workflowHistoryByUUID == WithoutEntry(old(workflowHistoryByUUID), uuid, execID)
    {
      if uuid !in workflowHistoryByUUID {
        return;
      }
      var execIDs := workflowHistoryByUUID[uuid];
      for i := 0 to |execIDs|
        invariant execID !in execIDs[..i] && workflowHistoryByUUID == old(workflowHistoryByUUID)
      {
        if execIDs[i] == execID {
          WithoutAt(execIDs, i);
          workflowHistoryByUUID := workflowHistoryByUUID[uuid := execIDs[..i] + execIDs[i + 1..]];
          if |workflowHistoryByUUID[uuid]| == 0 {
            workflowHistoryByUUID := workflowHistoryByUUID - {uuid};
          }
          return;
        }
      }
    }

    method RemoveFromHistoryOrder(execID: nat)
      modifies `historyOrder
      ensures historyOrder == Without(old(historyOrder), execID)
    {
      for i := 0 to |historyOrder|
        invariant execID !in historyOrder[..i] && historyOrder == old(historyOrder)
      {
        if historyOrder[i] == execID {
          WithoutAt(historyOrder, i);
          historyOrder := historyOrder[..i] + historyOrder[i + 1..];
          return;
        }
      }
      WithoutAbsent(historyOrder, execID);
    }

    /** The first locked part of PersistWorkflowLocked; nothing is required of the execution ID. */
    method AddToHistory(uuid: string, execID: nat, state: Record)
      modifies this
      ensures Value() == Appended(old(Value()), uuid, execID, state)
      ensures runningEntries == old(runningEntries) - {uuid}
      ensures workflowHistory == old(workflowHistory)[execID := state] && historyOrder == old(historyOrder) + [execID]
      // The index keeps the ten newest.
      ensures var before := if uuid in old(workflowHistoryByUUID) then old(workflowHistoryByUUID)[uuid] else [];
              uuid in workflowHistoryByUUID &&
              var after := workflowHistoryByUUID[uuid];
              && |after| == (if |before| < 10 then |before| + 1 else 10)
              && after[|after| - 1] == execID
              && after[..|after| - 1] == before[|before| - (|after| - 1)..]
      ensures workflowHistoryByUUID - {uuid} == old(workflowHistoryByUUID) - {uuid}
    {
      workflowHistory := workflowHistory[execID := state];
      var ids := (if uuid in workflowHistoryByUUID then workflowHistoryByUUID[uuid] else []) + [execID];
      if |ids| > MAX_HISTORY_BY_UUID {
        ids := ids[|ids| - MAX_HISTORY_BY_UUID..];
      }
      workflowHistoryByUUID := workflowHistoryByUUID[uuid := ids];
      historyOrder := historyOrder + [execID];
      runningEntries := runningEntries - {uuid};
    }

    /** Its second locked part. */
    method EvictOverLimit()
      modifies `workflowHistory, `workflowHistoryByUUID, `historyOrder
      ensures Value() == Evicted(old(Value()), Limit(maxHistoryCache))
      ensures var limit := if maxHistoryCache > 0 then maxHistoryCache else 1000;
              var gone := if |old(historyOrder)| > limit then |old(historyOrder)| - limit else 0;
              && historyOrder == old(historyOrder)[gone..]
              && forall id :: id in workflowHistory <==> id in old(workflowHistory) && id !in old(historyOrder)[..gone]
    {
      EvictKeepsNewest(Value(), Limit(maxHistoryCache));
      var maxCache := maxHistoryCache;
      if maxCache <= 0 {
        maxCache := DEFAULT_MAX_HISTORY_CACHE;
      }
      while |historyOrder| > maxCache
        invariant Evicted(Value(), maxCache) == Evicted(old(Value()), maxCache)
        decreases |historyOrder|
      {
        var oldestID := historyOrder[0];
        historyOrder := historyOrder[1..];
        if oldestID in workflowHistory {
          RemoveHistoryByUUIDEntry(workflowHistory[oldestID].workflowUUID, oldestID);
        }
        workflowHistory := workflowHistory - {oldestID};
      }
    }

    /** What other calls do to the cache while no lock is held. */
    method Interfere(others: seq<Operation>)
      modifies this
      ensures Value() == AfterAll(old(Value()), others, Limit(maxHistoryCache))
    {
      for k := 0 to |others|
        invariant Value() == AfterAll(old(Value()), others[..k], Limit(maxHistoryCache))
      {
        assert others[..k + 1][..k] == others[..k];
        match others[k] {
          case Append(uuid, id, status) => AddToHistory(uuid, id, Record(uuid, status));
          case Evict => EvictOverLimit();
          case Retry(uuid) =>
            // The submission has failed or the execution has ended: the workflow is not running.
            runningEntries := runningEntries - {uuid};
            var _ := RetryWorkflow(uuid);
        }
      }
      assert others[..|others|] == others;
    }

    /** PersistWorkflowLocked, as far as the cache goes: the lock is given up between the two parts, and
        other calls may change the cache meanwhile. */
    method PersistWorkflowLocked(uuid: string, execID: nat, state: Record, others: seq<Operation>)
      modifies this
      ensures var limit := Limit(maxHistoryCache);
              Value() == Evicted(AfterAll(Appended(old(Value()), uuid, execID, state), others, limit), limit)
    {
      AddToHistory(uuid, execID, state);
      Interfere(others);
      EvictOverLimit();
    }

    /** GetHistory's cache part; nothing means the database is asked. */
    method GetHistory(uuid: string) returns (hit: Option<Record>)
      ensures hit == Lookup(Value(), uuid)
    {
      if uuid in workflowHistoryByUUID && |workflowHistoryByUUID[uuid]| > 0 {
        var execIDs := workflowHistoryByUUID[uuid];
        var latestID := execIDs[|execIDs| - 1];
        if latestID in workflowHistory {
          return Some(workflowHistory[latestID]);
        }
      }
      return None;
    }

    /** RetryWorkflow up to the new submission: the newest cached execution leaves the cache. */
    method RetryWorkflow(uuid: string) returns (resubmit: bool)
      modifies `workflowHistory, `workflowHistoryByUUID, `historyOrder
      ensures resubmit <==> uuid !in runningEntries && Lookup(old(Value()), uuid).Some?
      ensures Value() == if resubmit then Retried(old(Value()), uuid) else old(Value())
    {
      if uuid in runningEntries || uuid !in workflowHistoryByUUID || |workflowHistoryByUUID[uuid]| == 0 {
        return false;
      }
      var execIDs := workflowHistoryByUUID[uuid];
      var latestID := execIDs[|execIDs| - 1];
      if latestID !in workflowHistory {
        return false;
      }
      workflowHistory := workflowHistory - {latestID};
      RemoveHistoryByUUIDEntry(uuid, latestID);
      RemoveFromHistoryOrder(latestID);
      return true;
    }
  }

  lemma WithoutAt(s: seq<nat>, i: nat)
    requires i < |s| && s[i] !in s[..i]
    ensures Without(s, s[i]) == s[..i] + s[i + 1..]
  {
    assert s == s[..i] + s[i..];
    WithoutInBack(s[..i], s[i..], s[i]);
    assert s[i..][1..] == s[i + 1..];
  }

  // ---------------------------------------------------------------- the operations keep the cache valid

  lemma AppendKeepsValid(h: History, uuid: string, id: nat, r: Record)
    requires Valid(h) && id !in h.records && r.workflowUUID == uuid
    ensures Valid(Appended(h, uuid, id, r))
  {
    var h' := Appended(h, uuid, id, r);
    forall u ensures Indexed(h', u) {
      OfAppend(h.records, h.order, id, r, u);
      assert Indexed(h, u);
    }
  }

  /** The index of the dropped execution's own workflow. */
  lemma DropKeepsOwnIndex(h: History, id: nat)
    requires Valid(h) && id in h.records
    ensures Indexed(Dropped(h, h.records[id].workflowUUID, id), h.records[id].workflowUUID)
  {
    var uuid := h.records[id].workflowUUID;
    assert Indexed(h, uuid);
    OfWithout(h.records, h.order, id, uuid);
    OfMembers(h.records, h.order, uuid);
    if uuid in h.byUUID {
      var ids := h.byUUID[uuid];
      SuffixWithout(ids, Of(h.records, h.order, uuid), id);
      SuffixLength(ids, id);
      if id !in ids {
        WithoutAbsent(ids, id);
      }
    }
  }

  lemma DropKeepsOtherIndex(h: History, id: nat, u: string)
    requires Valid(h) && id in h.records && u != h.records[id].workflowUUID
    ensures Indexed(Dropped(h, h.records[id].workflowUUID, id), u)
  {
    assert Indexed(h, u);
    OfWithout(h.records, h.order, id, u);
    OfMembers(h.records, h.order, u);
    WithoutAbsent(Of(h.records, h.order, u), id);
  }

  /** Removing one retained execution from all three places. */
  lemma DropKeepsValid(h: History, id: nat)
    requires Valid(h) && id in h.records
    ensures Valid(Dropped(h, h.records[id].workflowUUID, id))
  {
    var h' := Dropped(h, h.records[id].workflowUUID, id);
    WithoutMembers(h.order, id);
    forall u ensures Indexed(h', u) {
      if u == h.records[id].workflowUUID {
        DropKeepsOwnIndex(h, id);
      } else {
        DropKeepsOtherIndex(h, id, u);
      }
    }
  }

  lemma {:induction false} SuffixLength(s: seq<nat>, id: nat)
    ensures |Without(s, id)| <= |s|
  {
    if s != [] && s[0] != id {
      SuffixLength(s[1..], id);
    }
  }

  /** Eviction takes the oldest executions, and only as many as it must. */
  lemma {:induction false} EvictKeepsNewest(h: History, limit: nat)
    ensures Evicted(h, limit).order == if |h.order| > limit then h.order[|h.order| - limit..] else h.order
    ensures var gone := if |h.order| > limit then |h.order| - limit else 0;
            forall id :: id in Evicted(h, limit).records <==> id in h.records && id !in h.order[..gone]
    decreases |h.order|
  {
    if |h.order| > limit {
      EvictKeepsNewest(OldestEvicted(h), limit);
      var gone := |h.order| - limit;
      assert h.order[..gone] == [h.order[0]] + h.order[1..][..gone - 1];
    }
  }

  lemma {:induction false} EvictKeepsValid(h: History, limit: nat)
    requires Valid(h)
    ensures Valid(Evicted(h, limit))
    decreases |h.order|
  {
    if |h.order| > limit {
      var id := h.order[0];
      DropKeepsValid(h, id);
      assert OldestEvicted(h) == Dropped(h, h.records[id].workflowUUID, id);
      EvictKeepsValid(OldestEvicted(h), limit);
    }
  }

  /** Evicting the oldest execution takes it out of its workflow's index if it is there, and no other. */
  lemma OldestTrimsIndex(h: History, uuid: string)
    requires Valid(h) && h.order != []
    ensures var h' := OldestEvicted(h);
            var mine, mine' := Of(h.records, h.order, uuid), Of(h'.records, h'.order, uuid);
            Valid(h') && |mine'| <= |mine| && Entries(h', uuid) == Min(Entries(h, uuid), |mine'|)
  {
    var id := h.order[0];
    DropKeepsValid(h, id);
    assert OldestEvicted(h) == Dropped(h, h.records[id].workflowUUID, id);
    assert Indexed(h, uuid);
    var mine := Of(h.records, h.order, uuid);
    OfWithoutHead(h.records, h.order, uuid);
    OfMembers(h.records, h.order, uuid);
    if h.records[id].workflowUUID == uuid {
      assert mine[0] == id && Without(mine, id) == mine[1..];
      if uuid in h.byUUID {
        OldestOfSuffix(h.byUUID[uuid], mine);
      }
    } else {
      WithoutAbsent(mine, id);
    }
  }

  lemma OldestOfSuffix(ids: seq<nat>, mine: seq<nat>)
    requires Suffix(ids, mine) && NoRepeat(mine) && ids != []
    ensures |Without(ids, mine[0])| == if |ids| == |mine| then |ids| - 1 else |ids|
    ensures mine[0] in ids <==> |ids| == |mine|
  {
    if |ids| < |mine| {
      assert forall k :: 0 <= k < |ids| ==> ids[k] == mine[|mine| - |ids| + k];
      WithoutAbsent(ids, mine[0]);
    }
  }

  /** Eviction shortens an index only as far as its executions are gone: afterwards it holds what it held
      before, or all that is retained of the workflow if that is less. */
  lemma {:induction false} EvictTrimsIndex(h: History, limit: nat, uuid: string)
    requires Valid(h)
    ensures var h' := Evicted(h, limit);
            Valid(h') && Entries(h', uuid) == Min(Entries(h, uuid), |Of(h'.records, h'.order, uuid)|)
    decreases |h.order|
  {
    if |h.order| > limit {
      OldestTrimsIndex(h, uuid);
      EvictTrimsIndex(OldestEvicted(h), limit, uuid);
      RetainedShrinks(OldestEvicted(h), limit, uuid);
    } else {
      assert Indexed(h, uuid);
    }
  }

  lemma {:induction false} RetainedShrinks(h: History, limit: nat, uuid: string)
    requires Valid(h)
    ensures var h' := Evicted(h, limit);
            |Of(h'.records, h'.order, uuid)| <= |Of(h.records, h.order, uuid)|
    decreases |h.order|
  {
    if |h.order| > limit {
      OldestTrimsIndex(h, uuid);
      RetainedShrinks(OldestEvicted(h), limit, uuid);
    }
  }

  /** Persisting keeps the cache consistent exactly when the execution ID is not already retained. */
  lemma PersistKeepsValidIff(h: History, uuid: string, id: nat, r: Record, limit: nat)
    requires Valid(h) && |h.order| <= limit && 0 < limit && r.workflowUUID == uuid
    ensures Valid(Persisted(h, uuid, id, r, limit)) <==> id !in h.records
    ensures id !in h.records ==> |Persisted(h, uuid, id, r, limit).order| <= limit
  {
    var h' := Appended(h, uuid, id, r);
    if id !in h.records {
      AppendKeepsValid(h, uuid, id, r);
      EvictKeepsValid(h', limit);
      EvictKeepsNewest(h', limit);
    } else {
      var i :| 0 <= i < |h.order| && h.order[i] == id;
      if |h'.order| > limit {
        var e := OldestEvicted(h');
        assert Evicted(h', limit) == e;
        assert e.order[|e.order| - 1] == id;
        if i > 0 {
          assert e.order[i - 1] == id;
        }
      } else {
        assert h'.order[i] == h'.order[|h.order|];
      }
    }
  }

  /** A hit returns the newest retained execution of the workflow: no later one is retained. */
  lemma HitIsNewest(h: History, uuid: string) returns (i: nat)
    requires Valid(h) && Lookup(h, uuid).Some?
    ensures i < |h.order| && h.order[i] in h.records
    ensures Lookup(h, uuid).value == h.records[h.order[i]] && h.records[h.order[i]].workflowUUID == uuid
    ensures forall j :: i < j < |h.order| ==> h.order[j] in h.records && h.records[h.order[j]].workflowUUID != uuid
  {
    var id := HitId(h, uuid);
    i := LastOf(h.records, h.order, uuid);
  }

  lemma {:induction false} LastOf(records: map<nat, Record>, order: seq<nat>, uuid: string) returns (i: nat)
    requires Of(records, order, uuid) != []
    ensures i < |order| && order[i] == Of(records, order, uuid)[|Of(records, order, uuid)| - 1]
    ensures order[i] in records && records[order[i]].workflowUUID == uuid
    ensures forall j :: i < j < |order| && order[j] in records ==> records[order[j]].workflowUUID != uuid
  {
    if Of(records, order[1..], uuid) == [] {
      i := 0;
      NoneOf(records, order[1..], uuid);
      assert forall j :: 0 < j < |order| ==> order[j] == order[1..][j - 1];
    } else {
      var k := LastOf(records, order[1..], uuid);
      i := k + 1;
      assert forall j :: 0 < j < |order| ==> order[j] == order[1..][j - 1];
    }
  }

  lemma {:induction false} NoneOf(records: map<nat, Record>, order: seq<nat>, uuid: string)
    requires Of(records, order, uuid) == []
    ensures forall x :: x in order && x in records ==> records[x].workflowUUID != uuid
  {
    if order != [] {
      NoneOf(records, order[1..], uuid);
    }
  }

  /** A retry takes out the workflow's newest retained execution and touches nothing else. */
  lemma RetryKeepsValid(h: History, uuid: string)
    requires Valid(h)
    ensures var h' := Retried(h, uuid);
            && Valid(h') && |h'.order| <= |h.order|
            && (Lookup(h, uuid).Some? ==>
                  var mine := Of(h.records, h.order, uuid);
                  && mine != [] && h'.records == h.records - {mine[|mine| - 1]}
                  && Of(h'.records, h'.order, uuid) == mine[..|mine| - 1])
  {
    if Lookup(h, uuid).Some? {
      var id := HitId(h, uuid);
      DropKeepsValid(h, id);
      HitGoes(h, uuid);
      WithoutMembers(h.order, id);
      OfWithout(h.records, h.order, id, uuid);
    }
  }

  /** The ID a lookup finds is the last of the workflow's retained ones. */
  lemma HitId(h: History, uuid: string) returns (id: nat)
    requires Valid(h) && Lookup(h, uuid).Some?
    ensures var mine, ids := Of(h.records, h.order, uuid), h.byUUID[uuid];
            && 0 < |ids| <= |mine| && id == mine[|mine| - 1] == ids[|ids| - 1]
            && id in h.records && h.records[id].workflowUUID == uuid
  {
    assert Indexed(h, uuid);
    var mine, ids := Of(h.records, h.order, uuid), h.byUUID[uuid];
    id := ids[|ids| - 1];
    assert mine[|mine| - 1] == id;
    OfMembers(h.records, h.order, uuid);
    assert id in mine;
  }

  lemma HitGoes(h: History, uuid: string)
    requires Valid(h) && Lookup(h, uuid).Some?
    ensures var mine, ids := Of(h.records, h.order, uuid), h.byUUID[uuid];
            && mine != [] && Without(mine, mine[|mine| - 1]) == mine[..|mine| - 1]
            && Without(ids, ids[|ids| - 1]) == ids[..|ids| - 1]
  {
    assert Indexed(h, uuid);
    assert NoRepeat(Of(h.records, h.order, uuid)) by {
      OfMembers(h.records, h.order, uuid);
    }
    BothGo(h.byUUID[uuid], Of(h.records, h.order, uuid));
  }

  lemma BothGo(ids: seq<nat>, mine: seq<nat>)
    requires Suffix(ids, mine) && NoRepeat(mine) && ids != []
    ensures Without(mine, mine[|mine| - 1]) == mine[..|mine| - 1]
    ensures Without(ids, ids[|ids| - 1]) == ids[..|ids| - 1]
  {
    LastGoes(mine);
    SuffixNoRepeat(ids, mine);
    LastGoes(ids);
  }

  lemma LastGoes(s: seq<nat>)
    requires NoRepeat(s) && s != []
    ensures Without(s, s[|s| - 1]) == s[..|s| - 1]
  {
    assert s[|s| - 1] !in s[..|s| - 1];
    WithoutAt(s, |s| - 1);
  }

  // ---------------------------------------------------------------- runs

  /** The locked parts of all calls: what persisting does first, what it does last, and a retry. */
  datatype Operation = Append(uuid: string, id: nat, status: string) | Evict | Retry(uuid: string)

  function After(h: History, op: Operation, limit: nat): History {
    match op
    case Append(uuid, id, status) => Appended(h, uuid, id, Record(uuid, status))
    case Evict => Evicted(h, limit)
    case Retry(uuid) => Retried(h, uuid)
  }

  function AfterAll(h: History, ops: seq<Operation>, limit: nat): History {
    if ops == [] then h else After(AfterAll(h, ops[..|ops| - 1], limit), ops[|ops| - 1], limit)
  }

  datatype Run = Start | Then(before: Run, op: Operation)

  ghost function End(r: Run, limit: nat): History {
    match r
    case Start => EMPTY
    case Then(before, op) => After(End(before, limit), op, limit)
  }

  /** The calls that have appended and are still to evict. */
  ghost function Owed(r: Run): nat {
    match r
    case Start => 0
    case Then(before, op) =>
      if op.Append? then Owed(before) + 1 else if op.Evict? && Owed(before) > 0 then Owed(before) - 1 else Owed(before)
  }

  ghost function Used(r: Run): set<nat> {
    match r
    case Start => {}
    case Then(before, op) => Used(before) + if op.Append? then {op.id} else {}
  }

  /** Execution IDs come from the database's counter: nonzero, and never the same twice. */
  ghost predicate FreshIds(r: Run) {
    r.Then? ==> FreshIds(r.before) && (r.op.Append? ==> r.op.id != 0 && r.op.id !in Used(r.before))
  }

  /** For every interleaving of persists and retries the order lists exactly the cached executions, once
      each; every index entry is a suffix of at most ten of its workflow's executions; and the cache is
      over its limit by no more than the calls that are still to evict. */
  lemma {:induction false} EveryRunKeepsValid(r: Run, limit: nat)
    requires FreshIds(r)
    ensures Valid(End(r, limit)) && |End(r, limit).order| <= limit + Owed(r)
    ensures End(r, limit).records.Keys <= Used(r)
  {
    match r
    case Start =>
    case Then(before, op) =>
      var h := End(before, limit);
      EveryRunKeepsValid(before, limit);
      match op
      case Append(uuid, id, status) =>
        AppendKeepsValid(h, uuid, id, Record(uuid, status));
      case Evict =>
        EvictKeepsValid(h, limit);
        EvictKeepsNewest(h, limit);
        EvictAddsNothing(h, limit);
      case Retry(uuid) =>
        RetryKeepsValid(h, uuid);
  }

  lemma EvictAddsNothing(h: History, limit: nat)
    requires Valid(h)
    ensures Evicted(h, limit).records.Keys <= h.records.Keys
  {
    EvictKeepsValid(h, limit);
    EvictKeepsNewest(h, limit);
    forall x | x in Evicted(h, limit).records ensures x in h.records {
      assert x in Evicted(h, limit).order;
      assert x in h.order;
    }
  }

  ghost function RetriedTimes(h: History, uuid: string, n: nat): History
    decreases n
  {
    if n == 0 then h else RetriedTimes(Retried(h, uuid), uuid, n - 1)
  }

  lemma IndexHits(h: History, uuid: string)
    requires Valid(h) && uuid in h.byUUID
    ensures Lookup(h, uuid).Some?
  {
    assert Indexed(h, uuid);
    var mine, ids := Of(h.records, h.order, uuid), h.byUUID[uuid];
    assert mine[|mine| - 1] == ids[|ids| - 1];
    OfMembers(h.records, h.order, uuid);
    assert mine[|mine| - 1] in mine;
  }

  lemma OneRetry(h: History, uuid: string)
    requires Valid(h) && uuid in h.byUUID
    ensures var h', mine, ids := Retried(h, uuid), Of(h.records, h.order, uuid), h.byUUID[uuid];
            && Valid(h') && 0 < |ids| <= |mine|
            && Of(h'.records, h'.order, uuid) == mine[..|mine| - 1]
            && (|ids| == 1 ==> uuid !in h'.byUUID)
            && (|ids| > 1 ==> uuid in h'.byUUID && h'.byUUID[uuid] == ids[..|ids| - 1])
  {
    IndexHits(h, uuid);
    var id := HitId(h, uuid);
    HitGoes(h, uuid);
    RetryKeepsValid(h, uuid);
  }

  ghost function Entries(h: History, uuid: string): nat {
    if uuid in h.byUUID then |h.byUUID[uuid]| else 0
  }

  ghost function Min(a: nat, b: nat): nat {
    if a < b then a else b
  }

  /** All but the n newest. */
  ghost function AllBut(s: seq<nat>, n: nat): seq<nat> {
    s[..|s| - Min(n, |s|)]
  }

  lemma AllButOneMore(s: seq<nat>, n: nat)
    requires n < |s|
    ensures AllBut(AllBut(s, 1), n) == AllBut(s, n + 1)
  {
    TakeTake(s, |s| - 1, |s| - 1 - n);
  }

  /** A retry with an index entry takes one entry and one execution; one without does nothing. */
  lemma OneRetryCounts(h: History, uuid: string)
    requires Valid(h)
    ensures var h', mine := Retried(h, uuid), Of(h.records, h.order, uuid);
            && Valid(h') && Entries(h, uuid) <= |mine|
            && (Lookup(h, uuid).Some? <==> 0 < Entries(h, uuid))
            && (0 == Entries(h, uuid) ==> h' == h)
            && (0 < Entries(h, uuid) ==>
                  Entries(h', uuid) == Entries(h, uuid) - 1 && Of(h'.records, h'.order, uuid) == AllBut(mine, 1))
  {
    assert Indexed(h, uuid);
    if uuid in h.byUUID {
      IndexHits(h, uuid);
      OneRetry(h, uuid);
    }
  }

  /** The index is never refilled from the retained executions: after n retries a lookup still hits if and
      only if the index had more than n entries, and all executions the retries did not take, those the
      index no longer finds included, are still retained. */
  lemma {:induction false} RetriesExhaustIndex(h: History, uuid: string, n: nat)
    requires Valid(h)
    ensures var h' := RetriedTimes(h, uuid, n);
            && (Lookup(h', uuid).Some? <==> n < Entries(h, uuid))
            && Of(h'.records, h'.order, uuid) == AllBut(Of(h.records, h.order, uuid), Min(n, Entries(h, uuid)))
    decreases n
  {
    OneRetryCounts(h, uuid);
    var mine := Of(h.records, h.order, uuid);
    if n > 0 {
      RetriesExhaustIndex(Retried(h, uuid), uuid, n - 1);
      if 0 < Entries(h, uuid) {
        AllButOneMore(mine, Min(n, Entries(h, uuid)) - 1);
      }
    }
  }
}
