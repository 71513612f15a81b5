/**
 * The batcher in front of the tables, as deployed: which events a redelivery counts again.
 * Only a batch of one carries its change id into `dataset_events`.
 */
module CdcPipeline {
  import opened Common
  import opened Cdc
  import opened CdcBatcher
  import opened CdcAdapter

  /** Some batch held just the change with this id. */
  predicate Alone(groups: seq<Group>, id: string) {
    exists i :: 0 <= i < |groups| && |groups[i]| == 1 && groups[i][0].changeId == id
  }

  lemma {:induction false} AloneIsInBatches(groups: seq<Group>, ids: nat -> string, id: string)
    requires id != []
    ensures IdIn(Batches(groups, ids), id) <==> Alone(groups, id)
  {
    hide Batches;
    var batches := Batches(groups, ids);
    forall i | 0 <= i < |groups|
      ensures batches[i].changeId == id <==> |groups[i]| == 1 && groups[i][0].changeId == id
    {
      assert batches[i] == Consolidated(groups[i], ids(i));
    }
  }

  /** After the batches are processed the tables know exactly the ids that came alone. */
  lemma {:induction false} RecordedIffAlone(store: Store, groups: seq<Group>, ids: nat -> string, id: string)
    requires id != [] && !Recorded(store.events, id)
    ensures Recorded(ApplyAll(store, Batches(groups, ids), NoMiss).events, id) <==> Alone(groups, id)
  {
    hide Consolidated, Apply;
    var batches := Batches(groups, ids);
    AloneIsInBatches(groups, ids, id);
    AllRecorded(store, batches, NoMiss);
    if !IdIn(batches, id) {
      OnlyTheseIds(store, batches, id);
    }
  }

  // ---- Redelivery -----------------------------------------------------------

  /** The cache, and the events accepted, after offering events to a batcher in front of these tables. */
  function Redeliver(seen: set<string>, size: int, store: Store, events: seq<Change>): (set<string>, seq<Change>) {
    if events == [] then (seen, [])
    else
      var (cache, accepted) := Redeliver(seen, size, store, events[..|events| - 1]);
      var e := events[|events| - 1];
      var next := if e.changeId == [] || e.changeId in cache then cache else CacheAdd(cache, e.changeId, size);
      (next, if e.changeId != [] && (e.changeId in cache || Recorded(store.events, e.changeId)) then accepted
             else accepted + [e])
  }

  lemma {:induction false} RedeliverNext(seen: set<string>, size: int, store: Store, events: seq<Change>, e: Change)
    ensures var (cache, accepted) := Redeliver(seen, size, store, events);
            && Redeliver(seen, size, store, events + [e])
               == (if e.changeId == [] || e.changeId in cache then cache else CacheAdd(cache, e.changeId, size),
                   if e.changeId != [] && (e.changeId in cache || Recorded(store.events, e.changeId)) then accepted
                   else accepted + [e])
  {
    assert (events + [e])[..|events|] == events;
  }

  /** The batcher does this: redelivered events are taken into its buffers exactly as the function says. */
  method RedeliverAll(
    batcher: CDCBatcher, store: Store, events: seq<Change>, now: nat -> real, batchIds: nat -> string)
    requires batcher.Valid()
    requires forall i :: 0 <= i < |events| ==> events[i].dataset != [] && events[i].totals.None?
    modifies batcher
    ensures batcher.Valid()
    ensures var (cache, accepted) := Redeliver(old(batcher.seen), batcher.seenCacheSize, store, events);
            batcher.seen == cache && batcher.accepted == old(batcher.accepted) + accepted
  {
    hide CDCBatcher.Consistent, Consolidated, CacheAdd;
    for i := 0 to |events|
      invariant batcher.Valid()
      invariant batcher.seen == Redeliver(old(batcher.seen), batcher.seenCacheSize, store, events[..i]).0
      invariant batcher.accepted
             == old(batcher.accepted) + Redeliver(old(batcher.seen), batcher.seenCacheSize, store, events[..i]).1
    {
      assert events[..i + 1] == events[..i] + [events[i]];
      RedeliverNext(old(batcher.seen), batcher.seenCacheSize, store, events[..i], events[i]);
      var known := HasChange(store.events, events[i].changeId);
      var outcome := batcher.AddEvent(events[i], now(i), known, batchIds(i));
    }
    assert events[..|events|] == events;
  }

  method HasChange(rows: seq<EventRow>, id: string) returns (found: bool)
    ensures found <==> Recorded(rows, id)
  {
    for i := 0 to |rows|
      invariant forall j :: 0 <= j < i ==> rows[j].changeId != id
    {
      if rows[i].changeId == id {
        return true;
      }
    }
    return false;
  }

  function Ids(events: seq<Change>): set<string> {
    set i | 0 <= i < |events| :: events[i].changeId
  }

  /** Events with pairwise different, present ids. */
  ghost predicate Identified(events: seq<Change>) {
    && (forall i :: 0 <= i < |events| ==> events[i].changeId != [])
    && (forall i, j :: 0 <= i < j < |events| ==> events[i].changeId != events[j].changeId)
  }

  lemma {:induction false} IdentifiedFront(events: seq<Change>)
    requires Identified(events) && events != []
    ensures var front, last := events[..|events| - 1], events[|events| - 1];
            && Identified(front) && last.changeId != [] && last.changeId !in Ids(front)
            && Ids(events) == Ids(front) + {last.changeId}
  {
    var front := events[..|events| - 1];
    assert forall i :: 0 <= i < |front| ==> front[i] == events[i];
    assert forall i :: 0 <= i < |events| ==> events[i].changeId in Ids(front) + {events[|events| - 1].changeId};
  }

  lemma {:induction false} CacheHoldsOnlyThese(seen: set<string>, size: int, store: Store, events: seq<Change>)
    requires Identified(events)
    ensures Redeliver(seen, size, store, events).0 <= seen + Ids(events)
  {
    if events != [] {
      hide Identified, Ids;
      IdentifiedFront(events);
      CacheHoldsOnlyThese(seen, size, store, events[..|events| - 1]);
    }
  }

  lemma {:induction false} RoomyCacheForgetsNothing(seen: set<string>, size: int, store: Store, events: seq<Change>)
    requires Identified(events) && |seen + Ids(events)| <= size
    ensures seen <= Redeliver(seen, size, store, events).0
  {
    if events != [] {
      hide Identified, Ids, Recorded;
      var front, last := events[..|events| - 1], events[|events| - 1];
      IdentifiedFront(events);
      SubsetIsSmaller(seen + Ids(front), seen + Ids(events));
      RoomyCacheForgetsNothing(seen, size, store, front);
      CacheHoldsOnlyThese(seen, size, store, front);
      var cache := Redeliver(seen, size, store, front).0;
      if last.changeId !in cache {
        SubsetIsSmaller(cache + {last.changeId}, seen + Ids(events));
        SubsetIsSmaller(cache, cache + {last.changeId});
      }
    }
  }

  /** The tables know the event or the cache does. */
  predicate Known(seen: set<string>, store: Store, e: Change) {
    e.changeId in seen || Recorded(store.events, e.changeId)
  }

  lemma {:induction false} NothingAcceptedNeedsKnown(
    seen: set<string>, size: int, store: Store, events: seq<Change>, i: nat)
    requires Identified(events) && Redeliver(seen, size, store, events).1 == [] && i < |events|
    ensures Known(seen, store, events[i])
  {
    hide Ids, Recorded;
    var front, last := events[..|events| - 1], events[|events| - 1];
    IdentifiedFront(events);
    CacheHoldsOnlyThese(seen, size, store, front);
    if i < |front| {
      NothingAcceptedNeedsKnown(seen, size, store, front, i);
    }
  }

  lemma {:induction false} KnownIsSkipped(seen: set<string>, size: int, store: Store, events: seq<Change>)
    requires Identified(events) && forall i :: 0 <= i < |events| ==> Known(seen, store, events[i])
    requires || |seen + Ids(events)| <= size
             || forall i :: 0 <= i < |events| ==> Recorded(store.events, events[i].changeId)
    ensures Redeliver(seen, size, store, events).1 == []
  {
    if events != [] {
      var front, last := events[..|events| - 1], events[|events| - 1];
      IdentifiedFront(events);
      assert forall i :: 0 <= i < |front| ==> front[i] == events[i];
      assert Known(seen, store, events[|front|]);
      hide Identified, Ids, Recorded;
      if |seen + Ids(events)| <= size {
        SubsetIsSmaller(seen + Ids(front), seen + Ids(events));
        RoomyCacheForgetsNothing(seen, size, store, front);
      }
      KnownIsSkipped(seen, size, store, front);
    }
  }

  /**
   * Redelivering the events of some batches to a batcher whose cache has room for them changes
   * nothing exactly when each event is still in the cache or made up a batch of its own.
   */
  lemma {:induction false} RedeliveryIff(
    store: Store, events: seq<Change>, groups: seq<Group>, ids: nat -> string, seen: set<string>, size: int)
    requires Identified(events) && |seen + Ids(events)| <= size
    requires forall i :: 0 <= i < |events| ==> !Recorded(store.events, events[i].changeId)
    ensures Redeliver(seen, size, ApplyAll(store, Batches(groups, ids), NoMiss), events).1 == []
       <==> forall i :: 0 <= i < |events| ==> events[i].changeId in seen || Alone(groups, events[i].changeId)
  {
    var after := ApplyAll(store, Batches(groups, ids), NoMiss);
    forall i | 0 <= i < |events|
      ensures Known(seen, after, events[i]) <==> events[i].changeId in seen || Alone(groups, events[i].changeId)
    {
      RecordedIffAlone(store, groups, ids, events[i].changeId);
    }
    hide Alone, Recorded, Redeliver, Known, Ids;
    if Redeliver(seen, size, after, events).1 == [] {
      forall i | 0 <= i < |events|
        ensures Known(seen, after, events[i])
      {
        NothingAcceptedNeedsKnown(seen, size, after, events, i);
      }
    } else if forall i :: 0 <= i < |events| ==> Known(seen, after, events[i]) {
      KnownIsSkipped(seen, size, after, events);
    }
  }

  /**
   * After a restart the cache is empty: whatever its size, nothing is counted again exactly when every
   * batch held one event.
   */
  lemma {:induction false} RestartIff(
    store: Store, events: seq<Change>, groups: seq<Group>, ids: nat -> string, size: int)
    requires Identified(events)
    requires forall i :: 0 <= i < |events| ==> !Recorded(store.events, events[i].changeId)
    ensures Redeliver({}, size, ApplyAll(store, Batches(groups, ids), NoMiss), events).1 == []
       <==> forall i :: 0 <= i < |events| ==> Alone(groups, events[i].changeId)
  {
    var after := ApplyAll(store, Batches(groups, ids), NoMiss);
    forall i | 0 <= i < |events|
      ensures Recorded(after.events, events[i].changeId) <==> Alone(groups, events[i].changeId)
    {
      RecordedIffAlone(store, groups, ids, events[i].changeId);
    }
    if Redeliver({}, size, after, events).1 == [] {
      forall i | 0 <= i < |events|
        ensures Known({}, after, events[i])
      {
        NothingAcceptedNeedsKnown({}, size, after, events, i);
      }
    } else if forall i :: 0 <= i < |events| ==> Recorded(after.events, events[i].changeId) {
      KnownIsSkipped({}, size, after, events);
    }
  }

  /** What counting again means: the same events batched once more report all their rows a second time. */
  lemma {:induction false} ReplayedBatchCountsAgain(store: Store, g: Group, first: string, second: string)
    requires |g| >= 2
    ensures var once := ApplyAll(store, [Consolidated(g, first)], NoMiss);
            var twice := ApplyAll(store, [Consolidated(g, first), Consolidated(g, second)], NoMiss);
            TotalRows(twice.events, g[0].dataset) == TotalRows(once.events, g[0].dataset) + |g|
  {
    var a, b := Consolidated(g, first), Consolidated(g, second);
    ConsolidatedFacts(g, first);
    ConsolidatedFacts(g, second);
    assert a.changeId == [] && b.changeId == [];
    hide Consolidated, Apply;
    assert [a, b][..1] == [a];
    var once := ApplyAll(store, [a], NoMiss);
    AcceptedEffect(once, b, false, g[0].dataset);
    var twice := ApplyAll(store, [a, b], NoMiss);
    assert twice == Apply(once, b, NoMiss(1));
    TotalRowsAppend(once.events, twice.events, g[0].dataset);
  }
}
