/** The in-memory micro-batcher: per-dataset buffers, arrival times and a bounded seen-set. */
module CdcBatcher {
  import opened Common
  import opened Cdc

  datatype AddOutcome = Ignored | DuplicateSkipped | Buffered | Flushed(batch: Change)

  /** Adding to the seen-set empties a full one first. */
  function CacheAdd(seen: set<string>, id: string, size: int): set<string> {
    (if |seen| >= size then {} else seen) + {id}
  }

  predicate IsDistinct(xs: seq<string>) {
    forall i, j :: 0 <= i < j < |xs| ==> xs[i] != xs[j]
  }

  function Without(xs: seq<string>, x: string): (r: seq<string>)
    ensures forall y :: y in r <==> y in xs && y != x
    ensures IsDistinct(xs) ==> IsDistinct(r)
    ensures x !in xs ==> r == xs
  {
    if xs == [] then []
    else
      var front, last := xs[..|xs| - 1], xs[|xs| - 1];
      assert xs == front + [last];
      assert forall y :: y in xs <==> y in front || y == last;
      var rest := Without(front, x);
      assert IsDistinct(xs) ==> last !in front && IsDistinct(front);
      if last == x then rest else rest + [last]
  }

  function PendingTotal(order: seq<string>, buffers: map<string, seq<Change>>): nat
    requires forall d :: d in order ==> d in buffers
  {
    if order == [] then 0 else PendingTotal(order[..|order| - 1], buffers) + |buffers[order[|order| - 1]]|
  }

  /** The `rows_changed` of all flushed batches. */
  function FlushedRows(flushed: seq<Group>): nat {
    if flushed == [] then 0 else FlushedRows(flushed[..|flushed| - 1]) + |flushed[|flushed| - 1]|
  }

  lemma {:induction false} PendingTotalSame(
    order: seq<string>, a: map<string, seq<Change>>, b: map<string, seq<Change>>)
    requires forall d :: d in order ==> d in a && d in b && a[d] == b[d]
    ensures PendingTotal(order, a) == PendingTotal(order, b)
  {
    if order != [] {
      PendingTotalSame(order[..|order| - 1], a, b);
    }
  }

  lemma {:induction false} PendingTotalWithout(order: seq<string>, buffers: map<string, seq<Change>>, dataset: string)
    requires IsDistinct(order) && forall d :: d in order ==> d in buffers
    requires dataset in order
    ensures PendingTotal(Without(order, dataset), buffers) + |buffers[dataset]| == PendingTotal(order, buffers)
  {
    var front, last := order[..|order| - 1], order[|order| - 1];
    assert order == front + [last];
    if last == dataset {
      assert dataset !in front;
      assert Without(order, dataset) == front;
    } else {
      PendingTotalWithout(front, buffers, dataset);
      assert (Without(front, dataset) + [last])[..|Without(front, dataset)|] == Without(front, dataset);
    }
  }

  lemma {:induction false} PendingTotalGrows(order: seq<string>, buffers: map<string, seq<Change>>, ev: Change)
    requires IsDistinct(order) && forall d :: d in order ==> d in buffers
    requires ev.dataset in order
    ensures PendingTotal(order, buffers[ev.dataset := buffers[ev.dataset] + [ev]]) == PendingTotal(order, buffers) + 1
  {
    var front, last := order[..|order| - 1], order[|order| - 1];
    var more := buffers[ev.dataset := buffers[ev.dataset] + [ev]];
    assert order == front + [last];
    if last == ev.dataset {
      PendingTotalSame(front, buffers, more);
    } else {
      PendingTotalGrows(front, buffers, ev);
    }
  }

  /** The datasets of `order` whose first pending event has waited long enough. */
  function Due(order: seq<string>, times: map<string, real>, now: real, wait: real): (r: seq<string>)
    requires forall d :: d in order ==> d in times
    ensures forall d :: d in r <==> d in order && now - times[d] >= wait
    ensures IsDistinct(order) ==> IsDistinct(r)
  {
    if order == [] then []
    else
      var front, last := order[..|order| - 1], order[|order| - 1];
      assert order == front + [last];
      Due(front, times, now, wait) + (if now - times[last] >= wait then [last] else [])
  }

  predicate IsBuffer(dataset: string, events: seq<Change>) {
    dataset != [] && events != [] && forall i :: 0 <= i < |events| ==> events[i].dataset == dataset
  }

  function PendingIn(buffers: map<string, seq<Change>>, dataset: string): seq<Change> {
    if dataset in buffers then buffers[dataset] else []
  }

  /** Buffers and insertion order name the same datasets; no buffer is empty or mixed. */
  ghost predicate Shaped(order: seq<string>, buffers: map<string, seq<Change>>) {
    && IsDistinct(order)
    && (forall d :: d in order <==> d in buffers)
    && (forall d :: d in buffers ==> IsBuffer(d, buffers[d]))
  }

  ghost predicate InOrder(buffers: map<string, seq<Change>>, accepted: seq<Change>, flushed: seq<Group>, d: string) {
    OfDataset(accepted, d) == Flatten(flushed, d) + PendingIn(buffers, d)
  }

  /** Per dataset, flushed batches and the pending buffer are the accepted events, in order; none is lost or doubled. */
  ghost predicate Conserves(
    order: seq<string>, buffers: map<string, seq<Change>>, accepted: seq<Change>, flushed: seq<Group>)
    requires Shaped(order, buffers)
  {
    && (forall i :: 0 <= i < |accepted| ==> accepted[i].totals.None?)
    && (forall d :: InOrder(buffers, accepted, flushed, d))
    && FlushedRows(flushed) + PendingTotal(order, buffers) == |accepted|
  }

  lemma {:induction false} FlushedRowsAppend(flushed: seq<Group>, g: Group)
    ensures FlushedRows(flushed + [g]) == FlushedRows(flushed) + |g|
  {
    assert (flushed + [g])[..|flushed|] == flushed;
  }

  lemma {:induction false} FlushConserves(
    order: seq<string>, buffers: map<string, seq<Change>>, accepted: seq<Change>, flushed: seq<Group>, dataset: string)
    requires Shaped(order, buffers) && Conserves(order, buffers, accepted, flushed) && dataset in buffers
    ensures IsBuffer(dataset, buffers[dataset])
    ensures Shaped(Without(order, dataset), buffers - {dataset})
    ensures Conserves(Without(order, dataset), buffers - {dataset}, accepted, flushed + [buffers[dataset]])
  {
    hide OfDataset, Flatten, FlushedRows, PendingTotal, Without, InOrder, IsDistinct;
    var events: Group := buffers[dataset];
    var rest := buffers - {dataset};
    FlushShaped(order, buffers, dataset);
    PendingTotalWithout(order, buffers, dataset);
    PendingTotalSame(Without(order, dataset), buffers, rest);
    FlushedRowsAppend(flushed, events);
    forall d
      ensures InOrder(rest, accepted, flushed + [events], d)
    {
      FlushKeepsOrder(buffers, accepted, flushed, events, d);
    }
  }

  lemma {:induction false} FlushShaped(order: seq<string>, buffers: map<string, seq<Change>>, dataset: string)
    requires Shaped(order, buffers) && dataset in buffers
    ensures Shaped(Without(order, dataset), buffers - {dataset})
  {
    hide IsBuffer, Without;
    var w := Without(order, dataset);
  }

  lemma {:induction false} FlushKeepsOrder(
    buffers: map<string, seq<Change>>, accepted: seq<Change>, flushed: seq<Group>, events: Group, d: string)
    requires events[0].dataset in buffers && buffers[events[0].dataset] == events
    requires InOrder(buffers, accepted, flushed, d)
    ensures InOrder(buffers - {events[0].dataset}, accepted, flushed + [events], d)
  {
    hide OfDataset, Flatten;
    FlattenAppend(flushed, events, d);
    assert Flatten(flushed, d) + events + [] == Flatten(flushed, d) + events;
    assert Flatten(flushed, d) + [] == Flatten(flushed, d);
  }

  lemma {:induction false} OrderIsKeys(order: seq<string>, buffers: map<string, seq<Change>>, dataset: string)
    requires Shaped(order, buffers)
    ensures dataset in order <==> dataset in buffers
  {
  }

  lemma {:induction false} AbsentIsUnordered(order: seq<string>, buffers: map<string, seq<Change>>, dataset: string)
    requires Shaped(order, buffers) && dataset !in buffers
    ensures Without(order, dataset) == order
  {
  }

  lemma {:induction false} PendingIsSingle(
    order: seq<string>, buffers: map<string, seq<Change>>, accepted: seq<Change>, flushed: seq<Group>, dataset: string)
    requires Shaped(order, buffers) && Conserves(order, buffers, accepted, flushed) && dataset in buffers
    ensures forall i :: 0 <= i < |buffers[dataset]| ==> buffers[dataset][i].totals.None?
  {
    var all := OfDataset(accepted, dataset);
    assert InOrder(buffers, accepted, flushed, dataset);
    forall i | 0 <= i < |buffers[dataset]|
      ensures buffers[dataset][i].totals.None?
    {
      assert all[|Flatten(flushed, dataset)| + i] == buffers[dataset][i];
    }
  }

  function AddTo(buffers: map<string, seq<Change>>, ev: Change): map<string, seq<Change>> {
    buffers[ev.dataset := PendingIn(buffers, ev.dataset) + [ev]]
  }

  function OrderWith(order: seq<string>, dataset: string): seq<string> {
    if dataset in order then order else order + [dataset]
  }

  lemma {:induction false} AddConserves(
    order: seq<string>, buffers: map<string, seq<Change>>, accepted: seq<Change>, flushed: seq<Group>, ev: Change)
    requires Shaped(order, buffers) && Conserves(order, buffers, accepted, flushed)
    requires ev.dataset != [] && ev.totals.None?
    ensures Shaped(OrderWith(order, ev.dataset), AddTo(buffers, ev))
    ensures Conserves(OrderWith(order, ev.dataset), AddTo(buffers, ev), accepted + [ev], flushed)
  {
    hide OfDataset, Flatten, FlushedRows, PendingTotal, InOrder, OrderWith;
    AddShaped(order, buffers, ev);
    AddTotal(order, buffers, ev);
    forall d
      ensures InOrder(AddTo(buffers, ev), accepted + [ev], flushed, d)
    {
      AddKeepsOrder(buffers, accepted, flushed, ev, d);
    }
  }

  lemma {:induction false} AddShaped(order: seq<string>, buffers: map<string, seq<Change>>, ev: Change)
    requires Shaped(order, buffers) && ev.dataset != []
    ensures Shaped(OrderWith(order, ev.dataset), AddTo(buffers, ev))
  {
  }

  lemma {:induction false} AddTotal(order: seq<string>, buffers: map<string, seq<Change>>, ev: Change)
    requires Shaped(order, buffers) && Shaped(OrderWith(order, ev.dataset), AddTo(buffers, ev))
    ensures PendingTotal(OrderWith(order, ev.dataset), AddTo(buffers, ev)) == PendingTotal(order, buffers) + 1
  {
    if ev.dataset in order {
      PendingTotalGrows(order, buffers, ev);
    } else {
      PendingTotalSame(order, buffers, AddTo(buffers, ev));
      assert (order + [ev.dataset])[..|order|] == order;
    }
  }

  lemma {:induction false} AddKeepsOrder(
    buffers: map<string, seq<Change>>, accepted: seq<Change>, flushed: seq<Group>, ev: Change, d: string)
    requires InOrder(buffers, accepted, flushed, d)
    ensures InOrder(AddTo(buffers, ev), accepted + [ev], flushed, d)
  {
    hide OfDataset, Flatten;
    OfDatasetAppend(accepted, ev, d);
    assert (Flatten(flushed, d) + PendingIn(buffers, d)) + [ev] == Flatten(flushed, d) + (PendingIn(buffers, d) + [ev]);
    assert PendingIn(buffers, d) + [] == PendingIn(buffers, d);
  }

  /** While the ids that arrived fit the cache it has forgotten none, and no id was accepted twice. */
  ghost predicate Deduplicated(seen: set<string>, size: int, arrived: set<string>, accepted: seq<Change>) {
    && (forall i :: 0 <= i < |accepted| && accepted[i].changeId != [] ==> accepted[i].changeId in arrived)
    && (|arrived| <= size ==> seen == arrived && AcceptedOnce(accepted))
  }

  ghost predicate AcceptedOnce(accepted: seq<Change>) {
    forall i, j :: 0 <= i < j < |accepted| && accepted[i].changeId != [] ==>
      accepted[i].changeId != accepted[j].changeId
  }

  /** An event arrives whose id is not in the cache; it is accepted unless the database knows it. */
  lemma {:induction false} ArrivalDeduplicates(
    seen: set<string>, size: int, arrived: set<string>, accepted: seq<Change>, ev: Change, known: bool)
    requires Deduplicated(seen, size, arrived, accepted) && ev.changeId !in seen
    ensures Deduplicated(CacheAdd(seen, ev.changeId, size), size, arrived + {ev.changeId},
                         if known then accepted else accepted + [ev])
  {
    var now := accepted + [ev];
    assert forall i :: 0 <= i < |accepted| ==> now[i] == accepted[i];
    if |arrived + {ev.changeId}| <= size {
      SubsetIsSmaller(arrived, arrived + {ev.changeId});
    }
  }

  lemma {:induction false} ArrivalKnown(
    seen: set<string>, size: int, arrived: set<string>, accepted: seq<Change>, id: string)
    requires Deduplicated(seen, size, arrived, accepted) && id in seen
    ensures Deduplicated(seen, size, arrived + {id}, accepted)
  {
    if |arrived + {id}| <= size {
      SubsetIsSmaller(arrived, arrived + {id});
    }
  }

  lemma {:induction false} NoArrival(
    seen: set<string>, size: int, arrived: set<string>, accepted: seq<Change>, ev: Change)
    requires Deduplicated(seen, size, arrived, accepted) && ev.changeId == []
    ensures Deduplicated(seen, size, arrived, accepted + [ev])
  {
  }

  class CDCBatcher {
    const maxEvents: int
    const maxWaitMs: int
    const seenCacheSize: int

    /** `order` is the insertion order of the keys of `buffers`. */
    var buffers: map<string, seq<Change>>
    var order: seq<string>
    var firstEventTimes: map<string, real>
    var seen: set<string>

    /** History: events taken into a buffer, batches flushed, and all change ids that arrived. */
    ghost var accepted: seq<Change>
    ghost var flushed: seq<Group>
    ghost var arrived: set<string>

    ghost predicate Consistent()
      reads this
    {
      && Shaped(order, buffers)
      && firstEventTimes.Keys == buffers.Keys
      && Conserves(order, buffers, accepted, flushed)
      && Deduplicated(seen, seenCacheSize, arrived, accepted)
    }

    ghost predicate Valid()
      reads this
    {
      && Consistent()
      && forall d :: d in buffers ==> |buffers[d]| < maxEvents
    }

    constructor (maxEvents: int, maxWaitMs: int, seenCacheSize: int)
      ensures Valid() && accepted == [] && flushed == [] && arrived == {} && buffers == map[]
      ensures this.maxEvents == maxEvents && this.maxWaitMs == maxWaitMs && this.seenCacheSize == seenCacheSize
    {
      this.maxEvents, this.maxWaitMs, this.seenCacheSize := maxEvents, maxWaitMs, seenCacheSize;
      buffers, order, firstEventTimes, seen := map[], [], map[], {};
      accepted, flushed, arrived := [], [], {};
    }

    method AddToSeenCache(id: string)
      modifies this`seen
      ensures seen == CacheAdd(old(seen), id, seenCacheSize)
    {
      if |seen| >= seenCacheSize {
        seen := {};
      }
      seen := seen + {id};
    }

    /** `inDatabase` is the answer of the lookup in `dataset_events`; false when it cannot be asked. */
    method IsDuplicate(id: string, inDatabase: bool) returns (duplicate: bool)
      modifies this`seen
      ensures duplicate <==> id != [] && (id in old(seen) || inDatabase)
      ensures seen == if duplicate && id !in old(seen) then CacheAdd(old(seen), id, seenCacheSize) else old(seen)
    {
      if id == [] {
        return false;
      }
      if id in seen {
        return true;
      }
      if inDatabase {
        AddToSeenCache(id);
        return true;
      }
      return false;
    }

    method BuildConsolidatedEvent(events: Group, batchId: string) returns (batch: Change)
      requires forall i :: 0 <= i < |events| ==> events[i].totals.None?
      ensures batch == Consolidated(events, batchId)
    {
      var first, last := events[0], events[|events| - 1];
      var netDelta, ids := 0, [];
      for i := 0 to |events|
        invariant netDelta == Sum(Deltas(events[..i]))
        invariant ids == ChangeIds(events[..i])
      {
        assert events[..i + 1][..i] == events[..i];
        assert Deltas(events[..i + 1])[..i] == Deltas(events[..i]);
        if events[i].op == "d" {
          netDelta := netDelta - 1;
        } else if events[i].op in ["c", "r"] {
          netDelta := netDelta + 1;
        }
        if events[i].changeId != [] {
          ids := ids + [events[i].changeId];
        }
      }
      assert events[..|events|] == events;
      batch := Change(first.dataset, last.table, last.op,
                      FirstText(last.file, first.file), FirstPosition(last.pos, first.pos),
                      if |events| == 1 then last.changeId else "",
                      Some(Totals(|events|, netDelta, batchId, ids)));
    }

    method FlushDataset(dataset: string, batchId: string) returns (batch: Option<Change>)
      requires Consistent()
      modifies this`buffers, this`order, this`firstEventTimes, this`flushed
      ensures Consistent()
      ensures buffers == old(buffers) - {dataset} && firstEventTimes == old(firstEventTimes) - {dataset}
      ensures order == Without(old(order), dataset)
      ensures dataset !in old(buffers) ==> batch == None && flushed == old(flushed)
      ensures dataset in old(buffers) ==>
                && IsBuffer(dataset, old(buffers)[dataset])
                && batch == Some(Consolidated(old(buffers)[dataset], batchId))
                && flushed == old(flushed) + [old(buffers)[dataset]]
    {
      hide OfDataset, Flatten, FlushedRows, PendingTotal, Without, Conserves, Deduplicated, Shaped, Consolidated;
      if dataset !in buffers {
        AbsentIsUnordered(order, buffers, dataset);
        assert buffers - {dataset} == buffers && firstEventTimes - {dataset} == firstEventTimes;
        return None;
      }
      FlushConserves(order, buffers, accepted, flushed, dataset);
      PendingIsSingle(order, buffers, accepted, flushed, dataset);
      var events: Group := buffers[dataset];
      var b := BuildConsolidatedEvent(events, batchId);
      buffers, firstEventTimes := buffers - {dataset}, firstEventTimes - {dataset};
      order := Without(order, dataset);
      flushed := flushed + [events];
      return Some(b);
    }

    /** The deduplication half of `add_event`. */
    method Screen(ev: Change, inDatabase: bool) returns (duplicate: bool)
      requires Deduplicated(seen, seenCacheSize, arrived, accepted)
      modifies this`seen, this`arrived
      ensures Deduplicated(seen, seenCacheSize, arrived, if duplicate then accepted else accepted + [ev])
      ensures duplicate <==> ev.changeId != [] && (ev.changeId in old(seen) || inDatabase)
      ensures arrived == if ev.changeId != [] then old(arrived) + {ev.changeId} else old(arrived)
      ensures seen == if ev.changeId != [] && ev.changeId !in old(seen)
                      then CacheAdd(old(seen), ev.changeId, seenCacheSize)
                      else old(seen)
    {
      hide Deduplicated;
      if ev.changeId == [] {
        NoArrival(seen, seenCacheSize, arrived, accepted, ev);
        return false;
      }
      if ev.changeId in seen {
        ArrivalKnown(seen, seenCacheSize, arrived, accepted, ev.changeId);
      } else {
        ArrivalDeduplicates(seen, seenCacheSize, arrived, accepted, ev, inDatabase);
      }
      arrived := arrived + {ev.changeId};
      duplicate := IsDuplicate(ev.changeId, inDatabase);
      if !duplicate {
        AddToSeenCache(ev.changeId);
      }
    }

    /** The buffering half of `add_event`. */
    method Buffer(ev: Change, now: real)
      requires Shaped(order, buffers) && firstEventTimes.Keys == buffers.Keys
      requires Conserves(order, buffers, accepted, flushed)
      requires ev.dataset != [] && ev.totals.None?
      modifies this`buffers, this`order, this`firstEventTimes, this`accepted
      ensures Shaped(order, buffers) && firstEventTimes.Keys == buffers.Keys
      ensures Conserves(order, buffers, accepted, flushed)
      ensures accepted == old(accepted) + [ev] && buffers == AddTo(old(buffers), ev)
      ensures order == OrderWith(old(order), ev.dataset)
      ensures firstEventTimes == if ev.dataset in old(buffers) then old(firstEventTimes)
                                 else old(firstEventTimes)[ev.dataset := now]
    {
      hide Conserves, Shaped;
      AddConserves(order, buffers, accepted, flushed, ev);
      OrderIsKeys(order, buffers, ev.dataset);
      accepted := accepted + [ev];
      if ev.dataset !in buffers {
        buffers, order := buffers[ev.dataset := []], order + [ev.dataset];
        firstEventTimes := firstEventTimes[ev.dataset := now];
      }
      buffers := buffers[ev.dataset := buffers[ev.dataset] + [ev]];
      assert buffers == AddTo(old(buffers), ev);
    }

    method AddEvent(ev: Change, now: real, inDatabase: bool, batchId: string) returns (outcome: AddOutcome)
      requires Valid() && ev.totals.None?
      modifies this
      ensures Valid()
      ensures outcome.Ignored? <==> ev.dataset == []
      ensures outcome.DuplicateSkipped? <==>
                ev.dataset != [] && ev.changeId != [] && (ev.changeId in old(seen) || inDatabase)
      ensures outcome.Ignored? || ev.changeId == [] ==> arrived == old(arrived) && seen == old(seen)
      ensures !outcome.Ignored? && ev.changeId != [] ==>
                && arrived == old(arrived) + {ev.changeId}
                && seen == if ev.changeId in old(seen) then old(seen)
                           else CacheAdd(old(seen), ev.changeId, seenCacheSize)
      ensures outcome.Ignored? || outcome.DuplicateSkipped? ==>
                buffers == old(buffers) && order == old(order) && firstEventTimes == old(firstEventTimes)
                && accepted == old(accepted) && flushed == old(flushed)
      ensures outcome.Buffered? || outcome.Flushed? ==> accepted == old(accepted) + [ev]
      ensures outcome.Flushed? <==>
                accepted != old(accepted) && |PendingIn(old(buffers), ev.dataset)| + 1 >= maxEvents
      ensures outcome.Flushed? ==>
                && IsBuffer(ev.dataset, PendingIn(old(buffers), ev.dataset) + [ev])
                && outcome.batch == Consolidated(PendingIn(old(buffers), ev.dataset) + [ev], batchId)
                && flushed == old(flushed) + [PendingIn(old(buffers), ev.dataset) + [ev]]
                && buffers == old(buffers) - {ev.dataset} && firstEventTimes == old(firstEventTimes) - {ev.dataset}
      ensures outcome.Buffered? ==>
                && flushed == old(flushed) && buffers == AddTo(old(buffers), ev)
                && order == OrderWith(old(order), ev.dataset)
                && firstEventTimes == if ev.dataset in old(buffers) then old(firstEventTimes)
                                      else old(firstEventTimes)[ev.dataset := now]
    {
      hide OfDataset, Flatten, FlushedRows, PendingTotal, Without, Conserves, Deduplicated, Shaped, Consolidated,
           CacheAdd, OrderWith, IsDistinct;
      if ev.dataset == [] {
        return Ignored;
      }
      var duplicate := Screen(ev, inDatabase);
      if duplicate {
        return DuplicateSkipped;
      }
      Buffer(ev, now);
      if |buffers[ev.dataset]| >= maxEvents {
        var batch := FlushDataset(ev.dataset, batchId);
        assert buffers == old(buffers) - {ev.dataset};
        assert firstEventTimes == old(firstEventTimes) - {ev.dataset};
        return Flushed(batch.value);
      }
      return Buffered;
    }

    method CheckTimeouts(now: real, batchIds: nat -> string) returns (results: seq<Change>)
      requires Valid()
      modifies this`buffers, this`order, this`firstEventTimes, this`flushed
      ensures Valid()
      ensures Left(buffers, firstEventTimes, old(buffers), old(firstEventTimes),
                   Due(old(order), old(firstEventTimes), now, maxWaitMs as real / 1000.0))
      ensures Emitted(old(buffers), Due(old(order), old(firstEventTimes), now, maxWaitMs as real / 1000.0),
                      old(flushed), flushed, batchIds, results)
    {
      hide OfDataset, Flatten, FlushedRows, PendingTotal, Without, Conserves, Deduplicated, Consolidated, Left, Emitted,
           IsBuffer, IsDistinct;
      results := [];
      var wait := maxWaitMs as real / 1000.0;
      var datasets := order;
      ghost var due := [];
      NoneDue(old(firstEventTimes), now, wait);
      assert datasets[..0] == [];
      NoneGone(buffers, firstEventTimes, flushed, batchIds);
      for i := 0 to |datasets|
        invariant Consistent()
        invariant due == Due(datasets[..i], old(firstEventTimes), now, wait)
        invariant Left(buffers, firstEventTimes, old(buffers), old(firstEventTimes), due)
        invariant Emitted(old(buffers), due, old(flushed), flushed, batchIds, results)
      {
        DueNext(datasets, i, old(firstEventTimes), now, wait);
        LeftLess(buffers, firstEventTimes, old(buffers), old(firstEventTimes), due, datasets[i]);
        NextInOrder(datasets, old(buffers), i);
        if now - firstEventTimes[datasets[i]] >= wait {
          EmittedMore(old(buffers), due, old(flushed), flushed, batchIds, results, datasets[i], buffers[datasets[i]]);
          var batch := FlushDataset(datasets[i], batchIds(|results|));
          results := results + [batch.value];
          due := due + [datasets[i]];
        }
      }
      assert datasets[..|datasets|] == datasets;
      LeftIsUnchanged(buffers, firstEventTimes, old(buffers), old(firstEventTimes), due);
    }

    method FlushAll(batchIds: nat -> string) returns (results: seq<Change>)
      requires Valid()
      modifies this`buffers, this`order, this`firstEventTimes, this`flushed
      ensures Valid() && buffers == map[]
      ensures Emitted(old(buffers), old(order), old(flushed), flushed, batchIds, results)
      ensures forall d :: Flatten(flushed, d) == OfDataset(accepted, d)
      ensures FlushedRows(flushed) == |accepted|
    {
      hide OfDataset, Flatten, FlushedRows, PendingTotal, Without, Conserves, Deduplicated, Consolidated, Left, Emitted,
           Shaped, Due;
      results := [];
      var datasets := order;
      ghost var gone := [];
      NoneGone(buffers, firstEventTimes, flushed, batchIds);
      for i := 0 to |datasets|
        invariant Consistent() && gone == datasets[..i]
        invariant Left(buffers, firstEventTimes, old(buffers), old(firstEventTimes), gone)
        invariant Emitted(old(buffers), gone, old(flushed), flushed, batchIds, results)
      {
        LeftLess(buffers, firstEventTimes, old(buffers), old(firstEventTimes), gone, datasets[i]);
        NextInOrder(datasets, old(buffers), i);
        EmittedMore(old(buffers), gone, old(flushed), flushed, batchIds, results, datasets[i], buffers[datasets[i]]);
        var batch := FlushDataset(datasets[i], batchIds(|results|));
        results := results + [batch.value];
        gone := gone + [datasets[i]];
      }
      assert gone == datasets;
      AllGone(order, buffers, firstEventTimes, datasets, old(buffers), old(firstEventTimes));
      NothingPending(order, buffers, accepted, flushed);
    }

    /** No dataset given (or an empty name) asks for the total. */
    method GetPendingCount(dataset: Option<string>) returns (count: nat)
      requires Valid()
      ensures dataset.Some? && dataset.value != [] ==>
                count == |OfDataset(accepted, dataset.value)| - |Flatten(flushed, dataset.value)|
      ensures dataset.None? || dataset.value == [] ==> count == |accepted| - FlushedRows(flushed)
    {
      if dataset.Some? && dataset.value != [] {
        assert InOrder(buffers, accepted, flushed, dataset.value);
        return if dataset.value in buffers then |buffers[dataset.value]| else 0;
      }
      count := 0;
      for i := 0 to |order|
        invariant count == PendingTotal(order[..i], buffers)
      {
        assert order[..i + 1][..i] == order[..i];
        count := count + |buffers[order[i]]|;
      }
      assert order[..|order|] == order;
    }
  }

  lemma {:induction false} EmptyOrder(order: seq<string>, buffers: map<string, seq<Change>>)
    requires Shaped(order, buffers) && buffers == map[]
    ensures order == []
  {
    hide Shaped;
    if order != [] {
      OrderIsKeys(order, buffers, order[0]);
    }
  }

  lemma {:induction false} NothingPending(
    order: seq<string>, buffers: map<string, seq<Change>>, accepted: seq<Change>, flushed: seq<Group>)
    requires Shaped(order, buffers) && Conserves(order, buffers, accepted, flushed) && buffers == map[]
    ensures forall d :: Flatten(flushed, d) == OfDataset(accepted, d)
    ensures FlushedRows(flushed) == |accepted|
  {
    EmptyOrder(order, buffers);
    forall d
      ensures Flatten(flushed, d) == OfDataset(accepted, d)
    {
      assert InOrder(buffers, accepted, flushed, d);
    }
  }

  lemma {:induction false} NoneDue(times: map<string, real>, now: real, wait: real)
    ensures Due([], times, now, wait) == []
  {
  }

  lemma {:induction false} DueNext(order: seq<string>, i: nat, times: map<string, real>, now: real, wait: real)
    requires i < |order| && forall d :: d in order ==> d in times
    ensures Due(order[..i + 1], times, now, wait)
         == Due(order[..i], times, now, wait) + (if now - times[order[i]] >= wait then [order[i]] else [])
  {
    assert order[..i + 1][..i] == order[..i];
  }

  /** Of the maps before, the datasets of `gone` have been removed and nothing else touched. */
  ghost predicate Left(
    buffers: map<string, seq<Change>>, times: map<string, real>,
    buffersBefore: map<string, seq<Change>>, timesBefore: map<string, real>, gone: seq<string>)
  {
    && (forall d :: d in buffers <==> d in buffersBefore && d !in gone)
    && (forall d :: d in times <==> d in timesBefore && d !in gone)
    && (forall d :: d in buffers ==> buffers[d] == buffersBefore[d])
    && (forall d :: d in times ==> times[d] == timesBefore[d])
  }

  lemma {:induction false} NextInOrder(order: seq<string>, buffers: map<string, seq<Change>>, i: nat)
    requires Shaped(order, buffers) && i < |order|
    ensures order[i] !in order[..i] && order[i] in buffers && IsBuffer(order[i], buffers[order[i]])
  {
  }

  lemma {:induction false} LeftLess(
    buffers: map<string, seq<Change>>, times: map<string, real>,
    buffersBefore: map<string, seq<Change>>, timesBefore: map<string, real>, gone: seq<string>, d: string)
    requires Left(buffers, times, buffersBefore, timesBefore, gone)
    ensures Left(buffers - {d}, times - {d}, buffersBefore, timesBefore, gone + [d])
    ensures d in buffers ==> d in buffersBefore && buffers[d] == buffersBefore[d]
    ensures d in times ==> d in timesBefore && times[d] == timesBefore[d]
    ensures d in buffersBefore && d in timesBefore && d !in gone ==> d in buffers && d in times
  {
  }

  lemma {:induction false} NoneGone(
    buffers: map<string, seq<Change>>, times: map<string, real>, flushed: seq<Group>, batchIds: nat -> string)
    ensures Left(buffers, times, buffers, times, []) && Emitted(buffers, [], flushed, flushed, batchIds, [])
  {
  }

  lemma {:induction false} LeftIsUnchanged(
    buffers: map<string, seq<Change>>, times: map<string, real>,
    buffersBefore: map<string, seq<Change>>, timesBefore: map<string, real>, gone: seq<string>)
    requires Left(buffers, times, buffersBefore, timesBefore, gone)
    ensures forall d :: d in buffers ==> d in buffersBefore && buffers[d] == buffersBefore[d]
  {
  }

  lemma {:induction false} AllGone(
    order: seq<string>, buffers: map<string, seq<Change>>, times: map<string, real>,
    orderBefore: seq<string>, buffersBefore: map<string, seq<Change>>, timesBefore: map<string, real>)
    requires Shaped(order, buffers) && Shaped(orderBefore, buffersBefore)
    requires Left(buffers, times, buffersBefore, timesBefore, orderBefore)
    ensures buffers == map[]
  {
  }

  lemma {:induction false} EmittedMore(
    buffers: map<string, seq<Change>>, due: seq<string>, before: seq<Group>, middle: seq<Group>,
    batchIds: nat -> string, results: seq<Change>, d: string, g: Group)
    requires Emitted(buffers, due, before, middle, batchIds, results) && d in buffers && buffers[d] == g
    ensures var more := results + [Consolidated(g, batchIds(|results|))];
            Emitted(buffers, due + [d], before, middle + [g], batchIds, more)
  {
    hide Consolidated;
  }

  /** Flushing `due` in order appended its buffers to `flushed` and returned their batches. */
  ghost predicate Emitted(
    buffers: map<string, seq<Change>>, due: seq<string>, before: seq<Group>, after: seq<Group>,
    batchIds: nat -> string, results: seq<Change>)
  {
    && before <= after && |after| == |before| + |due| == |before| + |results|
    && forall i :: 0 <= i < |due| ==>
         && due[i] in buffers && after[|before| + i] == buffers[due[i]]
         && results[i] == Consolidated(after[|before| + i], batchIds(i))
  }

  // ---- What the bounded cache guarantees ------------------------------------

  /** The cache and the ids accepted after a stream of ids the database does not know. */
  function Screened(ids: seq<string>, size: int): (set<string>, seq<string>) {
    if ids == [] then ({}, [])
    else
      var (seen, taken) := Screened(ids[..|ids| - 1], size);
      var id := ids[|ids| - 1];
      if id in seen then (seen, taken) else (CacheAdd(seen, id, size), taken + [id])
  }

  function IdSet(ids: seq<string>): set<string> { set id | id in ids }

  lemma {:induction false} ScreenedAppend(ids: seq<string>, id: string, size: int)
    ensures Screened(ids + [id], size)
         == var (seen, taken) := Screened(ids, size);
            if id in seen then (seen, taken) else (CacheAdd(seen, id, size), taken + [id])
  {
    assert (ids + [id])[..|ids|] == ids;
  }

  /** As long as the ids that came fit the cache, exactly the first occurrences are accepted. */
  lemma {:induction false} FirstOccurrencesAccepted(ids: seq<string>, size: int)
    requires |IdSet(ids)| <= size
    ensures Screened(ids, size).0 == IdSet(ids)
    ensures IsDistinct(Screened(ids, size).1)
    ensures IdSet(Screened(ids, size).1) == IdSet(ids)
  {
    if ids == [] {
      assert IdSet(ids) == {};
    } else {
      var front, id := ids[..|ids| - 1], ids[|ids| - 1];
      assert ids == front + [id];
      assert IdSet(ids) == IdSet(front) + {id};
      SubsetIsSmaller(IdSet(front), IdSet(ids));
      FirstOccurrencesAccepted(front, size);
      ScreenedAppend(front, id, size);
      var taken := Screened(front, size).1;
      assert id in taken <==> id in IdSet(front);
      assert IdSet(taken + [id]) == IdSet(taken) + {id};
    }
  }

  lemma {:induction false} AllTaken(ids: seq<string>, size: int)
    requires |ids| <= size && IsDistinct(ids)
    ensures Screened(ids, size) == (IdSet(ids), ids) && |IdSet(ids)| == |ids|
  {
    if ids == [] {
      assert IdSet(ids) == {};
    } else {
      var front, id := ids[..|ids| - 1], ids[|ids| - 1];
      assert ids == front + [id];
      AllTaken(front, size);
      ScreenedAppend(front, id, size);
      assert IdSet(ids) == IdSet(front) + {id};
    }
  }

  /** The bound is sharp at every cache size: one more distinct id than fits, and a repeat is accepted. */
  lemma {:induction false} OneMoreIdIsForgotten(ids: seq<string>, size: nat)
    requires size >= 1 && |ids| == size + 1 && IsDistinct(ids)
    ensures Screened(ids + [ids[0]], size).1 == ids + [ids[0]]
  {
    hide Screened;
    var front, id := ids[..size], ids[size];
    assert ids == front + [id];
    AllTaken(front, size);
    ScreenedAppend(front, id, size);
    ScreenedAppend(ids, ids[0], size);
  }
}
