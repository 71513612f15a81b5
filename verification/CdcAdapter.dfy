/**
 * `process_cdc_event` on the event and metadata tables: replay insensitivity,
 * consecutive versions, and how batching compares with one-at-a-time processing.
 */
module CdcAdapter {
  import opened Common
  import opened Cdc

  datatype Meta = Meta(version: int, rows: int, ready: bool)

  /** A row of `dataset_events`; its event id is its position. */
  datatype EventRow = EventRow(dataset: string, version: int, rowsChanged: nat, changeId: string)

  datatype Store = Store(meta: map<string, Meta>, events: seq<EventRow>)

  datatype Outcome = DuplicateSkipped(event: nat) | Processed(event: nat, version: int)

  const UNSEEN := Meta(0, 0, false)

  function MetaOf(store: Store, dataset: string): Meta {
    if dataset in store.meta then store.meta[dataset] else UNSEEN
  }

  predicate Recorded(events: seq<EventRow>, changeId: string) {
    exists i :: 0 <= i < |events| && events[i].changeId == changeId
  }

  function Clamp(n: int): nat { if n < 0 then 0 else n }

  predicate IsDuplicate(store: Store, c: Change) {
    c.changeId != [] && Recorded(store.events, c.changeId)
  }

  /**
   * The committed tables after one call. `missed` says that the duplicate lookup ran before
   * a concurrent insert of the same change id; the unique index then refuses the insert, but
   * a metadata row created on the way stays.
   */
  function Apply(store: Store, c: Change, missed: bool): Store {
    var m := MetaOf(store, c.dataset);
    if IsDuplicate(store, c) then
      if missed then store.(meta := store.meta[c.dataset := m]) else store
    else
      Store(store.meta[c.dataset := Meta(m.version + 1, Clamp(m.rows + RowDelta(c)), true)],
            store.events + [EventRow(c.dataset, m.version + 1, RowsChanged(c), c.changeId)])
  }

  // ---- The transaction as it runs -------------------------------------------

  class CdcTables {
    var meta: map<string, Meta>
    var events: seq<EventRow>

    function State(): Store
      reads this
    {
      Store(meta, events)
    }

    method FindChange(changeId: string) returns (found: Option<nat>)
      ensures found.Some? <==> Recorded(events, changeId)
      ensures found.Some? ==> found.value < |events| && events[found.value].changeId == changeId
    {
      for i := 0 to |events|
        invariant forall j :: 0 <= j < i ==> events[j].changeId != changeId
      {
        if events[i].changeId == changeId {
          return Some(i);
        }
      }
      return None;
    }

    method ProcessCdcEvent(c: Change, missed: bool) returns (outcome: Outcome)
      modifies this
      ensures State() == Apply(old(State()), c, missed)
      ensures outcome.Processed? <==> !IsDuplicate(old(State()), c)
      ensures outcome.event < |events| && events[outcome.event].changeId == c.changeId
      ensures outcome.Processed? ==>
                outcome.event == |old(events)| && outcome.version == MetaOf(old(State()), c.dataset).version + 1
    {
      if c.changeId != [] && !missed {
        var existing := FindChange(c.changeId);
        if existing.Some? {
          return DuplicateSkipped(existing.value);
        }
      }
      if c.dataset !in meta {
        meta := meta[c.dataset := UNSEEN];
      }
      var m := meta[c.dataset];
      var delta := if c.totals.Some? then c.totals.value.netRowDelta else OpDelta(c.op);
      var rowsChanged: nat :=
        if c.totals.Some? then c.totals.value.rowsChanged
        else if delta == 0 then 1 else if delta < 0 then -delta else delta;
      var clash := FindChange(c.changeId);
      if c.changeId != [] && clash.Some? {
        assert meta == old(meta)[c.dataset := MetaOf(old(State()), c.dataset)];
        return DuplicateSkipped(clash.value);
      }
      events := events + [EventRow(c.dataset, m.version + 1, rowsChanged, c.changeId)];
      meta := meta[c.dataset := Meta(m.version + 1, Clamp(m.rows + delta), true)];
      return Processed(|events| - 1, m.version + 1);
    }
  }

  // ---- Sequences of calls ---------------------------------------------------

  /** `misses[i]` is the lookup fate of the `i`-th call. */
  function ApplyAll(store: Store, cs: seq<Change>, misses: nat -> bool): Store {
    if cs == [] then store
    else Apply(ApplyAll(store, cs[..|cs| - 1], misses), cs[|cs| - 1], misses(|cs| - 1))
  }

  function NoMiss(i: nat): bool { false }

  predicate IdIn(cs: seq<Change>, changeId: string) {
    exists i :: 0 <= i < |cs| && cs[i].changeId == changeId
  }

  /** The changes whose id has not occurred before. */
  function FirstOccurrences(cs: seq<Change>): seq<Change> {
    if cs == [] then []
    else
      var front, last := cs[..|cs| - 1], cs[|cs| - 1];
      FirstOccurrences(front) + (if IdIn(front, last.changeId) then [] else [last])
  }

  /** Equal event tables, and equal metadata where absence counts as version 0. */
  ghost predicate SameTables(a: Store, b: Store) {
    a.events == b.events && forall d :: MetaOf(a, d) == MetaOf(b, d)
  }

  lemma {:induction false} AllRecorded(store: Store, cs: seq<Change>, misses: nat -> bool)
    ensures store.events <= ApplyAll(store, cs, misses).events
    ensures forall i :: 0 <= i < |cs| && cs[i].changeId != [] ==>
              Recorded(ApplyAll(store, cs, misses).events, cs[i].changeId)
  {
    if cs != [] {
      var front := cs[..|cs| - 1];
      AllRecorded(store, front, misses);
      var before, after := ApplyAll(store, front, misses), ApplyAll(store, cs, misses);
      forall i | 0 <= i < |cs| && cs[i].changeId != []
        ensures Recorded(after.events, cs[i].changeId)
      {
        if i < |front| {
          assert front[i] == cs[i];
          var j :| 0 <= j < |before.events| && before.events[j].changeId == cs[i].changeId;
          assert after.events[j].changeId == cs[i].changeId;
        } else if !IsDuplicate(before, cs[i]) {
          assert after.events[|before.events|].changeId == cs[i].changeId;
        }
      }
    }
  }

  lemma {:induction false} DuplicateChangesNothing(store: Store, c: Change, missed: bool)
    requires IsDuplicate(store, c)
    ensures SameTables(Apply(store, c, missed), store)
  {
  }

  lemma {:induction false} AcceptedAlike(a: Store, b: Store, c: Change, missed: bool)
    requires SameTables(a, b) && !IsDuplicate(a, c)
    ensures SameTables(Apply(a, c, missed), Apply(b, c, false))
  {
    assert MetaOf(a, c.dataset) == MetaOf(b, c.dataset);
    forall d
      ensures MetaOf(Apply(a, c, missed), d) == MetaOf(Apply(b, c, false), d)
    {
      assert MetaOf(a, d) == MetaOf(b, d);
    }
  }

  lemma {:induction false} RepeatChangesNothing(a: Store, b: Store, c: Change, missed: bool)
    requires SameTables(a, b) && IsDuplicate(a, c)
    ensures SameTables(Apply(a, c, missed), b) && Apply(b, c, false) == b
  {
  }

  lemma {:induction false} ApplyAllAppend(store: Store, cs: seq<Change>, c: Change, misses: nat -> bool)
    ensures ApplyAll(store, cs + [c], misses) == Apply(ApplyAll(store, cs, misses), c, misses(|cs|))
  {
  }

  lemma {:induction false} FirstOccurrencesAppend(cs: seq<Change>, c: Change)
    ensures FirstOccurrences(cs + [c])
         == if IdIn(cs, c.changeId) then FirstOccurrences(cs) else FirstOccurrences(cs) + [c]
  {
  }

  /**
   * Replaying changes is harmless: whatever is repeated and whichever lookups a race made
   * miss, the tables are those of the first occurrences alone, when the table starts
   * without these ids or with them.
   */
  lemma {:induction false} ReplayInsensitive(store: Store, cs: seq<Change>, misses: nat -> bool)
    requires forall i :: 0 <= i < |cs| ==> cs[i].changeId != []
    ensures SameTables(ApplyAll(store, cs, misses), ApplyAll(store, FirstOccurrences(cs), NoMiss))
  {
    if cs == [] {
      assert FirstOccurrences(cs) == [];
    } else {
      hide *;
      var front, last := cs[..|cs| - 1], cs[|cs| - 1];
      assert cs == front + [last] && forall i :: 0 <= i < |front| ==> front[i] == cs[i];
      ReplayInsensitive(store, front, misses);
      ReplayStep(store, front, last, misses);
    }
  }

  lemma {:induction false} ReplayStep(store: Store, front: seq<Change>, last: Change, misses: nat -> bool)
    requires last.changeId != []
    requires SameTables(ApplyAll(store, front, misses), ApplyAll(store, FirstOccurrences(front), NoMiss))
    ensures SameTables(ApplyAll(store, front + [last], misses),
                       ApplyAll(store, FirstOccurrences(front + [last]), NoMiss))
  {
    hide *;
    var before, firsts := ApplyAll(store, front, misses), FirstOccurrences(front);
    var shadow := ApplyAll(store, firsts, NoMiss);
    ApplyAllAppend(store, front, last, misses);
    ApplyAllAppend(store, firsts, last, NoMiss);
    FirstOccurrencesAppend(front, last);
    NoMissNever(|firsts|);
    if IdIn(front, last.changeId) {
      RepeatIsDuplicate(store, front, misses, last);
    }
    if IsDuplicate(before, last) {
      RepeatChangesNothing(before, shadow, last, misses(|front|));
    } else {
      AcceptedAlike(before, shadow, last, misses(|front|));
    }
  }

  lemma {:induction false} NoMissNever(i: nat)
    ensures !NoMiss(i)
  {
  }

  lemma {:induction false} RepeatIsDuplicate(store: Store, front: seq<Change>, misses: nat -> bool, last: Change)
    requires last.changeId != [] && IdIn(front, last.changeId)
    ensures IsDuplicate(ApplyAll(store, front, misses), last)
  {
    AllRecorded(store, front, misses);
  }

  function VersionsOf(events: seq<EventRow>, dataset: string): seq<int> {
    if events == [] then []
    else
      var last := events[|events| - 1];
      VersionsOf(events[..|events| - 1], dataset) + (if last.dataset == dataset then [last.version] else [])
  }

  /** What one accepted change does to the tables of any dataset. */
  lemma {:induction false} AcceptedEffect(store: Store, c: Change, missed: bool, dataset: string)
    requires !IsDuplicate(store, c)
    ensures var t, m := Apply(store, c, missed), MetaOf(store, dataset);
            && |t.events| == |store.events| + 1 && t.events[..|store.events|] == store.events
            && t.events[|store.events|]
               == EventRow(c.dataset, MetaOf(store, c.dataset).version + 1, RowsChanged(c), c.changeId)
            && MetaOf(t, dataset)
               == if c.dataset == dataset then Meta(m.version + 1, Clamp(m.rows + RowDelta(c)), true) else m
  {
  }

  lemma {:induction false} VersionsAppend(events: seq<EventRow>, row: EventRow, dataset: string)
    ensures VersionsOf(events + [row], dataset)
         == VersionsOf(events, dataset) + (if row.dataset == dataset then [row.version] else [])
  {
    assert (events + [row])[..|events|] == events;
  }

  /**
   * What a run of calls adds to a dataset's versions: the numbers that follow its current one, the
   * row showing the last.
   */
  predicate VersionsContinue(before: Store, after: Store, dataset: string) {
    var first, all := VersionsOf(before.events, dataset), VersionsOf(after.events, dataset);
    && first <= all
    && MetaOf(after, dataset).version == MetaOf(before, dataset).version + |all| - |first|
    && forall i :: |first| <= i < |all| ==> all[i] == MetaOf(before, dataset).version + i - |first| + 1
  }

  lemma {:induction false} VersionsStep(start: Store, before: Store, c: Change, missed: bool, dataset: string)
    requires VersionsContinue(start, before, dataset)
    ensures VersionsContinue(start, Apply(before, c, missed), dataset)
  {
    if IsDuplicate(before, c) {
      DuplicateChangesNothing(before, c, missed);
      assert MetaOf(Apply(before, c, missed), dataset) == MetaOf(before, dataset);
    } else {
      AcceptedEffect(before, c, missed, dataset);
      var after := Apply(before, c, missed);
      VersionsAppend(before.events, after.events[|before.events|], dataset);
      hide Apply;
      assert after.events == before.events + [after.events[|before.events|]];
    }
  }

  /** From any tables, each dataset's new events carry the versions after its current one, without a hole. */
  lemma {:induction false} VersionsAreConsecutive(
    store: Store, cs: seq<Change>, misses: nat -> bool, dataset: string)
    ensures VersionsContinue(store, ApplyAll(store, cs, misses), dataset)
  {
    if cs != [] {
      hide Apply, VersionsContinue;
      VersionsAreConsecutive(store, cs[..|cs| - 1], misses, dataset);
      VersionsStep(store, ApplyAll(store, cs[..|cs| - 1], misses), cs[|cs| - 1], misses(|cs| - 1), dataset);
    }
  }

  // ---- Row counts as a clamped walk -----------------------------------------

  function Walk(start: int, deltas: seq<int>): int {
    if deltas == [] then start else Clamp(Walk(start, deltas[..|deltas| - 1]) + deltas[|deltas| - 1])
  }

  /** Ids that occur are pairwise different and not in the table yet, so nothing is skipped. */
  ghost predicate Fresh(store: Store, cs: seq<Change>) {
    && (forall i :: 0 <= i < |cs| && cs[i].changeId != [] ==> !Recorded(store.events, cs[i].changeId))
    && (forall i, j :: 0 <= i < j < |cs| && cs[i].changeId != [] ==> cs[i].changeId != cs[j].changeId)
  }

  function TotalRows(events: seq<EventRow>, dataset: string): nat {
    if events == [] then 0
    else
      var last := events[|events| - 1];
      TotalRows(events[..|events| - 1], dataset) + (if last.dataset == dataset then last.rowsChanged else 0)
  }

  function ReportedRows(cs: seq<Change>): nat {
    if cs == [] then 0 else ReportedRows(cs[..|cs| - 1]) + RowsChanged(cs[|cs| - 1])
  }

  lemma {:induction false} OnlyTheseIds(store: Store, cs: seq<Change>, id: string)
    requires !Recorded(store.events, id) && !IdIn(cs, id)
    ensures !Recorded(ApplyAll(store, cs, NoMiss).events, id)
  {
    if cs != [] {
      var front := cs[..|cs| - 1];
      assert forall i :: 0 <= i < |front| ==> front[i] == cs[i];
      assert cs[|cs| - 1].changeId != id;
      OnlyTheseIds(store, front, id);
    }
  }

  lemma {:induction false} FreshFront(store: Store, cs: seq<Change>)
    requires Fresh(store, cs) && cs != []
    ensures Fresh(store, cs[..|cs| - 1])
    ensures !IsDuplicate(ApplyAll(store, cs[..|cs| - 1], NoMiss), cs[|cs| - 1])
  {
    var front, last := cs[..|cs| - 1], cs[|cs| - 1];
    assert forall i :: 0 <= i < |front| ==> front[i] == cs[i];
    if last.changeId != [] {
      OnlyTheseIds(store, front, last.changeId);
    }
  }

  lemma {:induction false} DeltasAppend(cs: seq<Change>, c: Change)
    ensures Deltas(cs + [c]) == Deltas(cs) + [RowDelta(c)]
    ensures ReportedRows(cs + [c]) == ReportedRows(cs) + RowsChanged(c)
  {
  }

  lemma {:induction false} WalkAppend(start: int, deltas: seq<int>, d: int)
    ensures Walk(start, deltas + [d]) == Clamp(Walk(start, deltas) + d)
    ensures Sum(deltas + [d]) == Sum(deltas) + d
  {
  }

  lemma {:induction false} TotalRowsAppend(before: seq<EventRow>, after: seq<EventRow>, dataset: string)
    requires |after| == |before| + 1 && after[..|before|] == before
    ensures TotalRows(after, dataset)
         == TotalRows(before, dataset) + (if after[|before|].dataset == dataset then after[|before|].rowsChanged else 0)
  {
  }

  /** Fresh changes walk each dataset's row count by their deltas and report all their rows. */
  lemma {:induction false} FreshChangesWalk(store: Store, cs: seq<Change>, dataset: string)
    requires Fresh(store, cs)
    ensures var after := ApplyAll(store, cs, NoMiss);
            && MetaOf(after, dataset).rows == Walk(MetaOf(store, dataset).rows, Deltas(OfDataset(cs, dataset)))
            && TotalRows(after.events, dataset)
               == TotalRows(store.events, dataset) + ReportedRows(OfDataset(cs, dataset))
  {
    if cs == [] {
      assert OfDataset(cs, dataset) == [];
    } else {
      hide *;
      var front, last := cs[..|cs| - 1], cs[|cs| - 1];
      var before, after := ApplyAll(store, front, NoMiss), ApplyAll(store, cs, NoMiss);
      assert cs == front + [last];
      FreshFront(store, cs);
      FreshChangesWalk(store, front, dataset);
      ApplyAllAppend(store, front, last, NoMiss);
      NoMissNever(|front|);
      AcceptedEffect(before, last, false, dataset);
      TotalRowsAppend(before.events, after.events, dataset);
      OfDatasetAppend(front, last, dataset);
      var mine := OfDataset(front, dataset);
      if last.dataset == dataset {
        DeltasAppend(mine, last);
        WalkAppend(MetaOf(store, dataset).rows, Deltas(mine), RowDelta(last));
      } else {
        assert mine + [] == mine;
      }
    }
  }

  // ---- Batches against single changes ---------------------------------------

  lemma {:induction false} WalkConcat(start: int, a: seq<int>, b: seq<int>)
    ensures Walk(start, a + b) == Walk(Walk(start, a), b)
  {
    if b == [] {
      assert a + b == a;
    } else {
      assert (a + b)[..|a + b| - 1] == a + b[..|b| - 1];
      WalkConcat(start, a, b[..|b| - 1]);
    }
  }

  lemma {:induction false} WalkMonotone(low: int, high: int, deltas: seq<int>)
    requires low <= high
    ensures Walk(low, deltas) <= Walk(high, deltas)
  {
    if deltas != [] {
      WalkMonotone(low, high, deltas[..|deltas| - 1]);
    }
  }

  lemma {:induction false} WalkAboveSum(start: int, deltas: seq<int>)
    ensures start + Sum(deltas) <= Walk(start, deltas)
    ensures deltas != [] ==> Clamp(start + Sum(deltas)) <= Walk(start, deltas)
  {
    if deltas != [] {
      WalkAboveSum(start, deltas[..|deltas| - 1]);
    }
  }

  /** No prefix of the changes takes the count below zero. */
  predicate NeverBelowZero(start: int, deltas: seq<int>) {
    forall n :: 0 <= n <= |deltas| ==> start + Sum(deltas[..n]) >= 0
  }

  lemma {:induction false} WalkIsSum(start: int, deltas: seq<int>)
    requires NeverBelowZero(start, deltas)
    ensures Walk(start, deltas) == start + Sum(deltas)
  {
    if deltas != [] {
      var front := deltas[..|deltas| - 1];
      assert forall n :: 0 <= n <= |front| ==> front[..n] == deltas[..n];
      assert deltas[..|deltas|] == deltas;
      WalkIsSum(start, front);
    }
  }

  /** The largest sum of a suffix, the empty one included. */
  function BestSuffix(deltas: seq<int>): (b: nat) {
    if deltas == [] then 0 else Clamp(BestSuffix(deltas[..|deltas| - 1]) + deltas[|deltas| - 1])
  }

  lemma {:induction false} BestSuffixIsBest(deltas: seq<int>)
    ensures forall n :: 0 <= n <= |deltas| ==> Sum(deltas) - Sum(deltas[..n]) <= BestSuffix(deltas)
    ensures exists n :: 0 <= n <= |deltas| && Sum(deltas) - Sum(deltas[..n]) == BestSuffix(deltas)
  {
    assert deltas[..|deltas|] == deltas;
    if deltas == [] {
      assert deltas[..0] == [];
    } else {
      var front := deltas[..|deltas| - 1];
      BestSuffixIsBest(front);
      assert forall n :: 0 <= n <= |front| ==> front[..n] == deltas[..n];
      var n :| 0 <= n <= |front| && Sum(front) - Sum(front[..n]) == BestSuffix(front);
      if BestSuffix(front) + deltas[|front|] >= 0 {
        assert Sum(deltas) - Sum(deltas[..n]) == BestSuffix(deltas);
      } else {
        assert Sum(deltas) - Sum(deltas[..|deltas|]) == BestSuffix(deltas);
      }
    }
  }

  /** The per-event count in closed form. */
  lemma {:induction false} WalkClosedForm(start: int, deltas: seq<int>)
    requires start >= 0
    ensures Walk(start, deltas)
         == if start + Sum(deltas) > BestSuffix(deltas) then start + Sum(deltas) else BestSuffix(deltas)
  {
    if deltas != [] {
      WalkClosedForm(start, deltas[..|deltas| - 1]);
    }
  }

  /** The prefix sums of `batched` reach every prefix sum of `single` that lies below zero from `start`. */
  ghost predicate LowsAreReached(start: int, single: seq<int>, batched: seq<int>) {
    forall n :: 0 <= n <= |single| && start + Sum(single[..n]) < 0 ==> ReachesDown(batched, Sum(single[..n]))
  }

  ghost predicate ReachesDown(deltas: seq<int>, low: int) {
    exists m :: 0 <= m <= |deltas| && Sum(deltas[..m]) <= low
  }

  lemma {:induction false} WalksAgreeIff(start: int, single: seq<int>, batched: seq<int>)
    requires start >= 0 && Sum(single) == Sum(batched) && Walk(start, batched) <= Walk(start, single)
    ensures Walk(start, batched) == Walk(start, single) <==> LowsAreReached(start, single, batched)
  {
    WalkClosedForm(start, single);
    WalkClosedForm(start, batched);
    BestSuffixIsBest(single);
    BestSuffixIsBest(batched);
    hide Sum, Walk, BestSuffix;
    var n :| 0 <= n <= |single| && Sum(single) - Sum(single[..n]) == BestSuffix(single);
    if LowsAreReached(start, single, batched) && start + Sum(single[..n]) < 0 {
      assert ReachesDown(batched, Sum(single[..n]));
    }
    if Walk(start, batched) == Walk(start, single) {
      var m :| 0 <= m <= |batched| && Sum(batched) - Sum(batched[..m]) == BestSuffix(batched);
      forall k | 0 <= k <= |single| && start + Sum(single[..k]) < 0
        ensures ReachesDown(batched, Sum(single[..k]))
      {
        assert Sum(batched[..m]) <= Sum(single[..k]);
      }
    }
  }

  /** The batches of the groups; `ids` supplies the random batch ids. */
  function Batches(groups: seq<Group>, ids: nat -> string): (r: seq<Change>)
    ensures |r| == |groups|
    ensures forall i :: 0 <= i < |groups| ==> r[i] == Consolidated(groups[i], ids(i))
  {
    seq(|groups|, i requires 0 <= i < |groups| => Consolidated(groups[i], ids(i)))
  }

  /** No group contains a batch: the batcher only ever holds single changes. */
  predicate Singles(cs: seq<Change>) { forall i :: 0 <= i < |cs| ==> cs[i].totals.None? }

  lemma {:induction false} ReportedSingles(cs: seq<Change>)
    requires Singles(cs)
    ensures ReportedRows(cs) == |cs|
  {
    if cs != [] {
      ReportedSingles(cs[..|cs| - 1]);
    }
  }

  lemma {:induction false} BatchesAppend(groups: seq<Group>, g: Group, ids: nat -> string)
    ensures Batches(groups + [g], ids) == Batches(groups, ids) + [Consolidated(g, ids(|groups|))]
  {
  }

  /** The batches of one dataset against the events they came from. */
  lemma {:induction false} BatchWalk(start: int, groups: seq<Group>, ids: nat -> string, dataset: string)
    ensures var batches, events := OfDataset(Batches(groups, ids), dataset), Flatten(groups, dataset);
            && Walk(start, Deltas(batches)) <= Walk(start, Deltas(events))
            && Sum(Deltas(batches)) == Sum(Deltas(events))
            && ReportedRows(batches) == |events|
  {
    if groups == [] {
      assert OfDataset(Batches(groups, ids), dataset) == Flatten(groups, dataset) == [];
    } else {
      hide *;
      var front: seq<Group>, g: Group := groups[..|groups| - 1], groups[|groups| - 1];
      assert groups == front + [g];
      BatchWalk(start, front, ids, dataset);
      var batch := Consolidated(g, ids(|front|));
      BatchesAppend(front, g, ids);
      OfDatasetAppend(Batches(front, ids), batch, dataset);
      FlattenAppend(front, g, dataset);
      ConsolidatedFacts(g, ids(|front|));
      if g[0].dataset == dataset {
        GroupStep(start, OfDataset(Batches(front, ids), dataset), Flatten(front, dataset), batch, g);
      } else {
        assert OfDataset(Batches(front, ids), dataset) + [] == OfDataset(Batches(front, ids), dataset);
        assert Flatten(front, dataset) + [] == Flatten(front, dataset);
      }
    }
  }

  lemma {:induction false} ConsolidatedFacts(g: Group, id: string)
    ensures var b := Consolidated(g, id);
            b.dataset == g[0].dataset && RowDelta(b) == Sum(Deltas(g)) && RowsChanged(b) == |g|
  {
  }

  lemma {:induction false} GroupStep(
    start: int, batches: seq<Change>, events: seq<Change>, batch: Change, g: seq<Change>)
    requires g != [] && RowDelta(batch) == Sum(Deltas(g)) && RowsChanged(batch) == |g|
    requires Walk(start, Deltas(batches)) <= Walk(start, Deltas(events))
    requires Sum(Deltas(batches)) == Sum(Deltas(events)) && ReportedRows(batches) == |events|
    ensures Walk(start, Deltas(batches + [batch])) <= Walk(start, Deltas(events + g))
    ensures Sum(Deltas(batches + [batch])) == Sum(Deltas(events + g))
    ensures ReportedRows(batches + [batch]) == |events + g|
  {
    hide *;
    DeltasAppend(batches, batch);
    DeltasConcat(events, g);
    WalkAppend(start, Deltas(batches), RowDelta(batch));
    WalkConcat(start, Deltas(events), Deltas(g));
    WalkMonotone(Walk(start, Deltas(batches)), Walk(start, Deltas(events)), Deltas(g));
    WalkAboveSum(Walk(start, Deltas(batches)), Deltas(g));
    SumConcat(Deltas(events), Deltas(g));
  }

  lemma {:induction false} DeltasConcat(a: seq<Change>, b: seq<Change>)
    ensures Deltas(a + b) == Deltas(a) + Deltas(b)
  {
    hide RowDelta;
  }

  lemma {:induction false} SumConcat(a: seq<int>, b: seq<int>)
    ensures Sum(a + b) == Sum(a) + Sum(b)
  {
    if b == [] {
      assert a + b == a;
    } else {
      assert (a + b)[..|a + b| - 1] == a + b[..|b| - 1];
      SumConcat(a, b[..|b| - 1]);
    }
  }

  /** The groups hold the events of every dataset, in order, and nothing else. */
  ghost predicate Grouping(groups: seq<Group>, events: seq<Change>) {
    forall d :: Flatten(groups, d) == OfDataset(events, d)
  }

  lemma {:induction false} GroupingOf(groups: seq<Group>, events: seq<Change>, dataset: string)
    requires Grouping(groups, events)
    ensures Flatten(groups, dataset) == OfDataset(events, dataset)
  {
  }

  /** Where the `p`-th event of a dataset stands among all events; the order is kept. */
  function Place(events: seq<Change>, dataset: string, p: nat): (q: nat)
    requires p < |OfDataset(events, dataset)|
    ensures q < |events| && events[q] == OfDataset(events, dataset)[p]
  {
    var front := events[..|events| - 1];
    if p < |OfDataset(front, dataset)| then Place(front, dataset, p) else |events| - 1
  }

  lemma {:induction false} PlaceKeepsOrder(events: seq<Change>, dataset: string, p: nat, p': nat)
    requires p < p' < |OfDataset(events, dataset)|
    ensures Place(events, dataset, p) < Place(events, dataset, p')
  {
    var front := events[..|events| - 1];
    if p' < |OfDataset(front, dataset)| {
      PlaceKeepsOrder(front, dataset, p, p');
    }
  }

  /** Where a group starts in its dataset's events. */
  lemma {:induction false} GroupPlace(groups: seq<Group>, i: nat) returns (p: nat)
    requires i < |groups|
    ensures var all := Flatten(groups, groups[i][0].dataset);
            p + |groups[i]| <= |all| && all[p..p + |groups[i]|] == groups[i]
    ensures p == |Flatten(groups[..i], groups[i][0].dataset)|
  {
    var d, front := groups[i][0].dataset, groups[..|groups| - 1];
    if i < |front| {
      p := GroupPlace(front, i);
      assert front[..i] == groups[..i];
      assert Flatten(front, d)[p..p + |groups[i]|] == Flatten(groups, d)[p..p + |groups[i]|];
    } else {
      p := |Flatten(front, d)|;
    }
  }

  lemma {:induction false} FlattenGrows(groups: seq<Group>, i: nat, j: nat, dataset: string)
    requires i < j <= |groups| && groups[i][0].dataset == dataset
    ensures |Flatten(groups[..i], dataset)| < |Flatten(groups[..j], dataset)|
  {
    var upTo := groups[..j];
    assert upTo[..j - 1] == groups[..j - 1];
    if i < j - 1 {
      FlattenGrows(groups, i, j - 1, dataset);
    }
  }

  /** The event a group of one holds, found among the events. */
  lemma {:induction false} LoneEvent(groups: seq<Group>, events: seq<Change>, i: nat) returns (p: nat)
    requires Grouping(groups, events) && i < |groups| && |groups[i]| == 1
    ensures var d := groups[i][0].dataset;
            && p == |Flatten(groups[..i], d)| && p < |OfDataset(events, d)|
            && events[Place(events, d, p)] == groups[i][0]
  {
    var d := groups[i][0].dataset;
    GroupingOf(groups, events, d);
    p := GroupPlace(groups, i);
    assert Flatten(groups, d)[p] == Flatten(groups, d)[p..p + 1][0];
  }

  /** Batching fresh events gives fresh batches: only a batch of one keeps its change id. */
  lemma {:induction false} BatchesAreFresh(store: Store, events: seq<Change>, groups: seq<Group>, ids: nat -> string)
    requires Fresh(store, events) && Grouping(groups, events)
    ensures Fresh(store, Batches(groups, ids))
  {
    hide Flatten, OfDataset, Place, Grouping;
    var batches := Batches(groups, ids);
    forall i | 0 <= i < |batches| && batches[i].changeId != []
      ensures !Recorded(store.events, batches[i].changeId)
    {
      var p := LoneEvent(groups, events, i);
    }
    forall i, j | 0 <= i < j < |batches| && batches[i].changeId != []
      ensures batches[i].changeId != batches[j].changeId
    {
      if batches[j].changeId != [] {
        var p := LoneEvent(groups, events, i);
        var p' := LoneEvent(groups, events, j);
        if groups[i][0].dataset == groups[j][0].dataset {
          FlattenGrows(groups, i, j, groups[i][0].dataset);
          PlaceKeepsOrder(events, groups[i][0].dataset, p, p');
        }
      }
    }
  }

  /**
   * Batching refines one-at-a-time processing, per dataset: the same rows are reported,
   * the row count is never larger, and it is equal when no prefix goes below zero.
   */
  lemma {:induction false} BatchingRefines(
    store: Store, events: seq<Change>, groups: seq<Group>, ids: nat -> string, dataset: string)
    requires Singles(events) && Fresh(store, events) && Grouping(groups, events)
    ensures var one, batched := ApplyAll(store, events, NoMiss), ApplyAll(store, Batches(groups, ids), NoMiss);
            && TotalRows(batched.events, dataset) == TotalRows(one.events, dataset)
            && MetaOf(batched, dataset).rows <= MetaOf(one, dataset).rows
            && (NeverBelowZero(MetaOf(store, dataset).rows, Deltas(OfDataset(events, dataset))) ==>
                  MetaOf(batched, dataset).rows == MetaOf(one, dataset).rows)
  {
    var start := MetaOf(store, dataset).rows;
    var mine := OfDataset(events, dataset);
    FreshChangesWalk(store, events, dataset);
    BatchesAreFresh(store, events, groups, ids);
    FreshChangesWalk(store, Batches(groups, ids), dataset);
    BatchWalk(start, groups, ids, dataset);
    ReportedSingles(mine);
    if NeverBelowZero(start, Deltas(mine)) {
      WalkIsSum(start, Deltas(mine));
      WalkAboveSum(start, Deltas(OfDataset(Batches(groups, ids), dataset)));
    }
  }

  /**
   * When exactly the batched row count is the per-event one: every low below zero that
   * the running count would reach is reached at the end of some batch too.
   */
  lemma {:induction false} BatchingIsExactIff(
    store: Store, events: seq<Change>, groups: seq<Group>, ids: nat -> string, dataset: string)
    requires Singles(events) && Fresh(store, events) && Grouping(groups, events)
    requires MetaOf(store, dataset).rows >= 0
    ensures var one, batched := ApplyAll(store, events, NoMiss), ApplyAll(store, Batches(groups, ids), NoMiss);
            (MetaOf(batched, dataset).rows == MetaOf(one, dataset).rows
             <==> LowsAreReached(MetaOf(store, dataset).rows, Deltas(OfDataset(events, dataset)),
                                 Deltas(OfDataset(Batches(groups, ids), dataset))))
  {
    hide *;
    var start := MetaOf(store, dataset).rows;
    GroupingOf(groups, events, dataset);
    FreshChangesWalk(store, events, dataset);
    BatchesAreFresh(store, events, groups, ids);
    FreshChangesWalk(store, Batches(groups, ids), dataset);
    BatchWalk(start, groups, ids, dataset);
    WalksAgreeIff(start, Deltas(OfDataset(events, dataset)), Deltas(OfDataset(Batches(groups, ids), dataset)));
  }

  function Single(op: string, id: string): Change {
    Change("Orders", "olist_orders", op, None, None, id, None)
  }

  /** A delete and a create on an empty table: one row when taken singly, none when taken as a batch. */
  lemma {:induction false} ClampExample(batchId: string)
    ensures var d, c := Single("d", "x"), Single("c", "y");
            var empty := Store(map[], []);
            && MetaOf(ApplyAll(empty, [d, c], NoMiss), "Orders").rows == 1
            && MetaOf(ApplyAll(empty, [Consolidated([d, c], batchId)], NoMiss), "Orders").rows == 0
  {
    var d, c := Single("d", "x"), Single("c", "y");
    var empty, batch := Store(map[], []), Consolidated([d, c], batchId);
    ConsolidatedFacts([d, c], batchId);
    assert [d, c][..1] == [d] && [d][..0] == [] && [batch][..0] == [];
    assert Deltas([d, c]) == [-1, 1] && [-1, 1][..1] == [-1] && [-1][..0] == [];
    assert Sum([-1, 1]) == 0;
    hide Consolidated;
    assert ApplyAll(empty, [d], NoMiss) == Apply(empty, d, false);
    assert ApplyAll(empty, [d, c], NoMiss) == Apply(Apply(empty, d, false), c, false);
    assert ApplyAll(empty, [batch], NoMiss) == Apply(empty, batch, false);
  }
}
