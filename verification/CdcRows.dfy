/**
 * Row counts against the rows of the source table: changes on live keys keep the count equal to the
 * number of live rows, singly and batched. And what a batch says about its changes.
 */
module CdcRows {
  import opened Common
  import opened Cdc
  import opened CdcAdapter

  type Key = string

  /** A create or a snapshot read brings a row, an update finds it, a delete takes it away. */
  predicate Fits(live: set<Key>, op: string, key: Key) {
    || ((op == "c" || op == "r") && key !in live)
    || ((op == "u" || op == "d") && key in live)
  }

  function After(live: set<Key>, op: string, key: Key): set<Key> {
    if op == "d" then live - {key} else live + {key}
  }

  /** The live keys after changes of the given keys. */
  function LiveAfter(live: set<Key>, cs: seq<Change>, keys: seq<Key>): set<Key>
    requires |cs| == |keys|
  {
    if cs == [] then live
    else After(LiveAfter(live, cs[..|cs| - 1], keys[..|cs| - 1]), cs[|cs| - 1].op, keys[|cs| - 1])
  }

  /** Each change fits the rows that are live when it happens. */
  predicate Proper(live: set<Key>, cs: seq<Change>, keys: seq<Key>)
    requires |cs| == |keys|
  {
    cs != [] ==>
      var n := |cs| - 1;
      Proper(live, cs[..n], keys[..n]) && Fits(LiveAfter(live, cs[..n], keys[..n]), cs[n].op, keys[n])
  }

  lemma {:induction false} FittingChange(live: set<Key>, c: Change, key: Key)
    requires c.totals.None? && Fits(live, c.op, key)
    ensures |After(live, c.op, key)| == |live| + RowDelta(c)
  {
    if c.op == "u" {
      assert live + {key} == live;
    }
  }

  /** The deltas count the live rows, and so never take the count below zero. */
  lemma {:induction false} DeltasCountRows(live: set<Key>, cs: seq<Change>, keys: seq<Key>)
    requires |cs| == |keys| && Singles(cs) && Proper(live, cs, keys)
    ensures |live| + Sum(Deltas(cs)) == |LiveAfter(live, cs, keys)|
    ensures NeverBelowZero(|live|, Deltas(cs))
  {
    if cs != [] {
      var n := |cs| - 1;
      var front := cs[..n];
      assert Singles(front) && cs[n].totals.None? && cs == front + [cs[n]];
      hide *;
      ProperFront(live, cs, keys);
      FittingChange(LiveAfter(live, front, keys[..n]), cs[n], keys[n]);
      DeltasCountRows(live, front, keys[..n]);
      DeltasAppend(front, cs[n]);
      SumsOfFront(|live|, Deltas(front), RowDelta(cs[n]));
    }
  }

  lemma {:induction false} ProperFront(live: set<Key>, cs: seq<Change>, keys: seq<Key>)
    requires |cs| == |keys| && Proper(live, cs, keys) && cs != []
    ensures var n := |cs| - 1;
            var before := LiveAfter(live, cs[..n], keys[..n]);
            && Proper(live, cs[..n], keys[..n]) && Fits(before, cs[n].op, keys[n])
            && LiveAfter(live, cs, keys) == After(before, cs[n].op, keys[n])
  {
    hide Fits, After;
  }

  lemma {:induction false} SumsOfFront(start: int, deltas: seq<int>, d: int)
    requires NeverBelowZero(start, deltas) && start + Sum(deltas) + d >= 0
    ensures Sum(deltas + [d]) == Sum(deltas) + d && NeverBelowZero(start, deltas + [d])
  {
    var all := deltas + [d];
    assert all[..|deltas|] == deltas && all[..|all|] == all;
    forall n | 0 <= n <= |all|
      ensures start + Sum(all[..n]) >= 0
    {
      if n < |all| {
        assert all[..n] == deltas[..n];
      }
    }
  }

  /**
   * A dataset whose count is that of its live rows keeps it so over any run of proper changes,
   * whether they are processed one by one or in any grouping into batches.
   */
  lemma {:induction false} LiveRowsAreCounted(
    store: Store, events: seq<Change>, groups: seq<Group>, ids: nat -> string, dataset: string,
    live: set<Key>, keys: seq<Key>)
    requires Singles(events) && Fresh(store, events) && Grouping(groups, events)
    requires |keys| == |OfDataset(events, dataset)| && Proper(live, OfDataset(events, dataset), keys)
    requires MetaOf(store, dataset).rows == |live|
    ensures var rows := |LiveAfter(live, OfDataset(events, dataset), keys)|;
            && MetaOf(ApplyAll(store, events, NoMiss), dataset).rows == rows
            && MetaOf(ApplyAll(store, Batches(groups, ids), NoMiss), dataset).rows == rows
  {
    var mine := OfDataset(events, dataset);
    hide *;
    OwnAreSingles(events, dataset);
    DeltasCountRows(live, mine, keys);
    FreshChangesWalk(store, events, dataset);
    WalkIsSum(|live|, Deltas(mine));
    BatchingRefines(store, events, groups, ids, dataset);
  }

  lemma {:induction false} OwnAreSingles(events: seq<Change>, dataset: string)
    requires Singles(events)
    ensures Singles(OfDataset(events, dataset))
  {
    hide OfDataset;
    forall i | 0 <= i < |OfDataset(events, dataset)|
      ensures OfDataset(events, dataset)[i].totals.None?
    {
      assert OfDataset(events, dataset)[i] in events;
    }
  }

  /** What one change of each kind does to the count of its dataset, however large, and that each reports one row. */
  lemma {:induction false} OneChangeCounts(store: Store, c: Change)
    requires c.totals.None? && !IsDuplicate(store, c)
    ensures var before, after := MetaOf(store, c.dataset).rows, MetaOf(Apply(store, c, false), c.dataset).rows;
            && (c.op == "c" || c.op == "r" ==> after == if before < 0 then Clamp(before + 1) else before + 1)
            && (c.op == "d" && before > 0 ==> after == before - 1)
            && (c.op == "d" && before <= 0 ==> after == 0)
            && (c.op != "c" && c.op != "r" && c.op != "d" && before >= 0 ==> after == before)
    ensures Apply(store, c, false).events[|store.events|].rowsChanged == 1
  {
  }

  /** A batch of updates changes no count, but reports its rows and moves the version. */
  lemma {:induction false} UpdatesKeepTheCount(store: Store, g: Group, batchId: string)
    requires Singles(g) && (forall i :: 0 <= i < |g| ==> g[i].op == "u")
    requires MetaOf(store, g[0].dataset).rows >= 0 && !IsDuplicate(store, Consolidated(g, batchId))
    ensures var t := Apply(store, Consolidated(g, batchId), false);
            && MetaOf(t, g[0].dataset).rows == MetaOf(store, g[0].dataset).rows
            && t.events[|store.events|].rowsChanged == |g|
            && MetaOf(t, g[0].dataset).version == MetaOf(store, g[0].dataset).version + 1
    ensures Consolidated(g, batchId).totals.value.netRowDelta == 0
  {
    UpdatesSumToZero(g);
  }

  lemma {:induction false} UpdatesSumToZero(cs: seq<Change>)
    requires Singles(cs) && forall i :: 0 <= i < |cs| ==> cs[i].op == "u"
    ensures Sum(Deltas(cs)) == 0
  {
    if cs != [] {
      var front := cs[..|cs| - 1];
      UpdatesSumToZero(front);
      DeltasAppend(front, cs[|cs| - 1]);
      assert cs == front + [cs[|cs| - 1]];
    }
  }

  // ---- What a batch says about its changes ----------------------------------

  predicate NonEmpty(text: Option<string>) { text.Some? && text.value != [] }

  predicate NonZero(position: Option<int>) { position.Some? && position.value != 0 }

  /**
   * A batch tells the newest operation and table, the newest file and position if that change has
   * them and else the oldest one's, its size, and every change id once for each change that has one.
   */
  lemma {:induction false} BatchDescribesNewest(g: Group, batchId: string)
    ensures var b, newest, oldest := Consolidated(g, batchId), g[|g| - 1], g[0];
            && b.dataset == newest.dataset && b.table == newest.table && b.op == newest.op
            && (NonEmpty(newest.file) ==> b.file == newest.file) && (!NonEmpty(newest.file) ==> b.file == oldest.file)
            && (NonZero(newest.pos) ==> b.pos == newest.pos) && (!NonZero(newest.pos) ==> b.pos == oldest.pos)
            && (b.changeId != [] ==> |g| == 1 && b.changeId == newest.changeId)
            && b.totals.Some? && b.totals.value.rowsChanged == |g| && b.totals.value.batchId == batchId
    ensures forall id :: multiset(Consolidated(g, batchId).totals.value.changeIds)[id]
              == if id == [] then 0 else Occurrences(g, id)
  {
    forall id
      ensures multiset(ChangeIds(g))[id] == if id == [] then 0 else Occurrences(g, id)
    {
      IdsOccur(g, id);
    }
  }

  /** How many of the changes have this id. */
  function Occurrences(cs: seq<Change>, id: string): nat {
    if cs == [] then 0
    else (if cs[0].changeId == id then 1 else 0) + Occurrences(cs[1..], id)
  }

  lemma {:induction false} OccurrencesAppend(cs: seq<Change>, c: Change, id: string)
    ensures Occurrences(cs + [c], id) == Occurrences(cs, id) + if c.changeId == id then 1 else 0
  {
    if cs == [] {
      assert cs + [c] == [c];
    } else {
      assert (cs + [c])[1..] == cs[1..] + [c];
      OccurrencesAppend(cs[1..], c, id);
    }
  }

  lemma {:induction false} OneMoreId(ids: seq<string>, last: string, id: string)
    ensures multiset(ids + (if last != [] then [last] else []))[id]
         == multiset(ids)[id] + if last != [] && last == id then 1 else 0
  {
    assert ids + [] == ids;
  }

  lemma {:induction false} IdsOccur(cs: seq<Change>, id: string)
    ensures multiset(ChangeIds(cs))[id] == if id == [] then 0 else Occurrences(cs, id)
  {
    if cs != [] {
      var front, last := cs[..|cs| - 1], cs[|cs| - 1];
      IdsOccur(front, id);
      OccurrencesAppend(front, last, id);
      assert cs == front + [last];
      assert ChangeIds(cs) == ChangeIds(front) + (if last.changeId != [] then [last.changeId] else []);
      hide Occurrences, ChangeIds;
      OneMoreId(ChangeIds(front), last.changeId, id);
    }
  }

  /** And in the order of arrival: the ids of a longer run are those of a shorter one with more at the end. */
  lemma {:induction false} IdsKeepOrder(a: seq<Change>, b: seq<Change>)
    ensures ChangeIds(a + b) == ChangeIds(a) + ChangeIds(b)
  {
    if b == [] {
      assert a + b == a;
    } else {
      assert (a + b)[..|a + b| - 1] == a + b[..|b| - 1];
      IdsKeepOrder(a, b[..|b| - 1]);
    }
  }
}
