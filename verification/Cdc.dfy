/** Change events, and the batch a run of them is consolidated into. */
module Cdc {
  import opened Common

  /** What a consolidated batch carries beyond a single change. */
  datatype Totals = Totals(rowsChanged: nat, netRowDelta: int, batchId: string, changeIds: seq<string>)

  /** A normalized change or, with `totals`, a batch. An empty `changeId` is a missing one. */
  datatype Change = Change(
    dataset: string,
    table: string,
    op: string,
    file: Option<string>,
    pos: Option<int>,
    changeId: string,
    totals: Option<Totals>)

  function OpDelta(op: string): int {
    if op == "d" then -1 else if op in ["c", "r"] then 1 else 0
  }

  /** The row delta the adapter applies. */
  function RowDelta(c: Change): int {
    if c.totals.Some? then c.totals.value.netRowDelta else OpDelta(c.op)
  }

  /** The rows the adapter reports: one for any single change, the batch size for a batch. */
  function RowsChanged(c: Change): nat {
    if c.totals.Some? then c.totals.value.rowsChanged else 1
  }

  function Sum(xs: seq<int>): int {
    if xs == [] then 0 else Sum(xs[..|xs| - 1]) + xs[|xs| - 1]
  }

  function Deltas(cs: seq<Change>): (r: seq<int>)
    ensures |r| == |cs|
    ensures forall i :: 0 <= i < |cs| ==> r[i] == RowDelta(cs[i])
  {
    seq(|cs|, i requires 0 <= i < |cs| => RowDelta(cs[i]))
  }

  /** `a or b` on optional text and on optional positions, where 0 counts as absent. */
  function FirstText(a: Option<string>, b: Option<string>): Option<string> {
    if a.Some? && a.value != [] then a else b
  }

  function FirstPosition(a: Option<int>, b: Option<int>): Option<int> {
    if a.Some? && a.value != 0 then a else b
  }

  function ChangeIds(cs: seq<Change>): seq<string> {
    if cs == [] then []
    else
      var last := cs[|cs| - 1];
      ChangeIds(cs[..|cs| - 1]) + (if last.changeId != [] then [last.changeId] else [])
  }

  /** A non-empty run of changes of one dataset. */
  type Group = g: seq<Change> | g != [] && forall i :: 0 <= i < |g| ==> g[i].dataset == g[0].dataset
    witness [Change("", "", "c", None, None, "", None)]

  /** The batch for a group, in arrival order. */
  function Consolidated(g: Group, batchId: string): Change {
    var first, last := g[0], g[|g| - 1];
    Change(first.dataset, last.table, last.op,
           FirstText(last.file, first.file), FirstPosition(last.pos, first.pos),
           if |g| == 1 then last.changeId else "",
           Some(Totals(|g|, Sum(Deltas(g)), batchId, ChangeIds(g))))
  }

  function OfDataset(cs: seq<Change>, dataset: string): (r: seq<Change>)
    ensures forall i :: 0 <= i < |r| ==> r[i].dataset == dataset && r[i] in cs
  {
    if cs == [] then []
    else
      var last := cs[|cs| - 1];
      OfDataset(cs[..|cs| - 1], dataset) + (if last.dataset == dataset then [last] else [])
  }

  lemma {:induction false} OfDatasetAppend(cs: seq<Change>, c: Change, dataset: string)
    ensures OfDataset(cs + [c], dataset)
         == OfDataset(cs, dataset) + (if c.dataset == dataset then [c] else [])
  {
  }

  /** The groups of one dataset, put end to end. */
  function Flatten(groups: seq<Group>, dataset: string): seq<Change> {
    if groups == [] then []
    else
      var last := groups[|groups| - 1];
      Flatten(groups[..|groups| - 1], dataset) + (if last[0].dataset == dataset then last else [])
  }

  lemma {:induction false} FlattenAppend(groups: seq<Group>, g: Group, dataset: string)
    ensures Flatten(groups + [g], dataset)
         == Flatten(groups, dataset) + (if g[0].dataset == dataset then g else [])
  {
  }
}
