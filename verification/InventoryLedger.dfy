/** The inventory table, its validated deltas, and what a version number says about quantities. */
module InventoryLedger {
  datatype Site = Site(sku: string, warehouse: string)

  datatype Stock = Stock(onHand: int, reserved: int, version: int)

  datatype Delta = Delta(onHand: int, reserved: int)

  datatype LedgerError = NotFound | NegativeOnHand | NegativeReserved | ReservedExceedsOnHand

  datatype Adjustment = Applied(row: Stock) | Rejected(error: LedgerError)

  type Ledger = map<Site, Stock>

  predicate Sound(stock: Stock) {
    0 <= stock.reserved <= stock.onHand
  }

  function Proposed(stock: Stock, delta: Delta): Stock {
    Stock(stock.onHand + delta.onHand, stock.reserved + delta.reserved, stock.version + 1)
  }

  /** A delta is accepted at a site exactly when the row exists and would stay sound. */
  predicate Accepts(ledger: Ledger, site: Site, delta: Delta) {
    site in ledger && Sound(Proposed(ledger[site], delta))
  }

  function AfterDelta(ledger: Ledger, site: Site, delta: Delta): Ledger {
    if Accepts(ledger, site, delta) then ledger[site := Proposed(ledger[site], delta)] else ledger
  }

  class InventoryTable {
    var rows: Ledger

    method ApplyInventoryDelta(site: Site, delta: Delta) returns (result: Adjustment)
      modifies this
      ensures rows == AfterDelta(old(rows), site, delta)
      ensures result.Applied? <==> Accepts(old(rows), site, delta)
      ensures result.Applied? <==>
                && site in old(rows)
                && 0 <= old(rows)[site].reserved + delta.reserved <= old(rows)[site].onHand + delta.onHand
      ensures result.Applied? ==> result.row == rows[site]
      ensures result.Rejected? ==> (result.error == NotFound <==> site !in rows)
      ensures result.Rejected? && site in rows ==>
                var p := Proposed(rows[site], delta);
                && (result.error == NegativeOnHand <==> p.onHand < 0)
                && (result.error == NegativeReserved <==> p.onHand >= 0 && p.reserved < 0)
                && (result.error == ReservedExceedsOnHand <==> 0 <= p.onHand < p.reserved)
    {
      if site !in rows {
        return Rejected(NotFound);
      }
      var row := rows[site];
      var newOnHand, newReserved := row.onHand + delta.onHand, row.reserved + delta.reserved;
      var newVersion := row.version + 1;
      if newOnHand < 0 {
        return Rejected(NegativeOnHand);
      }
      if newReserved < 0 {
        return Rejected(NegativeReserved);
      }
      if newReserved > newOnHand {
        return Rejected(ReservedExceedsOnHand);
      }
      rows := rows[site := Stock(newOnHand, newReserved, newVersion)];
      return Applied(rows[site]);
    }
  }

  // ---- Whole histories ------------------------------------------------------

  datatype Request = Request(site: Site, delta: Delta)

  function Replay(ledger: Ledger, requests: seq<Request>): (r: Ledger)
    ensures r.Keys == ledger.Keys
  {
    if requests == [] then ledger
    else
      var last := requests[|requests| - 1];
      AfterDelta(Replay(ledger, requests[..|requests| - 1]), last.site, last.delta)
  }

  /** The deltas a site accepted during the history. */
  function AcceptedAt(ledger: Ledger, requests: seq<Request>, site: Site): seq<Delta> {
    if requests == [] then []
    else
      var front, last := requests[..|requests| - 1], requests[|requests| - 1];
      AcceptedAt(ledger, front, site)
      + (if last.site == site && Accepts(Replay(ledger, front), site, last.delta) then [last.delta] else [])
  }

  function Total(deltas: seq<Delta>): Delta {
    if deltas == [] then Delta(0, 0)
    else
      var t, last := Total(deltas[..|deltas| - 1]), deltas[|deltas| - 1];
      Delta(t.onHand + last.onHand, t.reserved + last.reserved)
  }

  /** Quantities are the initial ones plus the accepted deltas, the version counts them, and soundness is kept. */
  lemma {:induction false} LedgerConserves(ledger: Ledger, requests: seq<Request>, site: Site)
    requires site in ledger
    ensures var now, sum := Replay(ledger, requests)[site], Total(AcceptedAt(ledger, requests, site));
            && now.onHand == ledger[site].onHand + sum.onHand
            && now.reserved == ledger[site].reserved + sum.reserved
            && now.version == ledger[site].version + |AcceptedAt(ledger, requests, site)|
            && (0 <= ledger[site].reserved <= ledger[site].onHand ==> 0 <= now.reserved <= now.onHand)
  {
    if requests != [] {
      var front, last := requests[..|requests| - 1], requests[|requests| - 1];
      LedgerConserves(ledger, front, site);
      var accepted := AcceptedAt(ledger, front, site);
      assert (accepted + [last.delta])[..|accepted|] == accepted;
      assert accepted + [] == accepted;
    }
  }

  lemma {:induction false} VersionNeverFalls(ledger: Ledger, requests: seq<Request>, k: nat, site: Site)
    requires site in ledger && k <= |requests|
    ensures var earlier, now := Replay(ledger, requests[..k])[site], Replay(ledger, requests)[site];
            earlier.version < now.version || earlier == now
  {
    if k == |requests| {
      assert requests[..k] == requests;
    } else {
      var front := requests[..|requests| - 1];
      assert front[..k] == requests[..k];
      VersionNeverFalls(ledger, front, k, site);
    }
  }

  /** Two moments of one history with the same version of a row have the same row: no A-B-A. */
  lemma {:induction false} VersionIdentifiesRow(ledger: Ledger, requests: seq<Request>, j: nat, k: nat, site: Site)
    requires site in ledger && j <= k <= |requests|
    requires Replay(ledger, requests[..j])[site].version == Replay(ledger, requests[..k])[site].version
    ensures Replay(ledger, requests[..j])[site] == Replay(ledger, requests[..k])[site]
  {
    assert requests[..k][..j] == requests[..j];
    VersionNeverFalls(ledger, requests[..k], j, site);
  }
}
