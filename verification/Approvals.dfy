/** Replenishment approvals: the review, dispatch and rejection transactions on their tables. */
module Approvals {
  import opened Common
  import opened InventoryLedger

  datatype Status = PENDING_REVIEW | APPROVED | REJECTED | DISPATCHED | FAILED

  /**
   * A row of `replenishment_approvals`; its id is its position. `snapshot` is the inventory
   * row read at submission, of which the table keeps the version and the available quantity.
   */
  datatype Approval = Approval(
    key: string,
    site: Site,
    quantity: int,
    snapshot: Stock,
    status: Status,
    actionId: Option<nat>,
    replenishmentId: Option<ReplenishmentId>)

  /** A `replenishment_id`: that of an order row, or one generated for a row that was never inserted. */
  datatype ReplenishmentId = OfOrder(order: nat) | OfNoOrder

  datatype AuditRow = AuditRow(approval: nat, from: Option<Status>, to: Status)

  datatype ActionStatus = PENDING | CONFIRMED | ACTION_FAILED

  /** A row of `business_rule_actions`. `owner` stands for the key of an approval's dispatch; other rules have none. */
  datatype Action = Action(owner: Option<nat>, status: ActionStatus)

  /** A row of `replenishment_orders`; in flight is DISPATCHED, CONFIRMED or IN_TRANSIT. */
  datatype Order = Order(action: nat, site: Site, quantity: int, inFlight: bool)

  datatype Db = Db(
    approvals: seq<Approval>,
    audit: seq<AuditRow>,
    actions: seq<Action>,
    orders: seq<Order>,
    ledger: Ledger)

  predicate Active(a: Approval) { a.status in [PENDING_REVIEW, APPROVED] }

  predicate OrderInFlight(orders: seq<Order>, site: Site) {
    exists o :: 0 <= o < |orders| && orders[o].site == site && orders[o].inFlight
  }

  predicate ActiveApproval(approvals: seq<Approval>, site: Site) {
    exists a :: 0 <= a < |approvals| && approvals[a].site == site && Active(approvals[a])
  }

  predicate KeyTaken(approvals: seq<Approval>, key: string) {
    exists a :: 0 <= a < |approvals| && approvals[a].key == key
  }

  // ---- Submission -----------------------------------------------------------

  /** A submission after recommendation and catalogue look-ups; `eligible` and `supplierUsable` are their verdicts. */
  datatype Submission = Submission(
    key: string, site: Site, eligible: bool, supplierUsable: bool, quantity: int, minReorder: int)

  datatype SubmitOutcome =
    | Existing(approval: nat)
    | NotEligible
    | NotInInventory
    | NoSupplier
    | BadQuantity
    | ConflictingOrder
    | ConflictingApproval
    | Submitted(approval: nat)

  predicate MaySubmit(db: Db, s: Submission) {
    && !KeyTaken(db.approvals, s.key)
    && s.eligible && s.site in db.ledger && s.supplierUsable && s.quantity > 0
    && !OrderInFlight(db.orders, s.site) && !ActiveApproval(db.approvals, s.site)
  }

  function NewApproval(db: Db, s: Submission): Approval
    requires s.site in db.ledger
  {
    Approval(s.key, s.site, if s.quantity < s.minReorder then s.minReorder else s.quantity,
             db.ledger[s.site], PENDING_REVIEW, None, None)
  }

  /** Neither below what was asked nor below the supplier's minimum. */
  predicate Covers(quantity: int, s: Submission) {
    quantity >= s.quantity && quantity >= s.minReorder
  }

  /** The least quantity that covers the submission: what was asked, when that reaches the minimum. */
  ghost predicate LeastCover(quantity: int, s: Submission) {
    Covers(quantity, s) && forall other :: Covers(other, s) ==> quantity <= other
  }

  /** A request is for the least covering quantity, on the site asked for, with the stock it was made on. */
  lemma {:induction false} RequestCovers(db: Db, s: Submission)
    requires s.site in db.ledger
    ensures var a := NewApproval(db, s);
            && LeastCover(a.quantity, s) && a.key == s.key && a.site == s.site && a.snapshot == db.ledger[s.site]
            && a.status == PENDING_REVIEW && a.actionId.None? && a.replenishmentId.None?
    ensures s.quantity >= s.minReorder ==> NewApproval(db, s).quantity == s.quantity
    ensures s.quantity < s.minReorder ==> NewApproval(db, s).quantity == s.minReorder
  {
    assert s.quantity < s.minReorder ==> Covers(s.minReorder, s);
    assert s.quantity >= s.minReorder ==> Covers(s.quantity, s);
  }

  function AfterSubmit(db: Db, s: Submission): Db {
    if MaySubmit(db, s)
    then db.(approvals := db.approvals + [NewApproval(db, s)],
             audit := db.audit + [AuditRow(|db.approvals|, None, PENDING_REVIEW)])
    else db
  }

  // ---- Approval, dispatch, rejection ----------------------------------------

  datatype Review = Review(approval: nat, expected: Option<int>, supplierOnline: bool)

  datatype ReviewOutcome =
    | UnknownApproval
    | AlreadyDone
    | AlreadyRejected
    | UnexpectedStatus
    | GoneFromInventory
    | VersionConflict
    | SupplierOffline
    | OrderAlreadyInFlight
    | Approved

  function TargetVersion(a: Approval, expected: Option<int>): int {
    if expected.Some? then expected.value else a.snapshot.version
  }

  /** Awaits a decision or a dispatch: a crash leaves APPROVED without an order, and that may be retried. */
  predicate Open(a: Approval) {
    Active(a) && !(a.status == APPROVED && a.replenishmentId.Some?)
  }

  /** What lets a review pass. */
  predicate MayApprove(db: Db, r: Review) {
    && r.approval < |db.approvals|
    && var a := db.approvals[r.approval];
    && Open(a) && a.site in db.ledger && db.ledger[a.site].version == TargetVersion(a, r.expected)
    && r.supplierOnline && !OrderInFlight(db.orders, a.site)
  }

  function SetStatus(db: Db, id: nat, status: Status, from: Status): Db
    requires id < |db.approvals|
  {
    db.(approvals := db.approvals[id := db.approvals[id].(status := status)],
        audit := db.audit + [AuditRow(id, Some(from), status)])
  }

  function AfterApprove(db: Db, r: Review): Db {
    if MayApprove(db, r) then SetStatus(db, r.approval, APPROVED, PENDING_REVIEW) else db
  }

  function FindAction(actions: seq<Action>, owner: nat): (r: Option<nat>)
    ensures r.Some? ==> r.value < |actions| && actions[r.value].owner == Some(owner)
    ensures r.None? ==> forall i :: 0 <= i < |actions| ==> actions[i].owner != Some(owner)
  {
    if actions == [] then None
    else
      var front := actions[..|actions| - 1];
      var r := FindAction(front, owner);
      if r.Some? then r else if actions[|front|].owner == Some(owner) then Some(|front|) else None
  }

  function FindOrder(orders: seq<Order>, action: nat): (r: Option<nat>)
    ensures r.Some? ==> r.value < |orders| && orders[r.value].action == action
    ensures r.None? ==> forall i :: 0 <= i < |orders| ==> orders[i].action != action
  {
    if orders == [] then None
    else
      var front := orders[..|orders| - 1];
      var r := FindOrder(front, action);
      if r.Some? then r else if orders[|front|].action == action then Some(|front|) else None
  }

  /** The insert of an approval's action; the unique key lets only the first succeed. */
  function AfterInsertAction(db: Db, id: nat): Db {
    if FindAction(db.actions, id).Some? then db
    else db.(actions := db.actions + [Action(Some(id), PENDING)])
  }

  /**
   * What the re-fetch after the insert reads: everything (None), or only the first orders, those
   * of the snapshot an earlier look-up of the same transaction opened under REPEATABLE READ. The
   * transaction's own insert is always visible; a duplicate-key update that changes nothing is not one.
   */
  type View = Option<nat>

  function Refetched(orders: seq<Order>, action: nat, view: View): ReplenishmentId {
    match FindOrder(orders, action)
    case None => OfOrder(|orders|)
    case Some(o) => if view.None? || o < view.value then OfOrder(o) else OfNoOrder
  }

  /**
   * The supplier confirmed: the action's order is created unless it exists, and the approval gets
   * the re-fetched id, or the generated one when the re-fetch finds no row.
   */
  function AfterConfirm(db: Db, id: nat, action: nat, view: View): Db
    requires id < |db.approvals| && action < |db.actions|
  {
    var a, existing := db.approvals[id], FindOrder(db.orders, action);
    var orders := if existing.Some? then db.orders else db.orders + [Order(action, a.site, a.quantity, true)];
    var name := Refetched(db.orders, action, view);
    db.(orders := orders,
        actions := db.actions[action := db.actions[action].(status := CONFIRMED)],
        approvals := db.approvals[id :=
          a.(status := DISPATCHED, actionId := Some(action), replenishmentId := Some(name))],
        audit := db.audit + [AuditRow(id, Some(APPROVED), DISPATCHED)])
  }

  function AfterFailure(db: Db, id: nat, action: nat): Db
    requires id < |db.approvals| && action < |db.actions|
  {
    db.(actions := db.actions[action := db.actions[action].(status := ACTION_FAILED)],
        approvals := db.approvals[id := db.approvals[id].(status := FAILED, actionId := Some(action))],
        audit := db.audit + [AuditRow(id, Some(APPROVED), FAILED)])
  }

  /**
   * What an answer leaves: the action and the approval with its status, and after a confirmation an
   * order of the action, as reviewed and in flight if it is new. Everything else is as before.
   */
  lemma {:induction false} AnswerEffects(db: Db, id: nat, action: nat, view: View)
    requires id < |db.approvals| && action < |db.actions|
    ensures var a, after := db.approvals[id], AfterConfirm(db, id, action, view);
            && after.approvals[id].status == DISPATCHED && after.approvals[id].actionId == Some(action)
            && after.actions == db.actions[action := Action(db.actions[action].owner, CONFIRMED)]
            && (forall other :: 0 <= other < |db.approvals| && other != id ==>
                  after.approvals[other] == db.approvals[other])
            && (if exists o :: 0 <= o < |db.orders| && db.orders[o].action == action then after.orders == db.orders
                else after.orders == db.orders + [Order(action, a.site, a.quantity, true)])
            && |after.approvals| == |db.approvals| && after.ledger == db.ledger
    ensures var after := AfterFailure(db, id, action);
            && after.approvals
               == db.approvals[id := db.approvals[id].(status := FAILED, actionId := Some(action))]
            && after.actions == db.actions[action := Action(db.actions[action].owner, ACTION_FAILED)]
            && after.orders == db.orders && after.ledger == db.ledger
  {
    hide FindOrder;
  }

  predicate MayReject(db: Db, id: nat) {
    id < |db.approvals| && db.approvals[id].status in [PENDING_REVIEW, FAILED]
  }

  function AfterReject(db: Db, id: nat): Db {
    if MayReject(db, id) then SetStatus(db, id, REJECTED, db.approvals[id].status) else db
  }

  // ---- The service, one method per transaction ------------------------------

  datatype RejectOutcome = NoSuchApproval | WasRejected | TooLate | RejectedNow

  class ApprovalTables {
    var approvals: seq<Approval>
    var audit: seq<AuditRow>
    var actions: seq<Action>
    var orders: seq<Order>
    var ledger: Ledger

    function State(): Db
      reads this
    {
      Db(approvals, audit, actions, orders, ledger)
    }

    method FindInFlight(site: Site) returns (found: bool)
      ensures found <==> OrderInFlight(orders, site)
      ensures found <==> exists o :: 0 <= o < |orders| && orders[o].site == site && orders[o].inFlight
    {
      for i := 0 to |orders|
        invariant forall o :: 0 <= o < i ==> !(orders[o].site == site && orders[o].inFlight)
      {
        if orders[i].site == site && orders[i].inFlight {
          return true;
        }
      }
      return false;
    }

    method SubmitForApproval(s: Submission) returns (outcome: SubmitOutcome)
      modifies this
      ensures State() == AfterSubmit(old(State()), s)
      ensures outcome.Submitted? <==> MaySubmit(old(State()), s)
      ensures outcome.Submitted? ==> outcome.approval == |old(approvals)|
      ensures outcome.Existing? <==> KeyTaken(old(approvals), s.key)
      ensures outcome.Existing? ==> outcome.approval < |approvals| && approvals[outcome.approval].key == s.key
      ensures !outcome.Existing? ==>
                && (outcome.NotEligible? <==> !s.eligible)
                && (outcome.NotInInventory? <==> s.eligible && s.site !in ledger)
                && (outcome.NoSupplier? <==> s.eligible && s.site in ledger && !s.supplierUsable)
                && (outcome.BadQuantity? <==> s.eligible && s.site in ledger && s.supplierUsable && s.quantity <= 0)
      ensures outcome.ConflictingOrder? ==>
                exists o :: 0 <= o < |orders| && orders[o].site == s.site && orders[o].inFlight
      ensures outcome.ConflictingApproval? ==>
                && !OrderInFlight(orders, s.site)
                && exists a :: 0 <= a < |approvals| && approvals[a].site == s.site
                     && (approvals[a].status == PENDING_REVIEW || approvals[a].status == APPROVED)
      ensures outcome.Submitted? ==>
                && (forall a :: 0 <= a < |old(approvals)| ==>
                      old(approvals)[a].key != s.key
                      && (old(approvals)[a].site == s.site ==>
                            old(approvals)[a].status != PENDING_REVIEW && old(approvals)[a].status != APPROVED))
                && (forall o :: 0 <= o < |orders| && orders[o].site == s.site ==> !orders[o].inFlight)
    {
      for i := 0 to |approvals|
        invariant forall a :: 0 <= a < i ==> approvals[a].key != s.key
      {
        if approvals[i].key == s.key {
          return Existing(i);
        }
      }
      if !s.eligible {
        return NotEligible;
      }
      if s.site !in ledger {
        return NotInInventory;
      }
      if !s.supplierUsable {
        return NoSupplier;
      }
      if s.quantity <= 0 {
        return BadQuantity;
      }
      var quantity := s.quantity;
      if quantity < s.minReorder {
        quantity := s.minReorder;
      }
      var conflicting := FindInFlight(s.site);
      if conflicting {
        return ConflictingOrder;
      }
      for i := 0 to |approvals|
        invariant forall a :: 0 <= a < i ==> !(approvals[a].site == s.site && Active(approvals[a]))
      {
        if approvals[i].site == s.site && Active(approvals[i]) {
          return ConflictingApproval;
        }
      }
      var id := |approvals|;
      approvals := approvals + [Approval(s.key, s.site, quantity, ledger[s.site], PENDING_REVIEW, None, None)];
      audit := audit + [AuditRow(id, None, PENDING_REVIEW)];
      assert approvals[id].key == s.key;
      return Submitted(id);
    }

    /** `approve_replenishment` up to its first commit. */
    method ApproveReplenishment(r: Review) returns (outcome: ReviewOutcome)
      modifies this
      ensures State() == AfterApprove(old(State()), r)
      ensures outcome.Approved? <==> MayApprove(old(State()), r)
      ensures outcome.UnknownApproval? <==> r.approval >= |approvals|
      ensures r.approval < |approvals| ==>
                var a := old(approvals)[r.approval];
                var open := a.status == PENDING_REVIEW || (a.status == APPROVED && a.replenishmentId.None?);
                var stocked := open && a.site in ledger;
                var current := stocked && ledger[a.site].version
                                          == (if r.expected.Some? then r.expected.value else a.snapshot.version);
                && (outcome.AlreadyDone? <==>
                      a.status == DISPATCHED || (a.status == APPROVED && a.replenishmentId.Some?))
                && (outcome.AlreadyRejected? <==> a.status == REJECTED)
                && (outcome.UnexpectedStatus? <==> a.status == FAILED)
                && (outcome.GoneFromInventory? <==> open && !stocked)
                && (outcome.VersionConflict? <==> stocked && !current)
                && (outcome.SupplierOffline? <==> current && !r.supplierOnline)
                && (outcome.OrderAlreadyInFlight? <==>
                    current && r.supplierOnline
                    && exists o :: 0 <= o < |orders| && orders[o].site == a.site && orders[o].inFlight)
    {
      if r.approval >= |approvals| {
        return UnknownApproval;
      }
      var row := approvals[r.approval];
      if row.status == DISPATCHED || (row.status == APPROVED && row.replenishmentId.Some?) {
        return AlreadyDone;
      }
      if row.status == REJECTED {
        return AlreadyRejected;
      }
      if row.status !in [PENDING_REVIEW, APPROVED] {
        return UnexpectedStatus;
      }
      if row.site !in ledger {
        return GoneFromInventory;
      }
      var target := if r.expected.Some? then r.expected.value else row.snapshot.version;
      if ledger[row.site].version != target {
        return VersionConflict;
      }
      if !r.supplierOnline {
        return SupplierOffline;
      }
      var conflicting := FindInFlight(row.site);
      if conflicting {
        return OrderAlreadyInFlight;
      }
      approvals := approvals[r.approval := row.(status := APPROVED)];
      audit := audit + [AuditRow(r.approval, Some(PENDING_REVIEW), APPROVED)];
      return Approved;
    }

    /** The look-up that starts a dispatch; `view` is the extent of the snapshot it opens. */
    method LookUpAction(id: nat) returns (found: Option<nat>, view: nat)
      ensures found == FindAction(actions, id) && view == |orders|
    {
      view := |orders|;
      for i := 0 to |actions|
        invariant FindAction(actions[..i], id).None?
      {
        assert actions[..i + 1][..i] == actions[..i];
        if actions[i].owner == Some(id) {
          FirstActionStays(actions, id, i + 1);
          return Some(i), view;
        }
      }
      assert actions[..|actions|] == actions;
      return None, view;
    }

    /** The insert that follows a look-up finding nothing; None is the unique-key error, which ends the call. */
    method InsertAction(id: nat) returns (action: Option<nat>)
      modifies this
      ensures State() == AfterInsertAction(old(State()), id)
      ensures action.Some? <==> FindAction(old(actions), id).None?
      ensures action.Some? ==> action == FindAction(actions, id)
    {
      var clash, _ := LookUpAction(id);
      if clash.Some? {
        return None;
      }
      assert (actions + [Action(Some(id), PENDING)])[..|actions|] == actions;
      actions := actions + [Action(Some(id), PENDING)];
      return Some(|actions| - 1);
    }

    /** The re-fetch of the order id, within what the transaction sees. */
    method FetchOrder(action: nat, view: View, own: Option<nat>) returns (found: Option<nat>)
      requires own.Some? ==> own.value < |orders|
      ensures found.Some? ==>
                && found.value < |orders| && orders[found.value].action == action
                && (view.None? || found.value < view.value || own == found)
      ensures found.None? ==>
                forall o :: 0 <= o < |orders| && (view.None? || o < view.value || own == Some(o)) ==>
                  orders[o].action != action
    {
      for i := 0 to |orders|
        invariant forall o :: 0 <= o < i && (view.None? || o < view.value || own == Some(o)) ==>
                    orders[o].action != action
      {
        if (view.None? || i < view.value || own == Some(i)) && orders[i].action == action {
          return Some(i);
        }
      }
      return None;
    }

    /** The transaction after the supplier answered; `view` is Some when the look-up had found the action. */
    method FinishDispatch(id: nat, action: nat, view: View, confirmed: bool)
      requires id < |approvals| && action < |actions|
      requires forall o, p :: 0 <= o < p < |orders| ==> orders[o].action != orders[p].action
      modifies this
      ensures State() == if confirmed then AfterConfirm(old(State()), id, action, view)
                         else AfterFailure(old(State()), id, action)
    {
      if confirmed {
        var duplicate := FetchOrder(action, None, None);
        var own: Option<nat> := None;
        if duplicate.None? {
          own := Some(|orders|);
          orders := orders + [Order(action, approvals[id].site, approvals[id].quantity, true)];
        }
        var row := FetchOrder(action, view, own);
        var name := if row.Some? then OfOrder(row.value) else OfNoOrder;
        actions := actions[action := actions[action].(status := CONFIRMED)];
        approvals := approvals[id :=
          approvals[id].(status := DISPATCHED, actionId := Some(action), replenishmentId := Some(name))];
        audit := audit + [AuditRow(id, Some(APPROVED), DISPATCHED)];
      } else {
        actions := actions[action := actions[action].(status := ACTION_FAILED)];
        approvals := approvals[id := approvals[id].(status := FAILED, actionId := Some(action))];
        audit := audit + [AuditRow(id, Some(APPROVED), FAILED)];
      }
    }

    method RejectReplenishment(id: nat) returns (outcome: RejectOutcome)
      modifies this
      ensures State() == AfterReject(old(State()), id)
      ensures outcome.RejectedNow? <==> MayReject(old(State()), id)
      ensures outcome.NoSuchApproval? <==> id >= |approvals|
      ensures outcome.WasRejected? <==> id < |approvals| && old(approvals)[id].status == REJECTED
      ensures outcome.TooLate? <==> id < |approvals| && approvals[id].status in [APPROVED, DISPATCHED]
    {
      if id >= |approvals| {
        return NoSuchApproval;
      }
      var current := approvals[id].status;
      if current == REJECTED {
        return WasRejected;
      }
      if current in [APPROVED, DISPATCHED] {
        return TooLate;
      }
      approvals := approvals[id := approvals[id].(status := REJECTED)];
      audit := audit + [AuditRow(id, Some(current), REJECTED)];
      return RejectedNow;
    }
  }

  lemma {:induction false} FirstActionStays(actions: seq<Action>, id: nat, n: nat)
    requires n <= |actions| && FindAction(actions[..n], id).Some?
    ensures FindAction(actions, id) == FindAction(actions[..n], id)
  {
    if n == |actions| {
      assert actions[..n] == actions;
    } else {
      var front := actions[..|actions| - 1];
      assert front[..n] == actions[..n];
      FirstActionStays(front, id, n);
    }
  }
}
