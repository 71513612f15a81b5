/**
 * Approval calls interleaved with crashes, retries, rejections, deliveries, other orders and
 * inventory deltas: what every run keeps, and what only runs without overlapping calls keep.
 */
module ApprovalRuns {
  import opened Common
  import opened InventoryLedger
  import opened Approvals

  /**
   * A call that has committed APPROVED: before its action look-up, after it, and with its action.
   * A call that found its action goes on in the look-up's transaction (the action has its decision
   * id, so nothing is committed in between) and later reads see the orders of that time only; one
   * that inserted it committed and reads afresh.
   */
  datatype Call =
    | Looking(approval: nat)
    | Ensuring(approval: nat, found: Option<nat>, seen: nat)
    | Placing(approval: nat, action: nat, view: View)

  datatype Sys = Sys(db: Db, calls: map<nat, Call>)

  datatype Step =
    | Submit(submission: Submission)
    | Approve(call: nat, review: Review)
    | Look(call: nat)
    | Ensure(call: nat)
    | Reply(call: nat, confirmed: bool)
    | Crash(call: nat)
    | Reject(approval: nat)
    | Deliver(order: nat)
    | OtherOrder(site: Site, quantity: int)
    | Adjust(site: Site, delta: Delta)

  predicate AtPhase(s: Sys, step: Step) {
    match step
    case Look(c) => c in s.calls && s.calls[c].Looking?
    case Ensure(c) => c in s.calls && s.calls[c].Ensuring?
    case Reply(c, _) => c in s.calls && s.calls[c].Placing? && Fits(s.db, s.calls[c])
    case _ => false
  }

  /** The rows a call refers to exist. */
  predicate Fits(db: Db, call: Call) {
    && call.approval < |db.approvals|
    && (call.Placing? ==> call.action < |db.actions|)
  }

  function NextDb(s: Sys, step: Step): Db {
    match step
    case Submit(submission) => AfterSubmit(s.db, submission)
    case Approve(c, review) => if c in s.calls then s.db else AfterApprove(s.db, review)
    case Look(c) => s.db
    case Ensure(c) =>
      if AtPhase(s, step) && s.calls[c].found.None? then AfterInsertAction(s.db, s.calls[c].approval) else s.db
    case Reply(c, confirmed) =>
      if !AtPhase(s, step) then s.db
      else if confirmed then AfterConfirm(s.db, s.calls[c].approval, s.calls[c].action, s.calls[c].view)
      else AfterFailure(s.db, s.calls[c].approval, s.calls[c].action)
    case Crash(c) => s.db
    case Reject(id) => AfterReject(s.db, id)
    case Deliver(o) =>
      if o < |s.db.orders| then s.db.(orders := s.db.orders[o := s.db.orders[o].(inFlight := false)]) else s.db
    case OtherOrder(site, quantity) =>
      s.db.(actions := s.db.actions + [Action(None, CONFIRMED)],
            orders := s.db.orders + [Order(|s.db.actions|, site, quantity, true)])
    case Adjust(site, delta) => s.db.(ledger := AfterDelta(s.db.ledger, site, delta))
  }

  function NextCalls(s: Sys, step: Step): map<nat, Call> {
    match step
    case Approve(c, review) =>
      if c !in s.calls && MayApprove(s.db, review) then s.calls[c := Looking(review.approval)] else s.calls
    case Look(c) =>
      if AtPhase(s, step)
      then s.calls[c := Ensuring(s.calls[c].approval, FindAction(s.db.actions, s.calls[c].approval), |s.db.orders|)]
      else s.calls
    case Ensure(c) =>
      if !AtPhase(s, step) then s.calls
      else
        var id, found := s.calls[c].approval, s.calls[c].found;
        if found.Some? then s.calls[c := Placing(id, found.value, Some(s.calls[c].seen))]
        else if FindAction(s.db.actions, id).Some? then s.calls - {c}
        else s.calls[c := Placing(id, |s.db.actions|, None)]
    case Reply(c, _) => if AtPhase(s, step) then s.calls - {c} else s.calls
    case Crash(c) => s.calls - {c}
    case _ => s.calls
  }

  /** One step; a step that does not apply changes nothing. */
  function Next(s: Sys, step: Step): Sys {
    Sys(NextDb(s, step), NextCalls(s, step))
  }

  function Run(s: Sys, steps: seq<Step>): Sys {
    if steps == [] then s else Next(Run(s, steps[..|steps| - 1]), steps[|steps| - 1])
  }

  predicate Initial(s: Sys) {
    s.db.approvals == [] && s.db.audit == [] && s.db.actions == [] && s.db.orders == [] && s.calls == map[]
  }

  // ---- What every run keeps -------------------------------------------------

  predicate OneActionEach(db: Db) {
    forall i, j :: 0 <= i < j < |db.actions| && db.actions[i].owner.Some? ==> db.actions[i].owner != db.actions[j].owner
  }

  predicate OneOrderEach(db: Db) {
    && (forall o :: 0 <= o < |db.orders| ==> db.orders[o].action < |db.actions|)
    && (forall o, p :: 0 <= o < p < |db.orders| ==> db.orders[o].action != db.orders[p].action)
  }

  /** Order `o` was dispatched for approval `id`. */
  predicate OrderOf(db: Db, o: nat, id: nat) {
    && o < |db.orders| && db.orders[o].action < |db.actions|
    && db.actions[db.orders[o].action].owner == Some(id)
  }

  /**
   * A dispatched approval has an id for its order, and its action has an order. If the id is
   * that of a row, the row is this order.
   */
  predicate OrderLinked(db: Db, id: nat)
    requires id < |db.approvals|
  {
    var a := db.approvals[id];
    && (a.status == DISPATCHED ==> a.replenishmentId.Some?)
    && (a.replenishmentId.Some? ==>
          && a.actionId.Some? && FindOrder(db.orders, a.actionId.value).Some?
          && OrderOf(db, FindOrder(db.orders, a.actionId.value).value, id)
          && (a.replenishmentId.value.OfOrder? ==>
                OrderOf(db, a.replenishmentId.value.order, id)
                && db.orders[a.replenishmentId.value.order].action == a.actionId.value))
  }

  /** Every order of an approval is for what was reviewed. */
  ghost predicate OrdersAsReviewed(db: Db) {
    forall o: nat, id: nat :: Reviewed(db, o, id)
  }

  predicate Reviewed(db: Db, o: nat, id: nat) {
    OrderOf(db, o, id) ==>
      && id < |db.approvals| && db.orders[o].site == db.approvals[id].site
      && db.orders[o].quantity == db.approvals[id].quantity
  }

  function LastAudit(audit: seq<AuditRow>, id: nat): Option<Status> {
    if audit == [] then None
    else
      var last := audit[|audit| - 1];
      if last.approval == id then Some(last.to) else LastAudit(audit[..|audit| - 1], id)
  }

  predicate Audited(db: Db) {
    forall id :: 0 <= id < |db.approvals| ==> LastAudit(db.audit, id) == Some(db.approvals[id].status)
  }

  predicate OwnersExist(db: Db) {
    forall i :: 0 <= i < |db.actions| && db.actions[i].owner.Some? ==> db.actions[i].owner.value < |db.approvals|
  }

  predicate CallSound(db: Db, call: Call) {
    && Fits(db, call)
    && (call.Placing? ==> db.actions[call.action].owner == Some(call.approval))
    && (call.Ensuring? && call.found.Some? ==>
          call.found.value < |db.actions| && db.actions[call.found.value].owner == Some(call.approval))
  }

  ghost predicate CallsSound(s: Sys) {
    forall c :: c in s.calls ==> CallSound(s.db, s.calls[c])
  }

  predicate AllLinked(db: Db) {
    forall id :: 0 <= id < |db.approvals| ==> OrderLinked(db, id)
  }

  ghost predicate Inv(s: Sys) {
    && OneActionEach(s.db) && OneOrderEach(s.db) && OwnersExist(s.db) && OrdersAsReviewed(s.db)
    && CallsSound(s) && AllLinked(s.db) && Audited(s.db)
  }

  // ---- Each step keeps the invariant ----------------------------------------

  lemma {:induction false} AuditStep(before: Db, after: Db, row: AuditRow)
    requires Audited(before) && after.audit == before.audit + [row] && row.approval < |after.approvals|
    requires |before.approvals| <= |after.approvals| && row.to == after.approvals[row.approval].status
    requires forall id :: 0 <= id < |after.approvals| && id != row.approval ==>
               id < |before.approvals| && after.approvals[id].status == before.approvals[id].status
    ensures Audited(after)
  {
  }

  /** Approvals may gain rows and change status; everything that names actions and orders stays. */
  predicate SameNames(before: Db, after: Db) {
    && before.actions == after.actions && before.orders == after.orders
    && |before.approvals| <= |after.approvals|
    && (forall id :: 0 <= id < |before.approvals| ==>
          && after.approvals[id] == before.approvals[id].(status := after.approvals[id].status)
          && (after.approvals[id].status == DISPATCHED ==> before.approvals[id].status == DISPATCHED))
    && (forall id :: |before.approvals| <= id < |after.approvals| ==>
          after.approvals[id].replenishmentId == None && after.approvals[id].status == PENDING_REVIEW)
  }

  lemma {:induction false} SameNamesKeep(s: Sys, t: Sys)
    requires Inv(s) && SameNames(s.db, t.db) && Audited(t.db)
    requires forall c :: c in t.calls ==> CallSound(s.db, t.calls[c])
    ensures Inv(t)
  {
    hide LastAudit;
    forall o: nat, id: nat
      ensures Reviewed(t.db, o, id)
    {
      assert Reviewed(s.db, o, id);
    }
    forall id | 0 <= id < |t.db.approvals|
      ensures OrderLinked(t.db, id)
    {
      if id < |s.db.approvals| {
        assert OrderLinked(s.db, id);
      }
    }
  }

  lemma {:induction false} ApprovalStepsKeep(s: Sys, step: Step)
    requires Inv(s) && (step.Submit? || step.Approve? || step.Reject?)
    ensures Inv(Next(s, step))
  {
    hide LastAudit;
    var t := Next(s, step);
    if t.db.audit != s.db.audit {
      AuditStep(s.db, t.db, t.db.audit[|s.db.audit|]);
    }
    SameNamesKeep(s, t);
  }

  lemma {:induction false} CallStepsKeep(s: Sys, step: Step)
    requires Inv(s) && (step.Look? || step.Crash? || step.Adjust?)
    ensures Inv(Next(s, step))
  {
    hide LastAudit;
    SameNamesKeep(s, Next(s, step));
  }

  lemma {:induction false} EnsureKeeps(s: Sys, c: nat)
    requires Inv(s)
    ensures Inv(Next(s, Ensure(c)))
  {
    hide LastAudit;
    var t := Next(s, Ensure(c));
    if t.db == s.db {
      SameNamesKeep(s, t);
    } else {
      var id := s.calls[c].approval;
      assert t.db.actions == s.db.actions + [Action(Some(id), PENDING)];
      forall o: nat, i: nat
        ensures Reviewed(t.db, o, i)
      {
        assert Reviewed(s.db, o, i);
      }
      forall i | 0 <= i < |t.db.approvals|
        ensures OrderLinked(t.db, i)
      {
        assert OrderLinked(s.db, i);
      }
    }
  }

  /** Orders and actions may be added or change status; what an approval refers to stays. */
  lemma {:induction false} LinkStays(before: Db, after: Db, id: nat)
    requires id < |before.approvals| && OrderLinked(before, id)
    requires id < |after.approvals|
    requires after.approvals[id] == before.approvals[id].(status := after.approvals[id].status)
    requires after.approvals[id].status == DISPATCHED ==> before.approvals[id].status == DISPATCHED
    requires |before.orders| <= |after.orders| && |before.actions| <= |after.actions|
    requires forall o :: 0 <= o < |before.orders| ==> after.orders[o].action == before.orders[o].action
    requires forall i :: 0 <= i < |before.actions| ==> after.actions[i].owner == before.actions[i].owner
    requires OneOrderEach(before) && OneOrderEach(after)
    ensures OrderLinked(after, id)
  {
    hide FindOrder;
    if before.approvals[id].replenishmentId.Some? {
      var o := FindOrder(before.orders, before.approvals[id].actionId.value).value;
      assert after.orders[o].action == before.orders[o].action;
    }
  }

  lemma {:induction false} OrderStepsKeep(s: Sys, step: Step)
    requires Inv(s) && (step.Deliver? || step.OtherOrder?)
    ensures Inv(Next(s, step))
  {
    hide LastAudit, FindOrder, FindAction, OrderLinked;
    var t := Next(s, step);
    forall o: nat, i: nat
      ensures Reviewed(t.db, o, i)
    {
      assert Reviewed(s.db, o, i);
    }
    forall i | 0 <= i < |t.db.approvals|
      ensures OrderLinked(t.db, i)
    {
      LinkStays(s.db, t.db, i);
    }
  }

  lemma {:induction false} FailureKeeps(s: Sys, c: nat)
    requires Inv(s)
    ensures Inv(Next(s, Reply(c, false)))
  {
    hide LastAudit, FindAction;
    var t := Next(s, Reply(c, false));
    if AtPhase(s, Reply(c, false)) {
      var id := s.calls[c].approval;
      AuditStep(s.db, t.db, AuditRow(id, Some(APPROVED), FAILED));
      forall o: nat, i: nat
        ensures Reviewed(t.db, o, i)
      {
        assert Reviewed(s.db, o, i);
      }
      forall i | 0 <= i < |t.db.approvals|
        ensures OrderLinked(t.db, i)
      {
        assert OrderLinked(s.db, i);
      }
    }
  }

  lemma {:induction false} ConfirmKeeps(s: Sys, c: nat)
    requires Inv(s)
    ensures Inv(Next(s, Reply(c, true)))
  {
    hide LastAudit, FindAction, FindOrder;
    var t := Next(s, Reply(c, true));
    if AtPhase(s, Reply(c, true)) {
      var id := s.calls[c].approval;
      AuditStep(s.db, t.db, AuditRow(id, Some(APPROVED), DISPATCHED));
      ConfirmLinks(s, c);
      forall o: nat, i: nat
        ensures Reviewed(t.db, o, i)
      {
        assert o < |s.db.orders| ==> Reviewed(s.db, o, i);
      }
    }
  }

  lemma {:induction false} ConfirmLinks(s: Sys, c: nat)
    requires Inv(s) && AtPhase(s, Reply(c, true))
    ensures OneOrderEach(Next(s, Reply(c, true)).db) && AllLinked(Next(s, Reply(c, true)).db)
  {
    hide LastAudit, FindAction, FindOrder, OrderLinked, Audited, OrdersAsReviewed;
    var t, call := Next(s, Reply(c, true)), s.calls[c];
    forall i | 0 <= i < |t.db.approvals|
      ensures OrderLinked(t.db, i)
    {
      if i == call.approval {
        NewLink(s.db, i, call.action, call.view);
      } else {
        LinkStays(s.db, t.db, i);
      }
    }
  }

  lemma {:induction false} NewLink(db: Db, id: nat, action: nat, view: View)
    requires id < |db.approvals| && action < |db.actions| && db.actions[action].owner == Some(id) && OneOrderEach(db)
    ensures OrderLinked(AfterConfirm(db, id, action, view), id)
  {
    hide FindOrder;
    var after := AfterConfirm(db, id, action, view);
    if FindOrder(db.orders, action).None? {
      assert after.orders[|db.orders|].action == action;
    } else {
      assert after.orders[FindOrder(db.orders, action).value].action == action;
    }
  }

  lemma {:induction false} StepKeepsInv(s: Sys, step: Step)
    requires Inv(s)
    ensures Inv(Next(s, step))
  {
    hide *;
    match step
    case Submit(_) => ApprovalStepsKeep(s, step);
    case Approve(_, _) => ApprovalStepsKeep(s, step);
    case Reject(_) => ApprovalStepsKeep(s, step);
    case Look(_) => CallStepsKeep(s, step);
    case Crash(_) => CallStepsKeep(s, step);
    case Adjust(_, _) => CallStepsKeep(s, step);
    case Ensure(c) => EnsureKeeps(s, c);
    case Reply(c, confirmed) => if confirmed { ConfirmKeeps(s, c); } else { FailureKeeps(s, c); }
    case Deliver(_) => OrderStepsKeep(s, step);
    case OtherOrder(_, _) => OrderStepsKeep(s, step);
  }

  lemma {:induction false} RunKeepsInv(s: Sys, steps: seq<Step>)
    requires Initial(s)
    ensures Inv(Run(s, steps))
  {
    if steps != [] {
      RunKeepsInv(s, steps[..|steps| - 1]);
      StepKeepsInv(Run(s, steps[..|steps| - 1]), steps[|steps| - 1]);
    }
  }

  /**
   * Over every interleaving, crash and retry: an approval has at most one action and one order,
   * a DISPATCHED approval has its order, which is for what was reviewed and is the row its
   * `replenishment_id` leads to if it leads to any, and the last audit row shows the status.
   */
  lemma {:induction false} DispatchIsIdempotent(s: Sys, steps: seq<Step>, id: nat)
    requires Initial(s) && id < |Run(s, steps).db.approvals|
    ensures var db := Run(s, steps).db;
            && (forall i, j :: 0 <= i < j < |db.actions| && db.actions[i].owner == Some(id) ==>
                  db.actions[j].owner != Some(id))
            && (forall o: nat, p: nat :: OrderOf(db, o, id) && OrderOf(db, p, id) ==> o == p)
            && (db.approvals[id].status == DISPATCHED ==>
                  && db.approvals[id].replenishmentId.Some?
                  && exists o: nat :: OrderOf(db, o, id) && db.orders[o].site == db.approvals[id].site
                       && db.orders[o].quantity == db.approvals[id].quantity
                       && db.approvals[id].replenishmentId.value in {OfOrder(o), OfNoOrder})
            && LastAudit(db.audit, id) == Some(db.approvals[id].status)
  {
    hide Run, Next, LastAudit;
    RunKeepsInv(s, steps);
    var db := Run(s, steps).db;
    assert OrderLinked(db, id);
    if db.approvals[id].status == DISPATCHED {
      var o := FindOrder(db.orders, db.approvals[id].actionId.value).value;
      assert OrderOf(db, o, id) && Reviewed(db, o, id);
    }
  }

  // ---- Whether a dispatched approval names its order ------------------------

  predicate Named(db: Db, id: nat)
    requires id < |db.approvals|
  {
    db.approvals[id].replenishmentId.Some? ==> db.approvals[id].replenishmentId.value.OfOrder?
  }

  /** Every DISPATCHED approval's `replenishment_id` is that of an order row. */
  predicate AllNamed(db: Db) {
    forall id :: 0 <= id < |db.approvals| && db.approvals[id].status == DISPATCHED ==> Named(db, id)
  }

  /** The approval a confirming reply is about. */
  predicate Confirms(s: Sys, step: Step, id: nat) {
    step.Reply? && step.confirmed && AtPhase(s, step) && s.calls[step.call].approval == id
  }

  /** A confirming reply of a call whose look-up is older than its action's order. */
  predicate StaleConfirm(s: Sys, step: Step) {
    && step.Reply? && step.confirmed && AtPhase(s, step)
    && var call := s.calls[step.call];
    && call.view.Some?
    && FindOrder(s.db.orders, call.action).Some? && FindOrder(s.db.orders, call.action).value >= call.view.value
  }

  /** A step settles the name of the approval it confirms, by the age of its look-up, and no other. */
  lemma {:induction false} NamingStep(s: Sys, step: Step, id: nat)
    requires id < |Next(s, step).db.approvals|
    ensures var t := Next(s, step);
            if Confirms(s, step, id)
            then HasStatus(t, id, DISPATCHED) && (Named(t.db, id) <==> !StaleConfirm(s, step))
            else Named(t.db, id) <==> id < |s.db.approvals| ==> Named(s.db, id)
  {
    hide LastAudit, FindAction, FindOrder;
  }

  /** The last confirmation of the approval in the run came from a call with a stale look-up. */
  predicate LastConfirmStale(s: Sys, steps: seq<Step>, id: nat) {
    if steps == [] then false
    else
      var front, last := steps[..|steps| - 1], steps[|steps| - 1];
      if Confirms(Run(s, front), last, id) then StaleConfirm(Run(s, front), last)
      else LastConfirmStale(s, front, id)
  }

  lemma {:induction false} ConfirmsExisting(s: Sys, step: Step, id: nat)
    requires Confirms(s, step, id)
    ensures id < |s.db.approvals|
  {
  }

  lemma {:induction false} NothingConfirmedYet(s: Sys, steps: seq<Step>, id: nat)
    requires id >= |Run(s, steps).db.approvals|
    ensures !LastConfirmStale(s, steps, id)
  {
    if steps != [] {
      hide Next, Confirms, StaleConfirm;
      var front, last := steps[..|steps| - 1], steps[|steps| - 1];
      if id < |Run(s, front).db.approvals| {
        RequestsStay(Run(s, front), last, id);
      }
      if Confirms(Run(s, front), last, id) {
        ConfirmsExisting(Run(s, front), last, id);
      }
      NothingConfirmedYet(s, front, id);
    }
  }

  /** At the end of any run an approval's order id leads to a row exactly when its last confirmation was not stale. */
  lemma {:induction false} NamedIffLastConfirmFresh(s: Sys, steps: seq<Step>, id: nat)
    requires Initial(s) && id < |Run(s, steps).db.approvals|
    ensures Named(Run(s, steps).db, id) <==> !LastConfirmStale(s, steps, id)
  {
    if steps != [] {
      hide Next, Confirms, StaleConfirm, Named, AtPhase;
      var front, last := steps[..|steps| - 1], steps[|steps| - 1];
      NamingStep(Run(s, front), last, id);
      if id < |Run(s, front).db.approvals| {
        NamedIffLastConfirmFresh(s, front, id);
      } else {
        NothingConfirmedYet(s, front, id);
      }
    }
  }

  ghost predicate AlwaysNamed(s: Sys, steps: seq<Step>) {
    forall k :: 0 <= k <= |steps| ==> AllNamed(Run(s, steps[..k]).db)
  }

  ghost predicate NeverStale(s: Sys, steps: seq<Step>) {
    forall k :: 0 <= k < |steps| ==> !StaleConfirm(Run(s, steps[..k]), steps[k])
  }

  lemma {:induction false} NeverStaleNames(s: Sys, steps: seq<Step>, k: nat, id: nat)
    requires Initial(s) && NeverStale(s, steps) && k <= |steps| && id < |Run(s, steps[..k]).db.approvals|
    ensures Named(Run(s, steps[..k]).db, id)
  {
    if k > 0 {
      hide Next, Confirms, StaleConfirm, Named, AtPhase;
      assert steps[..k][..k - 1] == steps[..k - 1];
      NamingStep(Run(s, steps[..k - 1]), steps[k - 1], id);
      if id < |Run(s, steps[..k - 1]).db.approvals| {
        NeverStaleNames(s, steps, k - 1, id);
      }
    }
  }

  /**
   * Throughout a run every DISPATCHED approval names its order exactly when no call that found
   * its action confirms with a look-up older than that action's order.
   */
  lemma {:induction false} NamedIffNeverStale(s: Sys, steps: seq<Step>)
    requires Initial(s)
    ensures AlwaysNamed(s, steps) <==> NeverStale(s, steps)
  {
    hide Next, Confirms, Named, HasStatus;
    if NeverStale(s, steps) {
      forall k | 0 <= k <= |steps|
        ensures AllNamed(Run(s, steps[..k]).db)
      {
        forall id | 0 <= id < |Run(s, steps[..k]).db.approvals|
          ensures Named(Run(s, steps[..k]).db, id)
        {
          NeverStaleNames(s, steps, k, id);
        }
      }
    }
    forall k | 0 <= k < |steps| && StaleConfirm(Run(s, steps[..k]), steps[k])
      ensures !AlwaysNamed(s, steps)
    {
      assert steps[..k + 1][..k] == steps[..k];
      StaleConfirmUnnames(Run(s, steps[..k]), steps[k]);
      assert !AllNamed(Run(s, steps[..k + 1]).db);
    }
  }

  lemma {:induction false} StaleConfirmUnnames(s: Sys, step: Step)
    requires StaleConfirm(s, step)
    ensures !AllNamed(Next(s, step).db)
  {
    var id := s.calls[step.call].approval;
    NamingStep(s, step, id);
  }

  // ---- The version check ----------------------------------------------------

  /** A snapshot is never newer than the row, and equal versions mean the row is the snapshot. */
  predicate SnapshotsSound(db: Db) {
    forall id :: 0 <= id < |db.approvals| ==> SnapshotSound(db.ledger, db.approvals[id])
  }

  predicate SnapshotSound(ledger: Ledger, a: Approval) {
    && a.site in ledger && a.snapshot.version <= ledger[a.site].version
    && (a.snapshot.version == ledger[a.site].version ==> a.snapshot == ledger[a.site])
  }

  /** What a step never changes about an approval. */
  predicate SameRequest(a: Approval, b: Approval) {
    a.key == b.key && a.site == b.site && a.quantity == b.quantity && a.snapshot == b.snapshot
  }

  lemma {:induction false} RequestsStay(s: Sys, step: Step, id: nat)
    requires id < |s.db.approvals|
    ensures id < |Next(s, step).db.approvals| && SameRequest(Next(s, step).db.approvals[id], s.db.approvals[id])
  {
  }

  lemma {:induction false} RunRequestsStay(s: Sys, steps: seq<Step>, k: nat, id: nat)
    requires k <= |steps| && id < |Run(s, steps[..k]).db.approvals|
    ensures id < |Run(s, steps).db.approvals|
    ensures SameRequest(Run(s, steps).db.approvals[id], Run(s, steps[..k]).db.approvals[id])
  {
    hide Next;
    if k == |steps| {
      assert steps[..k] == steps;
    } else {
      var front := steps[..|steps| - 1];
      assert front[..k] == steps[..k];
      RunRequestsStay(s, front, k, id);
      RequestsStay(Run(s, front), steps[|steps| - 1], id);
    }
  }

  lemma {:induction false} SnapshotsStay(s: Sys, step: Step)
    requires SnapshotsSound(s.db)
    ensures SnapshotsSound(Next(s, step).db)
  {
  }

  lemma {:induction false} RunSnapshotsSound(s: Sys, steps: seq<Step>)
    requires Initial(s)
    ensures SnapshotsSound(Run(s, steps).db)
  {
    hide Next;
    if steps != [] {
      RunSnapshotsSound(s, steps[..|steps| - 1]);
      SnapshotsStay(Run(s, steps[..|steps| - 1]), steps[|steps| - 1]);
    }
  }

  /**
   * The optimistic check is free of A-B-A: a review that passes without an override finds the
   * very inventory row that was there when the request was submitted at step `k`.
   */
  lemma {:induction false} ReviewSeesSubmittedStock(s: Sys, steps: seq<Step>, k: nat, online: bool)
    requires Initial(s) && k < |steps| && steps[k].Submit?
    requires MaySubmit(Run(s, steps[..k]).db, steps[k].submission)
    requires MayApprove(Run(s, steps).db, Review(|Run(s, steps[..k]).db.approvals|, None, online))
    ensures var site := steps[k].submission.site;
            && site in Run(s, steps).db.ledger && site in Run(s, steps[..k]).db.ledger
            && Run(s, steps).db.ledger[site] == Run(s, steps[..k]).db.ledger[site]
  {
    var id := |Run(s, steps[..k]).db.approvals|;
    assert steps[..k + 1][..k] == steps[..k];
    var submitted := Run(s, steps[..k + 1]);
    assert submitted == Next(Run(s, steps[..k]), steps[k]);
    RunRequestsStay(s, steps, k + 1, id);
    RunSnapshotsSound(s, steps);
    assert SnapshotSound(Run(s, steps).db.ledger, Run(s, steps).db.approvals[id]);
  }

  // ---- How much is ordered --------------------------------------------------

  /** The approval is what this submission asked for. */
  ghost predicate AsksFor(submission: Submission, a: Approval) {
    submission.key == a.key && submission.site == a.site && LeastCover(a.quantity, submission)
  }

  ghost predicate SubmittedAt(s: Sys, steps: seq<Step>, k: nat, id: nat)
    requires id < |Run(s, steps).db.approvals|
  {
    && k < |steps| && steps[k].Submit? && MaySubmit(Run(s, steps[..k]).db, steps[k].submission)
    && |Run(s, steps[..k]).db.approvals| == id && AsksFor(steps[k].submission, Run(s, steps).db.approvals[id])
  }

  lemma {:induction false} NewcomerAsks(s: Sys, step: Step)
    requires |Next(s, step).db.approvals| > |s.db.approvals|
    ensures step.Submit? && MaySubmit(s.db, step.submission)
    ensures |Next(s, step).db.approvals| == |s.db.approvals| + 1
    ensures AsksFor(step.submission, Next(s, step).db.approvals[|s.db.approvals|])
  {
    if step.Submit? && MaySubmit(s.db, step.submission) {
      RequestCovers(s.db, step.submission);
    }
    hide FindAction, FindOrder, OrderInFlight, ActiveApproval, LeastCover;
  }

  /** Every approval was submitted by some step, for the least quantity that covers it. */
  lemma {:induction false} ApprovalIsSubmitted(s: Sys, steps: seq<Step>, id: nat) returns (k: nat)
    requires Initial(s) && id < |Run(s, steps).db.approvals|
    ensures SubmittedAt(s, steps, k, id)
  {
    hide Next, MaySubmit, LeastCover;
    var front, last := steps[..|steps| - 1], steps[|steps| - 1];
    if id < |Run(s, front).db.approvals| {
      k := ApprovalIsSubmitted(s, front, id);
      RequestsStay(Run(s, front), last, id);
      assert front[..k] == steps[..k];
    } else {
      k := |front|;
      NewcomerAsks(Run(s, front), last);
    }
  }

  /**
   * Every order of an approval is for at least what its own submission asked and at least the
   * supplier's minimum, and for exactly what was asked when that reaches the minimum.
   */
  lemma {:induction false} OrdersCoverSubmissions(s: Sys, steps: seq<Step>, o: nat, id: nat) returns (k: nat)
    requires Initial(s) && OrderOf(Run(s, steps).db, o, id)
    ensures id < |Run(s, steps).db.approvals| && SubmittedAt(s, steps, k, id)
    ensures var order, submission := Run(s, steps).db.orders[o], steps[k].submission;
            && order.site == submission.site && Covers(order.quantity, submission)
            && (submission.quantity >= submission.minReorder ==> order.quantity == submission.quantity)
            && (submission.quantity < submission.minReorder ==> order.quantity == submission.minReorder)
  {
    RunKeepsInv(s, steps);
    assert Reviewed(Run(s, steps).db, o, id);
    k := ApprovalIsSubmitted(s, steps, id);
    hide Run, Next, Inv, MaySubmit;
    LeastIsOne(Run(s, steps).db.approvals[id].quantity, steps[k].submission);
  }

  lemma {:induction false} LeastIsOne(quantity: int, s: Submission)
    requires LeastCover(quantity, s)
    ensures quantity == if s.quantity < s.minReorder then s.minReorder else s.quantity
  {
    assert Covers(if s.quantity < s.minReorder then s.minReorder else s.quantity, s);
  }

  // ---- The audit trail ------------------------------------------------------

  /** The six entries the service writes. */
  predicate Legal(row: AuditRow) {
    || (row.from == None && row.to == PENDING_REVIEW)
    || (row.from == Some(PENDING_REVIEW) && row.to in {APPROVED, REJECTED})
    || (row.from == Some(APPROVED) && row.to in {DISPATCHED, FAILED})
    || (row.from == Some(FAILED) && row.to == REJECTED)
  }

  lemma {:induction false} StepIsLegal(s: Sys, step: Step)
    ensures Next(s, step).db.audit == s.db.audit
         || (|Next(s, step).db.audit| == |s.db.audit| + 1 && s.db.audit <= Next(s, step).db.audit
             && Legal(Next(s, step).db.audit[|s.db.audit|]))
  {
    hide FindAction, FindOrder, OrderInFlight, ActiveApproval, KeyTaken, NewApproval;
  }

  /** Over every run the audit only grows, by such entries. */
  lemma {:induction false} AuditIsLegal(s: Sys, steps: seq<Step>)
    requires Initial(s)
    ensures forall i :: 0 <= i < |Run(s, steps).db.audit| ==> Legal(Run(s, steps).db.audit[i])
  {
    if steps != [] {
      hide Next, Legal;
      AuditIsLegal(s, steps[..|steps| - 1]);
      StepIsLegal(Run(s, steps[..|steps| - 1]), steps[|steps| - 1]);
    }
  }

  // ---- When REJECTED and DISPATCHED are final -------------------------------

  /** The call can still hear from the supplier; one that will hit the unique key cannot. */
  predicate MayHear(s: Sys, c: nat) {
    && c in s.calls
    && (s.calls[c].Ensuring? && s.calls[c].found.None? ==> FindAction(s.db.actions, s.calls[c].approval).None?)
  }

  ghost predicate Awaited(s: Sys, id: nat) {
    exists c :: MayHear(s, c) && s.calls[c].approval == id
  }

  predicate HasStatus(s: Sys, id: nat, status: Status) {
    id < |s.db.approvals| && s.db.approvals[id].status == status
  }

  ghost predicate Final(s: Sys, id: nat, status: Status) {
    forall steps :: HasStatus(Run(s, steps), id, status)
  }

  lemma {:induction false} ActionsStay(s: Sys, step: Step, id: nat)
    requires FindAction(s.db.actions, id).Some?
    ensures FindAction(Next(s, step).db.actions, id).Some?
  {
    var t := Next(s, step);
    var i := FindAction(s.db.actions, id).value;
    assert t.db.actions[i].owner == Some(id);
  }

  lemma {:induction false} UnawaitedStays(s: Sys, step: Step, id: nat, status: Status)
    requires Inv(s) && status in [REJECTED, DISPATCHED] && HasStatus(s, id, status) && !Awaited(s, id)
    ensures HasStatus(Next(s, step), id, status) && !Awaited(Next(s, step), id)
  {
    hide LastAudit, FindAction;
    var t := Next(s, step);
    assert CallsSound(s);
    forall c | c in t.calls && t.calls[c].approval == id
      ensures !MayHear(t, c)
    {
      assert c in s.calls && s.calls[c].approval == id && !MayHear(s, c);
      ActionsStay(s, step, id);
    }
    if step.Reply? && AtPhase(s, step) {
      assert MayHear(s, step.call);
    }
  }

  lemma {:induction false} UnawaitedIsFinal(s: Sys, steps: seq<Step>, id: nat, status: Status)
    requires Inv(s) && status in [REJECTED, DISPATCHED] && HasStatus(s, id, status) && !Awaited(s, id)
    ensures HasStatus(Run(s, steps), id, status) && !Awaited(Run(s, steps), id) && Inv(Run(s, steps))
  {
    hide Next, Inv, Awaited, HasStatus;
    if steps != [] {
      var front := steps[..|steps| - 1];
      UnawaitedIsFinal(s, front, id, status);
      UnawaitedStays(Run(s, front), steps[|steps| - 1], id, status);
      StepKeepsInv(Run(s, front), steps[|steps| - 1]);
    }
  }

  /** From each phase, the steps that bring a call its supplier's answer. */
  function ToAnswer(call: Call, c: nat, confirmed: bool): seq<Step> {
    match call
    case Looking(_) => [Look(c), Ensure(c), Reply(c, confirmed)]
    case Ensuring(_, _, _) => [Ensure(c), Reply(c, confirmed)]
    case Placing(_, _, _) => [Reply(c, confirmed)]
  }

  lemma {:induction false} RunOne(s: Sys, step: Step)
    ensures Run(s, [step]) == Next(s, step)
  {
  }

  lemma {:induction false} RunFirst(s: Sys, step: Step, rest: seq<Step>)
    ensures Run(s, [step] + rest) == Run(Next(s, step), rest)
  {
    hide Next;
    if rest == [] {
      assert [step] + rest == [step];
      RunOne(s, step);
    } else {
      assert ([step] + rest)[..|rest|] == [step] + rest[..|rest| - 1];
      RunFirst(s, step, rest[..|rest| - 1]);
    }
  }

  lemma {:induction false} AnswerArrives(s: Sys, c: nat, confirmed: bool)
    requires Inv(s) && MayHear(s, c)
    ensures HasStatus(Run(s, ToAnswer(s.calls[c], c, confirmed)), s.calls[c].approval,
                      if confirmed then DISPATCHED else FAILED)
    decreases if s.calls[c].Looking? then 2 else if s.calls[c].Ensuring? then 1 else 0
  {
    hide LastAudit, FindAction, Run;
    assert CallSound(s.db, s.calls[c]);
    var call, all := s.calls[c], ToAnswer(s.calls[c], c, confirmed);
    if call.Placing? {
      RunOne(s, Reply(c, confirmed));
    } else {
      var t := Next(s, all[0]);
      StepKeepsInv(s, all[0]);
      assert MayHear(t, c) && all == [all[0]] + ToAnswer(t.calls[c], c, confirmed);
      AnswerArrives(t, c, confirmed);
      RunFirst(s, all[0], ToAnswer(t.calls[c], c, confirmed));
    }
  }

  /**
   * REJECTED and DISPATCHED are final exactly when no call is still open on the approval that
   * can hear from the supplier: an overlapping approval call can undo either.
   */
  lemma {:induction false} FinalIffUnawaited(s: Sys, id: nat, status: Status)
    requires Inv(s) && status in [REJECTED, DISPATCHED] && HasStatus(s, id, status)
    ensures Final(s, id, status) <==> !Awaited(s, id)
  {
    hide Run, Next, Inv, HasStatus;
    if Awaited(s, id) {
      var c :| MayHear(s, c) && s.calls[c].approval == id;
      var confirmed := status == REJECTED;
      AnswerArrives(s, c, confirmed);
      StatusIsOne(Run(s, ToAnswer(s.calls[c], c, confirmed)), id, if confirmed then DISPATCHED else FAILED, status);
    } else {
      forall steps
        ensures HasStatus(Run(s, steps), id, status)
      {
        UnawaitedIsFinal(s, steps, id, status);
      }
    }
  }

  lemma {:induction false} StatusIsOne(s: Sys, id: nat, a: Status, b: Status)
    requires HasStatus(s, id, a) && a != b
    ensures !HasStatus(s, id, b)
  {
  }

  // ---- Runs without overlapping calls on one approval -----------------------

  ghost predicate Overlaps(s: Sys, step: Step) {
    step.Approve? && exists c :: c in s.calls && s.calls[c].approval == step.review.approval
  }

  ghost predicate Sequential(s: Sys, steps: seq<Step>) {
    forall k :: 0 <= k < |steps| ==> !Overlaps(Run(s, steps[..k]), steps[k])
  }

  /** An approval with an open call is APPROVED, has no order yet and has no other call. */
  ghost predicate CallsAlone(s: Sys) {
    && (forall c :: c in s.calls ==> s.calls[c].approval < |s.db.approvals|)
    && (forall c :: c in s.calls ==> s.db.approvals[s.calls[c].approval].status == APPROVED)
    && (forall c, c' :: c in s.calls && c' in s.calls && c != c' ==> s.calls[c].approval != s.calls[c'].approval)
  }

  /** Only DISPATCHED approvals have an order. */
  ghost predicate OrdersDispatched(db: Db) {
    && (forall o: nat, id: nat :: OrderOf(db, o, id) && id < |db.approvals| ==> db.approvals[id].status == DISPATCHED)
    && (forall id :: 0 <= id < |db.approvals| && db.approvals[id].replenishmentId.Some? ==>
          db.approvals[id].status == DISPATCHED)
  }

  predicate OwnInFlight(db: Db, o: nat, site: Site) {
    && o < |db.orders| && db.orders[o].site == site && db.orders[o].inFlight
    && db.orders[o].action < |db.actions| && db.actions[db.orders[o].action].owner.Some?
  }

  /** Per site: one active request at most, one own order in flight at most, and never both. */
  ghost predicate OnePerSite(db: Db) {
    && (forall a, b :: 0 <= a < b < |db.approvals| && Active(db.approvals[a]) && Active(db.approvals[b]) ==>
          db.approvals[a].site != db.approvals[b].site)
    && (forall o: nat, a :: 0 <= a < |db.approvals| && Active(db.approvals[a]) ==>
          !OwnInFlight(db, o, db.approvals[a].site))
    && (forall o: nat, p: nat, site :: OwnInFlight(db, o, site) && OwnInFlight(db, p, site) ==> o == p)
  }

  ghost predicate SeqInv(s: Sys) {
    CallsAlone(s) && OrdersDispatched(s.db) && OnePerSite(s.db)
  }

  /** No step but a confirming reply gives an approval an order, and at most one new one. */
  lemma {:induction false} NewOrders(s: Sys, step: Step, o: nat, id: nat)
    requires OneOrderEach(s.db) && CallsSound(s) && OrderOf(Next(s, step).db, o, id)
    ensures OrderOf(s.db, o, id) || (Confirms(s, step, id) && o == |s.db.orders|)
  {
  }

  lemma {:induction false} NewInFlight(s: Sys, step: Step, o: nat, site: Site)
    requires OneOrderEach(s.db) && CallsSound(s) && OwnInFlight(Next(s, step).db, o, site)
    ensures OwnInFlight(s.db, o, site)
         || (o == |s.db.orders| && step.Reply? && AtPhase(s, step) && Confirms(s, step, s.calls[step.call].approval)
             && site == s.db.approvals[s.calls[step.call].approval].site)
  {
  }

  /** How a step changes one approval's status, when every open call's approval is APPROVED. */
  lemma {:induction false} StatusChange(s: Sys, step: Step, id: nat)
    requires CallsAlone(s) && id < |s.db.approvals|
    ensures var a, b := s.db.approvals[id], Next(s, step).db.approvals[id];
            && id < |Next(s, step).db.approvals| && b.site == a.site
            && (Active(b) ==> Active(a))
            && (a.status == DISPATCHED ==> b.status == DISPATCHED)
            && (a.status == REJECTED ==> b.status == REJECTED)
            && (a.status == APPROVED && b.status != APPROVED ==>
                  step.Reply? && AtPhase(s, step) && s.calls[step.call].approval == id)
            && (b.replenishmentId == a.replenishmentId || Confirms(s, step, id))
            && (Confirms(s, step, id) ==> b.status == DISPATCHED)
  {
  }

  lemma {:induction false} CallsStayAlone(s: Sys, step: Step)
    requires CallsAlone(s) && !Overlaps(s, step)
    ensures CallsAlone(Next(s, step))
  {
    hide LastAudit, FindAction, FindOrder, NextDb;
    var t := Next(s, step);
    forall c | c in t.calls
      ensures t.calls[c].approval < |t.db.approvals| && t.db.approvals[t.calls[c].approval].status == APPROVED
    {
      if c in s.calls {
        StatusChange(s, step, s.calls[c].approval);
      } else {
        ApprovedNow(s, step);
      }
    }
  }

  lemma {:induction false} ApprovedNow(s: Sys, step: Step)
    requires step.Approve? && step.call !in s.calls && MayApprove(s.db, step.review)
    ensures HasStatus(Next(s, step), step.review.approval, APPROVED)
  {
  }

  lemma {:induction false} OrdersStayDispatched(s: Sys, step: Step)
    requires Inv(s) && SeqInv(s)
    ensures OrdersDispatched(Next(s, step).db)
  {
    hide LastAudit, FindAction, FindOrder, NextDb, NextCalls, OrderOf, OneActionEach, Audited, AllLinked, OnePerSite;
    var t := Next(s, step);
    forall o: nat, id: nat | OrderOf(t.db, o, id) && id < |t.db.approvals|
      ensures t.db.approvals[id].status == DISPATCHED
    {
      NewOrders(s, step, o, id);
      assert Reviewed(s.db, o, id);
      assert CallsSound(s);
      StatusChange(s, step, id);
    }
    forall id | 0 <= id < |t.db.approvals| && t.db.approvals[id].replenishmentId.Some?
      ensures t.db.approvals[id].status == DISPATCHED
    {
      if id < |s.db.approvals| {
        StatusChange(s, step, id);
      } else {
        Newcomer(s, step, id);
      }
    }
  }

  /** A new approval is PENDING_REVIEW, without an order, on a site with no active request and no order in flight. */
  lemma {:induction false} Newcomer(s: Sys, step: Step, id: nat)
    requires |s.db.approvals| <= id < |Next(s, step).db.approvals|
    ensures var a := Next(s, step).db.approvals[id];
            && id == |s.db.approvals| && a.status == PENDING_REVIEW && a.replenishmentId.None?
            && !ActiveApproval(s.db.approvals, a.site) && !OrderInFlight(s.db.orders, a.site)
            && step.Submit?
  {
  }

  lemma {:induction false} SitesStayApart(s: Sys, step: Step)
    requires Inv(s) && SeqInv(s)
    ensures OnePerSite(Next(s, step).db)
  {
    hide LastAudit, FindAction, FindOrder, NextDb, NextCalls, OneActionEach, Audited, AllLinked, OrdersDispatched;
    var t := Next(s, step);
    forall a: nat, b: nat | a < b < |t.db.approvals| && Active(t.db.approvals[a]) && Active(t.db.approvals[b])
      ensures t.db.approvals[a].site != t.db.approvals[b].site
    {
      StillActive(s, step, a);
      StillActive(s, step, b);
    }
    forall o: nat, a: nat | a < |t.db.approvals| && Active(t.db.approvals[a])
      ensures !OwnInFlight(t.db, o, t.db.approvals[a].site)
    {
      StillActive(s, step, a);
      if OwnInFlight(t.db, o, t.db.approvals[a].site) {
        NewInFlight(s, step, o, t.db.approvals[a].site);
      }
    }
    forall o: nat, p: nat, site | OwnInFlight(t.db, o, site) && OwnInFlight(t.db, p, site)
      ensures o == p
    {
      NewInFlight(s, step, o, site);
      NewInFlight(s, step, p, site);
    }
  }

  /** An approval that is active after a step was active before it, or is the newcomer. */
  lemma {:induction false} StillActive(s: Sys, step: Step, a: nat)
    requires CallsAlone(s) && a < |Next(s, step).db.approvals| && Active(Next(s, step).db.approvals[a])
    ensures a < |s.db.approvals| ==>
              && Active(s.db.approvals[a]) && s.db.approvals[a].site == Next(s, step).db.approvals[a].site
              && !Confirms(s, step, a)
    ensures a >= |s.db.approvals| ==>
              && a == |s.db.approvals| && step.Submit?
              && !ActiveApproval(s.db.approvals, Next(s, step).db.approvals[a].site)
              && !OrderInFlight(s.db.orders, Next(s, step).db.approvals[a].site)
  {
  }

  lemma {:induction false} SequentialFront(s: Sys, steps: seq<Step>)
    requires Sequential(s, steps) && steps != []
    ensures Sequential(s, steps[..|steps| - 1])
    ensures !Overlaps(Run(s, steps[..|steps| - 1]), steps[|steps| - 1])
  {
    hide Run, Overlaps;
    var front := steps[..|steps| - 1];
    forall k | 0 <= k < |front|
      ensures !Overlaps(Run(s, front[..k]), front[k])
    {
      assert front[..k] == steps[..k];
    }
  }

  lemma {:induction false} SequentialKeeps(s: Sys, steps: seq<Step>)
    requires Initial(s) && Sequential(s, steps)
    ensures SeqInv(Run(s, steps))
  {
    if steps != [] {
      hide Next, Inv, Sequential, CallsAlone, OrdersDispatched, OnePerSite;
      var front := steps[..|steps| - 1];
      SequentialFront(s, steps);
      SequentialKeeps(s, front);
      RunKeepsInv(s, front);
      CallsStayAlone(Run(s, front), steps[|steps| - 1]);
      OrdersStayDispatched(Run(s, front), steps[|steps| - 1]);
      SitesStayApart(Run(s, front), steps[|steps| - 1]);
    }
  }

  lemma {:induction false} SequentialPrefix(s: Sys, steps: seq<Step>, k: nat)
    requires Sequential(s, steps) && k <= |steps|
    ensures Sequential(s, steps[..k])
  {
    hide Run, Overlaps;
    forall j | 0 <= j < k
      ensures !Overlaps(Run(s, steps[..k][..j]), steps[..k][j])
    {
      assert steps[..k][..j] == steps[..j];
    }
  }

  /** A call alone on its approval finds no order of its action, so its look-up is fresh enough. */
  lemma {:induction false} AloneIsFresh(s: Sys, step: Step)
    requires Inv(s) && SeqInv(s)
    ensures !StaleConfirm(s, step)
  {
    hide LastAudit, FindAction, OnePerSite, AllLinked, Audited;
    if step.Reply? && AtPhase(s, step) {
      var call := s.calls[step.call];
      var order := FindOrder(s.db.orders, call.action);
      assert CallSound(s.db, call);
      assert order.Some? ==> OrderOf(s.db, order.value, call.approval);
    }
  }

  lemma {:induction false} SequentialIsNeverStale(s: Sys, steps: seq<Step>)
    requires Initial(s) && Sequential(s, steps)
    ensures NeverStale(s, steps)
  {
    hide Run, Next, Sequential, Inv, SeqInv, StaleConfirm;
    forall k | 0 <= k < |steps|
      ensures !StaleConfirm(Run(s, steps[..k]), steps[k])
    {
      SequentialPrefix(s, steps, k);
      SequentialKeeps(s, steps[..k]);
      RunKeepsInv(s, steps[..k]);
      AloneIsFresh(Run(s, steps[..k]), steps[k]);
    }
  }

  /**
   * Runs whose approve calls on one approval do not overlap, with crashes anywhere: only
   * DISPATCHED approvals have an order and they name it, each site has at most one request under
   * review or approved and at most one of this service's orders in flight.
   */
  lemma {:induction false} SequentialRunsAreSafe(s: Sys, steps: seq<Step>)
    requires Initial(s) && Sequential(s, steps)
    ensures var db := Run(s, steps).db;
            && (forall o: nat, id: nat :: OrderOf(db, o, id) ==> HasStatus(Run(s, steps), id, DISPATCHED))
            && AllNamed(db)
            && (forall a, b :: 0 <= a < b < |db.approvals| && Active(db.approvals[a]) && Active(db.approvals[b]) ==>
                  db.approvals[a].site != db.approvals[b].site)
            && (forall o: nat, p: nat, site :: OwnInFlight(db, o, site) && OwnInFlight(db, p, site) ==> o == p)
  {
    hide Run, Next, Sequential;
    SequentialKeeps(s, steps);
    RunKeepsInv(s, steps);
    var db := Run(s, steps).db;
    SequentialIsNeverStale(s, steps);
    NamedIffNeverStale(s, steps);
    assert steps[..|steps|] == steps;
    assert AllNamed(Run(s, steps[..|steps|]).db);
    forall o: nat, id: nat | OrderOf(db, o, id)
      ensures HasStatus(Run(s, steps), id, DISPATCHED)
    {
      assert Reviewed(db, o, id);
    }
  }

  /** In such a run DISPATCHED and REJECTED never change. */
  lemma {:induction false} FinalInSequentialRuns(s: Sys, steps: seq<Step>, k: nat, id: nat, status: Status)
    requires Initial(s) && Sequential(s, steps) && k <= |steps|
    requires status in [REJECTED, DISPATCHED] && HasStatus(Run(s, steps[..k]), id, status)
    ensures HasStatus(Run(s, steps), id, status)
  {
    if k == |steps| {
      assert steps[..k] == steps;
    } else {
      hide Next, Sequential;
      var front := steps[..|steps| - 1];
      assert front[..k] == steps[..k];
      SequentialFront(s, steps);
      FinalInSequentialRuns(s, front, k, id, status);
      SequentialKeeps(s, front);
      StatusChange(Run(s, front), steps[|steps| - 1], id);
    }
  }

  // ---- What an overlap does -------------------------------------------------

  predicate Touches(step: Step, c: nat) {
    match step
    case Approve(d, _) => c == d
    case Look(d) => c == d
    case Ensure(d) => c == d
    case Reply(d, _) => c == d
    case Crash(d) => c == d
    case _ => false
  }

  lemma {:induction false} UntouchedCall(s: Sys, steps: seq<Step>, c: nat)
    requires c in s.calls && forall i :: 0 <= i < |steps| ==> !Touches(steps[i], c)
    ensures c in Run(s, steps).calls && Run(s, steps).calls[c] == s.calls[c]
  {
    hide NextDb, AtPhase;
    if steps != [] {
      UntouchedCall(s, steps[..|steps| - 1], c);
    }
  }

  lemma {:induction false} RunKeeps(s: Sys, steps: seq<Step>)
    requires Inv(s)
    ensures Inv(Run(s, steps))
  {
    hide Inv, Next;
    if steps != [] {
      RunKeeps(s, steps[..|steps| - 1]);
      StepKeepsInv(Run(s, steps[..|steps| - 1]), steps[|steps| - 1]);
    }
  }

  lemma {:induction false} ApproveTwice(s: Sys, c: nat, c': nat, r: Review) returns (t: Sys)
    requires MayApprove(s.db, r) && s.db.approvals[r.approval].replenishmentId.None?
    requires c != c' && c !in s.calls && c' !in s.calls
    ensures t == Next(Next(s, Approve(c, r)), Approve(c', r))
    ensures t.calls == s.calls[c := Looking(r.approval)][c' := Looking(r.approval)]
    ensures t.db.actions == s.db.actions && t.db.orders == s.db.orders && |t.db.approvals| == |s.db.approvals|
  {
    hide OrderInFlight;
    t := Next(Next(s, Approve(c, r)), Approve(c', r));
  }

  lemma {:induction false} RejectFailed(s: Sys, id: nat)
    requires HasStatus(s, id, FAILED)
    ensures HasStatus(Next(s, Reject(id)), id, REJECTED) && Next(s, Reject(id)).calls == s.calls
  {
  }

  /** The run of `OverlapUndoesRejection`: two approvals, the first fails, and the request is rejected. */
  function Overlap(c: nat, c': nat, r: Review): seq<Step> {
    [Approve(c, r)] + ([Approve(c', r)] + (ToAnswer(Looking(r.approval), c, false) + [Reject(r.approval)]))
  }

  lemma {:induction false} OverlapRuns(s: Sys, c: nat, c': nat, r: Review, t: Sys)
    requires t == Next(Next(s, Approve(c, r)), Approve(c', r))
    ensures Run(s, Overlap(c, c', r)) == Next(Run(t, ToAnswer(Looking(r.approval), c, false)), Reject(r.approval))
  {
    hide Next, ToAnswer;
    var answer := ToAnswer(Looking(r.approval), c, false);
    RunFirst(s, Approve(c, r), [Approve(c', r)] + (answer + [Reject(r.approval)]));
    RunFirst(Next(s, Approve(c, r)), Approve(c', r), answer + [Reject(r.approval)]);
    assert (answer + [Reject(r.approval)])[..|answer|] == answer;
  }

  /** Wherever a request can be approved, two overlapping calls can end with a rejection that is not final. */
  lemma {:induction false} OverlapUndoesRejection(s: Sys, c: nat, c': nat, r: Review)
    requires Inv(s) && MayApprove(s.db, r) && s.db.approvals[r.approval].replenishmentId.None?
    requires c != c' && c !in s.calls && c' !in s.calls
    ensures HasStatus(Run(s, Overlap(c, c', r)), r.approval, REJECTED)
    ensures !Final(Run(s, Overlap(c, c', r)), r.approval, REJECTED)
  {
    hide Inv, Next, Run, MayApprove, HasStatus, Final;
    var id := r.approval;
    StepKeepsInv(s, Approve(c, r));
    StepKeepsInv(Next(s, Approve(c, r)), Approve(c', r));
    var t := ApproveTwice(s, c, c', r);
    AnswerArrives(t, c, false);
    var answer := ToAnswer(Looking(id), c, false);
    UntouchedCall(t, answer, c');
    RunKeeps(t, answer);
    var u := Run(t, answer);
    RejectFailed(u, id);
    StepKeepsInv(u, Reject(id));
    OverlapRuns(s, c, c', r, t);
    assert MayHear(Next(u, Reject(id)), c');
    FinalIffUnawaited(Next(u, Reject(id)), id, REJECTED);
  }

  /** Both calls place the order of one action that has none; the second looked before there was any. */
  predicate BothPlacing(s: Sys, c: nat, c': nat, id: nat, action: nat) {
    && c in s.calls && c' in s.calls && c != c' && id < |s.db.approvals| && action < |s.db.actions|
    && s.calls[c].Placing? && s.calls[c].approval == id && s.calls[c].action == action
    && s.calls[c'] == Placing(id, action, Some(|s.db.orders|))
    && FindOrder(s.db.orders, action).None?
  }

  lemma {:induction false} SecondReplyIsStale(s: Sys, c: nat, c': nat, id: nat, action: nat)
    requires BothPlacing(s, c, c', id, action)
    ensures var t := Next(Next(s, Reply(c, true)), Reply(c', true));
            HasStatus(t, id, DISPATCHED) && t.db.approvals[id].replenishmentId == Some(OfNoOrder)
  {
    hide BothPlacing, FindOrder, Next;
    var t := Next(s, Reply(c, true));
    FirstReply(s, c, c', id, action);
    StaleReply(t, c', id, action, |s.db.orders|);
  }

  lemma {:induction false} FirstReply(s: Sys, c: nat, c': nat, id: nat, action: nat)
    requires BothPlacing(s, c, c', id, action)
    ensures var t := Next(s, Reply(c, true));
            && id < |t.db.approvals| && action < |t.db.actions|
            && c' in t.calls && t.calls[c'] == Placing(id, action, Some(|s.db.orders|))
            && FindOrder(t.db.orders, action) == Some(|s.db.orders|)
  {
    ReplyConfirms(s, c, id, action);
    hide Next;
    NewOrderIsFound(s.db.orders, Order(action, s.db.approvals[id].site, s.db.approvals[id].quantity, true));
    hide FindOrder, Refetched;
  }

  lemma {:induction false} ReplyConfirms(s: Sys, c: nat, id: nat, action: nat)
    requires c in s.calls && s.calls[c].Placing? && s.calls[c].approval == id && s.calls[c].action == action
    requires id < |s.db.approvals| && action < |s.db.actions|
    ensures Next(s, Reply(c, true)) == Sys(AfterConfirm(s.db, id, action, s.calls[c].view), s.calls - {c})
  {
    hide AfterConfirm;
  }

  lemma {:induction false} NewOrderIsFound(orders: seq<Order>, order: Order)
    requires FindOrder(orders, order.action).None?
    ensures FindOrder(orders + [order], order.action) == Some(|orders|)
  {
    assert (orders + [order])[..|orders|] == orders;
  }

  lemma {:induction false} StaleReply(t: Sys, c: nat, id: nat, action: nat, n: nat)
    requires id < |t.db.approvals| && action < |t.db.actions|
    requires c in t.calls && t.calls[c] == Placing(id, action, Some(n)) && FindOrder(t.db.orders, action) == Some(n)
    ensures var u := Next(t, Reply(c, true));
            HasStatus(u, id, DISPATCHED) && u.db.approvals[id].replenishmentId == Some(OfNoOrder)
  {
    ReplyConfirms(t, c, id, action);
    hide FindOrder, Next;
  }

  /** The first call gets its action, whether it finds or inserts it. */
  lemma {:induction false} FirstGetsAction(s: Sys, c: nat, id: nat)
    requires c in s.calls && s.calls[c] == Looking(id)
    ensures var t := Next(Next(s, Look(c)), Ensure(c));
            && c in t.calls && t.calls[c].Placing? && t.calls[c].approval == id
            && t.calls == s.calls[c := t.calls[c]] && t.db == s.db.(actions := t.db.actions)
            && FindAction(t.db.actions, id) == Some(t.calls[c].action)
            && s.db.actions <= t.db.actions
            && (FindAction(s.db.actions, id).None? ==> t.calls[c].action == |s.db.actions|)
  {
    AfterLook(s, c, id);
    AfterEnsure(Next(s, Look(c)), c, id);
    hide *;
  }

  lemma {:induction false} AfterLook(s: Sys, c: nat, id: nat)
    requires c in s.calls && s.calls[c] == Looking(id)
    ensures Next(s, Look(c)) == s.(calls := s.calls[c := Ensuring(id, FindAction(s.db.actions, id), |s.db.orders|)])
  {
    hide FindOrder, FindAction;
  }

  lemma {:induction false} AfterEnsure(s: Sys, c: nat, id: nat)
    requires c in s.calls && s.calls[c].Ensuring? && s.calls[c].approval == id
    requires s.calls[c].found == FindAction(s.db.actions, id)
    ensures var t := Next(s, Ensure(c));
            && c in t.calls && t.calls[c].Placing? && t.calls[c].approval == id
            && t.calls == s.calls[c := t.calls[c]] && t.db == s.db.(actions := t.db.actions)
            && FindAction(t.db.actions, id) == Some(t.calls[c].action)
            && s.db.actions <= t.db.actions
            && (FindAction(s.db.actions, id).None? ==> t.calls[c].action == |s.db.actions|)
  {
    hide FindOrder, FindAction;
    if FindAction(s.db.actions, id).None? {
      NewActionIsFound(s.db.actions, id);
    }
  }

  lemma {:induction false} NewActionIsFound(actions: seq<Action>, id: nat)
    requires FindAction(actions, id).None?
    ensures FindAction(actions + [Action(Some(id), PENDING)], id) == Some(|actions|)
  {
    assert (actions + [Action(Some(id), PENDING)])[..|actions|] == actions;
  }

  /** The second finds that action. */
  lemma {:induction false} SecondFindsAction(s: Sys, c: nat, id: nat, action: nat)
    requires c in s.calls && s.calls[c] == Looking(id) && FindAction(s.db.actions, id) == Some(action)
    ensures Next(Next(s, Look(c)), Ensure(c)) == Sys(s.db, s.calls[c := Placing(id, action, Some(|s.db.orders|))])
  {
    hide FindOrder, FindAction;
  }

  /** Two approvals of one request, both of which hear that the supplier confirmed. */
  function TwoConfirmations(c: nat, c': nat, r: Review): seq<Step> {
    [Approve(c, r), Approve(c', r), Look(c), Ensure(c), Look(c'), Ensure(c'), Reply(c, true), Reply(c', true)]
  }

  lemma {:induction false} RunEight(s: Sys, steps: seq<Step>)
    requires |steps| == 8
    ensures Run(s, steps)
         == Next(Next(Next(Next(Next(Next(Next(Next(s, steps[0]), steps[1]), steps[2]), steps[3]), steps[4]), steps[5]),
                           steps[6]), steps[7])
  {
    hide Next;
    assert steps[..8] == steps && steps[..0] == [];
    assert forall k :: 0 < k <= 8 ==> steps[..k][..k - 1] == steps[..k - 1];
    assert Run(s, steps[..1]) == Next(s, steps[0]);
    assert Run(s, steps[..2]) == Next(Run(s, steps[..1]), steps[1]);
    assert Run(s, steps[..3]) == Next(Run(s, steps[..2]), steps[2]);
    assert Run(s, steps[..4]) == Next(Run(s, steps[..3]), steps[3]);
    assert Run(s, steps[..5]) == Next(Run(s, steps[..4]), steps[4]);
    assert Run(s, steps[..6]) == Next(Run(s, steps[..5]), steps[5]);
    assert Run(s, steps[..7]) == Next(Run(s, steps[..6]), steps[6]);
  }

  /**
   * Wherever a request without an order can be approved, two overlapping calls that both hear a
   * confirmation leave it DISPATCHED with an id that leads to no order, while its order exists.
   */
  lemma {:induction false} OverlapLosesTheName(s: Sys, c: nat, c': nat, r: Review)
    requires Inv(s) && MayApprove(s.db, r) && s.db.approvals[r.approval].replenishmentId.None?
    requires forall o: nat :: !OrderOf(s.db, o, r.approval)
    requires c != c' && c !in s.calls && c' !in s.calls
    ensures var t := Run(s, TwoConfirmations(c, c', r));
            HasStatus(t, r.approval, DISPATCHED) && t.db.approvals[r.approval].replenishmentId == Some(OfNoOrder)
  {
    hide Next, Run, Inv, FindAction, FindOrder, LastAudit;
    var id := r.approval;
    var t := ApproveTwice(s, c, c', r);
    FirstGetsAction(t, c, id);
    var u := Next(Next(t, Look(c)), Ensure(c));
    var action := u.calls[c].action;
    SecondFindsAction(u, c', id, action);
    var v := Next(Next(u, Look(c')), Ensure(c'));
    ActionHasNoOrder(s, u.db, id, action);
    SecondReplyIsStale(v, c, c', id, action);
    RunEight(s, TwoConfirmations(c, c', r));
  }

  lemma {:induction false} ActionHasNoOrder(s: Sys, db: Db, id: nat, action: nat)
    requires Inv(s) && (forall o: nat :: !OrderOf(s.db, o, id))
    requires s.db.actions <= db.actions && action < |db.actions| && db.actions[action].owner == Some(id)
    requires db.orders == s.db.orders
    ensures FindOrder(db.orders, action).None?
  {
    hide LastAudit, FindAction;
    forall o: nat | o < |s.db.orders|
      ensures s.db.orders[o].action != action
    {
      assert !OrderOf(s.db, o, id);
    }
  }
}
