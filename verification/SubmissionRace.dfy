/**
 * Submissions whose conflict check and insert are separate steps: nothing is locked in between,
 * so other submissions of the site, reviews and deliveries may come first.
 */
module SubmissionRace {
  import opened Common
  import opened InventoryLedger
  import opened Approvals
  import opened ApprovalRuns

  /** A submission whose checks passed: the row it will insert, and how many requests there were. */
  datatype Pending = Pending(row: Approval, saw: nat)

  datatype World = World(sys: Sys, pending: map<nat, Pending>)

  datatype Move =
    | Check(submit: nat, submission: Submission)
    | Insert(submit: nat)
    | Drop(submit: nat)
    | Other(step: Step)

  /** The insert goes through; a key that was taken in the meantime raises, and everything is rolled back. */
  predicate Inserts(w: World, move: Move) {
    move.Insert? && move.submit in w.pending && !KeyTaken(w.sys.db.approvals, w.pending[move.submit].row.key)
  }

  function WithRequest(db: Db, row: Approval): Db {
    db.(approvals := db.approvals + [row], audit := db.audit + [AuditRow(|db.approvals|, None, PENDING_REVIEW)])
  }

  /** One move; `Other` is any step that is not a submission. */
  function After(w: World, move: Move): World {
    match move
    case Check(k, submission) =>
      if k !in w.pending && MaySubmit(w.sys.db, submission)
      then w.(pending := w.pending[k := Pending(NewApproval(w.sys.db, submission), |w.sys.db.approvals|)])
      else w
    case Insert(k) =>
      World(if Inserts(w, move) then w.sys.(db := WithRequest(w.sys.db, w.pending[k].row)) else w.sys, w.pending - {k})
    case Drop(k) => w.(pending := w.pending - {k})
    case Other(step) => if step.Submit? then w else w.(sys := Next(w.sys, step))
  }

  function Moved(w: World, moves: seq<Move>): World {
    if moves == [] then w else After(Moved(w, moves[..|moves| - 1]), moves[|moves| - 1])
  }

  predicate Starts(w: World) {
    Initial(w.sys) && w.pending == map[]
  }

  // ---- What every run keeps -------------------------------------------------

  /** A pending row is a fresh request on a site whose requests it saw are all closed. */
  predicate PendingSound(db: Db, p: Pending) {
    && p.saw <= |db.approvals| && p.row.status == PENDING_REVIEW
    && p.row.actionId.None? && p.row.replenishmentId.None?
    && (forall a :: 0 <= a < p.saw && db.approvals[a].site == p.row.site ==> !Active(db.approvals[a]))
    && SnapshotSound(db.ledger, p.row)
  }

  ghost predicate WorldInv(w: World) {
    && Inv(w.sys) && SnapshotsSound(w.sys.db)
    && forall k :: k in w.pending ==> PendingSound(w.sys.db, w.pending[k])
  }

  /** Closed requests stay closed in every run, overlapping calls included. */
  lemma {:induction false} ClosedStays(s: Sys, step: Step, a: nat)
    requires !step.Submit? && a < |s.db.approvals|
    ensures a < |Next(s, step).db.approvals| && Next(s, step).db.approvals[a].site == s.db.approvals[a].site
    ensures Active(Next(s, step).db.approvals[a]) ==> Active(s.db.approvals[a])
  {
    hide FindAction, FindOrder, OrderInFlight;
  }

  lemma {:induction false} LedgerMoves(s: Sys, step: Step, row: Approval)
    requires SnapshotSound(s.db.ledger, row)
    ensures SnapshotSound(Next(s, step).db.ledger, row)
  {
    hide FindAction, FindOrder, OrderInFlight;
  }

  lemma {:induction false} SameLength(s: Sys, step: Step)
    requires !step.Submit?
    ensures |Next(s, step).db.approvals| == |s.db.approvals|
  {
    hide FindAction, FindOrder, OrderInFlight;
  }

  lemma {:induction false} PendingStays(s: Sys, step: Step, p: Pending)
    requires !step.Submit? && PendingSound(s.db, p)
    ensures PendingSound(Next(s, step).db, p)
  {
    hide Next, SnapshotSound;
    LedgerMoves(s, step, p.row);
    SameLength(s, step);
    forall a | 0 <= a < p.saw && Next(s, step).db.approvals[a].site == p.row.site
      ensures !Active(Next(s, step).db.approvals[a])
    {
      ClosedStays(s, step, a);
    }
  }

  lemma {:induction false} InsertKeepsInv(s: Sys, row: Approval)
    requires Inv(s) && row.status == PENDING_REVIEW && row.replenishmentId.None?
    ensures Inv(s.(db := WithRequest(s.db, row)))
  {
    hide LastAudit, OrdersAsReviewed, AllLinked, OneActionEach, OneOrderEach;
    var t := s.(db := WithRequest(s.db, row));
    AuditStep(s.db, t.db, AuditRow(|s.db.approvals|, None, PENDING_REVIEW));
    SameNamesKeep(s, t);
  }

  lemma {:induction false} CheckIsSound(db: Db, submission: Submission)
    requires MaySubmit(db, submission)
    ensures PendingSound(db, Pending(NewApproval(db, submission), |db.approvals|))
  {
  }

  lemma {:induction false} RequestLeavesPending(db: Db, row: Approval, p: Pending)
    requires PendingSound(db, p)
    ensures PendingSound(WithRequest(db, row), p)
  {
  }

  lemma {:induction false} RequestIsSnapshot(db: Db, p: Pending)
    requires SnapshotsSound(db) && PendingSound(db, p)
    ensures SnapshotsSound(WithRequest(db, p.row))
  {
    hide SnapshotSound;
  }

  lemma {:induction false} MoveKeepsInv(w: World, move: Move)
    requires WorldInv(w)
    ensures WorldInv(After(w, move))
  {
    hide Inv, SnapshotsSound, PendingSound, Next, MaySubmit, NewApproval, WithRequest;
    match move
    case Check(_, submission) =>
      if MaySubmit(w.sys.db, submission) {
        CheckIsSound(w.sys.db, submission);
      }
    case Drop(_) =>
    case Insert(k) =>
      if Inserts(w, move) {
        PendingRow(w.sys.db, w.pending[k]);
        InsertKeepsInv(w.sys, w.pending[k].row);
        RequestIsSnapshot(w.sys.db, w.pending[k]);
        forall j | j in w.pending
          ensures PendingSound(WithRequest(w.sys.db, w.pending[k].row), w.pending[j])
        {
          RequestLeavesPending(w.sys.db, w.pending[k].row, w.pending[j]);
        }
      }
    case Other(step) =>
      if !step.Submit? {
        StepKeepsInv(w.sys, step);
        SnapshotsStay(w.sys, step);
        forall k | k in w.pending
          ensures PendingSound(Next(w.sys, step).db, w.pending[k])
        {
          PendingStays(w.sys, step, w.pending[k]);
        }
      }
  }

  lemma {:induction false} PendingRow(db: Db, p: Pending)
    requires PendingSound(db, p)
    ensures p.row.status == PENDING_REVIEW && p.row.replenishmentId.None?
  {
  }

  /** Splitting the submission costs none of the invariants of the dispatch. */
  lemma {:induction false} MovesKeepInv(w: World, moves: seq<Move>)
    requires Starts(w)
    ensures WorldInv(Moved(w, moves))
  {
    if moves == [] {
      RunKeepsInv(w.sys, []);
    } else {
      hide WorldInv, After;
      MovesKeepInv(w, moves[..|moves| - 1]);
      MoveKeepsInv(Moved(w, moves[..|moves| - 1]), moves[|moves| - 1]);
    }
  }

  /** A review that passes without an override finds the inventory row that the submission's check read. */
  lemma {:induction false} ReviewSeesCheckedStock(w: World, moves: seq<Move>, r: Review)
    requires Starts(w) && r.expected.None? && MayApprove(Moved(w, moves).sys.db, r)
    ensures var db := Moved(w, moves).sys.db;
            db.ledger[db.approvals[r.approval].site] == db.approvals[r.approval].snapshot
  {
    MovesKeepInv(w, moves);
    hide Moved, Inv, Starts;
    var db := Moved(w, moves).sys.db;
    assert SnapshotSound(db.ledger, db.approvals[r.approval]);
  }

  // ---- How much is ordered --------------------------------------------------

  /** The row is what the submission checked at move `k` asked for. */
  ghost predicate CheckedAt(moves: seq<Move>, k: nat, row: Approval) {
    k < |moves| && moves[k].Check? && AsksFor(moves[k].submission, row)
  }

  ghost predicate HasCheck(moves: seq<Move>, row: Approval) {
    exists k: nat :: CheckedAt(moves, k, row)
  }

  lemma {:induction false} CheckStays(moves: seq<Move>, move: Move, a: Approval, b: Approval)
    requires HasCheck(moves, a) && SameRequest(a, b)
    ensures HasCheck(moves + [move], b)
  {
    hide LeastCover;
    var k: nat :| CheckedAt(moves, k, a);
    assert CheckedAt(moves + [move], k, b);
  }

  ghost predicate AllChecked(w: World, moves: seq<Move>) {
    && (forall id :: 0 <= id < |w.sys.db.approvals| ==> HasCheck(moves, w.sys.db.approvals[id]))
    && (forall k :: k in w.pending ==> HasCheck(moves, w.pending[k].row))
  }

  lemma {:induction false} MoveStaysChecked(w: World, moves: seq<Move>, move: Move)
    requires AllChecked(w, moves)
    ensures AllChecked(After(w, move), moves + [move])
  {
    hide HasCheck, MaySubmit, Next, NewApproval;
    var t, all := After(w, move), moves + [move];
    forall id | 0 <= id < |t.sys.db.approvals|
      ensures HasCheck(all, t.sys.db.approvals[id])
    {
      if id < |w.sys.db.approvals| {
        if move.Other? {
          RequestsStay(w.sys, move.step, id);
        }
        CheckStays(moves, move, w.sys.db.approvals[id], t.sys.db.approvals[id]);
      } else {
        if move.Other? && !move.step.Submit? {
          SameLength(w.sys, move.step);
        }
        CheckStays(moves, move, w.pending[move.submit].row, t.sys.db.approvals[id]);
      }
    }
    forall k | k in t.pending
      ensures HasCheck(all, t.pending[k].row)
    {
      if k in w.pending {
        CheckStays(moves, move, w.pending[k].row, t.pending[k].row);
      } else {
        FreshCheck(w, moves, move);
      }
    }
  }

  lemma {:induction false} FreshCheck(w: World, moves: seq<Move>, move: Move)
    requires move.Check? && MaySubmit(w.sys.db, move.submission)
    ensures HasCheck(moves + [move], NewApproval(w.sys.db, move.submission))
  {
    RequestCovers(w.sys.db, move.submission);
    hide LeastCover, NewApproval;
    assert CheckedAt(moves + [move], |moves|, NewApproval(w.sys.db, move.submission));
  }

  lemma {:induction false} MovesAreChecked(w: World, moves: seq<Move>)
    requires Starts(w)
    ensures AllChecked(Moved(w, moves), moves)
  {
    if moves != [] {
      hide After, AllChecked;
      var front, last := moves[..|moves| - 1], moves[|moves| - 1];
      MovesAreChecked(w, front);
      MoveStaysChecked(Moved(w, front), front, last);
      assert moves == front + [last];
    }
  }

  /** With check and insert apart, too: each order covers the submission its approval was checked for, and no more. */
  lemma {:induction false} OrdersCoverChecks(w: World, moves: seq<Move>, o: nat, id: nat) returns (k: nat)
    requires Starts(w) && OrderOf(Moved(w, moves).sys.db, o, id)
    ensures id < |Moved(w, moves).sys.db.approvals| && CheckedAt(moves, k, Moved(w, moves).sys.db.approvals[id])
    ensures var order, submission := Moved(w, moves).sys.db.orders[o], moves[k].submission;
            && order.site == submission.site && Covers(order.quantity, submission)
            && order.quantity == if submission.quantity < submission.minReorder then submission.minReorder
                                 else submission.quantity
  {
    MovesKeepInv(w, moves);
    MovesAreChecked(w, moves);
    hide Moved, LeastCover;
    var db := Moved(w, moves).sys.db;
    assert Reviewed(db, o, id);
    k :| CheckedAt(moves, k, db.approvals[id]);
    LeastIsOne(db.approvals[id].quantity, moves[k].submission);
  }

  // ---- One open request per site --------------------------------------------

  predicate OneOpen(db: Db) {
    forall a, b :: 0 <= a < b < |db.approvals| && Active(db.approvals[a]) && Active(db.approvals[b]) ==>
      db.approvals[a].site != db.approvals[b].site
  }

  /** The insert of a submission after another one of its site was inserted since its check and is still open. */
  predicate Overtaken(w: World, move: Move) {
    && Inserts(w, move)
    && var p := w.pending[move.submit];
    && exists a :: p.saw <= a < |w.sys.db.approvals| && w.sys.db.approvals[a].site == p.row.site
                   && Active(w.sys.db.approvals[a])
  }

  lemma {:induction false} OneOpenStays(w: World, move: Move)
    requires WorldInv(w) && OneOpen(w.sys.db)
    ensures OneOpen(After(w, move).sys.db) <==> !Overtaken(w, move)
  {
    hide Inv, SnapshotsSound, Active;
    var before, after := w.sys.db.approvals, After(w, move).sys.db.approvals;
    if move.Other? && !move.step.Submit? {
      hide Next;
      forall a, b | 0 <= a < b < |after| && Active(after[a]) && Active(after[b])
        ensures after[a].site != after[b].site
      {
        SameLength(w.sys, move.step);
        ClosedStays(w.sys, move.step, a);
        ClosedStays(w.sys, move.step, b);
      }
    } else if Inserts(w, move) {
      InsertOpens(w, move);
    }
  }

  lemma {:induction false} InsertOpens(w: World, move: Move)
    requires WorldInv(w) && OneOpen(w.sys.db) && Inserts(w, move)
    ensures OneOpen(After(w, move).sys.db) <==> !Overtaken(w, move)
  {
    hide Inv, SnapshotsSound, SnapshotSound, KeyTaken;
    var before, after, p := w.sys.db.approvals, After(w, move).sys.db.approvals, w.pending[move.submit];
    assert PendingSound(w.sys.db, p) && after == before + [p.row];
    assert Active(after[|before|]);
    if Overtaken(w, move) {
      var a :| p.saw <= a < |before| && before[a].site == p.row.site && Active(before[a]);
      assert after[a] == before[a];
    }
  }

  ghost predicate AlwaysOneOpen(w: World, moves: seq<Move>) {
    forall n :: 0 <= n <= |moves| ==> OneOpen(Moved(w, moves[..n]).sys.db)
  }

  ghost predicate NeverOvertaken(w: World, moves: seq<Move>) {
    forall n :: 0 <= n < |moves| ==> !Overtaken(Moved(w, moves[..n]), moves[n])
  }

  lemma {:induction false} MovedNext(w: World, moves: seq<Move>, n: nat)
    requires n < |moves|
    ensures Moved(w, moves[..n + 1]) == After(Moved(w, moves[..n]), moves[n])
  {
    hide After;
    assert moves[..n + 1][..n] == moves[..n];
  }

  lemma {:induction false} OneOpenUntil(w: World, moves: seq<Move>, n: nat)
    requires Starts(w) && NeverOvertaken(w, moves) && n <= |moves|
    ensures OneOpen(Moved(w, moves[..n]).sys.db)
  {
    if n > 0 {
      hide Starts, After, Overtaken, OneOpen, Moved;
      OneOpenUntil(w, moves, n - 1);
      MovesKeepInv(w, moves[..n - 1]);
      MovedNext(w, moves, n - 1);
      OneOpenStays(Moved(w, moves[..n - 1]), moves[n - 1]);
    }
  }

  /**
   * A site never has two open requests exactly when no submission is inserted while a request of
   * its site that was inserted since its own check is still open.
   */
  lemma {:induction false} OneOpenIff(w: World, moves: seq<Move>)
    requires Starts(w)
    ensures AlwaysOneOpen(w, moves) <==> NeverOvertaken(w, moves)
  {
    hide Starts, After, Overtaken, OneOpen, Moved;
    if NeverOvertaken(w, moves) {
      forall n | 0 <= n <= |moves|
        ensures OneOpen(Moved(w, moves[..n]).sys.db)
      {
        OneOpenUntil(w, moves, n);
      }
    }
    forall n | 0 <= n < |moves| && Overtaken(Moved(w, moves[..n]), moves[n])
      ensures !AlwaysOneOpen(w, moves)
    {
      MovesKeepInv(w, moves[..n]);
      MovedNext(w, moves, n);
      if AlwaysOneOpen(w, moves) {
        OneOpenStays(Moved(w, moves[..n]), moves[n]);
      }
    }
  }

  /** Two submissions of one site, each checked before the other is inserted. */
  function TwoSubmissions(k: nat, j: nat, a: Submission, b: Submission): seq<Move> {
    [Check(k, a), Check(j, b), Insert(k), Insert(j)]
  }

  /** Wherever both may be submitted, both end up open. */
  lemma {:induction false} TwoSubmissionsOpen(w: World, k: nat, j: nat, a: Submission, b: Submission)
    requires k != j && k !in w.pending && j !in w.pending
    requires MaySubmit(w.sys.db, a) && MaySubmit(w.sys.db, b) && a.key != b.key && a.site == b.site
    ensures var db, n := Moved(w, TwoSubmissions(k, j, a, b)).sys.db, |w.sys.db.approvals|;
            && |db.approvals| == n + 2 && db.approvals[n].site == db.approvals[n + 1].site == a.site
            && Active(db.approvals[n]) && Active(db.approvals[n + 1])
  {
    hide OrderInFlight, ActiveApproval;
    var moves := TwoSubmissions(k, j, a, b);
    var w1 := After(w, moves[0]);
    var w2 := After(w1, moves[1]);
    var w3 := After(w2, moves[2]);
    assert w3.sys.db.approvals == w.sys.db.approvals + [NewApproval(w.sys.db, a)];
    assert Inserts(w3, moves[3]);
    hide After;
    assert moves[..0] == [] && moves[..4] == moves;
    MovedNext(w, moves, 0);
    MovedNext(w, moves, 1);
    MovedNext(w, moves, 2);
    MovedNext(w, moves, 3);
  }

  // ---- Without overlapping approve calls ------------------------------------

  /** The insert of a submission onto a site where one of this service's orders is in flight. */
  ghost predicate OntoOrder(w: World, move: Move) {
    Inserts(w, move) && exists o: nat :: OwnInFlight(w.sys.db, o, w.pending[move.submit].row.site)
  }

  ghost predicate CallsOverlap(w: World, move: Move) {
    move.Other? && Overlaps(w.sys, move.step)
  }

  lemma {:induction false} InsertKeepsSites(w: World, move: Move)
    requires WorldInv(w) && SeqInv(w.sys) && Inserts(w, move)
    ensures OnePerSite(After(w, move).sys.db) <==> !Overtaken(w, move) && !OntoOrder(w, move)
  {
    hide Inv, SnapshotsSound, SnapshotSound, KeyTaken, CallsAlone, OrdersDispatched, WorldInv;
    OneOpenStays(w, move);
    var before, after, row := w.sys.db, After(w, move).sys.db, w.pending[move.submit].row;
    PendingIsActive(w, move.submit);
    assert after.approvals == before.approvals + [row];
    assert forall o: nat, site :: OwnInFlight(after, o, site) <==> OwnInFlight(before, o, site);
    hide OwnInFlight, After, Inserts, Overtaken;
    assert after.approvals[|before.approvals|] == row;
    forall a | 0 <= a < |before.approvals|
      ensures after.approvals[a] == before.approvals[a]
    {
    }
  }

  lemma {:induction false} PendingIsActive(w: World, k: nat)
    requires WorldInv(w) && k in w.pending
    ensures Active(w.pending[k].row)
  {
    hide Inv, SnapshotsSound, SnapshotSound;
    assert PendingSound(w.sys.db, w.pending[k]);
  }

  /** Calls are alone, only DISPATCHED approvals have an order, and ids of orders lead to them. */
  ghost predicate Orderly(s: Sys) {
    && CallsAlone(s) && OrdersDispatched(s.db)
    && forall id :: 0 <= id < |s.db.approvals| ==> Named(s.db, id)
  }

  lemma {:induction false} OrderlyInsert(s: Sys, row: Approval)
    requires Inv(s) && Orderly(s) && row.replenishmentId.None?
    ensures Orderly(s.(db := WithRequest(s.db, row)))
  {
    hide LastAudit, OneActionEach, OneOrderEach, AllLinked, Audited;
    var t := s.(db := WithRequest(s.db, row));
    forall o: nat, id: nat | OrderOf(t.db, o, id) && id < |t.db.approvals|
      ensures t.db.approvals[id].status == DISPATCHED
    {
      assert OrderOf(s.db, o, id) && Reviewed(s.db, o, id);
    }
    forall id | 0 <= id < |t.db.approvals|
      ensures Named(t.db, id)
    {
      assert id < |s.db.approvals| ==> Named(s.db, id);
    }
  }

  lemma {:induction false} OrderlyStep(s: Sys, step: Step)
    requires Inv(s) && Orderly(s) && OnePerSite(s.db) && !Overlaps(s, step)
    ensures Orderly(Next(s, step)) && OnePerSite(Next(s, step).db)
  {
    hide Inv, Next, CallsAlone, OrdersDispatched, OnePerSite, Overlaps, StaleConfirm, Confirms, Named;
    CallsStayAlone(s, step);
    OrdersStayDispatched(s, step);
    SitesStayApart(s, step);
    AloneIsFresh(s, step);
    forall id | 0 <= id < |Next(s, step).db.approvals|
      ensures Named(Next(s, step).db, id)
    {
      NamingStep(s, step, id);
    }
  }

  lemma {:induction false} SitesApartStep(w: World, move: Move)
    requires WorldInv(w) && Orderly(w.sys) && OnePerSite(w.sys.db) && !CallsOverlap(w, move)
    ensures Orderly(After(w, move).sys)
    ensures OnePerSite(After(w, move).sys.db) <==> !Overtaken(w, move) && !OntoOrder(w, move)
  {
    hide Inv, Next, CallsAlone, OrdersDispatched, OnePerSite, Overlaps, Named, SnapshotsSound, PendingSound;
    if move.Other? {
      if !move.step.Submit? {
        OrderlyStep(w.sys, move.step);
      }
    } else if Inserts(w, move) {
      PendingRow(w.sys.db, w.pending[move.submit]);
      OrderlyInsert(w.sys, w.pending[move.submit].row);
      InsertKeepsSites(w, move);
    }
  }

  ghost predicate NoCallsOverlap(w: World, moves: seq<Move>) {
    forall n :: 0 <= n < |moves| ==> !CallsOverlap(Moved(w, moves[..n]), moves[n])
  }

  ghost predicate Unobstructed(w: World, move: Move) {
    !Overtaken(w, move) && !OntoOrder(w, move)
  }

  ghost predicate NeverObstructed(w: World, moves: seq<Move>) {
    forall n :: 0 <= n < |moves| ==> Unobstructed(Moved(w, moves[..n]), moves[n])
  }

  ghost predicate AlwaysApart(w: World, moves: seq<Move>) {
    forall n :: 0 <= n <= |moves| ==> OnePerSite(Moved(w, moves[..n]).sys.db)
  }

  lemma {:induction false} StartsOrderly(w: World)
    requires Starts(w)
    ensures Orderly(w.sys) && OnePerSite(w.sys.db)
  {
  }

  /** Sites are apart until an insert that is obstructed, and calls are orderly as long as they are. */
  lemma {:induction false} OrderlyUntil(w: World, moves: seq<Move>, n: nat)
    requires Starts(w) && NoCallsOverlap(w, moves) && n <= |moves|
    requires NeverObstructed(w, moves) || AlwaysApart(w, moves)
    ensures Orderly(Moved(w, moves[..n]).sys) && OnePerSite(Moved(w, moves[..n]).sys.db)
  {
    hide Starts, After, Overtaken, OntoOrder, OnePerSite, Orderly, CallsOverlap;
    if n == 0 {
      StartsOrderly(w);
    } else {
      hide Moved;
      OrderlyUntil(w, moves, n - 1);
      MovesKeepInv(w, moves[..n - 1]);
      MovedNext(w, moves, n - 1);
      SitesApartStep(Moved(w, moves[..n - 1]), moves[n - 1]);
    }
  }

  /**
   * Without overlapping approve calls, each site always has at most one open request, at most one
   * own order in flight and never both, exactly when no submission is overtaken by another one of
   * its site or inserted onto an order in flight. Dispatched approvals then name their orders.
   */
  lemma {:induction false} SitesApartIff(w: World, moves: seq<Move>)
    requires Starts(w) && NoCallsOverlap(w, moves)
    ensures AlwaysApart(w, moves) <==> NeverObstructed(w, moves)
    ensures AlwaysApart(w, moves) ==> Orderly(Moved(w, moves).sys)
  {
    hide Starts, After, Overtaken, OntoOrder, OnePerSite, Orderly, CallsOverlap, Moved;
    if NeverObstructed(w, moves) {
      forall n | 0 <= n <= |moves|
        ensures OnePerSite(Moved(w, moves[..n]).sys.db)
      {
        OrderlyUntil(w, moves, n);
      }
    }
    if AlwaysApart(w, moves) {
      forall n | 0 <= n < |moves|
        ensures Unobstructed(Moved(w, moves[..n]), moves[n])
      {
        OrderlyUntil(w, moves, n);
        MovesKeepInv(w, moves[..n]);
        MovedNext(w, moves, n);
        SitesApartStep(Moved(w, moves[..n]), moves[n]);
      }
      OrderlyUntil(w, moves, |moves|);
      assert moves[..|moves|] == moves;
    }
  }
}
