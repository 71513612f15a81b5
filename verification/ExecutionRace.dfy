/**
 * Concurrent `process_event` transactions, with the idempotency check, the decision
 * insert, the execution insert and the commit as separate steps.
 */
module ExecutionRace {
  import opened Common

  type WorkerId = nat

  datatype Key = Key(pipeline: string, event: int)

  /** A decision row of the dataset path; a BLOCK has `trigger` false. */
  datatype Decision = Decision(pipeline: string, event: Option<int>, trigger: bool)

  datatype Execution = Execution(key: Key, decision: nat)

  /** What a transaction holds before it commits. */
  datatype Transaction =
    | Checked(pipeline: string, event: Option<int>)
    | Decided(id: nat, row: Decision)
    | Inserted(id: nat, row: Decision, key: Key)

  /**
   * `decisions` and `executions` hold committed rows. `orphans` is a history variable: TRIGGER
   * decisions whose processing raised between the two inserts and that were committed all the same,
   * by `mark_event_failed` or, as `run_kafka_consumer` does not roll back either, by the next
   * event's commit on the connection.
   */
  datatype State = State(
    decisions: map<nat, Decision>,
    executions: set<Execution>,
    nextDecision: nat,
    open: map<WorkerId, Transaction>,
    orphans: set<nat>)

  datatype Step =
    | Check(w: WorkerId, pipeline: string, event: Option<int>)
    | Decide(w: WorkerId, trigger: bool)
    | InsertExecution(w: WorkerId)
    | Commit(w: WorkerId)
    | Abort(w: WorkerId)
    | RaiseAndCommit(w: WorkerId)

  predicate Executed(s: State, key: Key) {
    exists x :: x in s.executions && x.key == key
  }

  /** Another open transaction holds the index entry; an insert of the same key waits for it. */
  predicate KeyLocked(s: State, key: Key) {
    exists w :: w in s.open && s.open[w].Inserted? && s.open[w].key == key
  }

  ghost predicate Init(s: State) {
    s.decisions == map[] && s.executions == {} && s.open == map[] && s.orphans == {}
  }

  /**
   * One step of one worker. The check may miss a row that is committed after it looked,
   * so `Check` goes on whether or not the key is executed; a hit ends the call and is no step.
   */
  ghost predicate NextStep(s: State, t: State, step: Step) {
    match step
    case Check(w, pipeline, event) =>
      && w !in s.open
      && t == s.(open := s.open[w := Checked(pipeline, event)])
    case Decide(w, trigger) =>
      && w in s.open && s.open[w].Checked?
      && var row := Decision(s.open[w].pipeline, s.open[w].event, trigger);
      && t == s.(open := s.open[w := Decided(s.nextDecision, row)], nextDecision := s.nextDecision + 1)
    case InsertExecution(w) =>
      && w in s.open && s.open[w].Decided? && s.open[w].row.trigger
      && var row := s.open[w].row;
      if row.event.None? || Executed(s, Key(row.pipeline, row.event.value))
      then t == s.(open := s.open - {w})  // IntegrityError: rolled back, the decision with it
      else
        && !KeyLocked(s, Key(row.pipeline, row.event.value))
        && t == s.(open := s.open[w := Inserted(s.open[w].id, row, Key(row.pipeline, row.event.value))])
    case Commit(w) =>
      && w in s.open
      && (s.open[w].Inserted? || (s.open[w].Decided? && !s.open[w].row.trigger))
      && t == Committed(s, w)
    case Abort(w) =>
      && w in s.open
      && t == s.(open := s.open - {w})
    case RaiseAndCommit(w) =>
      && w in s.open && !s.open[w].Checked?
      && var after := Committed(s, w);
      && t == after.(orphans := if s.open[w].Decided? && s.open[w].row.trigger
                                then s.orphans + {s.open[w].id} else s.orphans)
  }

  function Committed(s: State, w: WorkerId): State
    requires w in s.open && !s.open[w].Checked?
  {
    var x := s.open[w];
    s.(decisions := s.decisions[x.id := x.row],
       executions := if x.Inserted? then s.executions + {Execution(x.key, x.id)} else s.executions,
       open := s.open - {w})
  }

  ghost predicate Next(s: State, t: State) {
    exists step :: NextStep(s, t, step)
  }

  /** A finite run from an empty database. */
  ghost predicate Behavior(run: seq<State>) {
    && run != [] && Init(run[0])
    && forall i :: 0 <= i < |run| - 1 ==> Next(run[i], run[i + 1])
  }

  // ---- The invariant --------------------------------------------------------

  /** Decision ids of open transactions are fresh and pairwise different. */
  ghost predicate IdsFresh(s: State) {
    && (forall d :: d in s.decisions ==> d < s.nextDecision)
    && (forall w :: w in s.open && !s.open[w].Checked? ==>
          s.open[w].id < s.nextDecision && s.open[w].id !in s.decisions)
    && (forall v, w :: v in s.open && w in s.open && v != w && !s.open[v].Checked? && !s.open[w].Checked? ==>
          s.open[v].id != s.open[w].id)
  }

  /** Held index entries differ from each other and from the committed ones. */
  ghost predicate KeysUnique(s: State) {
    && (forall x, y :: x in s.executions && y in s.executions && x.key == y.key ==> x == y)
    && (forall w :: w in s.open && s.open[w].Inserted? ==> !Executed(s, s.open[w].key))
    && (forall v, w :: v in s.open && w in s.open && v != w && s.open[v].Inserted? && s.open[w].Inserted? ==>
          s.open[v].key != s.open[w].key)
  }

  ghost predicate Matches(row: Decision, key: Key) {
    row.trigger && row.pipeline == key.pipeline && row.event == Some(key.event)
  }

  /** Every execution carries out its own TRIGGER decision. */
  ghost predicate ExecutionsDecided(s: State) {
    && (forall x :: x in s.executions ==> x.decision in s.decisions && Matches(s.decisions[x.decision], x.key))
    && (forall x, y :: x in s.executions && y in s.executions && x.decision == y.decision ==> x == y)
    && (forall w :: w in s.open && s.open[w].Inserted? ==> Matches(s.open[w].row, s.open[w].key))
  }

  /** Every committed TRIGGER decision is executed or an orphan, never both. */
  ghost predicate TriggersAccounted(s: State) {
    && (forall d :: d in s.orphans ==> d in s.decisions && s.decisions[d].trigger)
    && (forall x :: x in s.executions ==> x.decision !in s.orphans)
    && (forall d :: d in s.decisions && s.decisions[d].trigger && d !in s.orphans ==>
          exists x :: x in s.executions && x.decision == d)
  }

  ghost predicate Inv(s: State) {
    IdsFresh(s) && KeysUnique(s) && ExecutionsDecided(s) && TriggersAccounted(s)
  }

  lemma {:induction false} CommitKeepsInv(s: State, w: WorkerId)
    requires Inv(s) && w in s.open && s.open[w].Inserted?
    ensures Inv(Committed(s, w))
  {
    var t, x := Committed(s, w), Execution(s.open[w].key, s.open[w].id);
    assert x in t.executions;
    forall v | v in t.open && t.open[v].Inserted?
      ensures !Executed(t, t.open[v].key)
    {
      assert !Executed(s, s.open[v].key) && s.open[v].key != x.key;
    }
    forall y | y in s.executions
      ensures y.key != x.key && y.decision != x.decision
    {
      assert !Executed(s, x.key);
    }
    forall d | d in t.decisions && t.decisions[d].trigger && d !in t.orphans
      ensures exists y :: y in t.executions && y.decision == d
    {
      if d != x.decision {
        var y :| y in s.executions && y.decision == d;
        assert y in t.executions;
      }
    }
  }

  /** A worker that gives up, or holds only a decision, disturbs no one. */
  lemma {:induction false} LeavingKeepsInv(s: State, w: WorkerId)
    requires Inv(s) && w in s.open
    ensures Inv(s.(open := s.open - {w}))
  {
    var t := s.(open := s.open - {w});
    assert forall key :: Executed(t, key) <==> Executed(s, key);
  }

  lemma {:induction false} OpeningKeepsInv(s: State, t: State, step: Step)
    requires Inv(s) && NextStep(s, t, step) && (step.Check? || step.Decide?)
    ensures Inv(t)
  {
    assert forall key :: Executed(t, key) <==> Executed(s, key);
  }

  lemma {:induction false} InsertKeepsInv(s: State, t: State, w: WorkerId)
    requires Inv(s) && NextStep(s, t, InsertExecution(w))
    ensures Inv(t)
  {
    var row := s.open[w].row;
    if row.event.None? || Executed(s, Key(row.pipeline, row.event.value)) {
      LeavingKeepsInv(s, w);
    } else {
      var key := Key(row.pipeline, row.event.value);
      assert forall k :: Executed(t, k) <==> Executed(s, k);
      assert forall v :: v in s.open && s.open[v].Inserted? ==> s.open[v].key != key;
    }
  }

  function DecisionCommitted(s: State, w: WorkerId): State
    requires w in s.open && s.open[w].Decided?
  {
    var t := Committed(s, w);
    if s.open[w].row.trigger then t.(orphans := s.orphans + {s.open[w].id}) else t
  }

  lemma {:induction false} DecisionCommitKeepsIds(s: State, w: WorkerId)
    requires Inv(s) && w in s.open && s.open[w].Decided?
    ensures IdsFresh(DecisionCommitted(s, w)) && KeysUnique(DecisionCommitted(s, w))
  {
    hide TriggersAccounted, ExecutionsDecided;
    assert forall key :: Executed(DecisionCommitted(s, w), key) <==> Executed(s, key);
  }

  lemma {:induction false} DecisionCommitAccounted(s: State, w: WorkerId)
    requires Inv(s) && w in s.open && s.open[w].Decided?
    ensures ExecutionsDecided(DecisionCommitted(s, w)) && TriggersAccounted(DecisionCommitted(s, w))
  {
    hide KeysUnique;
    var t := DecisionCommitted(s, w);
    forall d | d in t.decisions && t.decisions[d].trigger && d !in t.orphans
      ensures exists x :: x in t.executions && x.decision == d
    {
      var x :| x in s.executions && x.decision == d;
    }
  }

  /** Committing a decision alone: a BLOCK, or a TRIGGER that becomes an orphan. */
  lemma {:induction false} DecisionCommitKeepsInv(s: State, w: WorkerId)
    requires Inv(s) && w in s.open && s.open[w].Decided?
    ensures Inv(DecisionCommitted(s, w))
  {
    DecisionCommitKeepsIds(s, w);
    DecisionCommitAccounted(s, w);
  }

  lemma {:induction false} NextKeepsInv(s: State, t: State)
    requires Inv(s) && Next(s, t)
    ensures Inv(t)
  {
    hide Inv;
    var step :| NextStep(s, t, step);
    match step
    case Check(_, _, _) => OpeningKeepsInv(s, t, step);
    case Decide(_, _) => OpeningKeepsInv(s, t, step);
    case InsertExecution(w) => InsertKeepsInv(s, t, w);
    case Abort(w) => LeavingKeepsInv(s, w);
    case Commit(w) =>
      if s.open[w].Inserted? {
        CommitKeepsInv(s, w);
      } else {
        DecisionCommitKeepsInv(s, w);
      }
    case RaiseAndCommit(w) =>
      if s.open[w].Inserted? {
        CommitKeepsInv(s, w);
      } else {
        DecisionCommitKeepsInv(s, w);
      }
  }

  lemma {:induction false} BehaviorKeepsInv(run: seq<State>, i: nat)
    requires Behavior(run) && i < |run|
    ensures Inv(run[i])
  {
    if i > 0 {
      BehaviorKeepsInv(run, i - 1);
      assert Next(run[i - 1], run[i - 1 + 1]);
      NextKeepsInv(run[i - 1], run[i]);
    }
  }

  // ---- Main results ---------------------------------------------------------

  /** At most one execution per pipeline and event id, in every interleaving. */
  lemma {:induction false} AtMostOneExecution(run: seq<State>, i: nat)
    requires Behavior(run) && i < |run|
    ensures forall x, y :: x in run[i].executions && y in run[i].executions && x.key == y.key ==> x == y
  {
    BehaviorKeepsInv(run, i);
  }

  function Triggers(s: State): set<nat> {
    set d | d in s.decisions && s.decisions[d].trigger
  }

  function ExecutedDecisions(s: State): set<nat> {
    set x | x in s.executions :: x.decision
  }

  /** `Execution.decision` maps execution rows one-to-one onto the committed TRIGGER decisions. */
  ghost predicate Bijection(s: State) {
    && (forall x, y :: x in s.executions && y in s.executions && x.decision == y.decision ==> x == y)
    && ExecutedDecisions(s) == Triggers(s)
    && (forall x :: x in s.executions ==> x.decision in s.decisions && Matches(s.decisions[x.decision], x.key))
  }

  /**
   * Decisions and executions correspond one to one exactly when no TRIGGER decision was
   * committed alone; the committed ones are the executed ones and these.
   */
  lemma {:induction false} BijectionIffNoOrphans(run: seq<State>, i: nat)
    requires Behavior(run) && i < |run|
    ensures Bijection(run[i]) <==> run[i].orphans == {}
    ensures Triggers(run[i]) == ExecutedDecisions(run[i]) + run[i].orphans
    ensures ExecutedDecisions(run[i]) !! run[i].orphans
  {
    BehaviorKeepsInv(run, i);
    var s := run[i];
    forall d | d in Triggers(s) && d !in s.orphans
      ensures d in ExecutedDecisions(s)
    {
      var x :| x in s.executions && x.decision == d;
    }
    if s.orphans != {} {
      var d :| d in s.orphans;
      assert d in Triggers(s) && d !in ExecutedDecisions(s);
    }
  }

  /** Step `j` of the run commits a TRIGGER decision whose processing raised before the second insert. */
  ghost predicate RaisesBetween(run: seq<State>, j: nat) {
    && j + 1 < |run|
    && exists w ::
         NextStep(run[j], run[j + 1], RaiseAndCommit(w)) && run[j].open[w].Decided? && run[j].open[w].row.trigger
  }

  ghost predicate NeverRaisesBetween(run: seq<State>, i: nat) {
    forall j: nat :: j < i ==> !RaisesBetween(run, j)
  }

  /** Orphans are never forgotten, and only such a step makes one. */
  lemma {:induction false} OrphanStep(run: seq<State>, j: nat)
    requires Behavior(run) && j + 1 < |run|
    ensures run[j].orphans <= run[j + 1].orphans
    ensures RaisesBetween(run, j) ==> run[j + 1].orphans != {}
    ensures run[j + 1].orphans != run[j].orphans ==> RaisesBetween(run, j)
  {
    assert Next(run[j], run[j + 1]);
    var step :| NextStep(run[j], run[j + 1], step);
    if RaisesBetween(run, j) {
      var w :| NextStep(run[j], run[j + 1], RaiseAndCommit(w)) && run[j].open[w].Decided? && run[j].open[w].row.trigger;
      assert run[j].open[w].id in run[j + 1].orphans;
    }
  }

  lemma {:induction false} OrphansFromRaises(run: seq<State>, i: nat)
    requires Behavior(run) && i < |run|
    ensures run[i].orphans == {} <==> NeverRaisesBetween(run, i)
  {
    if i > 0 {
      hide Behavior, RaisesBetween;
      OrphansFromRaises(run, i - 1);
      OrphanStep(run, i - 1);
    }
  }

  /**
   * Decisions and executions correspond one to one exactly when no call so far raised between
   * the decision and the execution insert of a TRIGGER and was committed.
   */
  lemma {:induction false} BijectionIffNoRaise(run: seq<State>, i: nat)
    requires Behavior(run) && i < |run|
    ensures Bijection(run[i]) <==> NeverRaisesBetween(run, i)
  {
    hide Behavior, Bijection, NeverRaisesBetween;
    BijectionIffNoOrphans(run, i);
    OrphansFromRaises(run, i);
  }

  /** Such a run: one call checks, decides to trigger and raises, and its decision is committed alone. */
  lemma {:induction false} RaiseLeavesAnOrphan(pipeline: string, event: Option<int>) returns (run: seq<State>)
    ensures Behavior(run) && |run| == 4 && run[3].decisions == map[0 := Decision(pipeline, event, true)]
    ensures run[3].executions == {} && !Bijection(run[3])
  {
    var row := Decision(pipeline, event, true);
    var s0 := State(map[], {}, 0, map[], {});
    var s1 := s0.(open := map[0 := Checked(pipeline, event)]);
    var s2 := s0.(open := map[0 := Decided(0, row)], nextDecision := 1);
    var s3 := State(map[0 := row], {}, 1, map[], {0});
    run := [s0, s1, s2, s3];
    assert NextStep(s0, s1, Check(0, pipeline, event));
    assert NextStep(s1, s2, Decide(0, true));
    assert NextStep(s2, s3, RaiseAndCommit(0));
    assert Next(run[0], run[1]) && Next(run[1], run[2]) && Next(run[2], run[3]);
    assert 0 in Triggers(s3) && ExecutedDecisions(s3) == {};
  }
}
