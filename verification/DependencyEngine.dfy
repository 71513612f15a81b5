/**
 * `process_event` on the dataset path as one transaction, and how much fresh data
 * every run of publications and events must have seen for the executions it made.
 */
module DependencyEngine {
  import opened Common
  import opened RuleText
  import opened RuleAst
  import opened RuleEvaluator
  import opened Readiness

  type DatasetId = nat

  datatype Dataset = Dataset(name: string, status: string, version: int, simulated: bool)

  datatype Dependency = Dependency(conditionType: string, required: Option<int>, datasets: seq<DatasetId>)

  /** `counts` is (ready, required datasets); the cooldown decision stores neither. */
  datatype DecisionRow = DecisionRow(
    pipeline: string, decision: Decision, counts: Option<(nat, nat)>, event: Option<int>)

  /** `decisionId` is the position of the decision row. */
  datatype ExecutionRow = ExecutionRow(pipeline: string, decisionId: nat, event: int)

  datatype Db = Db(
    datasets: map<DatasetId, Dataset>,
    pipelines: map<string, Dependency>,
    decisions: seq<DecisionRow>,
    executions: seq<ExecutionRow>)

  /**
   * `eventId` is the number an id stands for (a hash, if it is not numeric), and `textual` says that
   * the id was not an integer. `cooling` is the result of the clock comparison of the cooldown check.
   */
  datatype Event = Event(
    pipeline: string,
    eventId: Option<int>,
    textual: bool,
    fromSimulator: bool,
    dataset: string,
    newStatus: string,
    cooling: bool,
    expression: RuleArgument,
    fields: Context)

  datatype Outcome = NotConfigured | Skipped | CoolingDown | Decided(decision: Decision)

  /** Dependencies name each dataset once and only existing ones. */
  predicate WellFormed(db: Db) {
    forall p :: p in db.pipelines ==>
      var ids := db.pipelines[p].datasets;
      && (forall i :: 0 <= i < |ids| ==> ids[i] in db.datasets)
      && (forall i, j :: 0 <= i < j < |ids| ==> ids[i] != ids[j])
  }

  predicate Executed(executions: seq<ExecutionRow>, pipeline: string, eventId: int) {
    exists i :: 0 <= i < |executions| && executions[i].pipeline == pipeline && executions[i].event == eventId
  }

  /** The idempotency check; it compares an id that is not an integer with -1 as well. */
  predicate AlreadyExecuted(executions: seq<ExecutionRow>, ev: Event) {
    && ev.eventId.Some?
    && (Executed(executions, ev.pipeline, ev.eventId.value) || (ev.textual && Executed(executions, ev.pipeline, -1)))
  }

  function IdSet(ids: seq<DatasetId>): set<DatasetId> { set id | id in ids }

  function SetStatus(datasets: map<DatasetId, Dataset>, ids: set<DatasetId>, status: string)
    : (r: map<DatasetId, Dataset>)
    ensures r.Keys == datasets.Keys
  {
    map id | id in datasets :: if id in ids then datasets[id].(status := status) else datasets[id]
  }

  /** The datasets a simulator event may switch. */
  function SimulatedTargets(datasets: map<DatasetId, Dataset>, ev: Event): set<DatasetId> {
    if ev.fromSimulator && ev.dataset != [] && ev.newStatus in [READY, WAITING]
    then set id | id in datasets && datasets[id].name == ev.dataset && datasets[id].simulated
    else {}
  }

  function AfterSimulator(db: Db, ev: Event): Db {
    db.(datasets := SetStatus(db.datasets, SimulatedTargets(db.datasets, ev), ev.newStatus))
  }

  function RowOf(d: Dataset): DatasetRow { DatasetRow(d.name, d.status, d.version) }

  function RequiredRows(db: Db, p: string): (rows: seq<DatasetRow>)
    requires WellFormed(db) && p in db.pipelines
    ensures |rows| == |db.pipelines[p].datasets|
    ensures forall i :: 0 <= i < |rows| ==> rows[i] == RowOf(db.datasets[db.pipelines[p].datasets[i]])
  {
    var ids := db.pipelines[p].datasets;
    seq(|ids|, i requires 0 <= i < |ids| => RowOf(db.datasets[ids[i]]))
  }

  function Decide(db: Db, ev: Event): Decision
    requires WellFormed(db) && ev.pipeline in db.pipelines
  {
    var dep, rows := db.pipelines[ev.pipeline], RequiredRows(db, ev.pipeline);
    EvaluateCondition(dep.conditionType, ReadyCount(rows), |rows|, dep.required,
                      ev.expression, BuildContext(rows, ev.fields))
  }

  /** The committed state after one call, and what the call returns. */
  function Processed(db: Db, ev: Event): (Db, Outcome)
    requires WellFormed(db)
  {
    var p := ev.pipeline;
    if p !in db.pipelines then (db, NotConfigured)
    else if AlreadyExecuted(db.executions, ev) then (db, Skipped)
    else
      var db1 := AfterSimulator(db, ev);
      if ev.cooling then
        (db1.(decisions := db1.decisions + [DecisionRow(p, BLOCK, None, ev.eventId)]), CoolingDown)
      else
        var rows, decision := RequiredRows(db1, p), Decide(db1, ev);
        var row := DecisionRow(p, decision, Some((ReadyCount(rows), |rows|)), ev.eventId);
        var db2 := db1.(decisions := db1.decisions + [row]);
        if decision == BLOCK then (db2, Decided(BLOCK))
        else if ev.eventId.None? then (db, Decided(TRIGGER))  // triggering_event_id is NOT NULL: rolled back
        else
          var execution := ExecutionRow(p, |db.decisions|, ev.eventId.value);
          (db2.(executions := db2.executions + [execution],
                datasets := SetStatus(db2.datasets, IdSet(db2.pipelines[p].datasets), WAITING)),
           Decided(TRIGGER))
  }

  // ---- The transaction as it runs -------------------------------------------

  class EngineDatabase {
    const pipelines: map<string, Dependency>
    var datasets: map<DatasetId, Dataset>
    var decisions: seq<DecisionRow>
    var executions: seq<ExecutionRow>

    function State(): Db
      reads this
    {
      Db(datasets, pipelines, decisions, executions)
    }

    /** Counts READY rows while fetching them. */
    method FetchRequired(p: string) returns (rows: seq<DatasetRow>, ready: nat)
      requires WellFormed(State()) && p in pipelines
      ensures rows == RequiredRows(State(), p) && ready == ReadyCount(rows)
    {
      var ids := pipelines[p].datasets;
      rows, ready := [], 0;
      for i := 0 to |ids|
        invariant rows == RequiredRows(State(), p)[..i]
        invariant ready + ReadyCount(RequiredRows(State(), p)[i..]) == ReadyCount(RequiredRows(State(), p))
      {
        var row := RowOf(datasets[ids[i]]);
        assert RequiredRows(State(), p)[i..][1..] == RequiredRows(State(), p)[i + 1..];
        rows := rows + [row];
        if row.status == READY {
          ready := ready + 1;
        }
      }
    }

    /** Inserts an execution row; refused when the event id is null or the key is taken. */
    method InsertExecution(p: string, decisionId: nat, eventId: Option<int>) returns (inserted: bool)
      modifies `executions
      ensures inserted == (eventId.Some? && !Executed(old(executions), p, eventId.value))
      ensures executions == if inserted then old(executions) + [ExecutionRow(p, decisionId, eventId.value)]
                            else old(executions)
    {
      inserted := eventId.Some? && !Executed(executions, p, eventId.value);
      if inserted {
        executions := executions + [ExecutionRow(p, decisionId, eventId.value)];
      }
    }

    method ProcessEvent(ev: Event) returns (outcome: Outcome)
      requires WellFormed(State())
      modifies this
      ensures (State(), outcome) == Processed(old(State()), ev)
    {
      hide EvaluateCondition, BuildContext, Executed;
      var p := ev.pipeline;
      if p !in pipelines {
        return NotConfigured;
      }
      if AlreadyExecuted(executions, ev) {
        return Skipped;
      }
      var savedDatasets, savedDecisions := datasets, decisions;
      if ev.fromSimulator && ev.dataset != [] {
        if ev.newStatus in [READY, WAITING] {
          var targets := set id | id in datasets && datasets[id].name == ev.dataset && datasets[id].simulated;
          datasets := SetStatus(datasets, targets, ev.newStatus);
        }
      }
      assert datasets == AfterSimulator(old(State()), ev).datasets;
      if ev.cooling {
        decisions := decisions + [DecisionRow(p, BLOCK, None, ev.eventId)];
        return CoolingDown;
      }
      var rows, ready := FetchRequired(p);
      var decision := EvaluateCondition(pipelines[p].conditionType, ready, |rows|, pipelines[p].required,
                                        ev.expression, BuildContext(rows, ev.fields));
      var decisionId := |decisions|;
      decisions := decisions + [DecisionRow(p, decision, Some((ready, |rows|)), ev.eventId)];
      if decision == TRIGGER {
        var inserted := InsertExecution(p, decisionId, ev.eventId);
        if !inserted {
          datasets, decisions := savedDatasets, savedDecisions;
          return Decided(TRIGGER);
        }
        datasets := SetStatus(datasets, IdSet(pipelines[p].datasets), WAITING);
      }
      return Decided(decision);
    }
  }

  // ---- Runs -----------------------------------------------------------------

  /** `Publish` is what `process_cdc_event` does to the dataset row. */
  datatype Step = Publish(id: DatasetId) | Process(event: Event)

  function Publish(db: Db, id: DatasetId): Db {
    if id in db.datasets
    then db.(datasets := db.datasets[id := db.datasets[id].(status := READY, version := db.datasets[id].version + 1)])
    else db
  }

  lemma {:induction false} ProcessedIsWellFormed(db: Db, ev: Event)
    requires WellFormed(db)
    ensures WellFormed(Processed(db, ev).0) && Processed(db, ev).0.pipelines == db.pipelines
  {
    hide Decide, AlreadyExecuted, SimulatedTargets, WellFormed;
    SameShape(db, Processed(db, ev).0);
  }

  lemma {:induction false} SameShape(db: Db, after: Db)
    requires WellFormed(db) && after.datasets.Keys == db.datasets.Keys && after.pipelines == db.pipelines
    ensures WellFormed(after)
  {
  }

  function Apply(db: Db, step: Step): (r: Db)
    requires WellFormed(db)
    ensures WellFormed(r) && r.pipelines == db.pipelines
  {
    match step
    case Publish(id) => Publish(db, id)
    case Process(ev) =>
      ProcessedIsWellFormed(db, ev);
      Processed(db, ev).0
  }

  function Run(db: Db, steps: seq<Step>): (r: Db)
    requires WellFormed(db)
    ensures WellFormed(r) && r.pipelines == db.pipelines
  {
    if steps == [] then db else Apply(Run(db, steps[..|steps| - 1]), steps[|steps| - 1])
  }

  function ReadySet(datasets: map<DatasetId, Dataset>, ids: set<DatasetId>): set<DatasetId> {
    set id | id in ids && id in datasets && datasets[id].status == READY
  }

  function ReadyAmong(db: Db, ids: set<DatasetId>): nat { |ReadySet(db.datasets, ids)| }

  function ExecutionsOf(executions: seq<ExecutionRow>, p: string): nat {
    if executions == [] then 0
    else ExecutionsOf(executions[..|executions| - 1], p)
         + (if executions[|executions| - 1].pipeline == p then 1 else 0)
  }

  /**
   * How many datasets among `ids` a step reports as freshly arrived; an event that is skipped or
   * rolled back reports none.
   */
  function Granted(db: Db, step: Step, ids: set<DatasetId>): nat
    requires WellFormed(db)
  {
    match step
    case Publish(id) => if id in ids then 1 else 0
    case Process(ev) =>
      if ev.newStatus == READY && Processed(db, ev).0 != db then |SimulatedTargets(db.datasets, ev) * ids| else 0
  }

  function TotalGranted(db: Db, steps: seq<Step>, ids: set<DatasetId>): nat
    requires WellFormed(db)
  {
    if steps == [] then 0
    else
      var front := steps[..|steps| - 1];
      TotalGranted(db, front, ids) + Granted(Run(db, front), steps[|steps| - 1], ids)
  }

  /** A TRIGGER of `p` needs `k` of `ids` READY, and all of them are reset. */
  ghost predicate Consumes(pipelines: map<string, Dependency>, p: string, ids: set<DatasetId>, k: nat) {
    && p in pipelines
    && (forall id :: id in ids ==> id in pipelines[p].datasets)
    && forall db: Db, ev: Event ::
         WellFormed(db) && db.pipelines == pipelines && ev.pipeline == p && Decide(db, ev) == TRIGGER ==>
           ReadyAmong(db, ids) >= k
  }

  /** What is ready now plus what the executions of `p` have used up. */
  function Supply(db: Db, p: string, ids: set<DatasetId>, k: nat): nat {
    ReadyAmong(db, ids) + k * ExecutionsOf(db.executions, p)
  }

  lemma {:induction false} StatusChange(db: Db, targets: set<DatasetId>, status: string, ids: set<DatasetId>)
    ensures var after := db.(datasets := SetStatus(db.datasets, targets, status));
            && ReadyAmong(after, ids) <= ReadyAmong(db, ids) + (if status == READY then |targets * ids| else 0)
            && (status != READY && ids <= targets ==> ReadyAmong(after, ids) == 0)
  {
    var before, after := ReadySet(db.datasets, ids), ReadySet(SetStatus(db.datasets, targets, status), ids);
    if status == READY {
      SubsetIsSmaller(after, before + targets * ids);
    } else {
      SubsetIsSmaller(after, before);
      if ids <= targets {
        assert after == {};
      }
    }
  }

  lemma {:induction false} PublishStep(db: Db, id: DatasetId, ids: set<DatasetId>)
    ensures ReadyAmong(Publish(db, id), ids) <= ReadyAmong(db, ids) + (if id in ids then 1 else 0)
  {
    var before, after := ReadySet(db.datasets, ids), ReadySet(Publish(db, id).datasets, ids);
    SubsetIsSmaller(after, if id in ids then before + {id} else before);
  }

  /** Without a new execution, processing an event changes readiness only as the simulator asks. */
  lemma {:induction false} IdleStep(db: Db, ev: Event, p: string, ids: set<DatasetId>, k: nat)
    requires WellFormed(db)
    requires Processed(db, ev).0.executions == db.executions
    ensures Supply(Processed(db, ev).0, p, ids, k) <= Supply(db, p, ids, k) + Granted(db, Process(ev), ids)
  {
    hide Decide;
    StatusChange(db, SimulatedTargets(db.datasets, ev), ev.newStatus, ids);
  }

  /** A new execution follows a TRIGGER and resets every dataset its pipeline depends on. */
  lemma {:induction false} ExecutionShape(db: Db, ev: Event)
    requires WellFormed(db) && Processed(db, ev).0.executions != db.executions
    ensures ev.pipeline in db.pipelines && Decide(AfterSimulator(db, ev), ev) == TRIGGER
    ensures var after, required := Processed(db, ev).0, IdSet(db.pipelines[ev.pipeline].datasets);
            && after.datasets == SetStatus(AfterSimulator(db, ev).datasets, required, WAITING)
            && |after.executions| == |db.executions| + 1
            && after.executions[..|db.executions|] == db.executions
            && after.executions[|db.executions|].pipeline == ev.pipeline
  {
    hide Decide, SetStatus, SimulatedTargets, AlreadyExecuted;
  }

  // ---- What each outcome leaves behind --------------------------------------

  predicate IsExecution(x: ExecutionRow, p: string, event: int) {
    x.pipeline == p && x.event == event
  }

  ghost predicate HasExecution(db: Db, p: string, event: int) {
    exists x :: x in db.executions && IsExecution(x, p, event)
  }

  /**
   * No status changes but those a simulator event asks for: of the simulated datasets it names, to
   * READY or WAITING.
   */
  ghost predicate OnlySimulated(before: map<DatasetId, Dataset>, after: map<DatasetId, Dataset>, ev: Event) {
    && after.Keys == before.Keys
    && forall id :: id in before ==>
         after[id] == if ev.fromSimulator && before[id].simulated && ev.dataset != [] && before[id].name == ev.dataset
                         && (ev.newStatus == "READY" || ev.newStatus == "WAITING")
                      then before[id].(status := ev.newStatus) else before[id]
  }

  lemma {:induction false} SimulatorAsks(db: Db, ev: Event)
    ensures OnlySimulated(db.datasets, AfterSimulator(db, ev).datasets, ev)
  {
  }

  lemma {:induction false} ExecutedIsHasExecution(db: Db, p: string, event: int)
    ensures Executed(db.executions, p, event) <==> HasExecution(db, p, event)
  {
    if Executed(db.executions, p, event) {
      var i :| 0 <= i < |db.executions| && db.executions[i].pipeline == p && db.executions[i].event == event;
      assert IsExecution(db.executions[i], p, event);
    }
  }

  /** Unconfigured pipelines and executed events are told apart, and neither changes anything. */
  lemma {:induction false} RefusedCallsChangeNothing(db: Db, ev: Event)
    requires WellFormed(db)
    ensures var (after, outcome) := Processed(db, ev);
            && (outcome == NotConfigured <==> ev.pipeline !in db.pipelines)
            && (outcome == Skipped <==>
                && ev.pipeline in db.pipelines && ev.eventId.Some?
                && (HasExecution(db, ev.pipeline, ev.eventId.value)
                    || (ev.textual && HasExecution(db, ev.pipeline, -1))))
            && (outcome in {NotConfigured, Skipped} ==> after == db)
  {
    hide Decide, AfterSimulator, HasExecution, Executed, SetStatus;
    if ev.eventId.Some? {
      ExecutedIsHasExecution(db, ev.pipeline, ev.eventId.value);
      ExecutedIsHasExecution(db, ev.pipeline, -1);
    }
  }

  /** A call that is neither refused nor out of its cooldown blocks: one BLOCK decision, no execution. */
  lemma {:induction false} CoolingCallBlocks(db: Db, ev: Event)
    requires WellFormed(db) && Processed(db, ev).1 !in {NotConfigured, Skipped}
    ensures var (after, outcome) := Processed(db, ev);
            && (outcome == CoolingDown <==> ev.cooling)
            && (ev.cooling ==>
                  && after.executions == db.executions && after.pipelines == db.pipelines
                  && after.decisions == db.decisions + [DecisionRow(ev.pipeline, BLOCK, None, ev.eventId)]
                  && OnlySimulated(db.datasets, after.datasets, ev))
  {
    SimulatorAsks(db, ev);
    hide Decide, AfterSimulator, AlreadyExecuted, SetStatus, OnlySimulated;
    assert AfterSimulator(db, ev) == db.(datasets := AfterSimulator(db, ev).datasets) by {
      SimulatorKeepsRows(db, ev);
    }
  }

  lemma {:induction false} SimulatorKeepsRows(db: Db, ev: Event)
    ensures AfterSimulator(db, ev) == db.(datasets := AfterSimulator(db, ev).datasets)
  {
  }

  /**
   * The counts a decision stores: the required datasets that are READY after the simulator's update,
   * and all of them.
   */
  function StoredCounts(db: Db, ev: Event): (nat, nat)
    requires ev.pipeline in db.pipelines
  {
    (ReadyAmong(AfterSimulator(db, ev), IdSet(db.pipelines[ev.pipeline].datasets)),
     |db.pipelines[ev.pipeline].datasets|)
  }

  /** A decision that is not to execute is recorded with its counts, and nothing else changes. */
  lemma {:induction false} BlockedCallIsRecorded(db: Db, ev: Event)
    requires WellFormed(db) && Processed(db, ev).1 == Decided(BLOCK)
    ensures ev.pipeline in db.pipelines && !ev.cooling
    ensures var after := Processed(db, ev).0;
            && after.executions == db.executions
            && after.decisions
               == db.decisions + [DecisionRow(ev.pipeline, BLOCK, Some(StoredCounts(db, ev)), ev.eventId)]
            && OnlySimulated(db.datasets, after.datasets, ev)
  {
    SimulatorAsks(db, ev);
    SimulatorKeepsRows(db, ev);
    if ev.pipeline in db.pipelines {
      TriggerCounts(AfterSimulator(db, ev), ev);
    }
    hide Decide, AfterSimulator, AlreadyExecuted, SetStatus, OnlySimulated, ReadyAmong, IdSet, WellFormed;
  }

  /**
   * A TRIGGER leaves one execution and the decision it leads to: of the same pipeline and event, a
   * TRIGGER, with the counts it was made on. The required datasets, and no others, are reset. Without
   * an event id everything is rolled back.
   */
  lemma {:induction false} TriggerIsExecuted(db: Db, ev: Event)
    requires WellFormed(db) && Processed(db, ev).1 == Decided(TRIGGER)
    ensures ev.pipeline in db.pipelines && !ev.cooling
    ensures var after := Processed(db, ev).0;
            if ev.eventId.None? then after == db
            else
              && after.executions == db.executions + [ExecutionRow(ev.pipeline, |db.decisions|, ev.eventId.value)]
              && after.decisions
                 == db.decisions + [DecisionRow(ev.pipeline, TRIGGER, Some(StoredCounts(db, ev)), ev.eventId)]
    ensures ev.eventId.Some? ==>
              Reset(AfterSimulator(db, ev).datasets, Processed(db, ev).0.datasets, db.pipelines[ev.pipeline].datasets)
  {
    SimulatorKeepsRows(db, ev);
    TriggerCounts(AfterSimulator(db, ev), ev);
    ResetsRequired(AfterSimulator(db, ev).datasets, db.pipelines[ev.pipeline].datasets);
    hide Decide, AfterSimulator, AlreadyExecuted, SetStatus, Reset, ReadyAmong, IdSet, WellFormed;
  }

  /** The required datasets are WAITING, with name and version kept, and the others are as before. */
  ghost predicate Reset(before: map<DatasetId, Dataset>, after: map<DatasetId, Dataset>, required: seq<DatasetId>) {
    && after.Keys == before.Keys
    && forall id :: id in before ==>
         after[id] == if id in required then before[id].(status := "WAITING") else before[id]
  }

  lemma {:induction false} ResetsRequired(datasets: map<DatasetId, Dataset>, required: seq<DatasetId>)
    ensures Reset(datasets, SetStatus(datasets, IdSet(required), WAITING), required)
  {
  }

  // ---- Each event executes once ---------------------------------------------

  /** At most one execution of a pipeline for an event. */
  ghost predicate OncePerEvent(executions: seq<ExecutionRow>) {
    forall i, j :: 0 <= i < j < |executions| ==>
      executions[i].pipeline != executions[j].pipeline || executions[i].event != executions[j].event
  }

  /** Every execution leads to its own TRIGGER decision. */
  ghost predicate DecisionsLed(db: Db) {
    && (forall i :: 0 <= i < |db.executions| ==>
          var x := db.executions[i];
          && x.decisionId < |db.decisions|
          && db.decisions[x.decisionId].pipeline == x.pipeline && db.decisions[x.decisionId].decision == TRIGGER
          && db.decisions[x.decisionId].event == Some(x.event))
    && (forall i, j :: 0 <= i < j < |db.executions| ==> db.executions[i].decisionId != db.executions[j].decisionId)
  }

  lemma {:induction false} DecisionKeepsOnce(db: Db, after: Db, row: DecisionRow)
    requires OncePerEvent(db.executions) && DecisionsLed(db)
    requires after.executions == db.executions && after.decisions == db.decisions + [row]
    ensures OncePerEvent(after.executions) && DecisionsLed(after)
  {
  }

  lemma {:induction false} ExecutionKeepsOnce(db: Db, after: Db, p: string, counts: Option<(nat, nat)>, event: int)
    requires OncePerEvent(db.executions) && DecisionsLed(db) && !HasExecution(db, p, event)
    requires after.executions == db.executions + [ExecutionRow(p, |db.decisions|, event)]
    requires after.decisions == db.decisions + [DecisionRow(p, TRIGGER, counts, Some(event))]
    ensures OncePerEvent(after.executions) && DecisionsLed(after)
  {
    forall i | 0 <= i < |db.executions|
      ensures db.executions[i].pipeline != p || db.executions[i].event != event
    {
      assert db.executions[i] in db.executions && !IsExecution(db.executions[i], p, event);
    }
  }

  lemma {:induction false} CallKeepsOnce(db: Db, ev: Event)
    requires WellFormed(db) && OncePerEvent(db.executions) && DecisionsLed(db)
    ensures OncePerEvent(Processed(db, ev).0.executions) && DecisionsLed(Processed(db, ev).0)
  {
    hide *;
    var (after, outcome) := Processed(db, ev);
    var p := ev.pipeline;
    RefusedCallsChangeNothing(db, ev);
    match outcome
    case NotConfigured =>
    case Skipped =>
    case CoolingDown =>
      CoolingCallBlocks(db, ev);
      DecisionKeepsOnce(db, after, DecisionRow(p, BLOCK, None, ev.eventId));
    case Decided(BLOCK) =>
      BlockedCallIsRecorded(db, ev);
      DecisionKeepsOnce(db, after, DecisionRow(p, BLOCK, Some(StoredCounts(db, ev)), ev.eventId));
    case Decided(TRIGGER) =>
      TriggerIsExecuted(db, ev);
      if ev.eventId.Some? {
        ExecutionKeepsOnce(db, after, p, Some(StoredCounts(db, ev)), ev.eventId.value);
      }
  }

  lemma {:induction false} PublishKeepsRows(db: Db, id: DatasetId)
    ensures Publish(db, id).executions == db.executions && Publish(db, id).decisions == db.decisions
  {
  }

  /** A publication makes its dataset READY in the next version and leaves the others alone. */
  lemma {:induction false} PublishMakesReady(db: Db, id: DatasetId)
    ensures var after := Publish(db, id);
            && after.datasets.Keys == db.datasets.Keys && after.pipelines == db.pipelines
            && (id in db.datasets ==>
                  after.datasets[id] == Dataset(db.datasets[id].name, "READY", db.datasets[id].version + 1,
                                                db.datasets[id].simulated))
            && forall other :: other in db.datasets && other != id ==> after.datasets[other] == db.datasets[other]
  {
  }

  /** Over every run: one execution for each pipeline and event, each behind its own TRIGGER decision. */
  lemma {:induction false} ExecutionsAreDecidedOnce(db: Db, steps: seq<Step>)
    requires WellFormed(db) && OncePerEvent(db.executions) && DecisionsLed(db)
    ensures OncePerEvent(Run(db, steps).executions) && DecisionsLed(Run(db, steps))
  {
    if steps != [] {
      hide Processed, Publish, OncePerEvent, WellFormed;
      var before, last := Run(db, steps[..|steps| - 1]), steps[|steps| - 1];
      ExecutionsAreDecidedOnce(db, steps[..|steps| - 1]);
      match last
      case Publish(id) => PublishKeepsRows(before, id);
      case Process(ev) => CallKeepsOnce(before, ev);
    }
  }

  lemma {:induction false} TriggerConsumes(db: Db, ev: Event, ids: set<DatasetId>, k: nat)
    requires WellFormed(db) && Consumes(db.pipelines, ev.pipeline, ids, k) && Decide(db, ev) == TRIGGER
    ensures ReadyAmong(db, ids) >= k && ids <= IdSet(db.pipelines[ev.pipeline].datasets)
  {
    hide ReadyAmong, Decide;
  }

  lemma {:induction false} ExecutionEffect(db: Db, ev: Event, p: string, ids: set<DatasetId>)
    requires WellFormed(db) && Processed(db, ev).0.executions != db.executions
    ensures ev.pipeline in db.pipelines
    ensures var db1, after := AfterSimulator(db, ev), Processed(db, ev).0;
            && ReadyAmong(db1, ids) <= ReadyAmong(db, ids) + Granted(db, Process(ev), ids)
            && ReadyAmong(after, ids) <= ReadyAmong(db1, ids)
            && (ids <= IdSet(db.pipelines[ev.pipeline].datasets) ==> ReadyAmong(after, ids) == 0)
            && ExecutionsOf(after.executions, p) == ExecutionsOf(db.executions, p) + (if ev.pipeline == p then 1 else 0)
  {
    ExecutionShape(db, ev);
    hide Decide, Processed, SetStatus, SimulatedTargets, ReadyAmong, WellFormed, ReadySet, ExecutionsOf, IdSet;
    var db1, targets := AfterSimulator(db, ev), IdSet(db.pipelines[ev.pipeline].datasets);
    StatusChange(db, SimulatedTargets(db.datasets, ev), ev.newStatus, ids);
    StatusChange(db1, targets, WAITING, ids);
    SameDatasetsSameReadiness(Processed(db, ev).0, db1.(datasets := SetStatus(db1.datasets, targets, WAITING)), ids);
    LastExecutionCounts(Processed(db, ev).0.executions, p);
  }

  lemma {:induction false} ExecutingStep(db: Db, ev: Event, p: string, ids: set<DatasetId>, k: nat)
    requires WellFormed(db) && Consumes(db.pipelines, p, ids, k)
    requires Processed(db, ev).0.executions != db.executions
    ensures Supply(Processed(db, ev).0, p, ids, k) <= Supply(db, p, ids, k) + Granted(db, Process(ev), ids)
  {
    if ev.pipeline == p {
      TriggerDecided(db, ev);
      TriggerConsumes(AfterSimulator(db, ev), ev, ids, k);
    }
    hide Consumes, Decide, Processed, Granted, SetStatus, SimulatedTargets, ReadyAmong, WellFormed, ExecutionsOf, IdSet;
    ExecutionEffect(db, ev, p, ids);
    Payment(ReadyAmong(db, ids), ReadyAmong(AfterSimulator(db, ev), ids), ReadyAmong(Processed(db, ev).0, ids), k,
            ExecutionsOf(db.executions, p), ExecutionsOf(Processed(db, ev).0.executions, p),
            Granted(db, Process(ev), ids));
  }

  lemma {:induction false} TriggerDecided(db: Db, ev: Event)
    requires WellFormed(db) && Processed(db, ev).0.executions != db.executions
    ensures WellFormed(AfterSimulator(db, ev)) && Decide(AfterSimulator(db, ev), ev) == TRIGGER
  {
    hide Decide;
    ExecutionShape(db, ev);
  }

  lemma {:induction false} LastExecutionCounts(executions: seq<ExecutionRow>, p: string)
    requires executions != []
    ensures ExecutionsOf(executions, p)
         == ExecutionsOf(executions[..|executions| - 1], p)
            + (if executions[|executions| - 1].pipeline == p then 1 else 0)
  {
  }

  /** Either nothing is used up, or `k` ready datasets are and none is left. */
  lemma {:induction false} Payment(
    before: nat, offered: nat, after: nat, k: nat, used: nat, usedAfter: nat, granted: nat)
    requires offered <= before + granted
    requires (usedAfter == used && after <= offered) || (usedAfter == used + 1 && after == 0 && offered >= k)
    ensures after + k * usedAfter <= before + k * used + granted
  {
  }

  lemma {:induction false} SameDatasetsSameReadiness(a: Db, b: Db, ids: set<DatasetId>)
    requires a.datasets == b.datasets
    ensures ReadyAmong(a, ids) == ReadyAmong(b, ids)
  {
  }

  lemma {:induction false} StepKeepsBound(db: Db, step: Step, p: string, ids: set<DatasetId>, k: nat)
    requires WellFormed(db) && Consumes(db.pipelines, p, ids, k)
    ensures Supply(Apply(db, step), p, ids, k) <= Supply(db, p, ids, k) + Granted(db, step, ids)
  {
    match step
    case Publish(id) => PublishStep(db, id, ids);
    case Process(ev) =>
      if Processed(db, ev).0.executions == db.executions {
        IdleStep(db, ev, p, ids, k);
      } else {
        ExecutingStep(db, ev, p, ids, k);
      }
  }

  /**
   * Over every run, executions of `p` times the readiness each consumes, plus what is
   * ready now, is paid for by initial readiness and publications.
   */
  lemma {:induction false} FreshDataBound(db: Db, steps: seq<Step>, p: string, ids: set<DatasetId>, k: nat)
    requires WellFormed(db) && Consumes(db.pipelines, p, ids, k)
    ensures Supply(Run(db, steps), p, ids, k) <= Supply(db, p, ids, k) + TotalGranted(db, steps, ids)
  {
    if steps != [] {
      var front := steps[..|steps| - 1];
      FreshDataBound(db, front, p, ids, k);
      StepKeepsBound(Run(db, front), steps[|steps| - 1], p, ids, k);
    }
  }

  // ---- What each condition consumes -----------------------------------------

  function RowsOf(datasets: map<DatasetId, Dataset>, ids: seq<DatasetId>): (rows: seq<DatasetRow>)
    requires forall i :: 0 <= i < |ids| ==> ids[i] in datasets
    ensures |rows| == |ids|
    ensures forall i :: 0 <= i < |ids| ==> rows[i] == RowOf(datasets[ids[i]])
  {
    seq(|ids|, i requires 0 <= i < |ids| => RowOf(datasets[ids[i]]))
  }

  /** Counting distinct rows is counting datasets. */
  lemma {:induction false} ReadyCountIsReadyAmong(datasets: map<DatasetId, Dataset>, ids: seq<DatasetId>)
    requires forall i :: 0 <= i < |ids| ==> ids[i] in datasets
    requires forall i, j :: 0 <= i < j < |ids| ==> ids[i] != ids[j]
    ensures ReadyCount(RowsOf(datasets, ids)) == |ReadySet(datasets, IdSet(ids))|
  {
    if ids == [] {
      assert ReadySet(datasets, IdSet(ids)) == {};
    } else {
      var rest := ids[1..];
      ReadyCountIsReadyAmong(datasets, rest);
      assert RowsOf(datasets, ids)[1..] == RowsOf(datasets, rest);
      var all, others := ReadySet(datasets, IdSet(ids)), ReadySet(datasets, IdSet(rest));
      assert ids[0] !in others;
      if datasets[ids[0]].status == READY {
        assert all == others + {ids[0]};
      } else {
        assert all == others;
      }
    }
  }

  lemma {:induction false} TriggerCounts(db: Db, ev: Event)
    requires WellFormed(db) && ev.pipeline in db.pipelines
    ensures ReadyCount(RequiredRows(db, ev.pipeline))
         == ReadyAmong(db, IdSet(db.pipelines[ev.pipeline].datasets))
  {
    var ids := db.pipelines[ev.pipeline].datasets;
    assert RequiredRows(db, ev.pipeline) == RowsOf(db.datasets, ids);
    ReadyCountIsReadyAmong(db.datasets, ids);
  }

  predicate HasCondition(pipelines: map<string, Dependency>, p: string, kind: string) {
    p in pipelines && Upper(Strip(pipelines[p].conditionType)) == kind
  }

  /** QUORUM `k` consumes `k` of its datasets. */
  lemma {:induction false} QuorumConsumes(pipelines: map<string, Dependency>, p: string, k: nat)
    requires HasCondition(pipelines, p, "QUORUM") && pipelines[p].required == Some(k)
    ensures Consumes(pipelines, p, IdSet(pipelines[p].datasets), k)
  {
    forall db: Db, ev: Event |
      WellFormed(db) && db.pipelines == pipelines && ev.pipeline == p && Decide(db, ev) == TRIGGER
      ensures ReadyAmong(db, IdSet(pipelines[p].datasets)) >= k
    {
      var rows := RequiredRows(db, p);
      TriggerCounts(db, ev);
      QuorumDecision(pipelines[p].conditionType, ReadyCount(rows), |rows|, pipelines[p].required,
                     ev.expression, BuildContext(rows, ev.fields));
    }
  }

  /** ANY consumes one. */
  lemma {:induction false} AnyConsumes(pipelines: map<string, Dependency>, p: string)
    requires HasCondition(pipelines, p, "ANY")
    ensures Consumes(pipelines, p, IdSet(pipelines[p].datasets), 1)
  {
    forall db: Db, ev: Event |
      WellFormed(db) && db.pipelines == pipelines && ev.pipeline == p && Decide(db, ev) == TRIGGER
      ensures ReadyAmong(db, IdSet(pipelines[p].datasets)) >= 1
    {
      var rows := RequiredRows(db, p);
      TriggerCounts(db, ev);
      AnyDecision(pipelines[p].conditionType, ReadyCount(rows), |rows|, pipelines[p].required,
                  ev.expression, BuildContext(rows, ev.fields));
    }
  }

  /** ALL consumes every one of its datasets. */
  lemma {:induction false} AllConsumes(pipelines: map<string, Dependency>, p: string, i: nat)
    requires HasCondition(pipelines, p, "ALL") && i < |pipelines[p].datasets|
    ensures Consumes(pipelines, p, {pipelines[p].datasets[i]}, 1)
  {
    var id := pipelines[p].datasets[i];
    forall db: Db, ev: Event |
      WellFormed(db) && db.pipelines == pipelines && ev.pipeline == p && Decide(db, ev) == TRIGGER
      ensures ReadyAmong(db, {id}) >= 1
    {
      var rows := RequiredRows(db, p);
      AllDecision(pipelines[p].conditionType, ReadyCount(rows), |rows|, pipelines[p].required,
                  ev.expression, BuildContext(rows, ev.fields));
      AllReadyByCount(rows);
      assert rows[i].status == READY;
      assert ReadySet(db.datasets, {id}) == {id};
    }
  }

  /** The executions a run adds. */
  function NewExecutions(db: Db, steps: seq<Step>, p: string): int
    requires WellFormed(db)
  {
    ExecutionsOf(Run(db, steps).executions, p) - ExecutionsOf(db.executions, p)
  }

  /** The bound over what the run adds. */
  lemma {:induction false} NewExecutionsArePaidFor(db: Db, steps: seq<Step>, p: string, ids: set<DatasetId>, k: nat)
    requires WellFormed(db) && Consumes(db.pipelines, p, ids, k)
    ensures ReadyAmong(Run(db, steps), ids) + k * NewExecutions(db, steps, p)
         <= ReadyAmong(db, ids) + TotalGranted(db, steps, ids)
  {
    hide Consumes, Run, ReadyAmong, ExecutionsOf, TotalGranted;
    FreshDataBound(db, steps, p, ids, k);
    var a: int, b: int := ExecutionsOf(Run(db, steps).executions, p), ExecutionsOf(db.executions, p);
    assert k * (a - b) == k * a - k * b;
  }

  /** QUORUM `k` (ANY is `k` = 1): the bound in the terms of the configuration. */
  lemma {:induction false} QuorumBound(db: Db, steps: seq<Step>, p: string, k: nat)
    requires WellFormed(db)
    requires || (HasCondition(db.pipelines, p, "QUORUM") && db.pipelines[p].required == Some(k))
             || (HasCondition(db.pipelines, p, "ANY") && k == 1)
    ensures var ids := IdSet(db.pipelines[p].datasets);
            ReadyAmong(Run(db, steps), ids) + k * NewExecutions(db, steps, p)
            <= ReadyAmong(db, ids) + TotalGranted(db, steps, ids)
  {
    hide HasCondition, Run, TotalGranted, Consumes;
    if HasCondition(db.pipelines, p, "ANY") && k == 1 {
      AnyConsumes(db.pipelines, p);
    } else {
      QuorumConsumes(db.pipelines, p, k);
    }
    NewExecutionsArePaidFor(db, steps, p, IdSet(db.pipelines[p].datasets), k);
  }

  /** ALL: no single dataset is ever used by more executions than it has supplied. */
  lemma {:induction false} AllBound(db: Db, steps: seq<Step>, p: string, i: nat)
    requires WellFormed(db)
    requires HasCondition(db.pipelines, p, "ALL") && i < |db.pipelines[p].datasets|
    ensures var ids := {db.pipelines[p].datasets[i]};
            ReadyAmong(Run(db, steps), ids) + NewExecutions(db, steps, p)
            <= ReadyAmong(db, ids) + TotalGranted(db, steps, ids)
  {
    AllConsumes(db.pipelines, p, i);
    NewExecutionsArePaidFor(db, steps, p, {db.pipelines[p].datasets[i]}, 1);
  }
}
