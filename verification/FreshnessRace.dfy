/**
 * Overlapping `process_event` calls on the dataset statuses. A call decides on the statuses
 * of its snapshot and resets its datasets when it commits, and nothing locks them in between.
 */
module FreshnessRace {
  import opened Common

  type WorkerId = nat

  type DatasetId = nat

  /** One change of a dataset to READY. */
  datatype Arrival = Arrival(id: DatasetId, serial: nat)

  /**
   * A TRIGGER needs `need` of the datasets READY: all of them for ALL, one for ANY, `k` for QUORUM;
   * a rule need not need any.
   */
  datatype Pipeline = Pipeline(datasets: set<DatasetId>, need: nat)

  /** `uses` are the arrivals that the decision counted. */
  datatype Execution = Execution(pipeline: string, uses: set<Arrival>)

  /**
   * An open call: the READY datasets it sees, as the arrivals that made them so. A simulator
   * event has switched `arriving` to READY or `withdrawn` to WAITING, for this call only until it commits.
   */
  datatype Call = Call(
    pipeline: string,
    view: set<Arrival>,
    arriving: set<DatasetId>,
    withdrawn: set<DatasetId>,
    serial: nat)

  /** `ready` are the committed READY datasets, as their arrivals; `issued` is a history variable. */
  datatype State = State(
    ready: set<Arrival>,
    executions: seq<Execution>,
    open: map<WorkerId, Call>,
    next: nat,
    issued: set<Arrival>)

  datatype Step =
    | Publish(id: DatasetId)
    | Withdraw(id: DatasetId)
    | Look(w: WorkerId, pipeline: string, arriving: set<DatasetId>, withdrawn: set<DatasetId>)
    | Finish(w: WorkerId)
    | Execute(w: WorkerId)
    | Abort(w: WorkerId)

  type Pipelines = map<string, Pipeline>

  function Issue(ids: set<DatasetId>, serial: nat): set<Arrival> {
    set id | id in ids :: Arrival(id, serial)
  }

  function On(arrivals: set<Arrival>, ids: set<DatasetId>): set<Arrival> {
    set a | a in arrivals && a.id in ids
  }

  function Off(arrivals: set<Arrival>, ids: set<DatasetId>): set<Arrival> {
    set a | a in arrivals && a.id !in ids
  }

  function Switched(ready: set<Arrival>, arriving: set<DatasetId>, withdrawn: set<DatasetId>, serial: nat)
    : set<Arrival>
  {
    Off(ready, arriving + withdrawn) + Issue(arriving, serial)
  }

  /** What a TRIGGER of the call counts. */
  function Uses(pipelines: Pipelines, call: Call): set<Arrival>
    requires call.pipeline in pipelines
  {
    On(call.view, pipelines[call.pipeline].datasets)
  }

  /** The statuses after the call's own simulator update is committed. */
  function Landed(s: State, call: Call): State {
    s.(ready := Switched(s.ready, call.arriving, call.withdrawn, call.serial),
       issued := s.issued + Issue(call.arriving, call.serial))
  }

  /** The statuses are read from the snapshot, and the reset is made on what is committed by then. */
  ghost predicate NextStep(pipelines: Pipelines, s: State, t: State, step: Step) {
    match step
    case Publish(id) =>
      t == s.(ready := Switched(s.ready, {id}, {}, s.next), issued := s.issued + {Arrival(id, s.next)},
              next := s.next + 1)
    case Withdraw(id) =>
      t == s.(ready := Off(s.ready, {id}))
    case Look(w, p, arriving, withdrawn) =>
      && w !in s.open && p in pipelines && (arriving == {} || withdrawn == {})
      && var call := Call(p, Switched(s.ready, arriving, withdrawn, s.next), arriving, withdrawn, s.next);
      && t == s.(open := s.open[w := call], next := s.next + 1)
    case Finish(w) =>
      && w in s.open
      && t == Landed(s, s.open[w]).(open := s.open - {w})
    case Execute(w) =>
      && w in s.open && s.open[w].pipeline in pipelines
      && pipelines[s.open[w].pipeline].need <= |Uses(pipelines, s.open[w])|
      && t == Executed(pipelines, s, w)
    case Abort(w) =>
      && w in s.open
      && t == s.(open := s.open - {w})
  }

  /** One execution, and every dataset of its pipeline back to WAITING. */
  function Executed(pipelines: Pipelines, s: State, w: WorkerId): State
    requires w in s.open && s.open[w].pipeline in pipelines
  {
    var call := s.open[w];
    var landed := Landed(s, call);
    landed.(ready := Off(landed.ready, pipelines[call.pipeline].datasets),
            executions := s.executions + [Execution(call.pipeline, Uses(pipelines, call))],
            open := s.open - {w})
  }

  predicate OnePerDataset(arrivals: set<Arrival>) {
    forall a, b :: a in arrivals && b in arrivals && a.id == b.id ==> a == b
  }

  ghost predicate Init(s: State) {
    && s.executions == [] && s.open == map[]
    && s.issued == s.ready && OnePerDataset(s.ready) && forall a :: a in s.issued ==> a.serial < s.next
  }

  ghost predicate Next(pipelines: Pipelines, s: State, t: State) {
    exists step :: NextStep(pipelines, s, t, step)
  }

  ghost predicate Behavior(pipelines: Pipelines, run: seq<State>) {
    && run != [] && Init(run[0])
    && forall i :: 0 <= i < |run| - 1 ==> Next(pipelines, run[i], run[i + 1])
  }

  // ---- Counting uses --------------------------------------------------------

  function Used(executions: seq<Execution>): set<Arrival> {
    if executions == [] then {} else Used(executions[..|executions| - 1]) + executions[|executions| - 1].uses
  }

  /** Uses counted once for every execution. */
  function TotalUses(executions: seq<Execution>, ids: set<DatasetId>): nat {
    if executions == [] then 0
    else TotalUses(executions[..|executions| - 1], ids) + |On(executions[|executions| - 1].uses, ids)|
  }

  /** Uses of arrivals that an earlier execution has used. */
  function Repeats(executions: seq<Execution>, ids: set<DatasetId>): nat {
    if executions == [] then 0
    else
      var front, last := executions[..|executions| - 1], executions[|executions| - 1];
      Repeats(front, ids) + |On(last.uses * Used(front), ids)|
  }

  function ExecutionsOf(executions: seq<Execution>, p: string): nat {
    if executions == [] then 0
    else
      ExecutionsOf(executions[..|executions| - 1], p)
      + (if executions[|executions| - 1].pipeline == p then 1 else 0)
  }

  lemma {:induction false} UnionSize(a: set<Arrival>, b: set<Arrival>)
    ensures |a + b| + |a * b| == |a| + |b|
  {
    assert a + b == a + (b - a) && b == (b - a) + a * b;
  }

  lemma {:induction false} OnParts(a: set<Arrival>, b: set<Arrival>, ids: set<DatasetId>)
    ensures On(a + b, ids) == On(a, ids) + On(b, ids) && On(b * a, ids) == On(a, ids) * On(b, ids)
  {
  }

  lemma {:induction false} UsesAreUsedPlusRepeats(executions: seq<Execution>, ids: set<DatasetId>)
    ensures TotalUses(executions, ids) == |On(Used(executions), ids)| + Repeats(executions, ids)
  {
    if executions == [] {
      assert On({}, ids) == {};
    } else {
      hide On;
      var front, uses := executions[..|executions| - 1], executions[|executions| - 1].uses;
      UsesAreUsedPlusRepeats(front, ids);
      OnParts(Used(front), uses, ids);
      UnionSize(On(Used(front), ids), On(uses, ids));
    }
  }

  // ---- The invariant --------------------------------------------------------

  /** What is ready was issued and not used. */
  ghost predicate Accounted(s: State) {
    && s.ready <= s.issued && Used(s.executions) <= s.issued
    && Used(s.executions) !! s.ready
    && forall a :: a in s.issued ==> a.serial < s.next
  }

  /** A call's own serial is still its own, and what it sees was issued or is its own. */
  ghost predicate CallsApart(s: State) {
    && (forall w, a :: w in s.open && a in s.issued ==> a.serial != s.open[w].serial)
    && (forall v, w :: v in s.open && w in s.open && s.open[v].serial == s.open[w].serial ==> v == w)
    && (forall w :: w in s.open ==> s.open[w].serial < s.next)
    && (forall w :: w in s.open ==>
          s.open[w].view <= s.issued + Issue(s.open[w].arriving, s.open[w].serial))
  }

  /** Every READY dataset is so by one arrival, so counting arrivals counts datasets. */
  ghost predicate Countable(s: State) {
    && OnePerDataset(s.ready)
    && forall w :: w in s.open ==> OnePerDataset(s.open[w].view)
  }

  ghost predicate Inv(s: State) {
    Accounted(s) && CallsApart(s) && Countable(s)
  }

  lemma {:induction false} SwitchedIsCountable(
    ready: set<Arrival>, arriving: set<DatasetId>, withdrawn: set<DatasetId>, serial: nat)
    requires OnePerDataset(ready)
    ensures OnePerDataset(Switched(ready, arriving, withdrawn, serial))
    ensures Switched(ready, arriving, withdrawn, serial) <= ready + Issue(arriving, serial)
  {
  }

  lemma {:induction false} PublishKeepsInv(s: State, id: DatasetId)
    requires Inv(s)
    ensures Inv(s.(ready := Switched(s.ready, {id}, {}, s.next), issued := s.issued + {Arrival(id, s.next)},
                   next := s.next + 1))
    ensures Inv(s.(ready := Off(s.ready, {id})))
  {
    hide Switched, OnePerDataset, Used;
    SwitchedIsCountable(s.ready, {id}, {}, s.next);
    OffIsCountable(s.ready, {id});
  }

  lemma {:induction false} OffIsCountable(ready: set<Arrival>, ids: set<DatasetId>)
    requires OnePerDataset(ready)
    ensures OnePerDataset(Off(ready, ids)) && Off(ready, ids) <= ready
  {
  }

  lemma {:induction false} LookKeepsInv(s: State, w: WorkerId, call: Call)
    requires Inv(s) && w !in s.open
    requires call.view == Switched(s.ready, call.arriving, call.withdrawn, s.next) && call.serial == s.next
    ensures Inv(s.(open := s.open[w := call], next := s.next + 1))
  {
    hide Switched, OnePerDataset, Used;
    SwitchedIsCountable(s.ready, call.arriving, call.withdrawn, s.next);
  }

  lemma {:induction false} LandingKeepsInv(s: State, w: WorkerId)
    requires Inv(s) && w in s.open
    ensures Inv(Landed(s, s.open[w]).(open := s.open - {w})) && Inv(s.(open := s.open - {w}))
  {
  }

  lemma {:induction false} ExecuteKeepsInv(pipelines: Pipelines, s: State, w: WorkerId)
    requires Inv(s) && w in s.open && s.open[w].pipeline in pipelines
    ensures Inv(Executed(pipelines, s, w))
  {
    var call, t := s.open[w], Executed(pipelines, s, w);
    var landed := Landed(s, call).(open := s.open - {w});
    LandingKeepsInv(s, w);
    UsedGrows(s.executions, t.executions[|s.executions|]);
    assert t.ready <= landed.ready;
  }

  lemma {:induction false} UsedGrows(executions: seq<Execution>, x: Execution)
    ensures Used(executions + [x]) == Used(executions) + x.uses
  {
    assert (executions + [x])[..|executions|] == executions;
  }

  lemma {:induction false} NextKeepsInv(pipelines: Pipelines, s: State, t: State)
    requires Inv(s) && Next(pipelines, s, t)
    ensures Inv(t)
  {
    hide Inv;
    var step :| NextStep(pipelines, s, t, step);
    match step
    case Publish(id) => PublishKeepsInv(s, id);
    case Withdraw(id) => PublishKeepsInv(s, id);
    case Look(w, _, _, _) => LookKeepsInv(s, w, t.open[w]);
    case Finish(w) => LandingKeepsInv(s, w);
    case Execute(w) => ExecuteKeepsInv(pipelines, s, w);
    case Abort(w) => LandingKeepsInv(s, w);
  }

  lemma {:induction false} BehaviorKeepsInv(pipelines: Pipelines, run: seq<State>, i: nat)
    requires Behavior(pipelines, run) && i < |run|
    ensures Inv(run[i])
  {
    if i > 0 {
      hide Inv;
      BehaviorKeepsInv(pipelines, run, i - 1);
      assert Next(pipelines, run[i - 1], run[i - 1 + 1]);
      NextKeepsInv(pipelines, run[i - 1], run[i]);
    } else {
      assert Used([]) == {};
    }
  }

  // ---- The bound, with overlaps ---------------------------------------------

  /** In every run: uses plus what is ready are paid for by initial readiness, arrivals and repeats. */
  lemma {:induction false} UsesArePaidFor(pipelines: Pipelines, run: seq<State>, i: nat, ids: set<DatasetId>)
    requires Behavior(pipelines, run) && i < |run|
    ensures var s := run[i];
            TotalUses(s.executions, ids) + |On(s.ready, ids)| <= |On(s.issued, ids)| + Repeats(s.executions, ids)
  {
    BehaviorKeepsInv(pipelines, run, i);
    var s := run[i];
    hide Behavior, CallsApart, Countable, Repeats, TotalUses, Used;
    UsesAreUsedPlusRepeats(s.executions, ids);
    var used, ready := On(Used(s.executions), ids), On(s.ready, ids);
    UnionSize(used, ready);
    assert used * ready == {};
    SubsetIsSmaller(used + ready, On(s.issued, ids));
  }

  /** Every execution of `p` in the log used at least `k` of `ids`. */
  ghost predicate Consumes(executions: seq<Execution>, p: string, ids: set<DatasetId>, k: nat) {
    forall i :: 0 <= i < |executions| && executions[i].pipeline == p ==> |On(executions[i].uses, ids)| >= k
  }

  lemma {:induction false} ConsumersUse(executions: seq<Execution>, p: string, ids: set<DatasetId>, k: nat)
    requires Consumes(executions, p, ids, k)
    ensures k * ExecutionsOf(executions, p) <= TotalUses(executions, ids)
  {
    if executions != [] {
      hide On;
      var front, last := executions[..|executions| - 1], executions[|executions| - 1];
      ConsumersUse(front, p, ids, k);
      assert last == executions[|executions| - 1];
      if last.pipeline == p {
        assert k * ExecutionsOf(executions, p) == k * ExecutionsOf(front, p) + k;
      }
    }
  }

  lemma {:induction false} ExecutionsConsume(pipelines: Pipelines, run: seq<State>, i: nat, p: string)
    requires Behavior(pipelines, run) && i < |run| && p in pipelines
    ensures Consumes(run[i].executions, p, pipelines[p].datasets, pipelines[p].need)
  {
    if i > 0 {
      hide On;
      ExecutionsConsume(pipelines, run, i - 1, p);
      var s, t := run[i - 1], run[i - 1 + 1];
      assert Next(pipelines, s, t);
      var step :| NextStep(pipelines, s, t, step);
      if step.Execute? && s.open[step.w].pipeline == p {
        var uses := Uses(pipelines, s.open[step.w]);
        OnTwice(s.open[step.w].view, pipelines[p].datasets);
      }
    }
  }

  lemma {:induction false} OnTwice(arrivals: set<Arrival>, ids: set<DatasetId>)
    ensures On(On(arrivals, ids), ids) == On(arrivals, ids)
  {
  }

  /**
   * In every interleaving, `need` times the executions of a pipeline, plus what is ready now, is
   * paid for by initial readiness, arrivals and the uses of arrivals that were used before.
   */
  lemma {:induction false} OverlapBound(pipelines: Pipelines, run: seq<State>, i: nat, p: string)
    requires Behavior(pipelines, run) && i < |run| && p in pipelines
    ensures var s, ids := run[i], pipelines[p].datasets;
            pipelines[p].need * ExecutionsOf(s.executions, p) + |On(s.ready, ids)|
            <= |On(s.issued, ids)| + Repeats(s.executions, ids)
  {
    hide Behavior, On, Consumes;
    ExecutionsConsume(pipelines, run, i, p);
    ConsumersUse(run[i].executions, p, pipelines[p].datasets, pipelines[p].need);
    UsesArePaidFor(pipelines, run, i, pipelines[p].datasets);
  }

  // ---- When an arrival is used twice ----------------------------------------

  ghost predicate UsedOnce(executions: seq<Execution>) {
    forall i, j :: 0 <= i < j < |executions| ==> executions[i].uses !! executions[j].uses
  }

  /** Step `i` of the run is the commit of an execution by `w`. */
  ghost predicate Executes(pipelines: Pipelines, run: seq<State>, i: nat, w: WorkerId) {
    && i + 1 < |run| && w in run[i].open && run[i].open[w].pipeline in pipelines
    && NextStep(pipelines, run[i], run[i + 1], Execute(w))
  }

  /** The call that executes at `j` was open when the one at `i` executed, and both count an arrival. */
  ghost predicate Overlap(pipelines: Pipelines, run: seq<State>, i: nat, v: WorkerId, j: nat, w: WorkerId) {
    && i < j && Executes(pipelines, run, i, v) && Executes(pipelines, run, j, w)
    && w in run[i].open && run[i].open[w] == run[j].open[w]
    && Uses(pipelines, run[i].open[v]) * Uses(pipelines, run[j].open[w]) != {}
  }

  ghost predicate Overlaps(pipelines: Pipelines, run: seq<State>, n: nat) {
    exists i: nat, v, j: nat, w :: j < n && Overlap(pipelines, run, i, v, j, w)
  }

  lemma {:induction false} StepGrows(pipelines: Pipelines, run: seq<State>, i: nat)
    requires Behavior(pipelines, run) && i + 1 < |run|
    ensures run[i].executions <= run[i + 1].executions
    ensures (exists w :: Executes(pipelines, run, i, w)) || run[i + 1].executions == run[i].executions
  {
    assert Next(pipelines, run[i], run[i + 1]);
    var step :| NextStep(pipelines, run[i], run[i + 1], step);
    if step.Execute? {
      assert Executes(pipelines, run, i, step.w);
    }
  }

  lemma {:induction false} LogGrows(pipelines: Pipelines, run: seq<State>, i: nat, j: nat)
    requires Behavior(pipelines, run) && i <= j < |run|
    ensures run[i].executions <= run[j].executions
  {
    if i < j {
      hide Behavior;
      LogGrows(pipelines, run, i, j - 1);
      StepGrows(pipelines, run, j - 1);
    }
  }

  lemma {:induction false} UsedIffInSome(executions: seq<Execution>, a: Arrival)
    ensures a in Used(executions) <==> exists i :: 0 <= i < |executions| && a in executions[i].uses
  {
    if executions != [] {
      var front := executions[..|executions| - 1];
      UsedIffInSome(front, a);
      if a in Used(front) {
        var i :| 0 <= i < |front| && a in front[i].uses;
        assert a in executions[i].uses;
      }
    }
  }

  /** A call that sees an arrival already used was open when it was used. */
  ghost predicate UsedWhileOpen(pipelines: Pipelines, run: seq<State>, n: nat, w: WorkerId, a: Arrival)
    requires n < |run| && w in run[n].open
  {
    exists i: nat, v ::
      && i < n && Executes(pipelines, run, i, v) && a in Uses(pipelines, run[i].open[v])
      && w in run[i].open && run[i].open[w] == run[n].open[w]
  }

  /** What a call sees when it looks is not used yet, so a use of it comes later. */
  lemma {:induction false} SeenThenUsed(pipelines: Pipelines, s: State, t: State, step: Step, w: WorkerId, a: Arrival)
    requires Inv(s) && NextStep(pipelines, s, t, step)
    requires w in t.open && a in t.open[w].view && a in Used(t.executions)
    ensures w in s.open && s.open[w] == t.open[w]
    ensures a in Used(s.executions) || (step.Execute? && a in Uses(pipelines, s.open[step.w]))
  {
    hide Uses, OnePerDataset;
    if step.Execute? {
      UsedGrows(s.executions, t.executions[|s.executions|]);
    }
  }

  lemma {:induction false} SeenUsedWhileOpen(pipelines: Pipelines, run: seq<State>, n: nat, w: WorkerId, a: Arrival)
    requires Behavior(pipelines, run) && n < |run| && w in run[n].open
    requires a in run[n].open[w].view && a in Used(run[n].executions)
    ensures UsedWhileOpen(pipelines, run, n, w, a)
  {
    if n > 0 {
      var s, t := run[n - 1], run[n - 1 + 1];
      assert Next(pipelines, s, t);
      var step :| NextStep(pipelines, s, t, step);
      BehaviorKeepsInv(pipelines, run, n - 1);
      SeenThenUsed(pipelines, s, t, step, w, a);
      hide Behavior, Uses, Used, Inv, NextStep;
      if a in Used(s.executions) {
        SeenUsedWhileOpen(pipelines, run, n - 1, w, a);
        var i: nat, v :|
          && i < n - 1 && Executes(pipelines, run, i, v) && a in Uses(pipelines, run[i].open[v])
          && w in run[i].open && run[i].open[w] == run[n - 1].open[w];
      } else {
        assert Executes(pipelines, run, n - 1, step.w);
      }
    }
  }

  lemma {:induction false} OverlapUsesTwice(
    pipelines: Pipelines, run: seq<State>, i: nat, v: WorkerId, j: nat, w: WorkerId, n: nat)
    requires Behavior(pipelines, run) && j < n < |run| && Overlap(pipelines, run, i, v, j, w)
    ensures !UsedOnce(run[n].executions)
  {
    hide Behavior, Uses;
    LogGrows(pipelines, run, i + 1, j);
    LogGrows(pipelines, run, j + 1, n);
    var x, y := |run[i].executions|, |run[j].executions|;
    var log := run[n].executions;
    assert x < y < |log|;
    assert log[x] == run[j].executions[x] == run[i + 1].executions[x] && log[y] == run[j + 1].executions[y];
    assert log[x].uses == Uses(pipelines, run[i].open[v]) && log[y].uses == Uses(pipelines, run[j].open[w]);
  }

  lemma {:induction false} OverlapsGrow(pipelines: Pipelines, run: seq<State>, m: nat, n: nat)
    requires m <= n && Overlaps(pipelines, run, m)
    ensures Overlaps(pipelines, run, n)
  {
    hide Overlap;
    var i: nat, v, j: nat, w :| j < m && Overlap(pipelines, run, i, v, j, w);
  }

  lemma {:induction false} TwiceMeansOverlap(pipelines: Pipelines, run: seq<State>, n: nat)
    requires Behavior(pipelines, run) && n < |run| && !UsedOnce(run[n].executions)
    ensures Overlaps(pipelines, run, n)
  {
    if n > 0 {
      hide Behavior, NextStep, Uses;
      StepGrows(pipelines, run, n - 1);
      if !UsedOnce(run[n - 1].executions) {
        TwiceMeansOverlap(pipelines, run, n - 1);
        OverlapsGrow(pipelines, run, n - 1, n);
      } else {
        var w :| Executes(pipelines, run, n - 1, w);
        LastRepeats(pipelines, run, n - 1, w);
      }
    }
  }

  lemma {:induction false} ExecutesAppends(pipelines: Pipelines, run: seq<State>, i: nat, w: WorkerId)
    requires Executes(pipelines, run, i, w)
    ensures w in run[i].open && run[i].open[w].pipeline in pipelines
    ensures var call := run[i].open[w];
            run[i + 1].executions == run[i].executions + [Execution(call.pipeline, Uses(pipelines, call))]
  {
    hide Uses, Switched;
  }

  lemma {:induction false} SharedUse(
    pipelines: Pipelines, run: seq<State>, i: nat, v: WorkerId, j: nat, w: WorkerId, a: Arrival)
    requires i < j && Executes(pipelines, run, i, v) && Executes(pipelines, run, j, w)
    requires w in run[i].open && run[i].open[w] == run[j].open[w]
    requires a in Uses(pipelines, run[i].open[v]) && a in Uses(pipelines, run[j].open[w])
    ensures Overlaps(pipelines, run, j + 1)
  {
    hide NextStep, Uses;
    assert a in Uses(pipelines, run[i].open[v]) * Uses(pipelines, run[j].open[w]);
    assert Overlap(pipelines, run, i, v, j, w);
  }

  lemma {:induction false} SeenTwiceOverlaps(pipelines: Pipelines, run: seq<State>, n: nat, w: WorkerId, a: Arrival)
    requires n + 1 < |run| && Executes(pipelines, run, n, w) && a in Uses(pipelines, run[n].open[w])
    requires UsedWhileOpen(pipelines, run, n, w, a)
    ensures Overlaps(pipelines, run, n + 1)
  {
    hide NextStep, Uses, Overlaps;
    var i: nat, v :|
      && i < n && Executes(pipelines, run, i, v) && a in Uses(pipelines, run[i].open[v])
      && w in run[i].open && run[i].open[w] == run[n].open[w];
    SharedUse(pipelines, run, i, v, n, w, a);
  }

  lemma {:induction false} LastRepeats(pipelines: Pipelines, run: seq<State>, n: nat, w: WorkerId)
    requires Behavior(pipelines, run) && n + 1 < |run| && Executes(pipelines, run, n, w)
    requires UsedOnce(run[n].executions) && !UsedOnce(run[n + 1].executions)
    ensures Overlaps(pipelines, run, n + 1)
  {
    ExecutesAppends(pipelines, run, n, w);
    UsesAreSeen(pipelines, run[n].open[w]);
    hide *;
    var before, uses := run[n].executions, Uses(pipelines, run[n].open[w]);
    var last := Execution(run[n].open[w].pipeline, uses);
    LastIsNew(before + [last]);
    assert (before + [last])[..|before|] == before;
    var a :| a in uses && a in Used(before);
    SeenUsedWhileOpen(pipelines, run, n, w, a);
    SeenTwiceOverlaps(pipelines, run, n, w, a);
  }

  lemma {:induction false} UsesAreSeen(pipelines: Pipelines, call: Call)
    requires call.pipeline in pipelines
    ensures Uses(pipelines, call) <= call.view
  {
  }

  /**
   * Each arrival is used by at most one execution, whatever pipelines share, exactly when no
   * executing call was open while another one executed that counted the same arrival.
   */
  lemma {:induction false} UsedOnceIff(pipelines: Pipelines, run: seq<State>, n: nat)
    requires Behavior(pipelines, run) && n < |run|
    ensures UsedOnce(run[n].executions) <==> !Overlaps(pipelines, run, n)
  {
    hide Behavior, UsedOnce, Overlap;
    if Overlaps(pipelines, run, n) {
      var i: nat, v, j: nat, w :| j < n && Overlap(pipelines, run, i, v, j, w);
      OverlapUsesTwice(pipelines, run, i, v, j, w, n);
    } else if !UsedOnce(run[n].executions) {
      TwiceMeansOverlap(pipelines, run, n);
    }
  }

  lemma {:induction false} NoRepeatsIff(executions: seq<Execution>)
    ensures UsedOnce(executions) <==> forall ids :: Repeats(executions, ids) == 0
  {
    if executions != [] {
      hide UsedOnce, Used, Repeats;
      var front, last := executions[..|executions| - 1], executions[|executions| - 1];
      NoRepeatsIff(front);
      LastIsNew(executions);
      var shared := last.uses * Used(front);
      if UsedOnce(executions) {
        forall ids
          ensures Repeats(executions, ids) == 0
        {
          RepeatsStep(executions, ids);
          assert shared == {} && On(shared, ids) == {};
        }
      } else if UsedOnce(front) {
        var a :| a in last.uses && a in Used(front);
        RepeatsStep(executions, {a.id});
        assert a in On(shared, {a.id});
      } else {
        var ids :| Repeats(front, ids) != 0;
        RepeatsStep(executions, ids);
      }
    }
  }

  lemma {:induction false} RepeatsStep(executions: seq<Execution>, ids: set<DatasetId>)
    requires executions != []
    ensures var front, last := executions[..|executions| - 1], executions[|executions| - 1];
            Repeats(executions, ids) == Repeats(front, ids) + |On(last.uses * Used(front), ids)|
  {
  }

  lemma {:induction false} LastIsNew(executions: seq<Execution>)
    requires executions != []
    ensures var front, last := executions[..|executions| - 1], executions[|executions| - 1];
            UsedOnce(executions) <==> UsedOnce(front) && last.uses !! Used(front)
  {
    var front, last := executions[..|executions| - 1], executions[|executions| - 1];
    assert forall i :: 0 <= i < |front| ==> executions[i] == front[i];
    if UsedOnce(executions) {
      forall a | a in last.uses
        ensures a !in Used(front)
      {
        UsedIffInSome(front, a);
      }
    }
    if UsedOnce(front) && last.uses !! Used(front) {
      forall i | 0 <= i < |front|
        ensures front[i].uses !! last.uses
      {
        forall a | a in front[i].uses
          ensures a in Used(front)
        {
          UsedIffInSome(front, a);
        }
      }
    }
  }

  /** Without such an overlap the bound of atomic calls holds. */
  lemma {:induction false} BoundWithoutOverlap(pipelines: Pipelines, run: seq<State>, n: nat, p: string)
    requires Behavior(pipelines, run) && n < |run| && p in pipelines && !Overlaps(pipelines, run, n)
    ensures var s, ids := run[n], pipelines[p].datasets;
            pipelines[p].need * ExecutionsOf(s.executions, p) + |On(s.ready, ids)| <= |On(s.issued, ids)|
  {
    hide Behavior, Overlaps, UsedOnce, On, Repeats;
    UsedOnceIff(pipelines, run, n);
    NoRepeatsIff(run[n].executions);
    OverlapBound(pipelines, run, n, p);
  }

  // ---- The failing run ------------------------------------------------------

  lemma {:induction false} QuietSwitch(ready: set<Arrival>, serial: nat)
    ensures Switched(ready, {}, {}, serial) == ready && Issue({}, serial) == {}
  {
    assert Off(ready, {} + {}) == ready;
  }

  lemma {:induction false} QuietLook(pipelines: Pipelines, s: State, w: WorkerId, p: string)
    requires p in pipelines && w !in s.open
    ensures Next(pipelines, s, s.(open := s.open[w := Call(p, s.ready, {}, {}, s.next)], next := s.next + 1))
  {
    QuietSwitch(s.ready, s.next);
    hide Switched;
    var t := s.(open := s.open[w := Call(p, s.ready, {}, {}, s.next)], next := s.next + 1);
    assert NextStep(pipelines, s, t, Look(w, p, {}, {}));
  }

  lemma {:induction false} QuietExecute(pipelines: Pipelines, s: State, w: WorkerId, p: string)
    requires w in s.open && p in pipelines && s.open[w].pipeline == p
    requires s.open[w].arriving == s.open[w].withdrawn == {}
    requires pipelines[p].need <= |Uses(pipelines, s.open[w])|
    ensures Next(pipelines, s, Executed(pipelines, s, w))
    ensures Executed(pipelines, s, w).executions == s.executions + [Execution(p, Uses(pipelines, s.open[w]))]
    ensures Executed(pipelines, s, w).issued == s.issued && Executed(pipelines, s, w).open == s.open - {w}
  {
    QuietSwitch(s.ready, s.open[w].serial);
    hide Switched, Uses;
    assert NextStep(pipelines, s, Executed(pipelines, s, w), Execute(w));
  }

  /**
   * For every pipeline whose TRIGGER needs a dataset: two calls look at the same ready datasets, and
   * both execute. Its executions then use twice what was ever ready.
   */
  lemma {:induction false} OverlapBreaksBound(pipelines: Pipelines, p: string) returns (run: seq<State>)
    requires p in pipelines && 0 < pipelines[p].need <= |pipelines[p].datasets|
    ensures Behavior(pipelines, run) && |run| == 5
    ensures var s, ids := run[4], pipelines[p].datasets;
            && ExecutionsOf(s.executions, p) == 2 && s.issued == Issue(ids, 0)
            && TotalUses(s.executions, ids) == 2 * |On(s.issued, ids)| > |On(s.issued, ids)|
  {
    hide *;
    var ids := pipelines[p].datasets;
    var all := Issue(ids, 0);
    AllOfIssue(ids, 0);
    var s0 := State(all, [], map[], 1, all);
    StartsReady(ids);
    var s1 := s0.(open := s0.open[0 := Call(p, all, {}, {}, 1)], next := 2);
    QuietLook(pipelines, s0, 0, p);
    var s2 := s1.(open := s1.open[1 := Call(p, all, {}, {}, 2)], next := 3);
    QuietLook(pipelines, s1, 1, p);
    UsesOfAll(pipelines, s2.open[0]);
    var s3 := Executed(pipelines, s2, 0);
    QuietExecute(pipelines, s2, 0, p);
    UsesOfAll(pipelines, s3.open[1]);
    var s4 := Executed(pipelines, s3, 1);
    QuietExecute(pipelines, s3, 1, p);
    run := [s0, s1, s2, s3, s4];
    FourSteps(pipelines, s0, s1, s2, s3, s4);
    TwoExecutions(Execution(p, all), ids);
  }

  lemma {:induction false} FourSteps(pipelines: Pipelines, s0: State, s1: State, s2: State, s3: State, s4: State)
    requires Init(s0) && Next(pipelines, s0, s1) && Next(pipelines, s1, s2)
    requires Next(pipelines, s2, s3) && Next(pipelines, s3, s4)
    ensures Behavior(pipelines, [s0, s1, s2, s3, s4])
  {
    hide Init, Next;
  }

  lemma {:induction false} StartsReady(ids: set<DatasetId>)
    ensures Init(State(Issue(ids, 0), [], map[], 1, Issue(ids, 0)))
  {
  }

  lemma {:induction false} UsesOfAll(pipelines: Pipelines, call: Call)
    requires call.pipeline in pipelines && call.view == Issue(pipelines[call.pipeline].datasets, 0)
    ensures Uses(pipelines, call) == call.view
  {
  }

  lemma {:induction false} TwoExecutions(x: Execution, ids: set<DatasetId>)
    ensures [] + [x] + [x] == [x, x]
    ensures ExecutionsOf([x, x], x.pipeline) == 2 && TotalUses([x, x], ids) == 2 * |On(x.uses, ids)|
  {
    hide On;
    assert [x, x][..1] == [x] && [x][..0] == [];
    assert ExecutionsOf([x], x.pipeline) == 1 && TotalUses([x], ids) == |On(x.uses, ids)|;
  }

  lemma {:induction false} AllOfIssue(ids: set<DatasetId>, serial: nat)
    ensures On(Issue(ids, serial), ids) == Issue(ids, serial) && |Issue(ids, serial)| == |ids|
  {
    ArrivalPerDataset(ids, serial);
  }

  lemma {:induction false} ArrivalPerDataset(ids: set<DatasetId>, serial: nat)
    ensures |Issue(ids, serial)| == |ids|
  {
    if ids == {} {
      assert Issue(ids, serial) == {};
    } else {
      var id :| id in ids;
      ArrivalPerDataset(ids - {id}, serial);
      assert Issue(ids, serial) == Issue(ids - {id}, serial) + {Arrival(id, serial)};
    }
  }
}
