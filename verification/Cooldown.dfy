/**
 * The cooldown of a pipeline with its clock: `process_event` compares the time with the newest
 * execution that is RUNNING or COMPLETED, as stored in `created_at`.
 */
module Cooldown {
  import opened Common
  import opened RuleEvaluator
  import opened DependencyEngine

  /**
   * The tables with, for each execution in order, its `created_at`. `idle` are the executions whose
   * status is neither RUNNING nor COMPLETED. The others record history: the time read and the
   * cooldown asked for by the call that made each execution, and which ones were ever idle.
   */
  datatype Timed = Timed(
    db: Db, created: seq<int>, idle: set<nat>, madeAt: seq<int>, asked: seq<Option<int>>, everIdle: set<nat>)

  /** `created` is what the database would store for an execution of this call; its clock is not trusted. */
  datatype Call = Call(event: Event, now: int, cooldown: Option<int>, created: int)

  datatype Move = Handle(call: Call) | Arrive(id: DatasetId) | Settle(execution: nat, counts: bool)

  predicate WellTimed(t: Timed) {
    && WellFormed(t.db)
    && |t.created| == |t.madeAt| == |t.asked| == |t.db.executions|
    && t.idle <= t.everIdle
  }

  /** The newest of the first `n` executions of `p` that counts. */
  function Newest(executions: seq<ExecutionRow>, idle: set<nat>, p: string, n: nat): (r: Option<nat>)
    requires n <= |executions|
    ensures r.Some? ==> r.value < n && executions[r.value].pipeline == p && r.value !in idle
    ensures forall i :: 0 <= i < n && executions[i].pipeline == p && i !in idle ==> r.Some? && i <= r.value
  {
    if n == 0 then None
    else if executions[n - 1].pipeline == p && n - 1 !in idle then Some(n - 1)
    else Newest(executions, idle, p, n - 1)
  }

  /** The cooldown check; without a positive cooldown there is none. */
  predicate Cools(t: Timed, call: Call)
    requires WellTimed(t)
  {
    && call.cooldown.Some? && call.cooldown.value > 0
    && var newest := Newest(t.db.executions, t.idle, call.event.pipeline, |t.db.executions|);
    && newest.Some? && call.now - t.created[newest.value] < call.cooldown.value
  }

  function AtTime(t: Timed, call: Call): Event
    requires WellTimed(t)
  {
    call.event.(cooling := Cools(t, call))
  }

  function After(t: Timed, move: Move): Timed
    requires WellTimed(t)
  {
    match move
    case Handle(call) =>
      var db := Processed(t.db, AtTime(t, call)).0;
      if |db.executions| == |t.db.executions| then t.(db := db)
      else
        t.(db := db, created := t.created + [call.created], madeAt := t.madeAt + [call.now],
           asked := t.asked + [call.cooldown])
    case Arrive(id) => t.(db := Apply(t.db, Publish(id)))
    case Settle(i, counts) =>
      if counts then t.(idle := t.idle - {i}) else t.(idle := t.idle + {i}, everIdle := t.everIdle + {i})
  }

  lemma {:induction false} HandleShape(t: Timed, call: Call)
    requires WellTimed(t)
    ensures var db := Processed(t.db, AtTime(t, call)).0;
            && WellFormed(db)
            && (db.executions == t.db.executions
                || (&& |db.executions| == |t.db.executions| + 1
                    && db.executions[..|t.db.executions|] == t.db.executions
                    && db.executions[|t.db.executions|].pipeline == call.event.pipeline
                    && !Cools(t, call)))
  {
    var ev := AtTime(t, call);
    hide *;
    ProcessedIsWellFormed(t.db, ev);
    PipelineKept(t, call);
    if Processed(t.db, ev).0.executions != t.db.executions {
      ExecutionShape(t.db, ev);
      NotCooling(t.db, ev);
    }
  }

  lemma {:induction false} PipelineKept(t: Timed, call: Call)
    requires WellTimed(t)
    ensures WellFormed(t.db) && AtTime(t, call).pipeline == call.event.pipeline
    ensures AtTime(t, call).cooling == Cools(t, call)
  {
    hide Cools;
  }

  lemma {:induction false} NotCooling(db: Db, ev: Event)
    requires WellFormed(db) && Processed(db, ev).0.executions != db.executions
    ensures !ev.cooling
  {
    RefusedCallsChangeNothing(db, ev);
    if Processed(db, ev).1 !in {NotConfigured, Skipped} {
      CoolingCallBlocks(db, ev);
    }
  }

  lemma {:induction false} MoveKeepsTime(t: Timed, move: Move)
    requires WellTimed(t)
    ensures WellTimed(After(t, move))
  {
    match move
    case Handle(call) =>
      HandleShape(t, call);
      hide Processed, WellFormed, Cools;
    case Arrive(id) =>
      hide Processed;
    case Settle(_, _) =>
      hide Processed, WellFormed;
  }

  function Moved(t: Timed, moves: seq<Move>): (r: Timed)
    requires WellTimed(t)
    ensures WellTimed(r)
  {
    if moves == [] then t
    else
      MoveKeepsTime(Moved(t, moves[..|moves| - 1]), moves[|moves| - 1]);
      After(Moved(t, moves[..|moves| - 1]), moves[|moves| - 1])
  }

  // ---- One call -------------------------------------------------------------

  /**
   * A call cools down exactly when it is neither unconfigured nor executed already and the newest
   * execution of its pipeline that counts is younger than the cooldown it asks for.
   */
  lemma {:induction false} CoolsDownIff(t: Timed, call: Call)
    requires WellTimed(t)
    ensures var outcome := Processed(t.db, AtTime(t, call)).1;
            outcome == CoolingDown <==>
            outcome != NotConfigured && outcome != Skipped
            && call.cooldown.Some? && call.cooldown.value > 0
            && exists i :: 0 <= i < |t.db.executions| && Counting(t, call.event.pipeline, i)
                 && (forall j :: i < j < |t.db.executions| ==> !Counting(t, call.event.pipeline, j))
                 && call.now - t.created[i] < call.cooldown.value
  {
    PipelineKept(t, call);
    var outcome := Processed(t.db, AtTime(t, call)).1;
    if outcome != NotConfigured && outcome != Skipped {
      CoolingCallBlocks(t.db, AtTime(t, call));
    }
    hide Processed, WellFormed, AtTime;
    CoolsIff(t, call);
  }

  /** Execution `i` is one of `p` and RUNNING or COMPLETED. */
  predicate Counting(t: Timed, p: string, i: nat)
    requires i < |t.db.executions|
  {
    t.db.executions[i].pipeline == p && i !in t.idle
  }

  lemma {:induction false} CoolsIff(t: Timed, call: Call)
    requires WellTimed(t)
    ensures Cools(t, call) <==>
            call.cooldown.Some? && call.cooldown.value > 0
            && exists i :: 0 <= i < |t.db.executions| && Counting(t, call.event.pipeline, i)
                 && (forall j :: i < j < |t.db.executions| ==> !Counting(t, call.event.pipeline, j))
                 && call.now - t.created[i] < call.cooldown.value
  {
    hide WellFormed;
    var newest := Newest(t.db.executions, t.idle, call.event.pipeline, |t.db.executions|);
    if newest.Some? {
      assert Counting(t, call.event.pipeline, newest.value);
    }
  }

  // ---- Runs -----------------------------------------------------------------

  /**
   * Execution `j` came at least the cooldown it asked for after one of its pipeline that is no older
   * than `i`, namely the newest that counted.
   */
  ghost predicate SpacedFrom(t: Timed, i: nat, j: nat)
    requires WellTimed(t) && j < |t.db.executions|
  {
    exists m: nat :: i <= m < j && t.db.executions[m].pipeline == t.db.executions[j].pipeline
      && (t.asked[j].Some? ==> t.madeAt[j] - t.created[m] >= t.asked[j].value)
  }

  /** Execution `j` asked for a cooldown, and the earlier `i` of its pipeline always counted. */
  predicate Follows(t: Timed, i: nat, j: nat)
    requires WellTimed(t)
  {
    && i < j < |t.db.executions| && i !in t.everIdle
    && t.db.executions[i].pipeline == t.db.executions[j].pipeline
    && t.asked[j].Some? && t.asked[j].value > 0
  }

  ghost predicate Cooled(t: Timed)
    requires WellTimed(t)
  {
    forall i: nat, j: nat :: Follows(t, i, j) ==> SpacedFrom(t, i, j)
  }

  lemma {:induction false} HandleKeepsCooled(t: Timed, call: Call)
    requires WellTimed(t) && Cooled(t) && WellTimed(After(t, Handle(call)))
    ensures Cooled(After(t, Handle(call)))
  {
    HandleShape(t, call);
    var u, n := After(t, Handle(call)), |t.db.executions|;
    hide Processed, WellFormed, SpacedFrom, AtTime;
    forall i: nat, j: nat | Follows(u, i, j)
      ensures SpacedFrom(u, i, j)
    {
      if j < n {
        assert Follows(t, i, j) && SpacedFrom(t, i, j);
        SpacedStays(t, u, i, j);
      } else {
        NewIsSpaced(t, call, u, i);
      }
    }
  }

  lemma {:induction false} SpacedStays(t: Timed, u: Timed, i: nat, j: nat)
    requires WellTimed(t) && WellTimed(u) && i < j < |t.db.executions| && SpacedFrom(t, i, j)
    requires t.db.executions <= u.db.executions && t.created <= u.created
    requires t.madeAt <= u.madeAt && t.asked <= u.asked
    ensures SpacedFrom(u, i, j)
  {
    hide WellFormed;
    var m: nat :| i <= m < j && t.db.executions[m].pipeline == t.db.executions[j].pipeline
      && (t.asked[j].Some? ==> t.madeAt[j] - t.created[m] >= t.asked[j].value);
    assert u.db.executions[m] == t.db.executions[m] && u.db.executions[j] == t.db.executions[j];
    assert u.created[m] == t.created[m] && u.madeAt[j] == t.madeAt[j] && u.asked[j] == t.asked[j];
  }

  lemma {:induction false} NewIsSpaced(t: Timed, call: Call, u: Timed, i: nat)
    requires WellTimed(t) && WellTimed(u) && !Cools(t, call) && i < |t.db.executions|
    requires |u.db.executions| == |t.db.executions| + 1 && t.db.executions <= u.db.executions
    requires u.db.executions[|t.db.executions|].pipeline == call.event.pipeline == t.db.executions[i].pipeline
    requires u.created == t.created + [call.created] && u.madeAt == t.madeAt + [call.now]
    requires u.asked == t.asked + [call.cooldown] && i !in t.everIdle
    requires call.cooldown.Some? && call.cooldown.value > 0
    ensures SpacedFrom(u, i, |t.db.executions|)
  {
    hide WellFormed;
    var m := Newest(t.db.executions, t.idle, call.event.pipeline, |t.db.executions|).value;
    assert u.db.executions[m] == t.db.executions[m] && u.created[m] == t.created[m];
  }

  lemma {:induction false} MoveKeepsCooled(t: Timed, move: Move)
    requires WellTimed(t) && Cooled(t) && WellTimed(After(t, move))
    ensures Cooled(After(t, move))
  {
    if move.Handle? {
      HandleKeepsCooled(t, move.call);
    } else {
      var u := After(t, move);
      RowsKept(t, move);
      hide After, Processed, WellFormed, SpacedFrom;
      forall i: nat, j: nat | Follows(u, i, j)
        ensures SpacedFrom(u, i, j)
      {
        assert Follows(t, i, j) && SpacedFrom(t, i, j);
        SpacedStays(t, u, i, j);
      }
    }
  }

  lemma {:induction false} RowsKept(t: Timed, move: Move)
    requires WellTimed(t) && !move.Handle?
    ensures var u := After(t, move);
            && u.db.executions == t.db.executions && u.created == t.created
            && u.madeAt == t.madeAt && u.asked == t.asked && t.everIdle <= u.everIdle
  {
    hide Processed, WellFormed;
  }

  /** The calls that made the executions which are there already are not known. */
  predicate Starts(t: Timed) {
    WellTimed(t) && forall i :: 0 <= i < |t.asked| ==> t.asked[i].None?
  }

  lemma {:induction false} RunsAreCooled(t: Timed, moves: seq<Move>)
    requires Starts(t)
    ensures Cooled(Moved(t, moves))
  {
    if moves != [] {
      hide After, Cooled, WellFormed;
      RunsAreCooled(t, moves[..|moves| - 1]);
      MoveKeepsTime(Moved(t, moves[..|moves| - 1]), moves[|moves| - 1]);
      MoveKeepsCooled(Moved(t, moves[..|moves| - 1]), moves[|moves| - 1]);
    }
  }

  /**
   * Over every run, with `created_at` never going back: an execution whose call asked for a cooldown
   * comes at least that long after every earlier one of its pipeline that always counted.
   */
  lemma {:induction false} ExecutionsAreApart(t: Timed, moves: seq<Move>, i: nat, j: nat)
    requires Starts(t)
    requires var u := Moved(t, moves);
             && Follows(u, i, j)
             && forall k, l :: 0 <= k < l < |u.created| ==> u.created[k] <= u.created[l]
    ensures var u := Moved(t, moves); u.madeAt[j] - u.created[i] >= u.asked[j].value
  {
    RunsAreCooled(t, moves);
    hide Moved, WellFormed;
    var u := Moved(t, moves);
    assert SpacedFrom(u, i, j);
  }

  /** An execution that FAILED holds no one back: if none counts, no call cools down. */
  lemma {:induction false} FailedExecutionsDoNotCool(t: Timed, call: Call)
    requires WellTimed(t)
    requires forall i ::
               0 <= i < |t.db.executions| && t.db.executions[i].pipeline == call.event.pipeline ==> i in t.idle
    ensures Processed(t.db, AtTime(t, call)).1 != CoolingDown
  {
    CoolsDownIff(t, call);
    hide Processed, WellFormed, AtTime;
    assert forall i: nat :: i < |t.db.executions| ==> !Counting(t, call.event.pipeline, i);
  }
}
