/**
 * Claiming, reclaiming and finishing rows of `dataset_events`, by one worker and by many.
 * Times are microseconds.
 */
module ClaimProtocol {
  import opened Common

  datatype Status = NEW | PROCESSING | COMPLETED | FAILED | PUBLISHED

  /** A row; its event id is its position. */
  datatype EventRow = EventRow(status: Status, processedAt: Option<int>)

  const SECOND := 1_000_000

  /** The `processed_at` column keeps whole seconds; MySQL rounds what it is given. */
  function Stored(time: int): int { (time + SECOND / 2) / SECOND * SECOND }

  predicate Claimable(row: EventRow, threshold: int) {
    || row.status == NEW
    || (row.status == PROCESSING && row.processedAt.Some? && row.processedAt.value < threshold)
  }

  /** The first `limit` claimable rows from `from` on whose lock no other worker holds. */
  function Pick(rows: seq<EventRow>, from: nat, threshold: int, locked: set<nat>, limit: nat): (ids: seq<nat>)
    requires from <= |rows|
    ensures forall i :: 0 <= i < |ids| ==>
              from <= ids[i] < |rows| && Claimable(rows[ids[i]], threshold) && ids[i] !in locked
    decreases |rows| - from
  {
    if from == |rows| || limit == 0 then []
    else if Claimable(rows[from], threshold) && from !in locked
    then [from] + Pick(rows, from + 1, threshold, locked, limit - 1)
    else Pick(rows, from + 1, threshold, locked, limit)
  }

  lemma {:induction false} PickAscends(rows: seq<EventRow>, from: nat, threshold: int, locked: set<nat>, limit: nat)
    requires from <= |rows|
    ensures var ids := Pick(rows, from, threshold, locked, limit);
            |ids| <= limit && forall i, j :: 0 <= i < j < |ids| ==> ids[i] < ids[j]
    decreases |rows| - from
  {
    if from < |rows| && limit > 0 {
      var taken := Claimable(rows[from], threshold) && from !in locked;
      PickAscends(rows, from + 1, threshold, locked, if taken then limit - 1 else limit);
    }
  }

  /** No eligible row is passed over, except behind a full batch of older ones. */
  lemma {:induction false} PickTakesTheOldest(
    rows: seq<EventRow>, from: nat, threshold: int, locked: set<nat>, limit: nat, id: nat)
    requires from <= id < |rows| && Claimable(rows[id], threshold) && id !in locked
    ensures var ids := Pick(rows, from, threshold, locked, limit);
            id in ids || (|ids| == limit && forall i :: 0 <= i < |ids| ==> ids[i] < id)
    decreases |rows| - from
  {
    if limit > 0 {
      if Claimable(rows[from], threshold) && from !in locked {
        var rest := Pick(rows, from + 1, threshold, locked, limit - 1);
        if from < id {
          PickTakesTheOldest(rows, from + 1, threshold, locked, limit - 1, id);
          assert forall i :: 0 < i < |[from] + rest| ==> ([from] + rest)[i] == rest[i - 1];
        } else {
          assert ([from] + rest)[0] == id;
        }
      } else {
        PickTakesTheOldest(rows, from + 1, threshold, locked, limit, id);
      }
    }
  }

  function Claimed(rows: seq<EventRow>, ids: seq<nat>, now: int): (r: seq<EventRow>)
    ensures |r| == |rows|
    ensures forall id :: 0 <= id < |rows| ==>
              r[id] == if id in ids then EventRow(PROCESSING, Some(Stored(now))) else rows[id]
  {
    seq(|rows|, id requires 0 <= id < |rows| =>
      if id in ids then EventRow(PROCESSING, Some(Stored(now))) else rows[id])
  }

  function Marked(rows: seq<EventRow>, id: nat, status: Status, at: int): (r: seq<EventRow>)
    ensures |r| == |rows|
  {
    if id < |rows| then rows[id := EventRow(status, Some(Stored(at)))] else rows
  }

  // ---- One worker -----------------------------------------------------------

  datatype Summary = Summary(claimed: nat, processed: nat, failed: nat, results: seq<(nat, Status)>)

  class EventTable {
    var rows: seq<EventRow>

    method SelectClaimable(threshold: int, locked: set<nat>, limit: nat) returns (ids: seq<nat>)
      ensures ids == Pick(rows, 0, threshold, locked, limit)
    {
      hide Claimable;
      ids := [];
      var id := 0;
      while id < |rows| && |ids| < limit
        invariant 0 <= id <= |rows| && |ids| <= limit
        invariant ids + Pick(rows, id, threshold, locked, limit - |ids|) == Pick(rows, 0, threshold, locked, limit)
      {
        if Claimable(rows[id], threshold) && id !in locked {
          ids := ids + [id];
        }
        id := id + 1;
      }
    }

    method ClaimEvents(batchSize: nat, staleTimeout: nat, now: int, locked: set<nat>) returns (ids: seq<nat>)
      modifies this
      ensures ids == Pick(old(rows), 0, now - staleTimeout, locked, batchSize)
      ensures rows == Claimed(old(rows), ids, now)
    {
      ids := SelectClaimable(now - staleTimeout, locked, batchSize);
      rows := Claimed(rows, ids, now);
    }

    method MarkEvent(id: nat, status: Status, at: int)
      modifies this
      ensures rows == Marked(old(rows), id, status, at)
    {
      if id < |rows| {
        rows := rows[id := EventRow(status, Some(Stored(at)))];
      }
    }

    /** Dispatches each claimed event and marks it by its outcome. */
    method ProcessClaimed(ids: seq<nat>, succeeds: nat -> bool, at: nat -> int)
      returns (processed: nat, failed: nat, results: seq<(nat, Status)>)
      requires forall i :: 0 <= i < |ids| ==> ids[i] < |rows|
      requires forall i, j :: 0 <= i < j < |ids| ==> ids[i] < ids[j]
      modifies this
      ensures processed == Successes(ids, succeeds) && processed + failed == |ids|
      ensures results == Results(ids, succeeds)
      ensures rows == Settled(old(rows), ids, succeeds, at)
    {
      hide Stored, Settled, Results, Successes;
      processed, failed, results := 0, 0, [];
      NoneSettled(rows, succeeds, at);
      for i := 0 to |ids|
        invariant processed == Successes(ids[..i], succeeds) && processed + failed == i
        invariant results == Results(ids[..i], succeeds)
        invariant rows == Settled(old(rows), ids[..i], succeeds, at)
      {
        var id := ids[i];
        assert ids[..i + 1] == ids[..i] + [id];
        OneMoreSettled(old(rows), ids[..i], id, succeeds, at);
        if succeeds(id) {
          MarkEvent(id, COMPLETED, at(id));
          processed := processed + 1;
          results := results + [(id, COMPLETED)];
        } else {
          MarkEvent(id, FAILED, at(id));
          failed := failed + 1;
          results := results + [(id, FAILED)];
        }
      }
      assert ids[..|ids|] == ids;
    }

    /**
     * One polling pass. `succeeds` says for which events the processing function returns
     * rather than raises; `at` is the database clock at each mark.
     */
    method PollAndProcessBatch(
      batchSize: nat, staleTimeout: nat, now: int, locked: set<nat>, succeeds: nat -> bool, at: nat -> int)
      returns (summary: Summary)
      modifies this
      ensures var ids := Pick(old(rows), 0, now - staleTimeout, locked, batchSize);
              && rows == Settled(old(rows), ids, succeeds, at)
              && summary.claimed == |ids| == summary.processed + summary.failed
              && summary.processed == Successes(ids, succeeds)
              && summary.results == Results(ids, succeeds)
    {
      hide Stored, Results, Successes, Pick, Claimable;
      var ids := ClaimEvents(batchSize, staleTimeout, now, locked);
      PickAscends(old(rows), 0, now - staleTimeout, locked, batchSize);
      var processed, failed, results := ProcessClaimed(ids, succeeds, at);
      summary := Summary(|ids|, processed, failed, results);
      assert rows == Settled(old(rows), ids, succeeds, at);
    }
  }

  function Successes(ids: seq<nat>, succeeds: nat -> bool): nat {
    if ids == [] then 0
    else Successes(ids[..|ids| - 1], succeeds) + (if succeeds(ids[|ids| - 1]) then 1 else 0)
  }

  function Verdict(id: nat, succeeds: nat -> bool): Status { if succeeds(id) then COMPLETED else FAILED }

  function SettledRow(id: nat, succeeds: nat -> bool, at: nat -> int): EventRow {
    EventRow(Verdict(id, succeeds), Some(Stored(at(id))))
  }

  /** A claimed event ends COMPLETED when its processing returned and FAILED when it raised, and is reported so. */
  lemma {:induction false} OutcomesAreMarked(
    rows: seq<EventRow>, ids: seq<nat>, succeeds: nat -> bool, at: nat -> int, i: nat)
    requires i < |ids| && ids[i] < |rows|
    ensures var status := if succeeds(ids[i]) then COMPLETED else FAILED;
            && Settled(rows, ids, succeeds, at)[ids[i]] == EventRow(status, Some(Stored(at(ids[i]))))
            && Results(ids, succeeds)[i] == (ids[i], status)
  {
    hide Stored, Settled, Results;
  }

  function Succeeding(ids: seq<nat>, succeeds: nat -> bool): set<nat> {
    set id | id in ids && succeeds(id)
  }

  lemma {:induction false} OneMoreSucceeding(ids: seq<nat>, id: nat, succeeds: nat -> bool)
    requires id !in ids
    ensures |Succeeding(ids + [id], succeeds)| == |Succeeding(ids, succeeds)| + if succeeds(id) then 1 else 0
  {
    assert Succeeding(ids + [id], succeeds)
        == if succeeds(id) then Succeeding(ids, succeeds) + {id} else Succeeding(ids, succeeds);
  }

  /** The processed events are those whose processing returned. */
  lemma {:induction false} SuccessesAreCounted(ids: seq<nat>, succeeds: nat -> bool)
    requires forall i, j :: 0 <= i < j < |ids| ==> ids[i] != ids[j]
    ensures Successes(ids, succeeds) == |Succeeding(ids, succeeds)|
  {
    if ids != [] {
      var front, last := ids[..|ids| - 1], ids[|ids| - 1];
      SuccessesAreCounted(front, succeeds);
      assert ids == front + [last] && last !in front;
      OneMoreSucceeding(front, last, succeeds);
      hide Succeeding;
    }
  }

  /** Exactly the claimed events are finished, each by its own verdict. */
  function Settled(rows: seq<EventRow>, ids: seq<nat>, succeeds: nat -> bool, at: nat -> int): (r: seq<EventRow>)
    ensures |r| == |rows|
    ensures forall id :: 0 <= id < |rows| ==> r[id] == if id in ids then SettledRow(id, succeeds, at) else rows[id]
  {
    seq(|rows|, id requires 0 <= id < |rows| => if id in ids then SettledRow(id, succeeds, at) else rows[id])
  }

  function Results(ids: seq<nat>, succeeds: nat -> bool): (r: seq<(nat, Status)>)
    ensures |r| == |ids|
    ensures forall i :: 0 <= i < |ids| ==> r[i] == (ids[i], Verdict(ids[i], succeeds))
  {
    seq(|ids|, i requires 0 <= i < |ids| => (ids[i], Verdict(ids[i], succeeds)))
  }

  lemma {:induction false} NoneSettled(rows: seq<EventRow>, succeeds: nat -> bool, at: nat -> int)
    ensures Settled(rows, [], succeeds, at) == rows
    ensures Results([], succeeds) == [] && Successes([], succeeds) == 0
  {
  }

  lemma {:induction false} OneMoreSettled(
    rows: seq<EventRow>, ids: seq<nat>, id: nat, succeeds: nat -> bool, at: nat -> int)
    requires id < |rows|
    ensures Settled(rows, ids + [id], succeeds, at)
         == Settled(rows, ids, succeeds, at)[id := SettledRow(id, succeeds, at)]
    ensures Results(ids + [id], succeeds) == Results(ids, succeeds) + [(id, Verdict(id, succeeds))]
    ensures Successes(ids + [id], succeeds) == Successes(ids, succeeds) + (if succeeds(id) then 1 else 0)
  {
  }

  // ---- Many workers ---------------------------------------------------------

  datatype Claim = Claim(worker: nat, event: nat, at: int)

  /**
   * `claims` is the history of all claims, oldest first; `working` those whose worker is still
   * at it, and `finishes` those whose worker marked the event, in order.
   */
  datatype State = State(rows: seq<EventRow>, claims: seq<Claim>, working: set<nat>, finishes: seq<nat>)

  const EMPTY := State([], [], {}, [])

  /**
   * Each step is one committed transaction of some worker. No clock is trusted: `now` and
   * `at` are arbitrary. `Finish` and `Abandon` (a crash) end one claim of one worker, and
   * `Publish` is the status update of the CDC adapter.
   */
  datatype Step =
    | Insert
    | ClaimBatch(worker: nat, now: int, locked: set<nat>, limit: nat)
    | Finish(claim: nat, success: bool, at: int)
    | Abandon(claim: nat)
    | Publish(id: nat, at: int)

  function ClaimsOf(worker: nat, ids: seq<nat>, now: int): (r: seq<Claim>)
    ensures |r| == |ids|
    ensures forall i :: 0 <= i < |ids| ==> r[i] == Claim(worker, ids[i], now)
  {
    seq(|ids|, i requires 0 <= i < |ids| => Claim(worker, ids[i], now))
  }

  /** The `count` indices from `from` on. */
  function Indices(from: nat, count: nat): (r: set<nat>)
    ensures forall c :: c in r <==> from <= c < from + count
  {
    if count == 0 then {} else Indices(from, count - 1) + {from + count - 1}
  }

  /** A worker finishes or abandons only a claim it is working on. */
  predicate Enabled(s: State, step: Step) {
    && (step.Finish? ==> step.claim in s.working && step.claim < |s.claims|)
    && (step.Abandon? ==> step.claim in s.working)
  }

  function AfterClaim(s: State, worker: nat, ids: seq<nat>, now: int): State {
    State(Claimed(s.rows, ids, now), s.claims + ClaimsOf(worker, ids, now),
          s.working + Indices(|s.claims|, |ids|), s.finishes)
  }

  function Apply(s: State, step: Step, stale: nat): State
    requires Enabled(s, step)
  {
    match step
    case Insert => s.(rows := s.rows + [EventRow(NEW, None)])
    case ClaimBatch(worker, now, locked, limit) =>
      AfterClaim(s, worker, Pick(s.rows, 0, now - stale, locked, limit), now)
    case Finish(c, success, at) =>
      State(Marked(s.rows, s.claims[c].event, if success then COMPLETED else FAILED, at), s.claims,
            s.working - {c}, s.finishes + [c])
    case Abandon(c) => s.(working := s.working - {c})
    case Publish(id, at) => s.(rows := Marked(s.rows, id, PUBLISHED, at))
  }

  /** A run from an empty table: `run[i + 1]` follows from `run[i]` by `steps[i]`. */
  ghost predicate Behavior(run: seq<State>, steps: seq<Step>, stale: nat) {
    && |run| == |steps| + 1 && run[0] == EMPTY
    && forall i :: 0 <= i < |steps| ==> Enabled(run[i], steps[i]) && run[i + 1] == Apply(run[i], steps[i], stale)
  }

  predicate Finished(row: EventRow) { row.status !in {NEW, PROCESSING} }

  lemma {:induction false} StoredIsNear(time: int)
    ensures time - SECOND / 2 <= Stored(time) <= time + SECOND / 2
    ensures Stored(time) % SECOND == 0
    ensures forall whole :: whole % SECOND == 0 && whole <= time ==> whole <= Stored(time)
  {
  }

  ghost predicate Spaced(claims: seq<Claim>, stale: nat) {
    forall i, j :: 0 <= i < j < |claims| && claims[i].event == claims[j].event ==>
      claims[j].at > Stored(claims[i].at) + stale
  }

  /** New events are unclaimed; a row being processed remembers the latest claim time. */
  ghost predicate ClaimsRecorded(rows: seq<EventRow>, claims: seq<Claim>) {
    forall i :: 0 <= i < |claims| ==>
      && claims[i].event < |rows|
      && var row := rows[claims[i].event];
         row.status != NEW
         && (row.status == PROCESSING ==> row.processedAt.Some? && Stored(claims[i].at) <= row.processedAt.value)
  }

  ghost predicate Inv(s: State, stale: nat) {
    Spaced(s.claims, stale) && ClaimsRecorded(s.rows, s.claims)
  }

  /** A claim of an event is late for every earlier claim of it. */
  lemma {:induction false} ClaimComesLate(s: State, id: nat, now: int, stale: nat, i: nat)
    requires Inv(s, stale) && i < |s.claims| && s.claims[i].event == id
    requires id < |s.rows| && Claimable(s.rows[id], now - stale)
    ensures now > Stored(s.claims[i].at) + stale && Stored(s.claims[i].at) <= Stored(now)
  {
  }

  lemma {:induction false} LateClaimsStaySpaced(claims: seq<Claim>, worker: nat, ids: seq<nat>, now: int, stale: nat)
    requires Spaced(claims, stale)
    requires forall i, j :: 0 <= i < j < |ids| ==> ids[i] < ids[j]
    requires forall i, k :: 0 <= i < |claims| && 0 <= k < |ids| && claims[i].event == ids[k] ==>
               now > Stored(claims[i].at) + stale
    ensures Spaced(claims + ClaimsOf(worker, ids, now), stale)
  {
    hide Stored;
  }

  lemma {:induction false} ClaimKeepsInv(s: State, step: Step, stale: nat)
    requires Inv(s, stale) && step.ClaimBatch?
    ensures Inv(Apply(s, step, stale), stale)
  {
    hide Stored, Claimable, Pick;
    var now := step.now;
    var ids := Pick(s.rows, 0, now - stale, step.locked, step.limit);
    PickAscends(s.rows, 0, now - stale, step.locked, step.limit);
    forall i, k | 0 <= i < |s.claims| && 0 <= k < |ids| && s.claims[i].event == ids[k]
      ensures now > Stored(s.claims[i].at) + stale && Stored(s.claims[i].at) <= Stored(now)
    {
      ClaimComesLate(s, ids[k], now, stale, i);
    }
    LateClaimsStaySpaced(s.claims, step.worker, ids, now, stale);
    ClaimsStayRecorded(s.rows, s.claims, step.worker, ids, now);
  }

  lemma {:induction false} ClaimsStayRecorded(
    rows: seq<EventRow>, claims: seq<Claim>, worker: nat, ids: seq<nat>, now: int)
    requires ClaimsRecorded(rows, claims) && forall k :: 0 <= k < |ids| ==> ids[k] < |rows|
    requires forall i, k :: 0 <= i < |claims| && 0 <= k < |ids| && claims[i].event == ids[k] ==>
               Stored(claims[i].at) <= Stored(now)
    ensures ClaimsRecorded(Claimed(rows, ids, now), claims + ClaimsOf(worker, ids, now))
  {
    hide Stored;
  }

  lemma {:induction false} StepKeepsInv(s: State, step: Step, stale: nat)
    requires Inv(s, stale) && Enabled(s, step)
    ensures Inv(Apply(s, step, stale), stale)
  {
    if step.ClaimBatch? {
      ClaimKeepsInv(s, step, stale);
    } else {
      hide Stored;
    }
  }

  lemma {:induction false} BehaviorKeepsInv(run: seq<State>, steps: seq<Step>, stale: nat, i: nat)
    requires Behavior(run, steps, stale) && i < |run|
    ensures Inv(run[i], stale)
  {
    if i > 0 {
      BehaviorKeepsInv(run, steps, stale, i - 1);
      StepKeepsInv(run[i - 1], steps[i - 1], stale);
    }
  }

  // ---- Spacing --------------------------------------------------------------

  /** In some run the claims `i` and `j` of state `n` are of the same event. */
  ghost predicate Reclaims(run: seq<State>, steps: seq<Step>, stale: nat, n: nat, i: nat, j: nat) {
    && Behavior(run, steps, stale) && n < |run|
    && i < j < |run[n].claims| && run[n].claims[i].event == run[n].claims[j].event
  }

  /**
   * Two claims of one event are more than the timeout apart, measured from the stored
   * time of the earlier one; half a second less, measured from its real time.
   */
  lemma {:induction false} ClaimsAreSpaced(run: seq<State>, steps: seq<Step>, stale: nat, n: nat, i: nat, j: nat)
    requires Reclaims(run, steps, stale, n, i, j)
    ensures run[n].claims[j].at > Stored(run[n].claims[i].at) + stale
    ensures run[n].claims[j].at > run[n].claims[i].at + stale - SECOND / 2
  {
    BehaviorKeepsInv(run, steps, stale, n);
    StoredIsNear(run[n].claims[i].at);
  }

  /** The column does not round this time down. */
  predicate NotRoundedDown(at: int) {
    at % SECOND == 0 || at % SECOND >= SECOND / 2
  }

  lemma {:induction false} RoundedDownIff(at: int)
    ensures NotRoundedDown(at) <==> Stored(at) >= at
  {
  }

  /**
   * At the claim itself: a row claimed at `at` becomes stale only after the timeout exactly when its
   * time was not rounded down.
   */
  lemma {:induction false} ClaimableAfterTimeoutIff(at: int)
    ensures (forall threshold :: Claimable(EventRow(PROCESSING, Some(Stored(at))), threshold) ==> threshold > at)
       <==> NotRoundedDown(at)
  {
    RoundedDownIff(at);
    hide Stored;
    if !NotRoundedDown(at) {
      assert Claimable(EventRow(PROCESSING, Some(Stored(at))), at);
    }
  }

  /** In every run, every later claim of an event claimed at `at` is more than the timeout after it. */
  ghost predicate AlwaysSpacedAfter(at: int, stale: nat) {
    forall run: seq<State>, steps: seq<Step>, n: nat, i: nat, j: nat ::
      Reclaims(run, steps, stale, n, i, j) && run[n].claims[i].at == at ==> run[n].claims[j].at > at + stale
  }

  lemma {:induction false} ClaimTheOnlyRow(s: State, row: EventRow, worker: nat, now: int, stale: nat)
    requires s.rows == [row] && Claimable(row, now - stale)
    ensures var t := Apply(s, ClaimBatch(worker, now, {}, 1), stale);
            t.rows == [EventRow(PROCESSING, Some(Stored(now)))] && t.claims == s.claims + [Claim(worker, 0, now)]
            && t.working == s.working + {|s.claims|} && t.finishes == s.finishes
  {
    hide Stored;
    assert Pick([row], 1, now - stale, {}, 0) == [];
    assert Pick([row], 0, now - stale, {}, 1) == [0];
  }

  lemma {:induction false} RunExtends(run: seq<State>, steps: seq<Step>, stale: nat, step: Step)
    requires Behavior(run, steps, stale) && Enabled(run[|steps|], step)
    ensures Behavior(run + [Apply(run[|steps|], step, stale)], steps + [step], stale)
  {
    hide Apply, Enabled;
  }

  /** One event and two workers that claim it one after the other. */
  lemma {:induction false} TwoClaims(first: int, second: int, stale: nat) returns (run: seq<State>, steps: seq<Step>)
    requires Stored(first) < second - stale
    ensures Behavior(run, steps, stale) && |run| == 4
    ensures run[3].claims == [Claim(0, 0, first), Claim(1, 0, second)]
    ensures run[3].working == {0, 1} && run[3].finishes == []
  {
    hide Stored, Pick, Claimed;
    steps := [Insert, ClaimBatch(0, first, {}, 1), ClaimBatch(1, second, {}, 1)];
    var s1 := Apply(EMPTY, steps[0], stale);
    assert s1.rows == [EventRow(NEW, None)];
    ClaimTheOnlyRow(s1, EventRow(NEW, None), 0, first, stale);
    var s2 := Apply(s1, steps[1], stale);
    ClaimTheOnlyRow(s2, EventRow(PROCESSING, Some(Stored(first))), 1, second, stale);
    var s3 := Apply(s2, steps[2], stale);
    run := [EMPTY, s1, s2, s3];
  }

  /** The run in which a claim time that is rounded down lets a second worker in when the timeout is just over. */
  lemma {:induction false} RoundingShortensTheTimeout(at: int, stale: nat)
    returns (run: seq<State>, steps: seq<Step>)
    requires !NotRoundedDown(at)
    ensures Reclaims(run, steps, stale, 3, 0, 1)
    ensures run[3].claims == [Claim(0, 0, at), Claim(1, 0, at + stale)]
  {
    RoundedDownIff(at);
    hide Stored, Behavior;
    run, steps := TwoClaims(at, at + stale, stale);
  }

  /**
   * Claims of one event are more than the timeout apart in real time, over all runs, exactly
   * after claim times that the column does not round down.
   */
  lemma {:induction false} SpacedIffNotRoundedDown(at: int, stale: nat)
    ensures AlwaysSpacedAfter(at, stale) <==> NotRoundedDown(at)
  {
    RoundedDownIff(at);
    hide Stored, Behavior;
    if NotRoundedDown(at) {
      forall run: seq<State>, steps: seq<Step>, n: nat, i: nat, j: nat |
        Reclaims(run, steps, stale, n, i, j) && run[n].claims[i].at == at
        ensures run[n].claims[j].at > at + stale
      {
        ClaimsAreSpaced(run, steps, stale, n, i, j);
      }
    } else {
      var run, steps := RoundingShortensTheTimeout(at, stale);
      assert run[3].claims[0].at == at && run[3].claims[1].at == at + stale;
    }
  }

  // ---- Finishing ------------------------------------------------------------

  lemma {:induction false} FinishedStaysFinished(
    run: seq<State>, steps: seq<Step>, stale: nat, i: nat, j: nat, id: nat)
    requires Behavior(run, steps, stale) && i <= j < |run|
    requires id < |run[i].rows| && Finished(run[i].rows[id])
    ensures id < |run[j].rows| && Finished(run[j].rows[id])
    ensures run[i].claims <= run[j].claims
    ensures forall k :: |run[i].claims| <= k < |run[j].claims| ==> run[j].claims[k].event != id
  {
    if i < j {
      FinishedStaysFinished(run, steps, stale, i, j - 1, id);
      var s := run[j - 1];
      assert run[j] == Apply(s, steps[j - 1], stale);
      if steps[j - 1].ClaimBatch? {
        var ids := Pick(s.rows, 0, steps[j - 1].now - stale, steps[j - 1].locked, steps[j - 1].limit);
        assert id !in ids;
      }
    }
  }

  /** Once COMPLETED or FAILED, an event is never claimed again. */
  lemma {:induction false} FinishedIsNeverClaimed(
    run: seq<State>, steps: seq<Step>, stale: nat, i: nat, j: nat, id: nat)
    requires Behavior(run, steps, stale) && i <= j < |run|
    requires id < |run[i].rows| && run[i].rows[id].status in {COMPLETED, FAILED}
    ensures forall k :: |run[i].claims| <= k < |run[j].claims| ==> run[j].claims[k].event != id
  {
    FinishedStaysFinished(run, steps, stale, i, j, id);
  }

  /** Whenever anyone claims, every worker still at a claim made it within the timeout. */
  ghost predicate WorkersAreTimely(run: seq<State>, steps: seq<Step>, stale: nat) {
    forall i :: 0 <= i < |steps| && i < |run| && steps[i].ClaimBatch? ==> TimelyAt(run[i], steps[i].now, stale)
  }

  ghost predicate TimelyAt(s: State, now: int, stale: nat) {
    forall c :: c in s.working && c < |s.claims| ==> now - stale <= Stored(s.claims[c].at)
  }

  /** A worker still at a claim has its row: marked by its own claim, unless it is published already. */
  ghost predicate WorkersHoldRows(s: State) {
    && (forall c :: c in s.working ==> c < |s.claims| && s.claims[c].event < |s.rows|)
    && (forall c :: c in s.working ==>
          var row := s.rows[s.claims[c].event];
          row.status == PUBLISHED || row == EventRow(PROCESSING, Some(Stored(s.claims[c].at))))
    && (forall c, d :: c in s.working && d in s.working && c != d ==> s.claims[c].event != s.claims[d].event)
  }

  /** Finished events are out of reach: no worker is at them and none can claim them. */
  ghost predicate FinishesSettled(s: State) {
    forall i :: 0 <= i < |s.finishes| ==>
      && s.finishes[i] < |s.claims| && s.claims[s.finishes[i]].event < |s.rows|
      && Finished(s.rows[s.claims[s.finishes[i]].event])
      && forall c :: c in s.working && c < |s.claims| ==> s.claims[c].event != s.claims[s.finishes[i]].event
  }

  /** No event is marked by two finishes. */
  ghost predicate FinishedOnce(s: State) {
    forall i, j :: 0 <= i < j < |s.finishes| && s.finishes[i] < |s.claims| && s.finishes[j] < |s.claims| ==>
      s.claims[s.finishes[i]].event != s.claims[s.finishes[j]].event
  }

  /** Every COMPLETED or FAILED event was marked by a finish. */
  ghost predicate MarksAreFinishes(s: State) {
    forall id :: 0 <= id < |s.rows| && s.rows[id].status in {COMPLETED, FAILED} ==> FinishedBy(s, id)
  }

  ghost predicate FinishedBy(s: State, id: nat) {
    exists i :: 0 <= i < |s.finishes| && s.finishes[i] < |s.claims| && s.claims[s.finishes[i]].event == id
  }

  ghost predicate OnceInv(s: State) {
    WorkersHoldRows(s) && FinishesSettled(s) && FinishedOnce(s) && MarksAreFinishes(s)
  }

  lemma {:induction false} FinishKeepsHolding(s: State, step: Step, stale: nat)
    requires OnceInv(s) && Enabled(s, step) && step.Finish?
    ensures var t := Apply(s, step, stale); WorkersHoldRows(t) && FinishesSettled(t) && FinishedOnce(t)
  {
    hide Stored, MarksAreFinishes;
  }

  lemma {:induction false} FinishIsMarked(s: State, step: Step, stale: nat)
    requires MarksAreFinishes(s) && Enabled(s, step) && step.Finish?
    ensures MarksAreFinishes(Apply(s, step, stale))
  {
    hide Stored;
    var t := Apply(s, step, stale);
    forall id | 0 <= id < |t.rows| && t.rows[id].status in {COMPLETED, FAILED}
      ensures FinishedBy(t, id)
    {
      if id == s.claims[step.claim].event {
        assert t.finishes[|s.finishes|] == step.claim;
      } else {
        var i :| 0 <= i < |s.finishes| && s.finishes[i] < |s.claims| && s.claims[s.finishes[i]].event == id;
        assert t.finishes[i] == s.finishes[i];
      }
    }
  }

  lemma {:induction false} QuietStepKeepsOnce(s: State, step: Step, stale: nat)
    requires OnceInv(s) && Enabled(s, step) && (step.Insert? || step.Abandon? || step.Publish?)
    ensures OnceInv(Apply(s, step, stale))
  {
    hide Stored;
    var t := Apply(s, step, stale);
    forall id | 0 <= id < |t.rows| && t.rows[id].status in {COMPLETED, FAILED}
      ensures FinishedBy(t, id)
    {
      assert FinishedBy(s, id);
    }
  }

  /** No one is at these events, and none of them is finished. */
  ghost predicate Untouched(s: State, ids: seq<nat>) {
    && (forall c :: c in s.working && c < |s.claims| ==> s.claims[c].event !in ids)
    && (forall i :: 0 <= i < |s.finishes| && s.finishes[i] < |s.claims| ==> s.claims[s.finishes[i]].event !in ids)
  }

  lemma {:induction false} TimelyClaimsAreUntouched(s: State, now: int, locked: set<nat>, limit: nat, stale: nat)
    requires OnceInv(s) && TimelyAt(s, now, stale)
    ensures Untouched(s, Pick(s.rows, 0, now - stale, locked, limit))
  {
    hide Stored, MarksAreFinishes, FinishedOnce;
    var ids := Pick(s.rows, 0, now - stale, locked, limit);
    assert forall id :: id in ids ==> id < |s.rows| && Claimable(s.rows[id], now - stale);
  }

  lemma {:induction false} NewWorkersHoldRows(s: State, worker: nat, ids: seq<nat>, now: int)
    requires WorkersHoldRows(s) && Untouched(s, ids)
    requires forall i, j :: 0 <= i < j < |ids| ==> ids[i] < ids[j]
    requires forall k :: 0 <= k < |ids| ==> ids[k] < |s.rows|
    ensures WorkersHoldRows(AfterClaim(s, worker, ids, now))
  {
    hide Stored;
    var t := AfterClaim(s, worker, ids, now);
    forall c | c in t.working
      ensures c < |t.claims| && t.claims[c].event < |t.rows|
      ensures c in s.working ==> t.claims[c] == s.claims[c] && t.claims[c].event !in ids
      ensures c !in s.working ==> |s.claims| <= c && t.claims[c] == Claim(worker, ids[c - |s.claims|], now)
    {
    }
  }

  lemma {:induction false} FinishesStaySettled(s: State, worker: nat, ids: seq<nat>, now: int)
    requires FinishesSettled(s) && FinishedOnce(s) && Untouched(s, ids)
    requires forall k :: 0 <= k < |ids| ==> ids[k] < |s.rows|
    ensures FinishesSettled(AfterClaim(s, worker, ids, now)) && FinishedOnce(AfterClaim(s, worker, ids, now))
  {
    hide Stored;
    var t := AfterClaim(s, worker, ids, now);
    forall i, c | 0 <= i < |t.finishes| && c in t.working && c < |t.claims|
      ensures t.claims[c].event != t.claims[t.finishes[i]].event
    {
      if c >= |s.claims| {
        assert t.claims[c].event == ids[c - |s.claims|];
      }
    }
  }

  lemma {:induction false} MarksStayFinishes(s: State, worker: nat, ids: seq<nat>, now: int)
    requires MarksAreFinishes(s)
    ensures MarksAreFinishes(AfterClaim(s, worker, ids, now))
  {
    hide Stored;
    var t := AfterClaim(s, worker, ids, now);
    forall id | 0 <= id < |t.rows| && t.rows[id].status in {COMPLETED, FAILED}
      ensures FinishedBy(t, id)
    {
      assert FinishedBy(s, id);
    }
  }

  lemma {:induction false} StepKeepsOnce(s: State, step: Step, stale: nat)
    requires OnceInv(s) && Enabled(s, step) && (step.ClaimBatch? ==> TimelyAt(s, step.now, stale))
    ensures OnceInv(Apply(s, step, stale))
  {
    hide TimelyAt, Enabled, AfterClaim, WorkersHoldRows, FinishesSettled, FinishedOnce, MarksAreFinishes, Marked, Pick;
    match step
    case ClaimBatch(worker, now, locked, limit) =>
      var ids := Pick(s.rows, 0, now - stale, locked, limit);
      PickAscends(s.rows, 0, now - stale, locked, limit);
      TimelyClaimsAreUntouched(s, now, locked, limit, stale);
      NewWorkersHoldRows(s, worker, ids, now);
      FinishesStaySettled(s, worker, ids, now);
      MarksStayFinishes(s, worker, ids, now);
    case Finish(_, _, _) =>
      FinishKeepsHolding(s, step, stale);
      FinishIsMarked(s, step, stale);
    case _ => QuietStepKeepsOnce(s, step, stale);
  }

  lemma {:induction false} RunStep(run: seq<State>, steps: seq<Step>, stale: nat, i: nat)
    requires Behavior(run, steps, stale) && i < |steps|
    ensures |run| == |steps| + 1 && Enabled(run[i], steps[i]) && run[i + 1] == Apply(run[i], steps[i], stale)
  {
    hide Apply, Enabled;
  }

  lemma {:induction false} TimelyStep(run: seq<State>, steps: seq<Step>, stale: nat, i: nat)
    requires WorkersAreTimely(run, steps, stale) && i < |steps| && i < |run| && steps[i].ClaimBatch?
    ensures TimelyAt(run[i], steps[i].now, stale)
  {
  }

  lemma {:induction false} RunStarts(run: seq<State>, steps: seq<Step>, stale: nat)
    requires Behavior(run, steps, stale)
    ensures |run| == |steps| + 1 && run[0] == EMPTY
  {
  }

  lemma {:induction false} EmptyOnce()
    ensures OnceInv(EMPTY)
  {
  }

  /**
   * When workers finish, or crash, within the timeout, every event is finished at most once, and
   * every event that stands COMPLETED or FAILED exactly once; crashed ones may be claimed again.
   */
  lemma {:induction false} TimelyWorkersProcessOnce(run: seq<State>, steps: seq<Step>, stale: nat, n: nat)
    requires Behavior(run, steps, stale) && WorkersAreTimely(run, steps, stale) && n < |run|
    ensures OnceInv(run[n])
  {
    hide *;
    RunStarts(run, steps, stale);
    if n == 0 {
      EmptyOnce();
    } else {
      TimelyWorkersProcessOnce(run, steps, stale, n - 1);
      RunStep(run, steps, stale, n - 1);
      if steps[n - 1].ClaimBatch? {
        TimelyStep(run, steps, stale, n - 1);
      }
      StepKeepsOnce(run[n - 1], steps[n - 1], stale);
    }
  }

  /** A worker that outlives the timeout: the event it claimed is finished by it and by another. */
  lemma {:induction false} LateWorkerFinishesTwice(stale: nat) returns (run: seq<State>, steps: seq<Step>)
    ensures Behavior(run, steps, stale) && |run| == 6 && !FinishedOnce(run[5])
  {
    var late := stale + 1;
    assert Stored(0) == 0;
    hide Stored, Behavior, Apply, Enabled;
    run, steps := TwoClaims(0, late, stale);
    RunStarts(run, steps, stale);
    TwoFinishes(run[3], late, stale);
    RunExtends(run, steps, stale, Finish(1, true, late));
    run, steps := run + [Apply(run[3], Finish(1, true, late), stale)], steps + [Finish(1, true, late)];
    RunExtends(run, steps, stale, Finish(0, true, late));
    run, steps := run + [Apply(run[4], Finish(0, true, late), stale)], steps + [Finish(0, true, late)];
    assert run[5].claims[run[5].finishes[0]].event == run[5].claims[run[5].finishes[1]].event;
  }

  lemma {:induction false} TwoFinishes(s: State, at: int, stale: nat)
    requires 0 in s.working && 1 in s.working && |s.claims| == 2 && s.finishes == []
    ensures Enabled(s, Finish(1, true, at)) && Enabled(Apply(s, Finish(1, true, at), stale), Finish(0, true, at))
    ensures var t := Apply(Apply(s, Finish(1, true, at), stale), Finish(0, true, at), stale);
            t.finishes == [1, 0] && t.claims == s.claims
  {
    hide Marked, Stored;
  }

  // ---- Exactly when an event is finished twice -------------------------------

  /** Claim `d` was made of the event of claim `c` at step `k`, while the worker of `c` was still at it. */
  ghost predicate ReclaimedAt(run: seq<State>, steps: seq<Step>, k: nat, c: nat, d: nat) {
    && k < |steps| && k + 1 < |run| && steps[k].ClaimBatch? && c in run[k].working
    && c < |run[k].claims| <= d < |run[k + 1].claims|
  }

  ghost predicate Reclaimed(run: seq<State>, steps: seq<Step>, n: nat, c: nat, d: nat) {
    exists k: nat :: k < n && ReclaimedAt(run, steps, k, c, d)
  }

  /** Finished claims are distinct, are left by their workers, and their events are closed. */
  ghost predicate FinishesClosed(s: State) {
    && (forall c :: c in s.working ==> c < |s.claims|)
    && (forall i, j :: 0 <= i < j < |s.finishes| ==> s.finishes[i] != s.finishes[j])
    && (forall c :: c in s.finishes ==> c < |s.claims| && c !in s.working)
    && (forall c :: 0 <= c < |s.claims| ==> s.claims[c].event < |s.rows|)
    && (forall c :: c in s.finishes && c < |s.claims| ==> Finished(s.rows[s.claims[c].event]))
  }

  lemma {:induction false} FinishesStayClosed(s: State, step: Step, stale: nat)
    requires FinishesClosed(s) && Enabled(s, step)
    ensures FinishesClosed(Apply(s, step, stale)) && s.claims <= Apply(s, step, stale).claims
  {
    hide Stored;
  }

  /** What a step leaves of an earlier claim: its worker is at it, has finished it, or never will. */
  lemma {:induction false} LeftStaysLeft(s: State, step: Step, stale: nat, c: nat)
    requires Enabled(s, step) && c < |s.claims| && c !in s.working && c !in s.finishes
    ensures c !in Apply(s, step, stale).working && c !in Apply(s, step, stale).finishes
  {
    hide Stored, Pick, Claimed, Marked;
  }

  /** A new claim is of an event that no earlier claim has finished, and of no other in its batch. */
  lemma {:induction false} NewClaim(s: State, step: Step, stale: nat, c: nat, d: nat)
    requires FinishesClosed(s) && step.ClaimBatch?
    requires c < d && |s.claims| <= d < |Apply(s, step, stale).claims|
    requires Apply(s, step, stale).claims[c].event == Apply(s, step, stale).claims[d].event
    ensures c < |s.claims| && c !in s.finishes
  {
    var ids := Pick(s.rows, 0, step.now - stale, step.locked, step.limit);
    PickAscends(s.rows, 0, step.now - stale, step.locked, step.limit);
    assert forall k :: 0 <= k < |ids| ==> !Finished(s.rows[ids[k]]);
    hide Stored, Pick, Claimed, Claimable, Finished;
    assert Apply(s, step, stale).claims == s.claims + ClaimsOf(step.worker, ids, step.now);
    hide Apply;
  }

  lemma {:induction false} BehaviorStaysClosed(run: seq<State>, steps: seq<Step>, stale: nat, n: nat)
    requires Behavior(run, steps, stale) && n < |run|
    ensures FinishesClosed(run[n])
  {
    RunStarts(run, steps, stale);
    if n > 0 {
      hide Behavior, FinishesClosed;
      BehaviorStaysClosed(run, steps, stale, n - 1);
      RunStep(run, steps, stale, n - 1);
      FinishesStayClosed(run[n - 1], steps[n - 1], stale);
    }
  }

  /** Of two claims of one event, the later was made under the earlier one's worker, or that worker had crashed. */
  lemma {:induction false} ReclaimedOrCrashed(
    run: seq<State>, steps: seq<Step>, stale: nat, n: nat, c: nat, d: nat)
    requires Behavior(run, steps, stale) && n < |run| && c < d < |run[n].claims|
    requires run[n].claims[c].event == run[n].claims[d].event
    ensures Reclaimed(run, steps, n, c, d) || (c !in run[n].working && c !in run[n].finishes)
  {
    RunStarts(run, steps, stale);
    hide Behavior, FinishesClosed, Apply, Enabled, ReclaimedAt;
    if n > 0 {
      var s, step := run[n - 1], steps[n - 1];
      RunStep(run, steps, stale, n - 1);
      BehaviorStaysClosed(run, steps, stale, n - 1);
      FinishesStayClosed(s, step, stale);
      if d < |s.claims| {
        ReclaimedOrCrashed(run, steps, stale, n - 1, c, d);
        if Reclaimed(run, steps, n - 1, c, d) {
          var k: nat :| k < n - 1 && ReclaimedAt(run, steps, k, c, d);
        } else {
          LeftStaysLeft(s, step, stale, c);
        }
      } else {
        OnlyBatchesClaim(s, step, stale);
        NewClaim(s, step, stale, c, d);
        if c in s.working {
          MadeNow(run, steps, n - 1, c, d);
        } else {
          LeftStaysLeft(s, step, stale, c);
        }
      }
    }
  }

  lemma {:induction false} MadeNow(run: seq<State>, steps: seq<Step>, k: nat, c: nat, d: nat)
    requires k < |steps| && k + 1 < |run| && steps[k].ClaimBatch? && c in run[k].working
    requires c < |run[k].claims| <= d < |run[k + 1].claims|
    ensures ReclaimedAt(run, steps, k, c, d)
  {
  }

  lemma {:induction false} OnlyBatchesClaim(s: State, step: Step, stale: nat)
    requires Enabled(s, step)
    ensures step.ClaimBatch? || Apply(s, step, stale).claims == s.claims
  {
    hide Stored, Pick, Claimed, Marked;
  }

  /** Two claims of one event, the later made while the earlier one's worker was at it, were both finished. */
  ghost predicate BothFinished(run: seq<State>, steps: seq<Step>, n: nat, c: nat, d: nat)
    requires n < |run|
  {
    && c in run[n].finishes && d in run[n].finishes && c < |run[n].claims| && d < |run[n].claims|
    && run[n].claims[c].event == run[n].claims[d].event && Reclaimed(run, steps, n, c, d)
  }

  lemma {:induction false} TwiceMeansReclaimed(
    run: seq<State>, steps: seq<Step>, stale: nat, n: nat, i: nat, j: nat)
    requires Behavior(run, steps, stale) && n < |run| && i < |run[n].finishes| && j < |run[n].finishes|
    requires run[n].finishes[i] < run[n].finishes[j] < |run[n].claims|
    requires run[n].claims[run[n].finishes[i]].event == run[n].claims[run[n].finishes[j]].event
    ensures BothFinished(run, steps, n, run[n].finishes[i], run[n].finishes[j])
  {
    hide Behavior, Reclaimed;
    ReclaimedOrCrashed(run, steps, stale, n, run[n].finishes[i], run[n].finishes[j]);
  }

  lemma {:induction false} BothFinishedMeansTwice(
    run: seq<State>, steps: seq<Step>, stale: nat, n: nat, c: nat, d: nat)
    requires Behavior(run, steps, stale) && n < |run| && BothFinished(run, steps, n, c, d)
    ensures !FinishedOnce(run[n])
  {
    hide Behavior;
    var s := run[n];
    var i :| 0 <= i < |s.finishes| && s.finishes[i] == c;
    var j :| 0 <= j < |s.finishes| && s.finishes[j] == d;
    assert c < d;
  }

  /**
   * With no assumption on clocks or workers: every event is finished at most once exactly when no
   * event has two finished claims of which the later was made while the worker of the earlier
   * one was still at it. Crashes in between do no harm.
   */
  lemma {:induction false} FinishedOnceIff(run: seq<State>, steps: seq<Step>, stale: nat, n: nat)
    requires Behavior(run, steps, stale) && n < |run|
    ensures FinishedOnce(run[n]) <==> forall c: nat, d: nat :: !BothFinished(run, steps, n, c, d)
  {
    hide Behavior, BothFinished;
    BehaviorStaysClosed(run, steps, stale, n);
    if !FinishedOnce(run[n]) {
      var s := run[n];
      var i, j :| 0 <= i < j < |s.finishes| && s.finishes[i] < |s.claims| && s.finishes[j] < |s.claims|
                  && s.claims[s.finishes[i]].event == s.claims[s.finishes[j]].event;
      if s.finishes[i] < s.finishes[j] {
        TwiceMeansReclaimed(run, steps, stale, n, i, j);
      } else {
        TwiceMeansReclaimed(run, steps, stale, n, j, i);
      }
    }
    forall c: nat, d: nat | BothFinished(run, steps, n, c, d)
      ensures !FinishedOnce(run[n])
    {
      BothFinishedMeansTwice(run, steps, stale, n, c, d);
    }
  }
}
