/**
 * The short-circuiting evaluator with its reason trace, the meaning it computes,
 * and what the trace certifies.
 */
module RuleEvaluator {
  import opened Common
  import opened RuleText
  import opened RuleAst

  datatype Outcome =
    | MissingOrNull
    | NotNumeric(actual: Value)
    | ComparisonError(actual: Value)
    | UnknownOperator
    | Compared(actual: Value, satisfied: bool)
  {
    predicate Matched() { Compared? && satisfied }
  }

  datatype Reason =
    | LeafReason(field: string, op: string, target: Value, outcome: Outcome)
    | AndFailed(branch: nat, total: nat)
    | OrSatisfied(branch: nat, total: nat)
    | OrExhausted(total: nat)
    | Inverted(child: bool)
    | UnsupportedOperator(op: string)

  // ---- Leaves --------------------------------------------------------------

  predicate Present(field: string, ctx: Context) {
    field in ctx && ctx[field] != VNull
  }

  predicate IsSubstring(a: string, b: string) {
    exists i :: 0 <= i <= |b| - |a| && b[i..][..|a|] == a
  }

  function Membership(actual: Value, target: Value): Option<bool> {
    match target
    case VList(items) => Some(exists i :: 0 <= i < |items| && ValuesEqual(actual, items[i]))
    case VStr(s) => if actual.VStr? then Some(IsSubstring(actual.s, s)) else None
    case _ => None
  }

  function Ordering(op: string, actual: Value, target: Value): Option<bool>
    requires op in NUMERIC_OPS && IsNumber(actual)
  {
    if !HasMagnitude(target) then None
    else
      var a, t := Magnitude(actual), Magnitude(target);
      Some(if op == ">" then a > t
           else if op == ">=" then a >= t
           else if op == "<" then a < t
           else a <= t)
  }

  function Settle(actual: Value, verdict: Option<bool>, negate: bool): Outcome {
    match verdict
    case None => ComparisonError(actual)
    case Some(b) => Compared(actual, b != negate)
  }

  function EvaluateLeaf(field: string, op: string, target: Value, ctx: Context): Outcome {
    if !Present(field, ctx) then MissingOrNull
    else
      var actual := ctx[field];
      if op in NUMERIC_OPS then
        if !IsNumber(actual) then NotNumeric(actual)
        else Settle(actual, Ordering(op, actual, target), false)
      else if op in ["==", "!="] then
        Settle(actual, Some(ValuesEqual(actual, target)), op == "!=")
      else if op in ["in", "not in"] then
        Settle(actual, Membership(actual, target), op == "not in")
      else UnknownOperator
  }

  // ---- The meaning of an expression ---------------------------------------

  /** AND holds of all conditions, OR of some, NOT of the negation; no evaluation order. */
  ghost predicate Holds(e: Expr, ctx: Context) {
    match e
    case Leaf(field, op, value) => EvaluateLeaf(field, op, value, ctx).Matched()
    case Malformed => false
    case Logic(op, conditions) =>
      if Upper(op) == "AND" then forall child :: child in conditions ==> Holds(child, ctx)
      else if Upper(op) == "OR" then exists child :: child in conditions && Holds(child, ctx)
      else Upper(op) == "NOT" && conditions != [] && !Holds(conditions[0], ctx)
  }

  // ---- What the evaluator computes ------------------------------------------

  /** The verdict and the reasons appended for it. */
  function Evaluate(e: Expr, ctx: Context): (bool, seq<Reason>)
    decreases e, 1
  {
    match e
    case Leaf(field, op, value) =>
      var outcome := EvaluateLeaf(field, op, value, ctx);
      (outcome.Matched(), [LeafReason(field, op, value, outcome)])
    case Malformed => (false, [])
    case Logic(op, conditions) =>
      if Upper(op) == "AND" then EvaluateAnd(conditions, 0, |conditions|, ctx)
      else if Upper(op) == "OR" then EvaluateOr(conditions, 0, |conditions|, [], ctx)
      else if Upper(op) == "NOT" && conditions != [] then
        var (matched, reasons) := Evaluate(conditions[0], ctx);
        (!matched, reasons + [Inverted(matched)])
      else (false, [UnsupportedOperator(Upper(op))])
  }

  function EvaluateAnd(rest: seq<Expr>, done: nat, total: nat, ctx: Context): (bool, seq<Reason>)
    decreases rest, 0
  {
    if rest == [] then (true, [])
    else
      var (matched, reasons) := Evaluate(rest[0], ctx);
      if !matched then (false, reasons + [AndFailed(done + 1, total)])
      else
        var (all, more) := EvaluateAnd(rest[1..], done + 1, total, ctx);
        (all, reasons + more)
  }

  function EvaluateOr(rest: seq<Expr>, done: nat, total: nat, failed: seq<Reason>, ctx: Context)
    : (bool, seq<Reason>)
    decreases rest, 0
  {
    if rest == [] then (false, failed + [OrExhausted(total)])
    else
      var (matched, reasons) := Evaluate(rest[0], ctx);
      if matched then (true, reasons + [OrSatisfied(done + 1, total)])
      else EvaluateOr(rest[1..], done + 1, total, failed + reasons, ctx)
  }

  function Matches(e: Expr, ctx: Context): bool { Evaluate(e, ctx).0 }

  function Trace(e: Expr, ctx: Context): seq<Reason> { Evaluate(e, ctx).1 }

  datatype Decision = TRIGGER | BLOCK

  /** Validates, then evaluates; the error is the validator's. */
  function EvaluateRule(e: Expr, ctx: Context): Result<(Decision, seq<Reason>)> {
    if !Valid(e) then Err
    else Ok((if Matches(e, ctx) then TRIGGER else BLOCK, Trace(e, ctx)))
  }

  // ---- The evaluator as it runs ---------------------------------------------

  /** The `reasons` list that every call appends to. */
  class ReasonList {
    var reasons: seq<Reason>

    constructor ()
      ensures reasons == []
    {
      reasons := [];
    }
  }

  method EvaluateNode(e: Expr, ctx: Context, trace: ReasonList) returns (matched: bool)
    requires Valid(e)
    modifies trace
    ensures matched == Matches(e, ctx)
    ensures trace.reasons == old(trace.reasons) + Trace(e, ctx)
    decreases e
  {
    match e {
      case Leaf(field, op, value) =>
        var outcome := EvaluateLeaf(field, op, value, ctx);
        trace.reasons := trace.reasons + [LeafReason(field, op, value, outcome)];
        return outcome.Matched();
      case Malformed =>
        assert false;
      case Logic(op, conditions) =>
        if Upper(op) == "AND" {
          matched := EvaluateAndNode(conditions, ctx, trace);
        } else if Upper(op) == "OR" {
          matched := EvaluateOrNode(conditions, ctx, trace);
        } else {
          var childReasons := new ReasonList();
          var childMatched := EvaluateNode(conditions[0], ctx, childReasons);
          trace.reasons := trace.reasons + childReasons.reasons + [Inverted(childMatched)];
          matched := !childMatched;
        }
    }
  }

  /** The AND branch: appends as it goes and returns at the first failing condition. */
  method EvaluateAndNode(conditions: seq<Expr>, ctx: Context, trace: ReasonList) returns (matched: bool)
    requires forall child :: child in conditions ==> Valid(child)
    modifies trace
    ensures matched == EvaluateAnd(conditions, 0, |conditions|, ctx).0
    ensures trace.reasons == old(trace.reasons) + EvaluateAnd(conditions, 0, |conditions|, ctx).1
    decreases conditions
  {
    ghost var whole := EvaluateAnd(conditions, 0, |conditions|, ctx);
    var i := 0;
    while i < |conditions|
      invariant 0 <= i <= |conditions|
      invariant whole.0 == EvaluateAnd(conditions[i..], i, |conditions|, ctx).0
      invariant old(trace.reasons) + whole.1
             == trace.reasons + EvaluateAnd(conditions[i..], i, |conditions|, ctx).1
    {
      ghost var before := trace.reasons;
      AndUnfold(conditions, i, ctx, before);
      var childMatched := EvaluateNode(conditions[i], ctx, trace);
      if !childMatched {
        trace.reasons := trace.reasons + [AndFailed(i + 1, |conditions|)];
        return false;
      }
      i := i + 1;
    }
    return true;
  }

  /** One turn of the AND loop, seen from the reasons gathered `before` it. */
  lemma {:induction false} AndUnfold(conditions: seq<Expr>, i: nat, ctx: Context, before: seq<Reason>)
    requires i < |conditions|
    ensures var n, child := |conditions|, Evaluate(conditions[i], ctx);
            var here, next := EvaluateAnd(conditions[i..], i, n, ctx), EvaluateAnd(conditions[i + 1..], i + 1, n, ctx);
            && here.0 == (child.0 && next.0)
            && before + here.1 == before + child.1 + if child.0 then next.1 else [AndFailed(i + 1, n)]
  {
  }

  /** The OR branch: failed branches' reasons are kept aside and dropped on success. */
  method EvaluateOrNode(conditions: seq<Expr>, ctx: Context, trace: ReasonList) returns (matched: bool)
    requires forall child :: child in conditions ==> Valid(child)
    modifies trace
    ensures matched == EvaluateOr(conditions, 0, |conditions|, [], ctx).0
    ensures trace.reasons == old(trace.reasons) + EvaluateOr(conditions, 0, |conditions|, [], ctx).1
    decreases conditions
  {
    var i, branchReasons := 0, [];
    while i < |conditions|
      invariant 0 <= i <= |conditions|
      invariant trace.reasons == old(trace.reasons)
      invariant EvaluateOr(conditions, 0, |conditions|, [], ctx)
             == EvaluateOr(conditions[i..], i, |conditions|, branchReasons, ctx)
    {
      assert conditions[i..][1..] == conditions[i + 1..];
      var childReasons := new ReasonList();
      var childMatched := EvaluateNode(conditions[i], ctx, childReasons);
      assert childReasons.reasons == Trace(conditions[i], ctx);
      if childMatched {
        trace.reasons := trace.reasons + childReasons.reasons + [OrSatisfied(i + 1, |conditions|)];
        return true;
      }
      branchReasons := branchReasons + childReasons.reasons;
      i := i + 1;
    }
    trace.reasons := trace.reasons + branchReasons + [OrExhausted(|conditions|)];
    return false;
  }

  // ---- Short-circuit evaluation computes the meaning -----------------------

  lemma {:induction false} EvaluationIsMeaning(e: Expr, ctx: Context)
    ensures Matches(e, ctx) == Holds(e, ctx)
    decreases e, 1
  {
    if e.Logic? {
      AndIsForall(e.conditions, 0, |e.conditions|, ctx);
      OrIsExists(e.conditions, 0, |e.conditions|, [], ctx);
      if e.conditions != [] {
        EvaluationIsMeaning(e.conditions[0], ctx);
      }
    }
  }

  lemma {:induction false} AndIsForall(rest: seq<Expr>, done: nat, total: nat, ctx: Context)
    ensures EvaluateAnd(rest, done, total, ctx).0
        <==> forall child :: child in rest ==> Holds(child, ctx)
    decreases rest, 0
  {
    if rest != [] {
      EvaluationIsMeaning(rest[0], ctx);
      AndIsForall(rest[1..], done + 1, total, ctx);
    }
  }

  lemma {:induction false} OrIsExists(rest: seq<Expr>, done: nat, total: nat, failed: seq<Reason>, ctx: Context)
    ensures EvaluateOr(rest, done, total, failed, ctx).0
        <==> exists child :: child in rest && Holds(child, ctx)
    decreases rest, 0
  {
    if rest != [] {
      EvaluationIsMeaning(rest[0], ctx);
      OrIsExists(rest[1..], done + 1, total, failed + Evaluate(rest[0], ctx).1, ctx);
    }
  }

  // ---- The trace is a certificate -------------------------------------------

  /** Every leaf reason in `trace` records exactly what `ctx` yields for that leaf. */
  ghost predicate RecordedIn(trace: seq<Reason>, ctx: Context) {
    forall r :: r in trace && r.LeafReason? ==>
      EvaluateLeaf(r.field, r.op, r.target, ctx) == r.outcome
  }

  /** Every leaf reason in `trace` has the recorded verdict in `ctx`. */
  ghost predicate VerdictsAgree(trace: seq<Reason>, ctx: Context) {
    forall r :: r in trace && r.LeafReason? ==>
      EvaluateLeaf(r.field, r.op, r.target, ctx).Matched() == r.outcome.Matched()
  }

  lemma {:induction false} TraceIsSound(e: Expr, ctx: Context)
    ensures RecordedIn(Trace(e, ctx), ctx)
    decreases e, 1
  {
    if e.Logic? {
      AndTraceIsSound(e.conditions, 0, |e.conditions|, ctx);
      OrTraceIsSound(e.conditions, 0, |e.conditions|, [], ctx);
      if e.conditions != [] {
        TraceIsSound(e.conditions[0], ctx);
      }
    }
  }

  lemma {:induction false} AndTraceIsSound(rest: seq<Expr>, done: nat, total: nat, ctx: Context)
    ensures RecordedIn(EvaluateAnd(rest, done, total, ctx).1, ctx)
    decreases rest, 0
  {
    if rest != [] {
      TraceIsSound(rest[0], ctx);
      AndTraceIsSound(rest[1..], done + 1, total, ctx);
    }
  }

  lemma {:induction false} OrTraceIsSound(rest: seq<Expr>, done: nat, total: nat, failed: seq<Reason>, ctx: Context)
    requires RecordedIn(failed, ctx)
    ensures RecordedIn(EvaluateOr(rest, done, total, failed, ctx).1, ctx)
    decreases rest, 0
  {
    if rest != [] {
      TraceIsSound(rest[0], ctx);
      OrTraceIsSound(rest[1..], done + 1, total, failed + Evaluate(rest[0], ctx).1, ctx);
    }
  }

  /**
   * Any other context that gives the recorded leaves the recorded verdicts gets the
   * same decision, although AND stops early and a satisfied OR drops failed branches.
   */
  lemma {:induction false} TraceDeterminesDecision(e: Expr, ctx: Context, other: Context)
    requires VerdictsAgree(Trace(e, ctx), other)
    ensures Matches(e, other) == Matches(e, ctx)
    decreases e, 1
  {
    match e
    case Leaf(field, op, value) =>
      assert Trace(e, ctx)[0].LeafReason?;
    case Malformed =>
    case Logic(op, conditions) =>
      if Upper(op) == "AND" {
        AndTraceDetermines(conditions, 0, |conditions|, ctx, other);
      } else if Upper(op) == "OR" {
        OrTraceDetermines(conditions, 0, |conditions|, [], [], ctx, other);
      } else if Upper(op) == "NOT" && conditions != [] {
        assert Trace(e, ctx) == Trace(conditions[0], ctx) + [Inverted(Matches(conditions[0], ctx))];
        TraceDeterminesDecision(conditions[0], ctx, other);
      }
  }

  lemma {:induction false} AndTraceDetermines(rest: seq<Expr>, done: nat, total: nat, ctx: Context, other: Context)
    requires VerdictsAgree(EvaluateAnd(rest, done, total, ctx).1, other)
    ensures EvaluateAnd(rest, done, total, other).0 == EvaluateAnd(rest, done, total, ctx).0
    decreases rest, 0
  {
    if rest != [] {
      TraceDeterminesDecision(rest[0], ctx, other);
      if Matches(rest[0], ctx) {
        AndTraceDetermines(rest[1..], done + 1, total, ctx, other);
      }
    }
  }

  lemma {:induction false} OrTraceDetermines(
    rest: seq<Expr>, done: nat, total: nat, failed: seq<Reason>, otherFailed: seq<Reason>, ctx: Context, other: Context)
    requires VerdictsAgree(EvaluateOr(rest, done, total, failed, ctx).1, other)
    ensures EvaluateOr(rest, done, total, otherFailed, other).0 == EvaluateOr(rest, done, total, failed, ctx).0
    decreases rest, 0
  {
    if rest != [] {
      var reasons := Trace(rest[0], ctx);
      if Matches(rest[0], ctx) {
        TraceDeterminesDecision(rest[0], ctx, other);
      } else {
        OrTraceDetermines(rest[1..], done + 1, total, failed + reasons,
                          otherFailed + Trace(rest[0], other), ctx, other);
        if !EvaluateOr(rest, done, total, failed, ctx).0 {
          ExhaustedOrKeepsReasons(rest[1..], done + 1, total, failed + reasons, ctx);
          assert forall r :: r in reasons ==> r in failed + reasons;
          TraceDeterminesDecision(rest[0], ctx, other);
        }
      }
    }
  }

  lemma {:induction false} ExhaustedOrKeepsReasons(
    rest: seq<Expr>, done: nat, total: nat, failed: seq<Reason>, ctx: Context)
    requires !EvaluateOr(rest, done, total, failed, ctx).0
    ensures failed <= EvaluateOr(rest, done, total, failed, ctx).1
    decreases rest
  {
    if rest != [] {
      ExhaustedOrKeepsReasons(rest[1..], done + 1, total, failed + Trace(rest[0], ctx), ctx);
    }
  }

  // ---- Polarity of a missing field ------------------------------------------

  /** Every occurrence of `field` in `e` is under an even (or, with `odd`, an odd) number of NOTs. */
  predicate OccursOnly(e: Expr, field: string, odd: bool) {
    match e
    case Leaf(f, _, _) => f == field ==> !odd
    case Malformed => true
    case Logic(op, conditions) =>
      forall child :: child in conditions ==>
        OccursOnly(child, field, if Upper(op) == "NOT" then !odd else odd)
  }

  /**
   * Supplying a missing or null field never loses a TRIGGER when the field occurs
   * only positively, and never gains one when it occurs only negatively.
   */
  lemma {:induction false} SupplyingAFieldIsMonotone(e: Expr, field: string, v: Value, ctx: Context, odd: bool)
    requires !Present(field, ctx) && OccursOnly(e, field, odd)
    ensures !odd && Matches(e, ctx) ==> Matches(e, ctx[field := v])
    ensures odd && Matches(e, ctx[field := v]) ==> Matches(e, ctx)
  {
    var more := ctx[field := v];
    EvaluationIsMeaning(e, ctx);
    EvaluationIsMeaning(e, more);
    if e.Logic? {
      var childOdd := if Upper(e.op) == "NOT" then !odd else odd;
      forall child | child in e.conditions
        ensures !childOdd && Holds(child, ctx) ==> Holds(child, more)
        ensures childOdd && Holds(child, more) ==> Holds(child, ctx)
      {
        SupplyingAFieldIsMonotone(child, field, v, ctx, childOdd);
        EvaluationIsMeaning(child, ctx);
        EvaluationIsMeaning(child, more);
      }
    }
  }
}
