/**
 * What comparisons mean: the laws of the numeric operators, of equality and of membership, on the
 * truth of rules and on decisions.
 */
module RuleLaws {
  import opened Common
  import opened RuleText
  import opened RuleAst
  import opened RuleEvaluator

  // ---- Numbers --------------------------------------------------------------

  /** Numeric order, for each pairing of int and float. */
  predicate Exceeds(a: Value, b: Value) {
    match (a, b)
    case (VInt(m), VInt(n)) => m > n
    case (VInt(m), VReal(y)) => m as real > y
    case (VReal(x), VInt(n)) => x > n as real
    case (VReal(x), VReal(y)) => x > y
    case _ => false
  }

  /** The comparisons of a numeric field with a number are those of the numbers. */
  lemma {:induction false} ComparisonsAreNumeric(field: string, ctx: Context, target: Value)
    requires field in ctx && IsNumber(ctx[field]) && IsNumber(target)
    ensures Holds(Leaf(field, ">", target), ctx) <==> Exceeds(ctx[field], target)
    ensures Holds(Leaf(field, "<", target), ctx) <==> Exceeds(target, ctx[field])
    ensures Holds(Leaf(field, ">=", target), ctx) <==> !Exceeds(target, ctx[field])
    ensures Holds(Leaf(field, "<=", target), ctx) <==> !Exceeds(ctx[field], target)
    ensures Holds(Leaf(field, "==", target), ctx) <==> !Exceeds(ctx[field], target) && !Exceeds(target, ctx[field])
    ensures Holds(Leaf(field, "!=", target), ctx) <==> Exceeds(ctx[field], target) || Exceeds(target, ctx[field])
  {
  }

  /** Exactly one of `<`, `==` and `>` holds; `>=` and `<=` are the two-way unions, `!=` the negation. */
  lemma {:induction false} Trichotomy(field: string, ctx: Context, target: Value)
    requires field in ctx && IsNumber(ctx[field]) && IsNumber(target)
    ensures var lt, eq, gt := Holds(Leaf(field, "<", target), ctx), Holds(Leaf(field, "==", target), ctx),
                              Holds(Leaf(field, ">", target), ctx);
            && (lt || eq || gt) && !(lt && eq) && !(lt && gt) && !(eq && gt)
            && (Holds(Leaf(field, ">=", target), ctx) <==> gt || eq)
            && (Holds(Leaf(field, "<=", target), ctx) <==> lt || eq)
            && (Holds(Leaf(field, "!=", target), ctx) <==> !eq)
  {
    hide Holds;
    ComparisonsAreNumeric(field, ctx, target);
  }

  /** A greater value never unmakes `>` or `>=` and never makes `<` or `<=`. */
  lemma {:induction false} GreaterValueIsMonotone(field: string, ctx: Context, greater: Value, target: Value)
    requires field in ctx && IsNumber(ctx[field]) && IsNumber(target) && Exceeds(greater, ctx[field])
    ensures var more := ctx[field := greater];
            && (Holds(Leaf(field, ">", target), ctx) ==> Holds(Leaf(field, ">", target), more))
            && (Holds(Leaf(field, ">=", target), ctx) ==> Holds(Leaf(field, ">", target), more))
            && (Holds(Leaf(field, "<", target), more) ==> Holds(Leaf(field, "<", target), ctx))
            && (Holds(Leaf(field, "<=", target), more) ==> Holds(Leaf(field, "<", target), ctx))
  {
    hide Holds;
    ComparisonsAreNumeric(field, ctx, target);
    ComparisonsAreNumeric(field, ctx[field := greater], target);
  }

  /** The rule that bounds a field from both sides triggers exactly when the value lies in between. */
  lemma {:induction false} RangeTriggersIff(field: string, ctx: Context, lo: Value, hi: Value)
    requires Strip(field) != [] && field in ctx && IsNumber(ctx[field]) && IsNumber(lo) && IsNumber(hi)
    ensures var rule := Logic("AND", [Leaf(field, ">=", lo), Leaf(field, "<=", hi)]);
            && EvaluateRule(rule, ctx).Ok?
            && (EvaluateRule(rule, ctx).value.0 == TRIGGER
                <==> !Exceeds(lo, ctx[field]) && !Exceeds(ctx[field], hi))
  {
    hide Holds, Evaluate, Exceeds;
    ComparisonsAreNumeric(field, ctx, lo);
    ComparisonsAreNumeric(field, ctx, hi);
    BoundsAreValid(field, lo, hi);
    AndOfTwo(Leaf(field, ">=", lo), Leaf(field, "<=", hi), ctx);
    EvaluationIsMeaning(Logic("AND", [Leaf(field, ">=", lo), Leaf(field, "<=", hi)]), ctx);
    hide Valid, Matches;
  }

  lemma {:induction false} BoundsAreValid(field: string, lo: Value, hi: Value)
    requires Strip(field) != [] && IsNumber(lo) && IsNumber(hi)
    ensures Valid(Logic("AND", [Leaf(field, ">=", lo), Leaf(field, "<=", hi)]))
  {
    hide Strip;
    assert Upper("AND") == "AND";
    assert Valid(Leaf(field, ">=", lo)) && Valid(Leaf(field, "<=", hi));
  }

  lemma {:induction false} AndOfTwo(a: Expr, b: Expr, ctx: Context)
    ensures Holds(Logic("AND", [a, b]), ctx) <==> Holds(a, ctx) && Holds(b, ctx)
  {
    assert Upper("AND") == "AND";
    assert a in [a, b] && b in [a, b];
    hide EvaluateLeaf, Upper;
  }

  /** Bools, strings and lists are no numbers: no numeric comparison holds of them. */
  lemma {:induction false} OnlyNumbersCompare(field: string, op: string, target: Value, ctx: Context)
    requires op in NUMERIC_OPS && (field in ctx ==> !IsNumber(ctx[field]))
    ensures !Holds(Leaf(field, op, target), ctx)
  {
  }

  /** A missing or null field satisfies no comparison, neither one nor its negation. */
  lemma {:induction false} MissingNeverHolds(field: string, op: string, target: Value, ctx: Context)
    requires field !in ctx || ctx[field] == VNull
    ensures !Holds(Leaf(field, op, target), ctx)
    ensures Holds(Logic("NOT", [Leaf(field, op, target)]), ctx)
  {
    assert Upper("NOT") == "NOT";
  }

  // ---- Equality -------------------------------------------------------------

  /** `==` and `!=` split the present fields. */
  lemma {:induction false} NotEqualNegates(field: string, ctx: Context, target: Value)
    requires field in ctx && ctx[field] != VNull
    ensures Holds(Leaf(field, "!=", target), ctx) <==> !Holds(Leaf(field, "==", target), ctx)
  {
  }

  /** Equality is a congruence: reflexive, symmetric and transitive. */
  lemma {:induction false} EqualReflexive(a: Value)
    ensures ValuesEqual(a, a)
  {
    if a.VList? {
      forall i | 0 <= i < |a.items|
        ensures ValuesEqual(a.items[i], a.items[i])
      {
        EqualReflexive(a.items[i]);
      }
    }
  }

  lemma {:induction false} EqualSymmetric(a: Value, b: Value)
    ensures ValuesEqual(a, b) <==> ValuesEqual(b, a)
    decreases a
  {
    if a.VList? && b.VList? && |a.items| == |b.items| {
      forall i | 0 <= i < |a.items|
        ensures ValuesEqual(a.items[i], b.items[i]) <==> ValuesEqual(b.items[i], a.items[i])
      {
        EqualSymmetric(a.items[i], b.items[i]);
      }
    }
  }

  lemma {:induction false} EqualTransitive(a: Value, b: Value, c: Value)
    requires ValuesEqual(a, b) && ValuesEqual(b, c)
    ensures ValuesEqual(a, c)
    decreases a
  {
    if a.VList? && b.VList? && c.VList? {
      forall i | 0 <= i < |a.items|
        ensures ValuesEqual(a.items[i], c.items[i])
      {
        EqualTransitive(a.items[i], b.items[i], c.items[i]);
      }
    }
  }

  /** A bool counts as 0 or 1, and nothing else crosses kinds; texts and lists are equal as such. */
  function AsNumber(v: Value): Value {
    if v.VBool? then VInt(if v.b then 1 else 0) else v
  }

  lemma {:induction false} EqualByKind(a: Value, b: Value)
    ensures IsNumber(AsNumber(a)) != IsNumber(AsNumber(b)) ==> !ValuesEqual(a, b)
    ensures IsNumber(AsNumber(a)) && IsNumber(AsNumber(b)) ==>
              (ValuesEqual(a, b) <==> !Exceeds(AsNumber(a), AsNumber(b)) && !Exceeds(AsNumber(b), AsNumber(a)))
    ensures a.VStr? != b.VStr? || a.VList? != b.VList? ==> !ValuesEqual(a, b)
    ensures a.VStr? && b.VStr? ==> (ValuesEqual(a, b) <==> a == b)
    ensures a.VList? && b.VList? ==>
              (ValuesEqual(a, b) <==>
               && |a.items| == |b.items|
               && forall i :: 0 <= i < |a.items| ==> ValuesEqual(a.items[i], b.items[i]))
  {
  }

  // ---- Membership -----------------------------------------------------------

  /** One `==` leaf for each item. */
  function EqualsEach(field: string, items: seq<Value>): (leaves: seq<Expr>)
    ensures |leaves| == |items|
    ensures forall i :: 0 <= i < |items| ==> leaves[i] == Leaf(field, "==", items[i])
  {
    seq(|items|, i requires 0 <= i < |items| => Leaf(field, "==", items[i]))
  }

  /** `in` a list is the OR of `==` over its items, and `not in` its negation wherever the field is present. */
  lemma {:induction false} InIsOr(field: string, items: seq<Value>, ctx: Context)
    ensures Holds(Leaf(field, "in", VList(items)), ctx) <==> Holds(Logic("OR", EqualsEach(field, items)), ctx)
    ensures field in ctx && ctx[field] != VNull ==>
              (Holds(Leaf(field, "not in", VList(items)), ctx) <==> !Holds(Leaf(field, "in", VList(items)), ctx))
  {
    var leaves := EqualsEach(field, items);
    assert Upper("OR") == "OR" && Upper("OR") != "AND";
    hide EqualsEach, ValuesEqual, Upper;
    if Present(field, ctx) {
      forall i | 0 <= i < |items|
        ensures leaves[i] in leaves && (Holds(leaves[i], ctx) <==> ValuesEqual(ctx[field], items[i]))
      {
      }
    }
  }

  /** In a text: the text with something before and something after. Valid rules have lists only. */
  lemma {:induction false} InTextIff(field: string, part: string, whole: string, ctx: Context)
    requires field in ctx && ctx[field] == VStr(part)
    ensures Holds(Leaf(field, "in", VStr(whole)), ctx) <==> exists before, after :: whole == before + part + after
  {
    if i :| 0 <= i <= |whole| - |part| && whole[i..][..|part|] == part {
      assert whole == whole[..i] + part + whole[i + |part|..];
    }
    if before, after :| whole == before + part + after {
      assert whole[|before|..][..|part|] == part;
      assert 0 <= |before| <= |whole| - |part|;
    }
  }

  // ---- Connectives ----------------------------------------------------------

  predicate Spells(op: string, a: char, b: char, c: char) {
    |op| == 3 && Either(op[0], a) && Either(op[1], b) && Either(op[2], c)
  }

  /** A capital letter or its small form. */
  predicate Either(x: char, capital: char) {
    x == capital || (capital as int + 32 < 128 && x == (capital as int + 32) as char)
  }

  /** The connectives in any mixture of cases. */
  lemma {:induction false} ConnectivesIgnoreCase(op: string, conditions: seq<Expr>, ctx: Context)
    requires conditions != []
    ensures Spells(op, 'A', 'N', 'D') ==>
              (Holds(Logic(op, conditions), ctx) <==> forall child :: child in conditions ==> Holds(child, ctx))
    ensures Spells(op, 'N', 'O', 'T') ==>
              (Holds(Logic(op, conditions), ctx) <==> !Holds(conditions[0], ctx))
    ensures |op| == 2 && Either(op[0], 'O') && Either(op[1], 'R') ==>
              (Holds(Logic(op, conditions), ctx) <==> exists child :: child in conditions && Holds(child, ctx))
  {
    if Spells(op, 'A', 'N', 'D') {
      assert Upper(op) == "AND";
    } else if Spells(op, 'N', 'O', 'T') {
      assert Upper(op) == "NOT";
    } else if |op| == 2 && Either(op[0], 'O') && Either(op[1], 'R') {
      assert Upper(op) == "OR";
    }
  }

  // ---- What a trace tells ---------------------------------------------------

  /** The traces of the rules, one after the other. */
  function Traces(es: seq<Expr>, ctx: Context): seq<Reason> {
    if es == [] then [] else Trace(es[0], ctx) + Traces(es[1..], ctx)
  }

  /** The first rule that holds (or, with `holding` false, that does not), or the number of rules. */
  function First(es: seq<Expr>, ctx: Context, holding: bool): (i: nat)
    ensures i <= |es|
    ensures i < |es| ==> Matches(es[i], ctx) == holding
    ensures forall j :: 0 <= j < i ==> Matches(es[j], ctx) != holding
  {
    if es == [] || Matches(es[0], ctx) == holding then 0 else 1 + First(es[1..], ctx, holding)
  }

  lemma {:induction false} AndStep(rest: seq<Expr>, done: nat, total: nat, ctx: Context)
    requires rest != []
    ensures EvaluateAnd(rest, done, total, ctx).1
         == Trace(rest[0], ctx)
            + (if Matches(rest[0], ctx) then EvaluateAnd(rest[1..], done + 1, total, ctx).1
               else [AndFailed(done + 1, total)])
  {
    hide Evaluate;
  }

  lemma {:induction false} TracesStep(es: seq<Expr>, n: nat, ctx: Context)
    requires 0 < n <= |es|
    ensures Traces(es[..n], ctx) == Trace(es[0], ctx) + Traces(es[1..][..n - 1], ctx)
  {
    hide Evaluate;
    assert es[..n][1..] == es[1..][..n - 1];
  }

  /** AND tells of every condition up to the first that fails, and which one that was. */
  lemma {:induction false} AndTraceIs(rest: seq<Expr>, done: nat, total: nat, ctx: Context)
    ensures var i := First(rest, ctx, false);
            EvaluateAnd(rest, done, total, ctx).1
            == if i == |rest| then Traces(rest, ctx) else Traces(rest[..i + 1], ctx) + [AndFailed(done + i + 1, total)]
  {
    hide Trace, Matches, EvaluateAnd;
    if rest == [] {
      NothingToTell(done, total, ctx);
    } else {
      var tail := rest[1..];
      AndStep(rest, done, total, ctx);
      if Matches(rest[0], ctx) {
        AndTraceIs(tail, done + 1, total, ctx);
        AndGoesOn(rest, ctx);
      } else {
        TracesStep(rest, 1, ctx);
        assert tail[..0] == [] && Trace(rest[0], ctx) + [] == Trace(rest[0], ctx);
      }
    }
  }

  lemma {:induction false} AndGoesOn(rest: seq<Expr>, ctx: Context)
    requires rest != [] && Matches(rest[0], ctx)
    ensures var tail := rest[1..];
            var i := First(tail, ctx, false);
            && First(rest, ctx, false) == i + 1
            && Traces(rest, ctx) == Trace(rest[0], ctx) + Traces(tail, ctx)
            && (i < |tail| ==> Traces(rest[..i + 2], ctx) == Trace(rest[0], ctx) + Traces(tail[..i + 1], ctx))
  {
    hide Trace, Matches;
    var i := First(rest[1..], ctx, false);
    if i < |rest| - 1 {
      TracesStep(rest, i + 2, ctx);
    }
  }

  lemma {:induction false} NothingToTell(done: nat, total: nat, ctx: Context)
    ensures EvaluateAnd([], done, total, ctx).1 == []
  {
  }

  /** OR tells of the first condition that holds and of no other, or of all when none does. */
  lemma {:induction false} OrTraceIs(rest: seq<Expr>, done: nat, total: nat, failed: seq<Reason>, ctx: Context)
    ensures var i := First(rest, ctx, true);
            EvaluateOr(rest, done, total, failed, ctx).1
            == if i == |rest| then failed + Traces(rest, ctx) + [OrExhausted(total)]
               else Trace(rest[i], ctx) + [OrSatisfied(done + i + 1, total)]
  {
    if rest != [] && !Matches(rest[0], ctx) {
      OrTraceIs(rest[1..], done + 1, total, failed + Trace(rest[0], ctx), ctx);
      var head, tail := Trace(rest[0], ctx), Traces(rest[1..], ctx);
      assert failed + head + tail == failed + (head + tail);
    }
  }

  lemma {:induction false} ConnectiveUnfolds(conditions: seq<Expr>, ctx: Context)
    requires conditions != []
    ensures Trace(Logic("AND", conditions), ctx) == EvaluateAnd(conditions, 0, |conditions|, ctx).1
    ensures Trace(Logic("OR", conditions), ctx) == EvaluateOr(conditions, 0, |conditions|, [], ctx).1
    ensures Trace(Logic("NOT", conditions), ctx) == Trace(conditions[0], ctx) + [Inverted(Matches(conditions[0], ctx))]
  {
    assert Upper("AND") == "AND" && Upper("OR") == "OR" && Upper("NOT") == "NOT";
    hide EvaluateAnd, EvaluateOr, Upper;
  }

  /** The trace of a connective in terms of its conditions' traces. */
  lemma {:induction false} TraceOfConnective(conditions: seq<Expr>, ctx: Context)
    requires conditions != []
    ensures var n, i := |conditions|, First(conditions, ctx, false);
            Trace(Logic("AND", conditions), ctx)
            == if i == n then Traces(conditions, ctx) else Traces(conditions[..i + 1], ctx) + [AndFailed(i + 1, n)]
    ensures var n, i := |conditions|, First(conditions, ctx, true);
            Trace(Logic("OR", conditions), ctx)
            == if i == n then Traces(conditions, ctx) + [OrExhausted(n)]
               else Trace(conditions[i], ctx) + [OrSatisfied(i + 1, n)]
    ensures Trace(Logic("NOT", conditions), ctx) == Trace(conditions[0], ctx) + [Inverted(Matches(conditions[0], ctx))]
  {
    hide *;
    ConnectiveUnfolds(conditions, ctx);
    AndTraceIs(conditions, 0, |conditions|, ctx);
    OrTraceIs(conditions, 0, |conditions|, [], ctx);
    assert [] + Traces(conditions, ctx) == Traces(conditions, ctx);
  }

  // ---- Validation is enough -------------------------------------------------

  /** What evaluation records when it meets an operator it cannot apply. */
  predicate Errs(r: Reason) {
    r.UnsupportedOperator? || (r.LeafReason? && (r.outcome.UnknownOperator? || r.outcome.ComparisonError?))
  }

  ghost predicate Clean(trace: seq<Reason>) {
    forall r :: r in trace ==> !Errs(r)
  }

  /** A rule that passes the validator never meets an unknown operator or a failing comparison, in any context. */
  lemma {:induction false} ValidRulesNeverErr(e: Expr, ctx: Context)
    requires Valid(e)
    ensures Clean(Trace(e, ctx))
    decreases e, 1
  {
    match e
    case Leaf(field, op, value) => ValidLeavesNeverErr(field, op, value, ctx);
    case Malformed =>
    case Logic(op, conditions) =>
      if Upper(op) == "AND" {
        AndNeverErrs(conditions, 0, |conditions|, ctx);
      } else if Upper(op) == "OR" {
        OrNeverErrs(conditions, 0, |conditions|, [], ctx);
      } else {
        ValidRulesNeverErr(conditions[0], ctx);
      }
  }

  lemma {:induction false} ValidLeavesNeverErr(field: string, op: string, value: Value, ctx: Context)
    requires ValidLeaf(field, op, value)
    ensures !Errs(LeafReason(field, op, value, EvaluateLeaf(field, op, value, ctx)))
  {
  }

  lemma {:induction false} AndNeverErrs(rest: seq<Expr>, done: nat, total: nat, ctx: Context)
    requires forall child :: child in rest ==> Valid(child)
    ensures Clean(EvaluateAnd(rest, done, total, ctx).1)
    decreases rest, 0
  {
    if rest != [] {
      ValidRulesNeverErr(rest[0], ctx);
      AndNeverErrs(rest[1..], done + 1, total, ctx);
    }
  }

  lemma {:induction false} OrNeverErrs(rest: seq<Expr>, done: nat, total: nat, failed: seq<Reason>, ctx: Context)
    requires Clean(failed) && forall child :: child in rest ==> Valid(child)
    ensures Clean(EvaluateOr(rest, done, total, failed, ctx).1)
    decreases rest, 0
  {
    if rest != [] {
      ValidRulesNeverErr(rest[0], ctx);
      OrNeverErrs(rest[1..], done + 1, total, failed + Evaluate(rest[0], ctx).1, ctx);
    }
  }

  /** A rule the validator accepts is decided by its truth, with its trace as the reasons. */
  lemma {:induction false} RuleResult(e: Expr, ctx: Context)
    ensures EvaluateRule(e, ctx).Ok? <==> Valid(e)
    ensures Valid(e) ==> EvaluateRule(e, ctx).value == (if Holds(e, ctx) then TRIGGER else BLOCK, Trace(e, ctx))
  {
    EvaluationIsMeaning(e, ctx);
    hide Holds, Evaluate, Valid;
  }

  /** What the validator refuses, and hence no evaluation gives a decision on. */
  lemma {:induction false} MalformedRulesAreRefused(
    op: string, conditions: seq<Expr>, field: string, comparison: string, target: Value, ctx: Context)
    ensures EvaluateRule(Malformed, ctx).Err? && EvaluateRule(Logic(op, []), ctx).Err?
    ensures Upper(op) !in ["AND", "OR", "NOT"] ==> EvaluateRule(Logic(op, conditions), ctx).Err?
    ensures Upper(op) == "NOT" && |conditions| != 1 ==> EvaluateRule(Logic(op, conditions), ctx).Err?
    ensures (exists child :: child in conditions && EvaluateRule(child, ctx).Err?) ==>
              EvaluateRule(Logic(op, conditions), ctx).Err?
    ensures Strip(field) == [] ==> EvaluateRule(Leaf(field, comparison, target), ctx).Err?
    ensures comparison in [">", ">=", "<", "<="] && !target.VInt? && !target.VReal? ==>
              EvaluateRule(Leaf(field, comparison, target), ctx).Err?
    ensures comparison in ["in", "not in"] && !target.VList? ==> EvaluateRule(Leaf(field, comparison, target), ctx).Err?
    ensures comparison !in [">", ">=", "<", "<=", "==", "!=", "in", "not in"] ==>
              EvaluateRule(Leaf(field, comparison, target), ctx).Err?
  {
    hide Evaluate, Strip, Upper;
  }
}
