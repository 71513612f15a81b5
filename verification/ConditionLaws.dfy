/**
 * What `evaluate_condition` decides with a rule, in each of the three forms it can be given, and what
 * never triggers.
 */
module ConditionLaws {
  import opened Common
  import opened RuleText
  import opened RuleAst
  import opened RuleEvaluator
  import opened RuleParser
  import opened RuleRoundTrip
  import opened Readiness

  // ---- A rule text as the condition type ------------------------------------

  lemma {:induction false} UpperConcat(a: string, b: string)
    ensures Upper(a + b) == Upper(a) + Upper(b)
  {
  }

  lemma {:induction false} LogicalTextLooksLikeRule(op: string, rest: string)
    requires op in ["AND", "OR", "NOT"]
    ensures var upper := Upper(op + ("(" + rest));
            LooksLikeRule(upper) && upper !in ["ALL", "ANY", "QUORUM"]
  {
    UpperConcat(op, "(" + rest);
    UpperConcat("(", rest);
    assert Upper(op) == op && Upper("(") == "(";
    var upper := Upper(op + ("(" + rest));
    assert upper == op + ("(" + Upper(rest));
    assert upper[..|op| + 1] == op + "(";
    assert upper[|op|] == '(';
  }

  lemma {:induction false} PrintedLooksLikeRule(e: Expr)
    requires e.Logic? && Printable(e)
    ensures Strip(Print(e)) == Print(e) && Print(e) != []
    ensures LooksLikeRule(Upper(Print(e))) && Upper(Print(e)) !in ["ALL", "ANY", "QUORUM"]
  {
    PrintIsTight(e);
    hide *;
    StripTight(Print(e));
    var rest := PrintedRest(e);
    LogicalTextLooksLikeRule(e.op, rest);
  }

  lemma {:induction false} PrintedRest(e: Expr) returns (rest: string)
    requires e.Logic? && Printable(e)
    ensures e.op in ["AND", "OR", "NOT"] && Print(e) == e.op + ("(" + rest) && Print(e) != []
  {
    hide Join, PrintAll, Valid;
    rest := Join(PrintAll(e.conditions)) + ")";
    assert e.op + "(" + Join(PrintAll(e.conditions)) + ")" == e.op + ("(" + rest);
  }

  /** Decides as the truth of the rule, or blocks when the rule has no way back from its text. */
  ghost function TruthIfRead(e: Expr, ctx: Context): Decision {
    if NestedListsFit(e) && Holds(e, ctx) then TRIGGER else BLOCK
  }

  lemma {:induction false} PrintedRuleDecides(e: Expr, ctx: Context)
    requires Printable(e)
    ensures DecideRule(ParseRule(Print(e)), ctx) == TruthIfRead(e, ctx)
  {
    hide Holds;
    RoundTrip(e);
    PrintableIsValid(e);
    if NestedListsFit(e) {
      RuleDecision(e, ctx);
    }
  }

  lemma {:induction false} PrintableIsValid(e: Expr)
    requires Printable(e)
    ensures Valid(e)
  {
  }

  /**
   * The text of a rule as condition type: whatever the counts and the other arguments, it decides as
   * the truth of the rule, and blocks when a nested list is cut.
   */
  lemma {:induction false} ConditionTextDecides(
    e: Expr, ready: int, total: int, required: Option<int>, other: RuleArgument, ctx: Context)
    requires e.Logic? && Printable(e)
    ensures EvaluateCondition(Print(e), ready, total, required, other, ctx) == TruthIfRead(e, ctx)
  {
    PrintedLooksLikeRule(e);
    PrintedRuleDecides(e, ctx);
    hide DecideRule, ParseRule, TruthIfRead, LooksLikeRule, Printable;
  }

  // ---- A rule as an argument ------------------------------------------------

  /** `EXPRESSION` or `AST`, in any case and with blanks around it. */
  predicate AsksForRule(conditionType: string) {
    Upper(Strip(conditionType)) == "EXPRESSION" || Upper(Strip(conditionType)) == "AST"
  }

  lemma {:induction false} AskingIsNoRule(conditionType: string)
    requires AsksForRule(conditionType)
    ensures conditionType != [] && !LooksLikeRule(Upper(Strip(conditionType)))
  {
  }

  /** The text of a rule as argument, comparisons included. */
  lemma {:induction false} RuleStringDecides(
    conditionType: string, e: Expr, ready: int, total: int, required: Option<int>, ctx: Context)
    requires AsksForRule(conditionType) && Printable(e)
    ensures EvaluateCondition(conditionType, ready, total, required, RuleString(Print(e)), ctx) == TruthIfRead(e, ctx)
  {
    AskingIsNoRule(conditionType);
    PrintedRuleDecides(e, ctx);
    hide DecideRule, ParseRule, TruthIfRead, LooksLikeRule, Strip;
  }

  /** A tree as argument: its truth, and a block when the validator refuses it. */
  lemma {:induction false} RuleTreeDecides(
    conditionType: string, e: Expr, ready: int, total: int, required: Option<int>, ctx: Context)
    requires AsksForRule(conditionType)
    ensures EvaluateCondition(conditionType, ready, total, required, RuleTree(e), ctx)
         == if Valid(e) && Holds(e, ctx) then TRIGGER else BLOCK
  {
    AskingIsNoRule(conditionType);
    if Valid(e) {
      RuleDecision(e, ctx);
    }
    hide Holds, ParseRule, LooksLikeRule, Strip, Evaluate;
  }

  /** No argument, and a text that is no rule, block. */
  lemma {:induction false} NoRuleBlocks(
    conditionType: string, text: string, ready: int, total: int, required: Option<int>, ctx: Context)
    requires AsksForRule(conditionType)
    ensures EvaluateCondition(conditionType, ready, total, required, NoRule, ctx) == BLOCK
    ensures ParseRule(text).Err? ==>
              EvaluateCondition(conditionType, ready, total, required, RuleString(text), ctx) == BLOCK
  {
    AskingIsNoRule(conditionType);
    hide ParseRule, LooksLikeRule, Strip, EvaluateRule;
  }

  // ---- What can trigger at all ----------------------------------------------

  /** Only the five condition types and texts that open like a rule ever trigger. */
  lemma {:induction false} UnknownTypesBlock(
    conditionType: string, ready: int, total: int, required: Option<int>, rule: RuleArgument, ctx: Context)
    requires EvaluateCondition(conditionType, ready, total, required, rule, ctx) == TRIGGER
    ensures var upper := Upper(Strip(conditionType));
            || upper in ["ALL", "ANY", "QUORUM", "EXPRESSION", "AST"]
            || "AND(" <= upper || "OR(" <= upper || "NOT(" <= upper
  {
    hide DecideRule, ParseRule, Strip;
  }

  /** Counts below zero count as zero: without a ready dataset the counting conditions block. */
  lemma {:induction false} NothingReadyBlocks(
    conditionType: string, ready: int, total: int, required: Option<int>, rule: RuleArgument, ctx: Context)
    requires ready <= 0 && Upper(Strip(conditionType)) in ["ALL", "ANY", "QUORUM"]
    ensures EvaluateCondition(conditionType, ready, total, required, rule, ctx) == BLOCK
  {
    hide DecideRule, Strip;
  }
}
