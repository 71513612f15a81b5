/**
 * The counting form of the readiness conditions, and its agreement with the rule
 * language over the evaluation context that `process_event` builds.
 */
module Readiness {
  import opened Common
  import opened RuleText
  import opened RuleAst
  import opened RuleEvaluator
  import opened RuleParser

  /** The `expression` argument: nothing, a rule string, or a rule tree. */
  datatype RuleArgument = NoRule | RuleString(text: string) | RuleTree(rule: Expr)

  predicate StartsWith(s: string, prefix: string) {
    |prefix| <= |s| && s[..|prefix|] == prefix
  }

  predicate LooksLikeRule(upper: string) {
    StartsWith(upper, "AND(") || StartsWith(upper, "OR(") || StartsWith(upper, "NOT(")
  }

  function DecideRule(rule: Result<Expr>, ctx: Context): Decision {
    match rule
    case Err => BLOCK
    case Ok(e) =>
      match EvaluateRule(e, ctx)
      case Err => BLOCK
      case Ok((decision, _)) => decision
  }

  /** The decision of `evaluate_condition`. */
  function EvaluateCondition(
    conditionType: string, readyCount: int, totalRequired: int, requiredCount: Option<int>,
    expression: RuleArgument, ctx: Context): Decision
  {
    var raw := Strip(conditionType);
    var upper := Upper(raw);
    var ready := if readyCount < 0 then 0 else readyCount;
    var total := if totalRequired < 0 then 0 else totalRequired;
    if conditionType == [] then BLOCK
    else if upper == "ALL" then
      if total > 0 && ready == total then TRIGGER else BLOCK
    else if upper == "ANY" then
      if total > 0 && ready >= 1 then TRIGGER else BLOCK
    else if upper == "QUORUM" then
      if requiredCount.None? || requiredCount.value <= 0 then BLOCK
      else if ready >= requiredCount.value then TRIGGER else BLOCK
    else if upper in ["EXPRESSION", "AST"] || LooksLikeRule(upper) then
      if LooksLikeRule(upper) then DecideRule(ParseRule(raw), ctx)
      else
        match expression
        case NoRule => BLOCK
        case RuleString(text) => DecideRule(ParseRule(text), ctx)
        case RuleTree(rule) => DecideRule(Ok(rule), ctx)
    else BLOCK
  }

  // ---- What process_event passes in -----------------------------------------

  datatype DatasetRow = DatasetRow(name: string, status: string, version: int)

  const READY := "READY"
  const WAITING := "WAITING"

  function ReadyCount(rows: seq<DatasetRow>): (n: nat)
    ensures n <= |rows|
  {
    if rows == [] then 0
    else (if rows[0].status == READY then 1 else 0) + ReadyCount(rows[1..])
  }

  /** Status entries first, in row order. */
  function Statuses(rows: seq<DatasetRow>): Context {
    if rows == [] then map[]
    else
      var last := rows[|rows| - 1];
      Statuses(rows[..|rows| - 1])[last.name := VStr(last.status)]
  }

  /** Then `<name>_version` entries, which may overwrite a status. */
  function WithVersions(ctx: Context, rows: seq<DatasetRow>): Context {
    if rows == [] then ctx
    else
      var last := rows[|rows| - 1];
      WithVersions(ctx, rows[..|rows| - 1])[last.name + "_version" := VInt(last.version)]
  }

  /** Event fields fill in only keys that are still free. */
  function BuildContext(rows: seq<DatasetRow>, event: Context): Context {
    event + WithVersions(Statuses(rows), rows)
  }

  // ---- The same conditions as rules -----------------------------------------

  function IsReady(name: string): Expr { Leaf(name, "==", VStr(READY)) }

  function ReadyLeaves(names: seq<string>): (es: seq<Expr>)
    ensures |es| == |names|
    ensures forall i :: 0 <= i < |names| ==> es[i] == IsReady(names[i])
  {
    seq(|names|, i requires 0 <= i < |names| => IsReady(names[i]))
  }

  function AllRule(names: seq<string>): Expr { Logic("AND", ReadyLeaves(names)) }

  function AnyRule(names: seq<string>): Expr { Logic("OR", ReadyLeaves(names)) }

  function PrependAll(name: string, choices: seq<seq<string>>): (r: seq<seq<string>>)
    ensures |r| == |choices|
    ensures forall i :: 0 <= i < |choices| ==> r[i] == [name] + choices[i]
  {
    seq(|choices|, i requires 0 <= i < |choices| => [name] + choices[i])
  }

  /** All ways to pick `k` of the names, in order. */
  function Choices(names: seq<string>, k: nat): seq<seq<string>> {
    if k == 0 then [[]]
    else if names == [] then []
    else PrependAll(names[0], Choices(names[1..], k - 1)) + Choices(names[1..], k)
  }

  function AllRules(choices: seq<seq<string>>): (es: seq<Expr>)
    ensures |es| == |choices|
    ensures forall i :: 0 <= i < |choices| ==> es[i] == AllRule(choices[i])
  {
    seq(|choices|, i requires 0 <= i < |choices| => AllRule(choices[i]))
  }

  function QuorumRule(names: seq<string>, k: nat): Expr { Logic("OR", AllRules(Choices(names, k))) }

  function Names(rows: seq<DatasetRow>): (names: seq<string>)
    ensures |names| == |rows|
    ensures forall i :: 0 <= i < |rows| ==> names[i] == rows[i].name
  {
    seq(|rows|, i requires 0 <= i < |rows| => rows[i].name)
  }

  // ---- The context is faithful exactly when names do not collide ------------

  /** Distinct, not blank. */
  predicate DistinctNames(names: seq<string>) {
    && (forall i :: 0 <= i < |names| ==> Strip(names[i]) != [])
    && (forall i, j :: 0 <= i < j < |names| ==> names[i] != names[j])
  }

  /** Some dataset is called like the version entry of another. */
  predicate VersionClash(names: seq<string>) {
    exists i, j :: 0 <= i < |names| && 0 <= j < |names| && names[j] == names[i] + "_version"
  }

  lemma {:induction false} StatusLookup(rows: seq<DatasetRow>, i: nat)
    requires i < |rows| && DistinctNames(Names(rows))
    ensures rows[i].name in Statuses(rows) && Statuses(rows)[rows[i].name] == VStr(rows[i].status)
  {
    var front := rows[..|rows| - 1];
    if i < |front| {
      assert Names(rows)[i] != Names(rows)[|front|];
      assert forall a :: 0 <= a < |front| ==> Names(front)[a] == Names(rows)[a];
      assert DistinctNames(Names(front));
      StatusLookup(front, i);
    }
  }

  lemma {:induction false} VersionsElsewhere(ctx: Context, rows: seq<DatasetRow>, key: string)
    ensures (forall i :: 0 <= i < |rows| ==> rows[i].name + "_version" != key) ==>
              (key in WithVersions(ctx, rows) <==> key in ctx)
              && (key in ctx ==> WithVersions(ctx, rows)[key] == ctx[key])
    ensures (exists i :: 0 <= i < |rows| && rows[i].name + "_version" == key) ==>
              key in WithVersions(ctx, rows) && WithVersions(ctx, rows)[key].VInt?
  {
    if rows != [] {
      VersionsElsewhere(ctx, rows[..|rows| - 1], key);
    }
  }

  lemma {:induction false} VersionEntry(ctx: Context, rows: seq<DatasetRow>, i: nat)
    requires i < |rows| && DistinctNames(Names(rows))
    ensures rows[i].name + "_version" in WithVersions(ctx, rows)
    ensures WithVersions(ctx, rows)[rows[i].name + "_version"] == VInt(rows[i].version)
  {
    var n := |rows| - 1;
    if i < n {
      NamesOfFront(rows);
      VersionKeysDiffer(rows[i].name, rows[n].name);
      hide DistinctNames;
      VersionEntry(ctx, rows[..n], i);
    }
  }

  lemma {:induction false} NamesOfFront(rows: seq<DatasetRow>)
    requires rows != [] && DistinctNames(Names(rows))
    ensures DistinctNames(Names(rows[..|rows| - 1]))
    ensures forall i :: 0 <= i < |rows| - 1 ==> rows[i].name != rows[|rows| - 1].name
  {
    hide Strip;
    var n := |rows| - 1;
    assert Names(rows[..n]) == Names(rows)[..n];
    assert forall i :: 0 <= i < n ==> Names(rows)[i] != Names(rows)[n];
  }

  lemma {:induction false} VersionKeysDiffer(a: string, b: string)
    requires a != b
    ensures a + "_version" != b + "_version"
  {
    assert (a + "_version")[..|a|] == a && (b + "_version")[..|b|] == b;
    assert |a + "_version"| == |a| + 8 && |b + "_version"| == |b| + 8;
  }

  lemma {:induction false} StatusesElsewhere(rows: seq<DatasetRow>, key: string)
    requires forall i :: 0 <= i < |rows| ==> rows[i].name != key
    ensures key !in Statuses(rows)
  {
    if rows != [] {
      StatusesElsewhere(rows[..|rows| - 1], key);
    }
  }

  /** A field of the event shows in the context exactly as it is, unless it is named like a status or version entry. */
  lemma {:induction false} EventFieldsFillIn(rows: seq<DatasetRow>, event: Context, key: string)
    requires forall i :: 0 <= i < |rows| ==> rows[i].name != key && rows[i].name + "_version" != key
    ensures key in BuildContext(rows, event) <==> key in event
    ensures key in event ==> BuildContext(rows, event)[key] == event[key]
  {
    StatusesElsewhere(rows, key);
    VersionsElsewhere(Statuses(rows), rows, key);
  }

  /** The context holds each required dataset's version, whatever the event says. */
  lemma {:induction false} VersionLookup(rows: seq<DatasetRow>, event: Context, i: nat)
    requires i < |rows| && DistinctNames(Names(rows))
    ensures rows[i].name + "_version" in BuildContext(rows, event)
    ensures BuildContext(rows, event)[rows[i].name + "_version"] == VInt(rows[i].version)
  {
    VersionEntry(Statuses(rows), rows, i);
  }

  lemma {:induction false} ReadyMeansReadyString(name: string, ctx: Context)
    ensures Holds(IsReady(name), ctx) <==> name in ctx && ctx[name] == VStr(READY)
  {
  }

  /** The verdict of `name == 'READY'`: the row's own readiness, unless its name is a version entry. */
  lemma {:induction false} LeafVerdict(rows: seq<DatasetRow>, event: Context, i: nat)
    requires i < |rows| && DistinctNames(Names(rows))
    ensures var verdict := Holds(IsReady(rows[i].name), BuildContext(rows, event));
            if exists j :: 0 <= j < |rows| && rows[j].name + "_version" == rows[i].name
            then !verdict
            else verdict == (rows[i].status == READY)
  {
    hide Holds;
    StatusLookup(rows, i);
    VersionsElsewhere(Statuses(rows), rows, rows[i].name);
    ReadyMeansReadyString(rows[i].name, BuildContext(rows, event));
  }

  // ---- Counting agrees with the rules ---------------------------------------

  /** What the three counting conditions decide, in any spelling and whatever the rule arguments. */
  lemma {:induction false} AllDecision(
    spelling: string, ready: nat, total: nat, required: Option<int>, rule: RuleArgument, ctx: Context)
    requires Upper(Strip(spelling)) == "ALL"
    ensures EvaluateCondition(spelling, ready, total, required, rule, ctx)
         == if total > 0 && ready == total then TRIGGER else BLOCK
  {
    hide DecideRule;
  }

  lemma {:induction false} AnyDecision(
    spelling: string, ready: nat, total: nat, required: Option<int>, rule: RuleArgument, ctx: Context)
    requires Upper(Strip(spelling)) == "ANY"
    ensures EvaluateCondition(spelling, ready, total, required, rule, ctx)
         == if total > 0 && ready >= 1 then TRIGGER else BLOCK
  {
    hide DecideRule;
  }

  lemma {:induction false} QuorumDecision(
    spelling: string, ready: nat, total: nat, required: Option<int>, rule: RuleArgument, ctx: Context)
    requires Upper(Strip(spelling)) == "QUORUM"
    ensures EvaluateCondition(spelling, ready, total, required, rule, ctx)
         == if required.Some? && required.value > 0 && ready >= required.value then TRIGGER else BLOCK
  {
    hide DecideRule;
  }

  lemma {:induction false} PlainSpellings()
    ensures Upper(Strip("ALL")) == "ALL" && Upper(Strip("ANY")) == "ANY" && Upper(Strip("QUORUM")) == "QUORUM"
  {
    StripTight("ALL");
    StripTight("ANY");
    StripTight("QUORUM");
    assert Upper("ALL") == "ALL" && Upper("ANY") == "ANY" && Upper("QUORUM") == "QUORUM";
  }

  lemma {:induction false} ReadyRulesAreValid(names: seq<string>)
    requires names != [] && DistinctNames(names)
    ensures Valid(AllRule(names)) && Valid(AnyRule(names))
  {
    assert Upper("AND") == "AND" && Upper("OR") == "OR";
    assert forall e :: e in ReadyLeaves(names) ==> Valid(e);
  }

  lemma {:induction false} RuleDecision(e: Expr, ctx: Context)
    requires Valid(e)
    ensures DecideRule(Ok(e), ctx) == if Holds(e, ctx) then TRIGGER else BLOCK
  {
    EvaluationIsMeaning(e, ctx);
  }

  lemma {:induction false} AllReadyByCount(rows: seq<DatasetRow>)
    ensures ReadyCount(rows) == |rows| <==> forall i :: 0 <= i < |rows| ==> rows[i].status == READY
  {
    if rows != [] {
      AllReadyByCount(rows[1..]);
    }
  }

  lemma {:induction false} SomeReadyByCount(rows: seq<DatasetRow>)
    ensures ReadyCount(rows) >= 1 <==> exists i :: 0 <= i < |rows| && rows[i].status == READY
  {
    if rows != [] {
      SomeReadyByCount(rows[1..]);
      if ReadyCount(rows[1..]) >= 1 {
        var i :| 0 <= i < |rows[1..]| && rows[1..][i].status == READY;
        assert rows[i + 1].status == READY;
      }
      if exists i :: 1 <= i < |rows| && rows[i].status == READY {
        var i :| 1 <= i < |rows| && rows[i].status == READY;
        assert rows[1..][i - 1].status == READY;
      }
    }
  }

  lemma {:induction false} AndMeaning(es: seq<Expr>, ctx: Context)
    ensures Holds(Logic("AND", es), ctx) <==> forall i :: 0 <= i < |es| ==> Holds(es[i], ctx)
  {
    assert Upper("AND") == "AND";
    assert forall i :: 0 <= i < |es| ==> es[i] in es;
  }

  lemma {:induction false} OrMeaning(es: seq<Expr>, ctx: Context)
    ensures Holds(Logic("OR", es), ctx) <==> exists i :: 0 <= i < |es| && Holds(es[i], ctx)
  {
    assert Upper("OR") == "OR" && Upper("OR") != "AND";
    if i :| 0 <= i < |es| && Holds(es[i], ctx) {
      assert es[i] in es;
    }
  }

  lemma {:induction false} AllMeaning(names: seq<string>, ctx: Context)
    ensures Holds(AllRule(names), ctx) <==> forall i :: 0 <= i < |names| ==> Holds(IsReady(names[i]), ctx)
  {
    hide Holds;
    AndMeaning(ReadyLeaves(names), ctx);
  }

  lemma {:induction false} AnyMeaning(names: seq<string>, ctx: Context)
    ensures Holds(AnyRule(names), ctx) <==> exists i :: 0 <= i < |names| && Holds(IsReady(names[i]), ctx)
  {
    hide Holds;
    OrMeaning(ReadyLeaves(names), ctx);
  }

  lemma {:induction false} NoClashVerdicts(rows: seq<DatasetRow>, event: Context)
    requires DistinctNames(Names(rows)) && !VersionClash(Names(rows))
    ensures forall i :: 0 <= i < |rows| ==>
              Holds(IsReady(Names(rows)[i]), BuildContext(rows, event)) == (rows[i].status == READY)
  {
    forall i | 0 <= i < |rows|
      ensures Holds(IsReady(Names(rows)[i]), BuildContext(rows, event)) == (rows[i].status == READY)
    {
      LeafVerdict(rows, event, i);
      assert forall j :: 0 <= j < |rows| ==> Names(rows)[j] == rows[j].name;
    }
  }

  predicate CountsLikeAll(rows: seq<DatasetRow>, event: Context) {
    EvaluateCondition("ALL", ReadyCount(rows), |rows|, None, NoRule, map[])
    == DecideRule(Ok(AllRule(Names(rows))), BuildContext(rows, event))
  }

  lemma {:induction false} AllVerdict(rows: seq<DatasetRow>, event: Context)
    requires DistinctNames(Names(rows)) && !VersionClash(Names(rows))
    ensures Holds(AllRule(Names(rows)), BuildContext(rows, event)) <==> ReadyCount(rows) == |rows|
  {
    NoClashVerdicts(rows, event);
    AllReadyByCount(rows);
    AllMeaning(Names(rows), BuildContext(rows, event));
  }

  /** ALL decides as the conjunction of `d == 'READY'`. */
  lemma {:induction false} AllAgrees(rows: seq<DatasetRow>, event: Context)
    requires rows != [] && DistinctNames(Names(rows)) && !VersionClash(Names(rows))
    ensures CountsLikeAll(rows, event)
  {
    hide EvaluateCondition, DecideRule, Holds, Valid, VersionClash, DistinctNames;
    AllVerdict(rows, event);
    PlainSpellings();
    AllDecision("ALL", ReadyCount(rows), |rows|, None, NoRule, map[]);
    ReadyRulesAreValid(Names(rows));
    RuleDecision(AllRule(Names(rows)), BuildContext(rows, event));
  }

  /** The same datasets with every status READY. */
  function Readied(rows: seq<DatasetRow>): (r: seq<DatasetRow>)
    ensures |r| == |rows|
    ensures forall i :: 0 <= i < |rows| ==> r[i] == rows[i].(status := READY)
  {
    seq(|rows|, i requires 0 <= i < |rows| => rows[i].(status := READY))
  }

  /** When a name clashes with a version entry, ALL triggers on ready datasets but the rule blocks. */
  lemma {:induction false} ClashBreaksAll(rows: seq<DatasetRow>, event: Context)
    requires rows != [] && DistinctNames(Names(rows)) && VersionClash(Names(rows))
    ensures !CountsLikeAll(Readied(rows), event)
  {
    var ready := Readied(rows);
    assert Names(ready) == Names(rows);
    ClashVerdict(ready, event);
    AllReadyByCount(ready);
    hide EvaluateCondition, DecideRule, Holds, Valid, VersionClash, DistinctNames;
    PlainSpellings();
    AllDecision("ALL", ReadyCount(ready), |ready|, None, NoRule, map[]);
    ReadyRulesAreValid(Names(ready));
    RuleDecision(AllRule(Names(ready)), BuildContext(ready, event));
  }

  lemma {:induction false} ClashVerdict(rows: seq<DatasetRow>, event: Context)
    requires DistinctNames(Names(rows)) && VersionClash(Names(rows))
    ensures !Holds(AllRule(Names(rows)), BuildContext(rows, event))
  {
    hide Holds;
    var names := Names(rows);
    var i, j :| 0 <= i < |names| && 0 <= j < |names| && names[j] == names[i] + "_version";
    assert rows[i].name + "_version" == rows[j].name;
    LeafVerdict(rows, event, j);
    AllMeaning(names, BuildContext(rows, event));
  }

  /** ALL agrees with its rule for every readiness of these datasets exactly when no name clashes. */
  lemma {:induction false} AllAgreesIffNoClash(rows: seq<DatasetRow>, event: Context)
    requires rows != [] && DistinctNames(Names(rows))
    ensures (forall other :: Names(other) == Names(rows) ==> CountsLikeAll(other, event))
       <==> !VersionClash(Names(rows))
  {
    if VersionClash(Names(rows)) {
      ClashBreaksAll(rows, event);
      assert Names(Readied(rows)) == Names(rows);
    } else {
      forall other | Names(other) == Names(rows)
        ensures CountsLikeAll(other, event)
      {
        AllAgrees(other, event);
      }
    }
  }

  lemma {:induction false} AnyVerdict(rows: seq<DatasetRow>, event: Context)
    requires DistinctNames(Names(rows)) && !VersionClash(Names(rows))
    ensures Holds(AnyRule(Names(rows)), BuildContext(rows, event)) <==> ReadyCount(rows) >= 1
  {
    NoClashVerdicts(rows, event);
    SomeReadyByCount(rows);
    AnyMeaning(Names(rows), BuildContext(rows, event));
  }

  predicate CountsLikeAny(rows: seq<DatasetRow>, event: Context) {
    EvaluateCondition("ANY", ReadyCount(rows), |rows|, None, NoRule, map[])
    == DecideRule(Ok(AnyRule(Names(rows))), BuildContext(rows, event))
  }

  /** Both decisions in terms of readiness and of the rule's meaning. */
  lemma {:induction false} AnyComparison(rows: seq<DatasetRow>, event: Context)
    requires rows != [] && DistinctNames(Names(rows))
    ensures CountsLikeAny(rows, event)
       <==> (ReadyCount(rows) >= 1 <==> Holds(AnyRule(Names(rows)), BuildContext(rows, event)))
  {
    hide EvaluateCondition, DecideRule, Holds, Valid, DistinctNames;
    PlainSpellings();
    AnyDecision("ANY", ReadyCount(rows), |rows|, None, NoRule, map[]);
    ReadyRulesAreValid(Names(rows));
    RuleDecision(AnyRule(Names(rows)), BuildContext(rows, event));
  }

  /** ANY decides as the disjunction. */
  lemma {:induction false} AnyAgrees(rows: seq<DatasetRow>, event: Context)
    requires rows != [] && DistinctNames(Names(rows)) && !VersionClash(Names(rows))
    ensures CountsLikeAny(rows, event)
  {
    hide *;
    AnyVerdict(rows, event);
    AnyComparison(rows, event);
  }

  /** The same datasets with exactly the first `m` and the `j`-th of them READY. */
  function ReadyUpTo(rows: seq<DatasetRow>, m: nat, j: nat): (r: seq<DatasetRow>)
    ensures |r| == |rows|
    ensures forall i :: 0 <= i < |rows| ==> r[i] == rows[i].(status := if i < m || i == j then READY else WAITING)
  {
    seq(|rows|, i requires 0 <= i < |rows| => rows[i].(status := if i < m || i == j then READY else WAITING))
  }

  lemma {:induction false} NoneReady(rows: seq<DatasetRow>)
    requires forall i :: 0 <= i < |rows| ==> rows[i].status != READY
    ensures ReadyCount(rows) == 0
  {
    if rows != [] {
      NoneReady(rows[1..]);
    }
  }

  lemma {:induction false} PrefixReady(rows: seq<DatasetRow>, m: nat)
    requires m <= |rows| && forall i :: 0 <= i < |rows| ==> (rows[i].status == READY <==> i < m)
    ensures ReadyCount(rows) == m
  {
    if m == 0 {
      NoneReady(rows);
    } else {
      PrefixReady(rows[1..], m - 1);
    }
  }

  lemma {:induction false} ReadyUpToCounts(rows: seq<DatasetRow>, m: nat, j: nat)
    requires m <= |rows| && j < |rows|
    requires forall i :: 0 <= i < |rows| ==> (rows[i].status == READY <==> i < m || i == j)
    ensures ReadyCount(rows) == if j < m then m else m + 1
  {
    if j < m {
      PrefixReady(rows, m);
    } else if j == 0 {
      NoneReady(rows[1..]);
    } else if m == 0 {
      ReadyUpToCounts(rows[1..], 0, j - 1);
    } else {
      ReadyUpToCounts(rows[1..], m - 1, j - 1);
    }
  }

  /** The dataset whose name is another's version entry. */
  predicate ClashAt(rows: seq<DatasetRow>, j: nat) {
    j < |rows| && exists i :: 0 <= i < |rows| && rows[i].name + "_version" == rows[j].name
  }

  lemma {:induction false} SomeClash(rows: seq<DatasetRow>) returns (j: nat)
    requires VersionClash(Names(rows))
    ensures ClashAt(rows, j)
  {
    var names := Names(rows);
    var i, k :| 0 <= i < |names| && 0 <= k < |names| && names[k] == names[i] + "_version";
    assert rows[i].name + "_version" == rows[k].name;
    j := k;
  }

  /** With only the clashing dataset READY, ANY triggers and the rule blocks. */
  lemma {:induction false} ClashBreaksAny(rows: seq<DatasetRow>, event: Context, j: nat)
    requires DistinctNames(Names(rows)) && ClashAt(rows, j)
    ensures !CountsLikeAny(ReadyUpTo(rows, 0, j), event)
  {
    hide Holds, DistinctNames;
    var some := ReadyUpTo(rows, 0, j);
    assert Names(some) == Names(rows);
    ReadyUpToCounts(some, 0, j);
    var i :| 0 <= i < |rows| && rows[i].name + "_version" == rows[j].name;
    assert some[i].name + "_version" == some[j].name;
    AnyMeaning(Names(some), BuildContext(some, event));
    forall k | 0 <= k < |some|
      ensures !Holds(IsReady(Names(some)[k]), BuildContext(some, event))
    {
      LeafVerdict(some, event, k);
    }
    AnyComparison(some, event);
  }

  /** ANY agrees with its rule for every readiness of these datasets exactly when no name clashes. */
  lemma {:induction false} AnyAgreesIffNoClash(rows: seq<DatasetRow>, event: Context)
    requires rows != [] && DistinctNames(Names(rows))
    ensures (forall other :: Names(other) == Names(rows) ==> CountsLikeAny(other, event))
       <==> !VersionClash(Names(rows))
  {
    hide CountsLikeAny, DistinctNames;
    if VersionClash(Names(rows)) {
      var j := SomeClash(rows);
      ClashBreaksAny(rows, event, j);
      assert Names(ReadyUpTo(rows, 0, j)) == Names(rows);
    } else {
      forall other | Names(other) == Names(rows)
        ensures CountsLikeAny(other, event)
      {
        AnyAgrees(other, event);
      }
    }
  }

  // ---- Quorums --------------------------------------------------------------

  ghost predicate IsChoice(c: seq<string>, names: seq<string>, k: nat) {
    |c| == k && DistinctNames(c) && forall i :: 0 <= i < |c| ==> c[i] in names
  }

  lemma {:induction false} PickedIsChoice(names: seq<string>, tail: seq<string>, k: nat)
    requires names != [] && DistinctNames(names) && IsChoice(tail, names[1..], k)
    ensures IsChoice([names[0]] + tail, names, k + 1)
  {
    var c := [names[0]] + tail;
    assert forall i :: 0 < i < |names| ==> names[i] == names[1..][i - 1];
    assert forall i :: 0 < i < |c| ==> c[i] == tail[i - 1];
  }

  lemma {:induction false} ChoicesAreChoices(names: seq<string>, k: nat)
    requires DistinctNames(names)
    ensures forall i :: 0 <= i < |Choices(names, k)| ==> IsChoice(Choices(names, k)[i], names, k)
    ensures k <= |names| ==> Choices(names, k) != []
  {
    if k > 0 && names != [] {
      var with, without := Choices(names[1..], k - 1), Choices(names[1..], k);
      ChoicesAreChoices(names[1..], k - 1);
      ChoicesAreChoices(names[1..], k);
      forall i | 0 <= i < |with| + |without|
        ensures IsChoice(Choices(names, k)[i], names, k)
      {
        if i < |with| {
          PickedIsChoice(names, with[i], k - 1);
        } else {
          assert Choices(names, k)[i] == without[i - |with|];
        }
      }
    }
  }

  function CountIn(names: seq<string>, chosen: set<string>): nat {
    if names == [] then 0 else (if names[0] in chosen then 1 else 0) + CountIn(names[1..], chosen)
  }

  predicate Within(c: seq<string>, chosen: set<string>) {
    forall i :: 0 <= i < |c| ==> c[i] in chosen
  }

  lemma {:induction false} WithinPrepended(name: string, tail: seq<string>, chosen: set<string>)
    ensures Within([name] + tail, chosen) <==> name in chosen && Within(tail, chosen)
  {
    var c := [name] + tail;
    assert c[0] == name;
    assert forall i :: 0 <= i < |tail| ==> c[i + 1] == tail[i];
  }

  predicate SomeWithin(choices: seq<seq<string>>, chosen: set<string>) {
    exists i :: 0 <= i < |choices| && Within(choices[i], chosen)
  }

  lemma {:induction false} SomeWithinStep(
    name: string, with: seq<seq<string>>, without: seq<seq<string>>, chosen: set<string>)
    ensures SomeWithin(PrependAll(name, with) + without, chosen)
       <==> (name in chosen && SomeWithin(with, chosen)) || SomeWithin(without, chosen)
  {
    var all := PrependAll(name, with) + without;
    forall i | 0 <= i < |with|
      ensures Within(all[i], chosen) <==> name in chosen && Within(with[i], chosen)
    {
      WithinPrepended(name, with[i], chosen);
    }
    if i :| 0 <= i < |all| && Within(all[i], chosen) {
      if i >= |with| {
        assert all[i] == without[i - |with|];
      } else {
        assert Within(with[i], chosen);
      }
    }
    if i :| 0 <= i < |without| && Within(without[i], chosen) {
      assert Within(all[|with| + i], chosen);
    }
  }

  /** Some choice of `k` names lies within `chosen` exactly when at least `k` names do. */
  lemma {:induction false} SomeChoiceWithin(names: seq<string>, k: nat, chosen: set<string>)
    ensures SomeWithin(Choices(names, k), chosen) <==> CountIn(names, chosen) >= k
  {
    if k == 0 {
      assert Within(Choices(names, 0)[0], chosen);
    } else if names != [] {
      hide Within, SomeWithin;
      SomeChoiceWithin(names[1..], k - 1, chosen);
      SomeChoiceWithin(names[1..], k, chosen);
      SomeWithinStep(names[0], Choices(names[1..], k - 1), Choices(names[1..], k), chosen);
    }
  }

  lemma {:induction false} CountInIsReadyCount(rows: seq<DatasetRow>, chosen: set<string>)
    requires forall i :: 0 <= i < |rows| ==> (rows[i].name in chosen <==> rows[i].status == READY)
    ensures CountIn(Names(rows), chosen) == ReadyCount(rows)
  {
    if rows != [] {
      assert Names(rows)[1..] == Names(rows[1..]);
      CountInIsReadyCount(rows[1..], chosen);
    }
  }

  ghost predicate SomeChoiceHolds(choices: seq<seq<string>>, ctx: Context) {
    exists i :: 0 <= i < |choices| && Holds(AllRule(choices[i]), ctx)
  }

  lemma {:induction false} QuorumMeaning(names: seq<string>, k: nat, ctx: Context)
    ensures Holds(QuorumRule(names, k), ctx) <==> SomeChoiceHolds(Choices(names, k), ctx)
  {
    hide Holds;
    var choices := Choices(names, k);
    var rules := AllRules(choices);
    OrMeaning(rules, ctx);
    if Holds(Logic("OR", rules), ctx) {
      var i :| 0 <= i < |rules| && Holds(rules[i], ctx);
      assert rules[i] == AllRule(choices[i]);
      assert SomeChoiceHolds(choices, ctx);
    }
    if SomeChoiceHolds(choices, ctx) {
      var i :| 0 <= i < |choices| && Holds(AllRule(choices[i]), ctx);
      assert rules[i] == AllRule(choices[i]);
      assert Holds(Logic("OR", rules), ctx);
    }
  }

  lemma {:induction false} QuorumRuleIsValid(names: seq<string>, k: nat)
    requires DistinctNames(names) && 1 <= k <= |names|
    ensures Valid(QuorumRule(names, k))
  {
    assert Upper("OR") == "OR";
    ChoicesAreChoices(names, k);
    var choices := Choices(names, k);
    forall e | e in AllRules(choices)
      ensures Valid(e)
    {
      var i :| 0 <= i < |choices| && e == AllRule(choices[i]);
      ReadyRulesAreValid(choices[i]);
    }
  }

  /** The rule of a quorum holds when enough of the names do. */
  lemma {:induction false} QuorumByCount(names: seq<string>, k: nat, ctx: Context, chosen: set<string>)
    requires DistinctNames(names)
    requires forall name :: name in names ==> (name in chosen <==> Holds(IsReady(name), ctx))
    ensures Holds(QuorumRule(names, k), ctx) <==> CountIn(names, chosen) >= k
  {
    hide Holds;
    var choices := Choices(names, k);
    ChoicesAreChoices(names, k);
    forall i | 0 <= i < |choices|
      ensures Holds(AllRule(choices[i]), ctx) <==> Within(choices[i], chosen)
    {
      AllMeaning(choices[i], ctx);
    }
    SomeChoiceWithin(names, k, chosen);
    QuorumMeaning(names, k, ctx);
  }

  function HoldingNames(names: seq<string>, ctx: Context): set<string> {
    set i | 0 <= i < |names| && Present(names[i], ctx) && ctx[names[i]] == VStr(READY) :: names[i]
  }

  lemma {:induction false} HoldingNamesHold(names: seq<string>, ctx: Context)
    ensures forall name :: name in names ==> (name in HoldingNames(names, ctx) <==> Holds(IsReady(name), ctx))
  {
    forall name | name in names
      ensures name in HoldingNames(names, ctx) <==> Holds(IsReady(name), ctx)
    {
      ReadyMeansReadyString(name, ctx);
    }
  }

  lemma {:induction false} QuorumVerdict(rows: seq<DatasetRow>, event: Context, k: nat)
    requires DistinctNames(Names(rows)) && !VersionClash(Names(rows))
    ensures Holds(QuorumRule(Names(rows), k), BuildContext(rows, event)) <==> ReadyCount(rows) >= k
  {
    hide Holds, DistinctNames, HoldingNames;
    var names, ctx := Names(rows), BuildContext(rows, event);
    var chosen := HoldingNames(names, ctx);
    HoldingNamesHold(names, ctx);
    QuorumByCount(names, k, ctx, chosen);
    NoClashVerdicts(rows, event);
    assert forall i :: 0 <= i < |rows| ==> rows[i].name == names[i] && names[i] in names;
    CountInIsReadyCount(rows, chosen);
  }

  predicate CountsLikeQuorum(rows: seq<DatasetRow>, event: Context, k: nat) {
    EvaluateCondition("QUORUM", ReadyCount(rows), |rows|, Some(k), NoRule, map[])
    == DecideRule(Ok(QuorumRule(Names(rows), k)), BuildContext(rows, event))
  }

  lemma {:induction false} QuorumComparison(rows: seq<DatasetRow>, event: Context, k: nat)
    requires DistinctNames(Names(rows)) && 1 <= k <= |rows|
    ensures CountsLikeQuorum(rows, event, k)
       <==> (ReadyCount(rows) >= k <==> Holds(QuorumRule(Names(rows), k), BuildContext(rows, event)))
  {
    hide EvaluateCondition, DecideRule, Holds, Valid, DistinctNames;
    PlainSpellings();
    QuorumDecision("QUORUM", ReadyCount(rows), |rows|, Some(k), NoRule, map[]);
    QuorumRuleIsValid(Names(rows), k);
    RuleDecision(QuorumRule(Names(rows), k), BuildContext(rows, event));
  }

  /** QUORUM `k` decides as the disjunction over all `k`-element choices of conjunctions. */
  lemma {:induction false} QuorumAgrees(rows: seq<DatasetRow>, event: Context, k: nat)
    requires DistinctNames(Names(rows)) && !VersionClash(Names(rows)) && 1 <= k <= |rows|
    ensures CountsLikeQuorum(rows, event, k)
  {
    hide *;
    QuorumVerdict(rows, event, k);
    QuorumComparison(rows, event, k);
  }

  /** Names that hold are names of READY datasets; one READY dataset that does not hold is missing from them. */
  lemma {:induction false} CountInMissesOne(rows: seq<DatasetRow>, chosen: set<string>, j: nat)
    requires j < |rows| && rows[j].status == READY && rows[j].name !in chosen
    requires forall i :: 0 <= i < |rows| && rows[i].name in chosen ==> rows[i].status == READY
    ensures CountIn(Names(rows), chosen) < ReadyCount(rows)
  {
    assert Names(rows)[1..] == Names(rows[1..]);
    if j == 0 {
      CountInAtMostReady(rows[1..], chosen);
    } else {
      CountInMissesOne(rows[1..], chosen, j - 1);
    }
  }

  lemma {:induction false} CountInAtMostReady(rows: seq<DatasetRow>, chosen: set<string>)
    requires forall i :: 0 <= i < |rows| && rows[i].name in chosen ==> rows[i].status == READY
    ensures CountIn(Names(rows), chosen) <= ReadyCount(rows)
  {
    if rows != [] {
      assert Names(rows)[1..] == Names(rows[1..]);
      CountInAtMostReady(rows[1..], chosen);
    }
  }

  /** Exactly `k` datasets READY, the clashing one among them. */
  function QuorumWithClash(rows: seq<DatasetRow>, j: nat, k: nat): (r: seq<DatasetRow>)
    requires 1 <= k
    ensures |r| == |rows|
  {
    ReadyUpTo(rows, if j < k then k else k - 1, j)
  }

  /** Then QUORUM triggers and the rule blocks. */
  lemma {:induction false} ClashBreaksQuorum(rows: seq<DatasetRow>, event: Context, j: nat, k: nat)
    requires DistinctNames(Names(rows)) && ClashAt(rows, j) && 1 <= k <= |rows|
    ensures !CountsLikeQuorum(QuorumWithClash(rows, j, k), event, k)
  {
    hide Holds, DistinctNames, HoldingNames;
    var some := QuorumWithClash(rows, j, k);
    var names, ctx := Names(some), BuildContext(some, event);
    assert names == Names(rows);
    ReadyUpToCounts(some, if j < k then k else k - 1, j);
    var chosen := HoldingNames(names, ctx);
    HoldingNamesHold(names, ctx);
    var c :| 0 <= c < |rows| && rows[c].name + "_version" == rows[j].name;
    assert some[c].name + "_version" == some[j].name;
    forall i | 0 <= i < |some|
      ensures some[i].name in chosen ==> some[i].status == READY
      ensures i == j ==> some[i].name !in chosen
    {
      assert names[i] == some[i].name && names[i] in names;
      LeafVerdict(some, event, i);
    }
    CountInMissesOne(some, chosen, j);
    QuorumByCount(names, k, ctx, chosen);
    QuorumComparison(some, event, k);
  }

  /** QUORUM agrees with its rule for every readiness of these datasets exactly when no name clashes. */
  lemma {:induction false} QuorumAgreesIffNoClash(rows: seq<DatasetRow>, event: Context, k: nat)
    requires DistinctNames(Names(rows)) && 1 <= k <= |rows|
    ensures (forall other :: Names(other) == Names(rows) ==> CountsLikeQuorum(other, event, k))
       <==> !VersionClash(Names(rows))
  {
    hide CountsLikeQuorum, DistinctNames;
    if VersionClash(Names(rows)) {
      var j := SomeClash(rows);
      ClashBreaksQuorum(rows, event, j, k);
      assert Names(QuorumWithClash(rows, j, k)) == Names(rows);
    } else {
      forall other | Names(other) == Names(rows)
        ensures CountsLikeQuorum(other, event, k)
      {
        assert |other| == |Names(other)|;
        QuorumAgrees(other, event, k);
      }
    }
  }
}
