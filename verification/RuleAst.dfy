/** Rule expressions, the values they compare, and the structural validator. */
module RuleAst {
  import opened RuleText

  datatype Value =
    | VNull
    | VBool(b: bool)
    | VInt(n: int)
    | VReal(x: real)
    | VStr(s: string)
    | VList(items: seq<Value>)

  /** `Malformed` stands for every node that lacks the keys of both other shapes. */
  datatype Expr =
    | Logic(op: string, conditions: seq<Expr>)
    | Leaf(field: string, op: string, value: Value)
    | Malformed

  type Context = map<string, Value>

  const NUMERIC_OPS := [">", ">=", "<", "<="]
  const COMPARISON_OPS := NUMERIC_OPS + ["==", "!=", "in", "not in"]

  /** An int or a float; a bool is not a number here. */
  predicate IsNumber(v: Value) { v.VInt? || v.VReal? }

  /** Python orders and equates bools with 0 and 1. */
  predicate HasMagnitude(v: Value) { IsNumber(v) || v.VBool? }

  function Magnitude(v: Value): real
    requires HasMagnitude(v)
  {
    match v
    case VInt(n) => n as real
    case VReal(x) => x
    case VBool(b) => if b then 1.0 else 0.0
  }

  predicate ValuesEqual(a: Value, b: Value) {
    if HasMagnitude(a) && HasMagnitude(b) then Magnitude(a) == Magnitude(b)
    else if a.VStr? && b.VStr? then a.s == b.s
    else if a.VList? && b.VList? then
      && |a.items| == |b.items|
      && forall i :: 0 <= i < |a.items| ==> ValuesEqual(a.items[i], b.items[i])
    else a.VNull? && b.VNull?
  }

  predicate ValidLeaf(field: string, op: string, value: Value) {
    && Strip(field) != []
    && op in COMPARISON_OPS
    && (op in NUMERIC_OPS ==> IsNumber(value))
    && (op in ["in", "not in"] ==> value.VList?)
  }

  /** What `validate_expression` accepts. */
  predicate Valid(e: Expr) {
    match e
    case Logic(op, conditions) =>
      && Upper(op) in ["AND", "OR", "NOT"]
      && conditions != []
      && (Upper(op) == "NOT" ==> |conditions| == 1)
      && forall child :: child in conditions ==> Valid(child)
    case Leaf(field, op, value) => ValidLeaf(field, op, value)
    case Malformed => false
  }
}
