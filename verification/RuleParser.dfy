/** The recursive rule-string parser and the splitter it stands on. */
module RuleParser {
  import opened Common
  import opened RuleText
  import opened RuleAst

  // ---- Splitting at top-level delimiters -----------------------------------

  datatype Scan = Scan(results: seq<string>, current: string, depth: int, quote: Option<char>)

  const START := Scan([], "", 0, None)

  predicate IsQuote(c: char) { c == '"' || c == '\'' }

  /** The pending text becomes a token unless it is blank. */
  function Emit(results: seq<string>, current: string): seq<string> {
    if Strip(current) != [] then results + [Strip(current)] else results
  }

  function ScanChar(st: Scan, c: char, delimiter: char): Scan {
    if st.quote.Some? then
      st.(current := st.current + [c], quote := if c == st.quote.value then None else st.quote)
    else if IsQuote(c) then st.(current := st.current + [c], quote := Some(c))
    else if c == '(' then st.(current := st.current + [c], depth := st.depth + 1)
    else if c == ')' then st.(current := st.current + [c], depth := st.depth - 1)
    else if c == delimiter && st.depth == 0 then st.(results := Emit(st.results, st.current), current := "")
    else st.(current := st.current + [c])
  }

  function ScanText(st: Scan, s: string, delimiter: char): Scan {
    if s == [] then st
    else ScanChar(ScanText(st, s[..|s| - 1], delimiter), s[|s| - 1], delimiter)
  }

  /** Scanning only adds tokens, none longer than the text they come from. */
  lemma {:induction false} ScanOnlyAdds(st: Scan, s: string, delimiter: char)
    ensures var r := ScanText(st, s, delimiter);
            && |r.current| <= |st.current| + |s|
            && st.results <= r.results
            && forall i :: |st.results| <= i < |r.results| ==> |r.results[i]| <= |st.current| + |s|
  {
    if s != [] {
      ScanOnlyAdds(st, s[..|s| - 1], delimiter);
    }
  }

  function Finish(st: Scan): Result<seq<string>> {
    if st.depth != 0 then Err else Ok(Emit(st.results, st.current))
  }

  function Split(s: string, delimiter: char): (r: Result<seq<string>>)
    ensures r.Ok? ==> forall t :: t in r.value ==> |t| <= |s|
  {
    ScanOnlyAdds(START, s, delimiter);
    Finish(ScanText(START, s, delimiter))
  }

  method SplitTopLevel(s: string, delimiter: char) returns (r: Result<seq<string>>)
    ensures r == Split(s, delimiter)
  {
    var results: seq<string>, current: string := [], "";
    var parenDepth, inQuote := 0, Option<char>.None;
    for i := 0 to |s|
      invariant Scan(results, current, parenDepth, inQuote) == ScanText(START, s[..i], delimiter)
    {
      assert s[..i + 1][..i] == s[..i];
      var c := s[i];
      if inQuote.Some? {
        current := current + [c];
        if c == inQuote.value {
          inQuote := None;
        }
      } else if IsQuote(c) {
        inQuote := Some(c);
        current := current + [c];
      } else if c == '(' {
        parenDepth := parenDepth + 1;
        current := current + [c];
      } else if c == ')' {
        parenDepth := parenDepth - 1;
        current := current + [c];
      } else if c == delimiter && parenDepth == 0 {
        var token := Strip(current);
        if token != [] {
          results := results + [token];
        }
        current := [];
      } else {
        current := current + [c];
      }
    }
    assert s[..|s|] == s;
    if parenDepth != 0 {
      return Err;
    }
    var token := Strip(current);
    if token != [] {
      results := results + [token];
    }
    return Ok(results);
  }

  // ---- Literals -------------------------------------------------------------

  predicate Spells(text: string, word: string) { Upper(text) == word }

  predicate EnclosedBy(text: string, open: char, close: char) {
    text != [] && text[0] == open && text[|text| - 1] == close
  }

  /** `text[1:-1]`, which is empty for a one-character text. */
  function Inside(text: string): (r: string)
    requires text != []
    ensures |r| < |text|
  {
    if |text| == 1 then [] else text[1..|text| - 1]
  }

  function ParseNumber(text: string): Option<Value> {
    if '.' in text then
      (match ParseDecimal(text) case None => None case Some(x) => Some(VReal(x)))
    else
      (match ParseInt(text) case None => None case Some(n) => Some(VInt(n)))
  }

  function ParseLiteral(text: string): Result<Value>
    decreases |text|, 0
  {
    if Spells(text, "TRUE") then Ok(VBool(true))
    else if Spells(text, "FALSE") then Ok(VBool(false))
    else if Spells(text, "NULL") || Spells(text, "NONE") then Ok(VNull)
    else if ParseNumber(text).Some? then Ok(ParseNumber(text).value)
    else if EnclosedBy(text, '"', '"') || EnclosedBy(text, '\'', '\'') then Ok(VStr(Inside(text)))
    else if EnclosedBy(text, '[', ']') then
      var inner := Strip(Inside(text));
      if inner == [] then Ok(VList([]))
      else
        match Split(inner, ',')
        case Err => Err
        case Ok(items) =>
          match ParseLiterals(items, |inner|)
          case Err => Err
          case Ok(values) => Ok(VList(values))
    else Ok(VStr(text))
  }

  function ParseLiterals(texts: seq<string>, ghost bound: nat): Result<seq<Value>>
    requires forall t :: t in texts ==> |t| <= bound
    decreases bound, 1, |texts|
  {
    if texts == [] then Ok([])
    else
      match (ParseLiteral(texts[0]), ParseLiterals(texts[1..], bound))
      case (Ok(v), Ok(vs)) => Ok([v] + vs)
      case _ => Err
  }

  // ---- Comparisons ----------------------------------------------------------

  /** The length of the longest prefix of field characters. */
  function FieldLength(s: string): (n: nat)
    ensures n <= |s|
    ensures forall i :: 0 <= i < n ==> IsFieldChar(s[i])
    ensures n < |s| ==> !IsFieldChar(s[n])
  {
    if s != [] && IsFieldChar(s[0]) then 1 + FieldLength(s[1..]) else 0
  }

  predicate StartsWithWord(s: string, word: string) {
    |word| <= |s| && Upper(s[..|word|]) == word && (|s| > |word| ==> !IsFieldChar(s[|word|]))
  }

  /**
   * The length of the comparison operator at the start of `s`, 0 when there is none.
   * The two-character symbols are tried first; the words end at a word boundary.
   * (Backing off from `>=` to `>` only ever reads `=...` as the value, which a numeric
   * operator refuses, so the outcome is an error either way.)
   */
  function OperatorLength(s: string): (n: nat)
    ensures n <= |s|
  {
    if |s| >= 2 && s[..2] in ["==", "!=", ">=", "<="] then 2
    else if |s| >= 1 && (s[0] == '>' || s[0] == '<') then 1
    else if StartsWithWord(s, "NOT IN") then 6
    else if StartsWithWord(s, "IN") then 2
    else 0
  }

  /** A stripped text read as `field op value`. */
  function ParseComparison(s: string): Result<Expr> {
    var n := FieldLength(s);
    var afterField := StripLeft(s[n..]);
    var k := OperatorLength(afterField);
    var raw := StripLeft(afterField[k..]);
    if n == 0 || k == 0 || raw == [] || '\n' in raw then Err
    else
      match ParseLiteral(Strip(raw))
      case Err => Err
      case Ok(v) =>
        var leaf := Leaf(s[..n], afterField[..k], v);
        if Valid(leaf) then Ok(leaf) else Err
  }

  // ---- Rules ----------------------------------------------------------------

  function KeywordLength(s: string): (n: nat)
    ensures n <= |s|
  {
    if |s| >= 3 && Upper(s[..3]) in ["AND", "NOT"] then 3
    else if |s| >= 2 && Upper(s[..2]) == "OR" then 2
    else 0
  }

  /** The operator and the text between its parentheses, if `s` has that shape. */
  function MatchLogical(s: string): (r: Option<(string, string)>)
    ensures r.Some? ==> |r.value.1| < |s|
  {
    var k := KeywordLength(s);
    var rest := StripLeft(s[k..]);
    if k > 0 && |rest| >= 2 && EnclosedBy(rest, '(', ')')
    then Some((Upper(s[..k]), Inside(rest)))
    else None
  }

  /** Whatever is accepted here, the evaluator's validator accepts too. */
  function ParseRule(text: string): (r: Result<Expr>)
    ensures r.Ok? ==> Valid(r.value)
    decreases |text|, 0
  {
    var s := Strip(text);
    if s == [] then Err
    else
      match MatchLogical(s)
      case None => ParseComparison(s)
      case Some((op, inner)) =>
        match Split(Strip(inner), ',')
        case Err => Err
        case Ok(parts) =>
          if parts == [] then Err
          else
            match ParseRules(parts, |inner|)
            case Err => Err
            case Ok(conditions) =>
              if Valid(Logic(op, conditions)) then Ok(Logic(op, conditions)) else Err
  }

  function ParseRules(texts: seq<string>, ghost bound: nat): Result<seq<Expr>>
    requires forall t :: t in texts ==> |t| <= bound
    decreases bound, 1, |texts|
  {
    if texts == [] then Ok([])
    else
      match (ParseRule(texts[0]), ParseRules(texts[1..], bound))
      case (Ok(e), Ok(es)) => Ok([e] + es)
      case _ => Err
  }
}
