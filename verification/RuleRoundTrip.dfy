/**
 * Printing a rule and parsing it back: exactly which rules survive.
 */
module RuleRoundTrip {
  import opened Common
  import opened RuleText
  import opened RuleAst
  import opened RuleParser

  // ---- The printer ----------------------------------------------------------

  predicate PrintableString(s: string) {
    '\n' !in s && ('"' !in s || '\'' !in s)
  }

  /** `n` with a point before its last `k` digits. */
  predicate IsDecimal(x: real, n: int, k: nat) {
    k > 0 && x == n as real / Pow10(k) as real
  }

  ghost predicate PrintableReal(x: real) {
    exists n: int, k: nat :: IsDecimal(x, n, k)
  }

  /** A decimal in some number of places. */
  ghost function PrintReal(x: real): string
    requires PrintableReal(x)
  {
    var n: int, k: nat :| IsDecimal(x, n, k);
    PrintDecimal(n, k)
  }

  ghost predicate PrintableScalar(v: Value) {
    v.VNull? || v.VBool? || v.VInt? || (v.VReal? && PrintableReal(v.x)) || (v.VStr? && PrintableString(v.s))
  }

  ghost predicate PrintableValue(v: Value) {
    PrintableScalar(v) || (v.VList? && forall x :: x in v.items ==> PrintableScalar(x))
  }

  /** Validated, upper-case operators, word-character fields, and values with a text form. */
  ghost predicate Printable(e: Expr) {
    match e
    case Logic(op, conditions) =>
      && op in ["AND", "OR", "NOT"] && Valid(e)
      && forall child :: child in conditions ==> Printable(child)
    case Leaf(field, op, value) =>
      && Valid(e) && PrintableValue(value)
      && forall c :: c in field ==> IsFieldChar(c)
    case Malformed => false
  }

  function QuoteFor(s: string): char { if '"' in s then '\'' else '"' }

  ghost function PrintScalar(v: Value): string
    requires PrintableScalar(v)
  {
    match v
    case VNull => "null"
    case VBool(b) => if b then "true" else "false"
    case VInt(n) => PrintInt(n)
    case VReal(x) => PrintReal(x)
    case VStr(s) => [QuoteFor(s)] + s + [QuoteFor(s)]
  }

  ghost function PrintScalars(vs: seq<Value>): (ts: seq<string>)
    requires forall v :: v in vs ==> PrintableScalar(v)
    ensures |ts| == |vs|
    ensures forall i :: 0 <= i < |vs| ==> ts[i] == PrintScalar(vs[i])
  {
    seq(|vs|, i requires 0 <= i < |vs| => PrintScalar(vs[i]))
  }

  function Join(ts: seq<string>): string {
    if ts == [] then ""
    else if |ts| == 1 then ts[0]
    else ts[0] + ", " + Join(ts[1..])
  }

  ghost function PrintValue(v: Value): string
    requires PrintableValue(v)
  {
    if v.VList? then "[" + Join(PrintScalars(v.items)) + "]" else PrintScalar(v)
  }

  function PrintComparison(field: string, op: string, text: string): string {
    field + (" " + (op + (" " + text)))
  }

  ghost function Print(e: Expr): string
    requires Printable(e)
    decreases e, 1
  {
    match e
    case Logic(op, conditions) => op + "(" + Join(PrintAll(conditions)) + ")"
    case Leaf(field, op, value) => PrintComparison(field, op, PrintValue(value))
  }

  ghost function PrintAll(es: seq<Expr>): (ts: seq<string>)
    requires forall e :: e in es ==> Printable(e)
    ensures |ts| == |es|
    ensures forall i :: 0 <= i < |es| ==> ts[i] == Print(es[i])
    decreases es, 0
  {
    if es == [] then [] else [Print(es[0])] + PrintAll(es[1..])
  }

  // ---- Scanning printed text -----------------------------------------------

  lemma {:induction false} ScanConcat(st: Scan, a: string, b: string)
    ensures ScanText(st, a + b, ',') == ScanText(ScanText(st, a, ','), b, ',')
  {
    if b == [] {
      assert a + b == a;
    } else {
      assert (a + b)[..|a + b| - 1] == a + b[..|b| - 1];
      ScanConcat(st, a, b[..|b| - 1]);
    }
  }

  lemma {:induction false} ScanPlain(st: Scan, t: string)
    requires st.quote.None?
    requires forall c :: c in t ==> !IsQuote(c) && c != '(' && c != ')' && (st.depth == 0 ==> c != ',')
    ensures ScanText(st, t, ',') == st.(current := st.current + t)
  {
    if t != [] {
      var front := t[..|t| - 1];
      assert forall i :: 0 <= i < |front| ==> front[i] == t[i] && t[i] in t;
      ScanPlain(st, front);
      assert t == t[..|t| - 1] + [t[|t| - 1]];
    }
  }

  lemma {:induction false} ScanInsideQuotes(st: Scan, t: string)
    requires st.quote.Some? && st.quote.value !in t
    ensures ScanText(st, t, ',') == st.(current := st.current + t)
  {
    if t != [] {
      var front := t[..|t| - 1];
      assert forall i :: 0 <= i < |front| ==> front[i] == t[i] && t[i] in t;
      ScanInsideQuotes(st, front);
      assert t == t[..|t| - 1] + [t[|t| - 1]];
    }
  }

  /** `t` is copied whole when scanning, inside parentheses or at the top level. */
  ghost predicate Inert(t: string, nested: bool) {
    forall st: Scan {:trigger ScanText(st, t, ',')} ::
      st.quote.None? && (if nested then st.depth > 0 else st.depth == 0) ==>
        ScanText(st, t, ',') == st.(current := st.current + t)
  }

  lemma {:induction false} InertConcat(a: string, b: string, nested: bool)
    requires Inert(a, nested) && Inert(b, nested)
    ensures Inert(a + b, nested)
  {
    hide ScanText;
    forall st: Scan | st.quote.None? && (if nested then st.depth > 0 else st.depth == 0)
      ensures ScanText(st, a + b, ',') == st.(current := st.current + (a + b))
    {
      ScanConcat(st, a, b);
      assert st.current + a + b == st.current + (a + b);
    }
  }

  lemma {:induction false} InertPlain(t: string, nested: bool)
    requires forall c :: c in t ==> !IsQuote(c) && c != '(' && c != ')' && (nested || c != ',')
    ensures Inert(t, nested)
  {
    forall st: Scan | st.quote.None? && (if nested then st.depth > 0 else st.depth == 0)
      ensures ScanText(st, t, ',') == st.(current := st.current + t)
    {
      ScanPlain(st, t);
    }
  }

  lemma {:induction false} InertScalar(v: Value, nested: bool)
    requires PrintableScalar(v)
    ensures Inert(PrintScalar(v), nested)
  {
    if v.VStr? {
      var q := QuoteFor(v.s);
      forall st: Scan | st.quote.None?
        ensures ScanText(st, [q] + v.s + [q], ',') == st.(current := st.current + ([q] + v.s + [q]))
      {
        ScanConcat(st, [q] + v.s, [q]);
        ScanConcat(st, [q], v.s);
        ScanInsideQuotes(st.(current := st.current + [q], quote := Some(q)), v.s);
        ScanOne(st, q);
        ScanOne(st.(current := st.current + [q] + v.s, quote := Some(q)), q);
      }
    } else {
      InertUnquoted(v, nested);
    }
  }

  lemma {:induction false} InertUnquoted(v: Value, nested: bool)
    requires PrintableScalar(v) && !v.VStr?
    ensures Inert(PrintScalar(v), nested)
  {
    PlainText(v);
    hide *;
    InertPlain(PrintScalar(v), nested);
  }

  lemma {:induction false} PlainText(v: Value)
    requires PrintableScalar(v) && !v.VStr?
    ensures forall c :: c in PrintScalar(v) ==> !IsQuote(c) && c != '(' && c != ')' && c != ','
  {
    hide PrintReal, PrintableReal, PrintNat;
    match v
    case VReal(x) => RealText(x);
    case VInt(n) =>
      assert forall c :: c in PrintInt(n) ==> IsDigit(c) || c == '-';
    case VBool(_) =>
    case VNull =>
  }

  /** A printed decimal is digits around a point, perhaps behind a sign. */
  lemma {:induction false} RealText(x: real)
    requires PrintableReal(x)
    ensures forall c :: c in PrintReal(x) ==> IsDigit(c) || c == '-' || c == '.'
    ensures Tight(PrintReal(x)) && '.' in PrintReal(x)
    ensures PrintReal(x)[0] == '-' || IsDigit(PrintReal(x)[0])
    ensures ParseDecimal(PrintReal(x)) == Some(x)
  {
    hide ParseDecimal;
    var n: int, k: nat :| IsDecimal(x, n, k) && PrintReal(x) == PrintDecimal(n, k);
    DecimalText(n, k);
    ParsePrintDecimal(n, k, Pow10(k), x);
  }

  /** Any number of places will do: 2.5, 2.50 and 2.500 are read alike. */
  lemma {:induction false} DecimalReturns(x: real, n: int, k: nat)
    requires IsDecimal(x, n, k)
    ensures ParseLiteral(PrintDecimal(n, k)) == Ok(VReal(x))
  {
    DecimalText(n, k);
    ParsePrintDecimal(n, k, Pow10(k), x);
    hide *;
    DecimalIsRead(PrintDecimal(n, k), x);
  }

  /** A text that starts like a number and parses as one is read as it. */
  lemma {:induction false} NumberIsRead(text: string, v: Value)
    requires text != [] && (text[0] == '-' || IsDigit(text[0])) && ParseNumber(text) == Some(v)
    ensures ParseLiteral(text) == Ok(v)
  {
    NotAWord(text);
    hide ParseNumber, Spells, Split, ParseLiterals, Strip, EnclosedBy;
  }

  lemma {:induction false} DecimalIsRead(text: string, x: real)
    requires text != [] && (text[0] == '-' || IsDigit(text[0])) && '.' in text && ParseDecimal(text) == Some(x)
    ensures ParseLiteral(text) == Ok(VReal(x))
  {
    hide ParseDecimal, ParseLiteral;
    NumberIsRead(text, VReal(x));
  }

  lemma {:induction false} IntIsRead(n: int)
    ensures ParseLiteral(PrintInt(n)) == Ok(VInt(n))
  {
    hide ParseLiteral, ParseInt, PrintNat;
    ParsePrintInt(n);
    assert forall c :: c in PrintInt(n) ==> IsDigit(c) || c == '-';
    assert ParseNumber(PrintInt(n)) == Some(VInt(n));
    NumberIsRead(PrintInt(n), VInt(n));
  }

  lemma {:induction false} DecimalText(n: int, k: nat)
    requires k > 0
    ensures forall c :: c in PrintDecimal(n, k) ==> IsDigit(c) || c == '-' || c == '.'
    ensures Tight(PrintDecimal(n, k)) && '.' in PrintDecimal(n, k)
    ensures PrintDecimal(n, k)[0] == '-' || IsDigit(PrintDecimal(n, k)[0])
  {
    hide PrintNat, Pad, Whole;
    var m: nat := if n < 0 then -n else n;
    var whole, fraction := PrintNat(Whole(m, k)), Pad(m, k);
    var text := PrintShifted(m, k);
    assert text == whole + "." + fraction;
    assert text[|whole|] == '.' && text[0] == whole[0] && text[|text| - 1] == fraction[k - 1];
    assert forall c :: c in text ==> c in whole || c == '.' || c in fraction;
    assert n < 0 ==> ("-" + text)[|whole| + 1] == '.' && ("-" + text)[|text|] == text[|text| - 1];
  }

  lemma {:induction false} ScanOne(st: Scan, c: char)
    ensures ScanText(st, [c], ',') == ScanChar(st, c, ',')
  {
    assert [c][..0] == [];
  }

  lemma {:induction false} InertJoin(ts: seq<string>)
    requires forall t :: t in ts ==> Inert(t, true)
    ensures Inert(Join(ts), true)
  {
    if ts == [] {
      InertPlain("", true);
    } else if |ts| > 1 {
      InertJoin(ts[1..]);
      InertPlain(", ", true);
      InertConcat(ts[0], ", ", true);
      InertConcat(ts[0] + ", ", Join(ts[1..]), true);
    }
  }

  predicate LongList(e: Expr) { e.Leaf? && e.value.VList? && |e.value.items| >= 2 }

  lemma {:induction false} InertComparison(field: string, op: string, text: string, nested: bool)
    requires (forall c :: c in field ==> IsFieldChar(c)) && op in COMPARISON_OPS
    requires Inert(text, nested)
    ensures Inert(PrintComparison(field, op, text), nested)
  {
    InertPlain(" ", nested);
    InertPlain(op, nested);
    InertPlain(field, nested);
    InertConcat(" ", text, nested);
    InertConcat(op, " " + text, nested);
    InertConcat(" ", op + (" " + text), nested);
    InertConcat(field, " " + (op + (" " + text)), nested);
  }

  lemma {:induction false} InertListText(vs: seq<Value>, nested: bool)
    requires (forall v :: v in vs ==> PrintableScalar(v)) && (nested || |vs| <= 1)
    ensures Inert("[" + Join(PrintScalars(vs)) + "]", nested)
  {
    var ts := PrintScalars(vs);
    forall t | t in ts
      ensures Inert(t, nested)
    {
      var i :| 0 <= i < |vs| && t == PrintScalar(vs[i]);
      InertScalar(vs[i], nested);
    }
    if nested {
      InertJoin(ts);
    } else if vs == [] {
      InertPlain("", nested);
    }
    InertPlain("[", nested);
    InertPlain("]", nested);
    InertConcat("[", Join(ts), nested);
    InertConcat("[" + Join(ts), "]", nested);
  }

  lemma {:induction false} InertLeaf(e: Expr, nested: bool)
    requires e.Leaf? && Printable(e) && (nested || !LongList(e))
    ensures Inert(Print(e), nested)
  {
    if e.value.VList? {
      InertListText(e.value.items, nested);
    } else {
      InertScalar(e.value, nested);
    }
    InertComparison(e.field, e.op, PrintValue(e.value), nested);
  }

  lemma {:induction false} ScanParenthesized(st: Scan, op: string, inner: string)
    requires op in ["AND", "OR", "NOT"] && Inert(inner, true)
    requires st.quote.None? && st.depth >= 0
    ensures ScanText(st, op + "(" + inner + ")", ',') == st.(current := st.current + op + "(" + inner + ")")
  {
    var named := st.(current := st.current + op);
    var entered := named.(current := named.current + "(", depth := st.depth + 1);
    var filled := entered.(current := entered.current + inner);
    ScanConcat(st, op + "(" + inner, ")");
    ScanConcat(st, op + "(", inner);
    ScanConcat(st, op, "(");
    ScanPlain(st, op);
    ScanOne(named, '(');
    ScanOne(filled, ')');
  }

  lemma {:induction false} InertParenthesized(op: string, inner: string, nested: bool)
    requires op in ["AND", "OR", "NOT"] && Inert(inner, true)
    ensures Inert(op + "(" + inner + ")", nested)
  {
    var t := op + "(" + inner + ")";
    forall st: Scan | st.quote.None? && (if nested then st.depth > 0 else st.depth == 0)
      ensures ScanText(st, t, ',') == st.(current := st.current + t)
    {
      ScanParenthesized(st, op, inner);
      assert st.current + op + "(" + inner + ")" == st.current + t;
    }
  }

  lemma {:induction false} InertPrint(e: Expr, nested: bool)
    requires Printable(e) && (nested || !LongList(e))
    ensures Inert(Print(e), nested)
    decreases e
  {
    if e.Leaf? {
      InertLeaf(e, nested);
    } else {
      forall i | 0 <= i < |e.conditions|
        ensures Inert(PrintAll(e.conditions)[i], true)
      {
        InertPrint(e.conditions[i], true);
      }
      InertJoin(PrintAll(e.conditions));
      InertParenthesized(e.op, Join(PrintAll(e.conditions)), nested);
    }
  }

  // ---- Splitting a comma-join ----------------------------------------------

  /** The delimiter before the next item: the pending text becomes a token. */
  lemma {:induction false} ScanSeparator(results: seq<string>, current: string)
    ensures ScanText(Scan(results, current, 0, None), ", ", ',') == Scan(Emit(results, current), " ", 0, None)
  {
    var st := Scan(results, current, 0, None);
    assert ", " == "," + " ";
    ScanConcat(st, ",", " ");
    ScanOne(st, ',');
    ScanOne(ScanChar(st, ',', ','), ' ');
  }

  lemma {:induction false} ScanItem(results: seq<string>, pad: string, t: string)
    requires Inert(t, false)
    ensures ScanText(Scan(results, pad, 0, None), t + ", ", ',') == Scan(Emit(results, pad + t), " ", 0, None)
  {
    ScanConcat(Scan(results, pad, 0, None), t, ", ");
    ScanSeparator(results, pad + t);
  }

  lemma {:induction false} ScanFirst(ts: seq<string>, results: seq<string>, pad: string)
    requires |ts| >= 2 && (pad == "" || pad == " ")
    requires Inert(ts[0], false) && Tight(ts[0])
    ensures ScanText(Scan(results, pad, 0, None), Join(ts), ',')
         == ScanText(Scan(results + [ts[0]], " ", 0, None), Join(ts[1..]), ',')
  {
    hide ScanText;
    StripPadded(ts[0], pad);
    ScanItem(results, pad, ts[0]);
    ScanConcat(Scan(results, pad, 0, None), ts[0] + ", ", Join(ts[1..]));
  }

  lemma {:induction false} SplitOne(t: string, results: seq<string>, pad: string)
    requires Inert(t, false) && Tight(t) && (pad == "" || pad == " ")
    ensures Finish(ScanText(Scan(results, pad, 0, None), t, ',')) == Ok(results + [t])
  {
    hide ScanText;
    StripPadded(t, pad);
    assert ScanText(Scan(results, pad, 0, None), t, ',') == Scan(results, pad + t, 0, None);
  }

  lemma {:induction false} SplitJoin(ts: seq<string>, results: seq<string>, pad: string)
    requires ts != [] && (pad == "" || pad == " ")
    requires forall t :: t in ts ==> Inert(t, false) && Tight(t)
    ensures Finish(ScanText(Scan(results, pad, 0, None), Join(ts), ',')) == Ok(results + ts)
  {
    hide ScanText;
    if |ts| == 1 {
      SplitOne(ts[0], results, pad);
      assert ts == [ts[0]];
    } else {
      ScanFirst(ts, results, pad);
      SplitJoin(ts[1..], results + [ts[0]], " ");
      assert results + [ts[0]] + ts[1..] == results + ts;
    }
  }

  lemma {:induction false} StripPadded(t: string, pad: string)
    requires Tight(t) && (pad == "" || pad == " ")
    ensures forall results :: Emit(results, pad + t) == results + [t]
  {
    StripTight(t);
    assert "" + t == t;
  }

  lemma {:induction false} TightJoin(ts: seq<string>)
    requires ts != [] && forall t :: t in ts ==> Tight(t)
    ensures Tight(Join(ts))
  {
    if |ts| > 1 {
      TightJoin(ts[1..]);
      var last := Join(ts[1..]);
      assert Tight(ts[0]);
      assert Join(ts)[|Join(ts)| - 1] == last[|last| - 1];
      assert Join(ts)[0] == ts[0][0];
    }
  }

  lemma {:induction false} SplitOfJoin(ts: seq<string>)
    requires ts != [] && forall t :: t in ts ==> Inert(t, false) && Tight(t)
    ensures Split(Strip(Join(ts)), ',') == Ok(ts)
  {
    TightJoin(ts);
    StripTight(Join(ts));
    SplitJoin(ts, [], "");
    assert [] + ts == ts;
  }

  // ---- What any split yields ------------------------------------------------

  lemma {:induction false} StripIsTight(s: string)
    ensures Strip(s) == [] || Tight(Strip(s))
  {
    var t := StripLeft(s);
    assert StripRight(t) <= t;
  }

  lemma {:induction false} TokensStayTight(st: Scan, s: string, delimiter: char)
    requires forall t :: t in st.results ==> Tight(t)
    ensures forall t :: t in ScanText(st, s, delimiter).results ==> Tight(t)
  {
    if s != [] {
      TokensStayTight(st, s[..|s| - 1], delimiter);
      StripIsTight(ScanText(st, s[..|s| - 1], delimiter).current);
      hide Strip;
    }
  }

  /** Whatever is split, no part is blank or has blanks around it. */
  lemma {:induction false} PartsAreTight(s: string, delimiter: char)
    requires Split(s, delimiter).Ok?
    ensures forall t :: t in Split(s, delimiter).value ==> Tight(t)
  {
    TokensStayTight(START, s, delimiter);
    StripIsTight(ScanText(START, s, delimiter).current);
    hide Strip, ScanText;
  }

  // ---- Values come back -----------------------------------------------------

  lemma {:induction false} DigitsStartWithADigit(s: string)
    ensures ParseDigits(s).Some? ==> s != [] && IsDigit(s[0])
  {
    if |s| > 1 {
      var front := s[..|s| - 1];
      DigitsStartWithADigit(if front[|front| - 1] == '_' then front[..|front| - 1] else front);
    }
  }

  lemma {:induction false} NotANumber(text: string)
    requires text != [] && !IsDigit(text[0]) && text[0] !in ['-', '+', '.']
    ensures ParseNumber(text).None?
  {
    DigitsStartWithADigit(text);
    DigitsStartWithADigit(text[..IndexOf(text, '.')]);
  }

  lemma {:induction false} NotAWord(text: string)
    requires text != [] && text[0] !in "tTfFnN"
    ensures !Spells(text, "TRUE") && !Spells(text, "FALSE") && !Spells(text, "NULL") && !Spells(text, "NONE")
  {
  }

  lemma {:induction false} ScalarIsTight(v: Value)
    requires PrintableScalar(v)
    ensures Tight(PrintScalar(v)) && '\n' !in PrintScalar(v)
  {
    if v.VInt? {
      assert forall c :: c in PrintInt(v.n) ==> IsDigit(c) || c == '-';
    } else if v.VReal? {
      RealText(v.x);
    }
  }

  lemma {:induction false} WordsReturn()
    ensures ParseLiteral("null") == Ok(VNull)
    ensures ParseLiteral("true") == Ok(VBool(true)) && ParseLiteral("false") == Ok(VBool(false))
  {
    assert Upper("null") == "NULL";
    assert Upper("true") == "TRUE";
    assert Upper("false") == "FALSE";
  }

  lemma {:induction false} QuotedReturns(s: string, q: char)
    requires IsQuote(q)
    ensures ParseLiteral([q] + s + [q]) == Ok(VStr(s))
  {
    var text := [q] + s + [q];
    NotAWord(text);
    NotANumber(text);
    assert Inside(text) == s;
  }

  lemma {:induction false} ScalarReturns(v: Value)
    requires PrintableScalar(v)
    ensures ParseLiteral(PrintScalar(v)) == Ok(v)
  {
    hide ParseLiteral, PrintReal, PrintInt, PrintableReal;
    match v
    case VNull => WordsReturn();
    case VBool(b) => WordsReturn();
    case VInt(n) => IntIsRead(n);
    case VReal(x) =>
      RealText(x);
      DecimalIsRead(PrintReal(x), x);
    case VStr(s) => QuotedReturns(s, QuoteFor(s));
  }

  lemma {:induction false} ScalarsReturn(vs: seq<Value>, bound: nat)
    requires forall v :: v in vs ==> PrintableScalar(v)
    requires forall t :: t in PrintScalars(vs) ==> |t| <= bound
    ensures ParseLiterals(PrintScalars(vs), bound) == Ok(vs)
  {
    if vs != [] {
      ScalarReturns(vs[0]);
      assert PrintScalars(vs)[1..] == PrintScalars(vs[1..]);
      ScalarsReturn(vs[1..], bound);
      assert vs == [vs[0]] + vs[1..];
    }
  }

  lemma {:induction false} ListTextsAreInert(vs: seq<Value>)
    requires forall v :: v in vs ==> PrintableScalar(v)
    ensures forall t :: t in PrintScalars(vs) ==> Inert(t, false) && Tight(t) && '\n' !in t
  {
    forall t | t in PrintScalars(vs)
      ensures Inert(t, false) && Tight(t) && '\n' !in t
    {
      var i :| 0 <= i < |vs| && t == PrintScalar(vs[i]);
      InertScalar(vs[i], false);
      ScalarIsTight(vs[i]);
    }
  }

  lemma {:induction false} BracketedText(inner: string)
    ensures var text := "[" + inner + "]";
            && !Spells(text, "TRUE") && !Spells(text, "FALSE") && !Spells(text, "NULL") && !Spells(text, "NONE")
            && ParseNumber(text).None?
            && !EnclosedBy(text, '"', '"') && !EnclosedBy(text, '\'', '\'')
            && EnclosedBy(text, '[', ']') && Inside(text) == inner
  {
    var text := "[" + inner + "]";
    assert text[0] == '[' && text[|text| - 1] == ']';
    NotAWord(text);
    NotANumber(text);
    assert Inside(text) == inner;
  }

  lemma {:induction false} ListReturns(vs: seq<Value>)
    requires forall v :: v in vs ==> PrintableScalar(v)
    ensures ParseLiteral("[" + Join(PrintScalars(vs)) + "]") == Ok(VList(vs))
  {
    var ts := PrintScalars(vs);
    if vs != [] {
      ListTextsAreInert(vs);
      SplitOfJoin(ts);
      TightJoin(ts);
      StripTight(Join(ts));
      ScalarsReturn(vs, |Join(ts)|);
    } else {
      assert Strip(Join(ts)) == [];
    }
    BracketedText(Join(ts));
  }

  lemma {:induction false} ValueReturns(v: Value)
    requires PrintableValue(v)
    ensures ParseLiteral(PrintValue(v)) == Ok(v)
  {
    if v.VList? {
      ListReturns(v.items);
    } else {
      ScalarReturns(v);
    }
  }

  lemma {:induction false} ValueIsTight(v: Value)
    requires PrintableValue(v)
    ensures Tight(PrintValue(v)) && '\n' !in PrintValue(v)
  {
    if v.VList? {
      ListTextsAreInert(v.items);
      NoNewlineInJoin(PrintScalars(v.items));
    } else {
      ScalarIsTight(v);
    }
  }

  lemma {:induction false} NoNewlineInJoin(ts: seq<string>)
    requires forall t :: t in ts ==> '\n' !in t
    ensures '\n' !in Join(ts)
  {
    if |ts| > 1 {
      NoNewlineInJoin(ts[1..]);
    }
  }

  // ---- Comparisons come back ------------------------------------------------

  lemma {:induction false} FieldEnds(field: string, rest: string)
    requires (forall c :: c in field ==> IsFieldChar(c)) && rest != [] && !IsFieldChar(rest[0])
    ensures FieldLength(field + rest) == |field|
  {
    if field == [] {
      assert field + rest == rest;
    } else {
      assert (field + rest)[1..] == field[1..] + rest;
      FieldEnds(field[1..], rest);
    }
  }

  lemma {:induction false} OperatorEnds(op: string, rest: string)
    requires op in COMPARISON_OPS
    ensures OperatorLength(op + (" " + rest)) == |op|
  {
    var s := op + (" " + rest);
    assert s[..|op|] == op && s[|op|] == ' ';
    if op == ">" || op == "<" {
      assert s[..2][1] == ' ' && s[0] == op[0];
    } else if op == "in" {
      assert Upper("in") == "IN" && s[0] == 'i' && s[1] == 'n' && s[2] == ' ';
      assert |s| >= 6 ==> Upper(s[..6])[0] == 'I';
      assert !StartsWithWord(s, "NOT IN") && StartsWithWord(s, "IN");
    } else if op == "not in" {
      assert Upper("not in") == "NOT IN" && s[0] == 'n';
      assert StartsWithWord(s, "NOT IN");
    } else {
      assert s[..2] == op;
    }
  }

  lemma {:induction false} FieldIsNotBlank(field: string)
    requires Strip(field) != []
    ensures field != []
  {
  }

  lemma {:induction false} StripOneSpace(s: string)
    requires s != [] && !IsSpace(s[0])
    ensures StripLeft(" " + s) == s
  {
    assert (" " + s)[1..] == s;
  }

  /** `head rest`, cut after the head. */
  lemma {:induction false} CutAtSpace(head: string, rest: string)
    requires rest != [] && !IsSpace(rest[0])
    ensures var s := head + (" " + rest);
            s[..|head|] == head && s[|head|..] == " " + rest && StripLeft(s[|head|..]) == rest
  {
    var s := head + (" " + rest);
    assert s[..|head|] == head;
    assert s[|head|..] == " " + rest;
    StripOneSpace(rest);
  }

  /** A comparison is read back with whatever its last part reads as. */
  lemma {:induction false} ComparisonTextReturns(field: string, op: string, text: string, v: Value)
    requires (forall c :: c in field ==> IsFieldChar(c)) && Valid(Leaf(field, op, v))
    requires Tight(text) && '\n' !in text && ParseLiteral(text) == Ok(v)
    ensures ParseComparison(PrintComparison(field, op, text)) == Ok(Leaf(field, op, v))
  {
    hide ParseLiteral;
    var tail := op + (" " + text);
    FieldIsNotBlank(field);
    FieldEnds(field, " " + tail);
    CutAtSpace(field, tail);
    OperatorEnds(op, text);
    CutAtSpace(op, text);
    StripTight(text);
  }

  lemma {:induction false} ComparisonReturns(e: Expr)
    requires e.Leaf? && Printable(e)
    ensures ParseComparison(Print(e)) == Ok(e)
  {
    hide ParseLiteral, ParseComparison;
    ValueIsTight(e.value);
    ValueReturns(e.value);
    ComparisonTextReturns(e.field, e.op, PrintValue(e.value), e.value);
  }

  lemma {:induction false} KeywordHasNoSpace(s: string)
    ensures forall i :: 0 <= i < KeywordLength(s) ==> s[i] != ' '
  {
    var k := KeywordLength(s);
    forall i | 0 <= i < k
      ensures s[i] != ' '
    {
      assert Upper(s[..k])[i] == UpperChar(s[i]);
    }
  }

  /** What follows a keyword at the start of a comparison does not open a parenthesis. */
  lemma {:induction false} NoOpenParenthesis(field: string, tail: string, k: nat)
    requires (forall c :: c in field ==> IsFieldChar(c)) && k <= |field|
    requires tail != [] && !IsSpace(tail[0]) && tail[0] != '('
    ensures !EnclosedBy(StripLeft((field + (" " + tail))[k..]), '(', ')')
  {
    var s := field + (" " + tail);
    if k == |field| {
      CutAtSpace(field, tail);
    } else {
      assert s[k] == field[k] && field[k] in field;
    }
  }

  lemma {:induction false} ComparisonTextIsNotLogical(field: string, op: string, text: string)
    requires field != [] && (forall c :: c in field ==> IsFieldChar(c))
    requires op in COMPARISON_OPS && Tight(text)
    ensures Tight(PrintComparison(field, op, text))
    ensures MatchLogical(PrintComparison(field, op, text)).None?
  {
    var s := PrintComparison(field, op, text);
    assert s[0] == field[0] && field[0] in field && s[|s| - 1] == text[|text| - 1];
    assert s[|field|] == ' ';
    KeywordHasNoSpace(s);
    NoOpenParenthesis(field, op + (" " + text), KeywordLength(s));
  }

  lemma {:induction false} ComparisonIsNotLogical(e: Expr)
    requires e.Leaf? && Printable(e)
    ensures Tight(Print(e)) && MatchLogical(Print(e)).None?
  {
    FieldIsNotBlank(e.field);
    ValueIsTight(e.value);
    ComparisonTextIsNotLogical(e.field, e.op, PrintValue(e.value));
  }

  lemma {:induction false} LeafReturns(e: Expr)
    requires e.Leaf? && Printable(e)
    ensures ParseRule(Print(e)) == Ok(e)
  {
    ComparisonIsNotLogical(e);
    StripTight(Print(e));
    ComparisonReturns(e);
  }

  // ---- Bare words -----------------------------------------------------------

  /** A word the parser has no other reading for. */
  predicate BareWord(word: string) {
    && word != [] && (forall c :: c in word ==> IsFieldChar(c)) && !IsDigit(word[0])
    && Upper(word) !in ["TRUE", "FALSE", "NULL", "NONE"]
  }

  lemma {:induction false} BareWordReturns(word: string)
    requires BareWord(word)
    ensures ParseLiteral(word) == Ok(VStr(word)) && Tight(word) && '\n' !in word
  {
    assert word[0] in word && word[|word| - 1] in word;
    NotANumber(word);
  }

  /** The reserved words in any mixture of cases, and a plus sign, which is ignored. */
  lemma {:induction false} ReservedWordsReturn(word: string, n: nat)
    ensures Upper(word) == "TRUE" ==> ParseLiteral(word) == Ok(VBool(true))
    ensures Upper(word) == "FALSE" ==> ParseLiteral(word) == Ok(VBool(false))
    ensures Upper(word) == "NULL" || Upper(word) == "NONE" ==> ParseLiteral(word) == Ok(VNull)
    ensures ParseLiteral("+" + PrintNat(n)) == Ok(VInt(n))
  {
    var text := "+" + PrintNat(n);
    NotAWord(text);
    ParsePrintNat(n);
    assert text[1..] == PrintNat(n);
    assert forall c :: c in text ==> IsDigit(c) || c == '+';
  }

  /** An unquoted word is compared like the same word in quotes. */
  lemma {:induction false} BareWordReadsAsQuoted(field: string, op: string, word: string)
    requires BareWord(word) && Strip(field) != [] && (forall c :: c in field ==> IsFieldChar(c)) && op in ["==", "!="]
    ensures ParseRule(PrintComparison(field, op, word)) == Ok(Leaf(field, op, VStr(word)))
    ensures ParseRule(PrintComparison(field, op, "\"" + word + "\"")) == Ok(Leaf(field, op, VStr(word)))
  {
    var leaf := Leaf(field, op, VStr(word));
    assert Valid(leaf);
    BareWordReturns(word);
    assert '"' !in word && Print(leaf) == PrintComparison(field, op, "\"" + word + "\"");
    LeafReturns(leaf);
    ComparisonTextReturns(field, op, word, VStr(word));
    FieldIsNotBlank(field);
    ComparisonTextIsNotLogical(field, op, word);
    StripTight(PrintComparison(field, op, word));
    hide ParseComparison, MatchLogical, PrintComparison, Valid;
  }

  // ---- Logical nodes come back ----------------------------------------------

  lemma {:induction false} KeywordEnds(op: string, rest: string)
    requires op in ["AND", "OR", "NOT"] && rest != [] && rest[0] == '('
    ensures KeywordLength(op + rest) == |op| && Upper((op + rest)[..|op|]) == op
  {
    var s := op + rest;
    assert s[..|op|] == op;
    assert Upper(op) == op;
    if op == "OR" {
      assert Upper(s[..3])[2] == '(';
    }
  }

  lemma {:induction false} MatchAfterKeyword(op: string, inner: string)
    requires var rest := "(" + inner + ")";
             op != [] && KeywordLength(op + rest) == |op| && Upper((op + rest)[..|op|]) == op
    ensures MatchLogical(op + ("(" + inner + ")")) == Some((op, inner))
  {
    var rest := "(" + inner + ")";
    assert (op + rest)[|op|..] == rest && StripLeft(rest) == rest;
    assert Inside(rest) == inner;
  }

  lemma {:induction false} LogicalText(op: string, inner: string)
    requires op in ["AND", "OR", "NOT"]
    ensures MatchLogical(op + "(" + inner + ")") == Some((op, inner))
    ensures Tight(op + "(" + inner + ")")
  {
    KeywordEnds(op, "(" + inner + ")");
    MatchAfterKeyword(op, inner);
    assert op + "(" + inner + ")" == op + ("(" + inner + ")");
  }

  lemma {:induction false} StripPad(pad: string, s: string)
    requires s != [] && !IsSpace(s[0]) && forall c :: c in pad ==> IsSpace(c)
    ensures StripLeft(pad + s) == s
  {
    if pad == [] {
      assert pad + s == s;
    } else {
      assert (pad + s)[1..] == pad[1..] + s;
      StripPad(pad[1..], s);
    }
  }

  /** A connective in any mixture of cases, with blanks before its parenthesis. */
  lemma {:induction false} AnySpellingMatches(word: string, pad: string, inner: string, op: string)
    requires op in ["AND", "OR", "NOT"] && Upper(word) == op && forall c :: c in pad ==> IsSpace(c)
    ensures MatchLogical(word + pad + ("(" + inner + ")")) == Some((op, inner))
  {
    var rest := "(" + inner + ")";
    var s := word + pad + rest;
    assert (pad + rest)[0] == if pad == [] then '(' else pad[0];
    assert pad != [] ==> pad[0] in pad;
    WordEnds(word, pad + rest, op);
    assert s == word + (pad + rest);
    assert s[|word|..] == pad + rest;
    StripPad(pad, rest);
    assert Inside(rest) == inner;
  }

  lemma {:induction false} WordEnds(word: string, rest: string, op: string)
    requires op in ["AND", "OR", "NOT"] && Upper(word) == op
    requires rest != [] && UpperChar(rest[0]) != 'D' && UpperChar(rest[0]) != 'T'
    ensures KeywordLength(word + rest) == |word| && Upper((word + rest)[..|word|]) == op
  {
    var s := word + rest;
    assert s[..|word|] == word && |word| == |op|;
    if op == "OR" {
      assert Upper(s[..3])[2] == UpperChar(rest[0]);
    }
  }

  /** What parsing `op(inner)` reduces to. */
  lemma {:induction false} ParseLogicalText(op: string, inner: string)
    requires op in ["AND", "OR", "NOT"]
    ensures var r, split := ParseRule(op + "(" + inner + ")"), Split(Strip(inner), ',');
            if split.Err? || split.value == [] then r.Err?
            else match ParseRules(split.value, |inner|) {
              case Err => r.Err?
              case Ok(conditions) =>
                r == if Valid(Logic(op, conditions)) then Ok(Logic(op, conditions)) else Err
            }
  {
    LogicalText(op, inner);
    StripTight(op + "(" + inner + ")");
  }

  lemma {:induction false} PrintIsTight(e: Expr)
    requires Printable(e)
    ensures Tight(Print(e))
  {
    if e.Leaf? {
      ComparisonIsNotLogical(e);
    } else {
      LogicalText(e.op, Join(PrintAll(e.conditions)));
    }
  }

  lemma {:induction false} AllReturn(es: seq<Expr>, bound: nat)
    requires forall e :: e in es ==> Printable(e) && ParseRule(Print(e)) == Ok(e)
    requires forall t :: t in PrintAll(es) ==> |t| <= bound
    ensures ParseRules(PrintAll(es), bound) == Ok(es)
  {
    if es != [] {
      assert PrintAll(es)[1..] == PrintAll(es[1..]);
      AllReturn(es[1..], bound);
      assert es == [es[0]] + es[1..];
    }
  }

  lemma {:induction false} OneErrorIsEnough(texts: seq<string>, bound: nat, i: nat)
    requires forall t :: t in texts ==> |t| <= bound
    requires i < |texts| && ParseRule(texts[i]).Err?
    ensures ParseRules(texts, bound).Err?
  {
    hide ParseRule;
    if i > 0 {
      OneErrorIsEnough(texts[1..], bound, i - 1);
    }
  }

  /** No list of two or more items anywhere below a logical operator. */
  predicate NestedListsFit(e: Expr) {
    e.Logic? ==> forall child :: child in e.conditions ==> !LongList(child) && NestedListsFit(child)
  }

  lemma {:induction false} ConditionTextsSplit(conditions: seq<Expr>)
    requires conditions != []
    requires forall e :: e in conditions ==> Printable(e) && !LongList(e)
    ensures Split(Strip(Join(PrintAll(conditions))), ',') == Ok(PrintAll(conditions))
  {
    var ts := PrintAll(conditions);
    forall t | t in ts
      ensures Inert(t, false) && Tight(t)
    {
      var i :| 0 <= i < |ts| && t == Print(conditions[i]);
      InertPrint(conditions[i], false);
      PrintIsTight(conditions[i]);
    }
    SplitOfJoin(ts);
  }

  lemma {:induction false} FittingRulesReturn(e: Expr)
    requires Printable(e) && NestedListsFit(e)
    ensures ParseRule(Print(e)) == Ok(e)
    decreases e
  {
    if e.Leaf? {
      LeafReturns(e);
    } else {
      var ts := PrintAll(e.conditions);
      ConditionTextsSplit(e.conditions);
      ParseLogicalText(e.op, Join(ts));
      forall child | child in e.conditions
        ensures ParseRule(Print(child)) == Ok(child)
      {
        FittingRulesReturn(child);
      }
      TightJoinOf(e.conditions);
      AllReturn(e.conditions, |Join(ts)|);
    }
  }

  lemma {:induction false} TightJoinOf(conditions: seq<Expr>)
    requires conditions != [] && forall e :: e in conditions ==> Printable(e)
    ensures Tight(Join(PrintAll(conditions)))
    ensures forall t :: t in PrintAll(conditions) ==> |t| <= |Join(PrintAll(conditions))|
  {
    var ts := PrintAll(conditions);
    forall t | t in ts
      ensures Tight(t)
    {
      var i :| 0 <= i < |ts| && t == Print(conditions[i]);
      PrintIsTight(conditions[i]);
    }
    TightJoin(ts);
    PartsFit(ts);
  }

  lemma {:induction false} PartsFit(ts: seq<string>)
    ensures forall t :: t in ts ==> |t| <= |Join(ts)|
  {
    if |ts| > 1 {
      PartsFit(ts[1..]);
    }
  }

  // ---- Long lists below an operator never come back -------------------------

  lemma {:induction false} ListTailIsNotLogical(s: string)
    requires s != [] && s[|s| - 1] == ']'
    ensures MatchLogical(s).None?
  {
    StripLeftKeepsEnd(s[KeywordLength(s)..]);
  }

  lemma {:induction false} ListTailIsNoComparison(v: Value)
    requires PrintableScalar(v)
    ensures ParseComparison(PrintScalar(v) + "]").Err?
  {
    var text := PrintScalar(v);
    var s := text + "]";
    if v.VReal? {
      RealText(v.x);
      DecimalIsNoComparison(v.x);
    } else if v.VStr? || text[0] == '-' {
      assert FieldLength(s) == 0;
    } else {
      assert forall c :: c in text ==> IsFieldChar(c);
      FieldEnds(text, "]");
      assert s[|text|..] == "]";
      assert OperatorLength("]") == 0;
    }
  }

  lemma {:induction false} DecimalIsNoComparison(x: real)
    requires PrintableReal(x)
    ensures ParseComparison(PrintReal(x) + "]").Err?
  {
    RealText(x);
    DecimalTail(PrintReal(x));
  }

  lemma {:induction false} DecimalTail(text: string)
    requires forall c :: c in text ==> IsDigit(c) || c == '-' || c == '.'
    ensures ParseComparison(text + "]").Err?
  {
    hide ParseComparison;
    var s := text + "]";
    var n := FieldLength(s);
    assert s[|text|] == ']' && forall i :: 0 <= i < |text| ==> s[i] == text[i] && text[i] in text;
    assert n <= |text| && s[n] in "-.]";
    var rest := s[n..];
    assert rest[0] == s[n] && StripLeft(rest) == rest;
    NoOperator(rest);
    NoOperatorNoComparison(s);
  }

  lemma {:induction false} NoOperatorNoComparison(s: string)
    requires OperatorLength(StripLeft(s[FieldLength(s)..])) == 0
    ensures ParseComparison(s).Err?
  {
    hide ParseLiteral, FieldLength, OperatorLength, StripLeft;
  }

  lemma {:induction false} NoOperator(s: string)
    requires s != [] && s[0] in "-.]"
    ensures OperatorLength(s) == 0
  {
    if |s| >= 2 {
      assert s[..2][0] == s[0];
    }
    if |s| >= 6 {
      assert Upper(s[..6])[0] == s[0];
      assert Upper(s[..2])[0] == s[0];
    } else if |s| >= 2 {
      assert Upper(s[..2])[0] == s[0];
    }
  }

  /** The last piece of a list that the splitter cut apart is no rule. */
  lemma {:induction false} ListTailIsNoRule(v: Value)
    requires PrintableScalar(v)
    ensures Tight(PrintScalar(v) + "]") && ParseRule(PrintScalar(v) + "]").Err?
  {
    ScalarIsTight(v);
    StripTight(PrintScalar(v) + "]");
    ListTailIsNotLogical(PrintScalar(v) + "]");
    ListTailIsNoComparison(v);
  }

  lemma {:induction false} StripLeftKeepsEnd(s: string)
    ensures StripLeft(s) != [] ==> s != [] && StripLeft(s)[|StripLeft(s)| - 1] == s[|s| - 1]
  {
    if s != [] && IsSpace(s[0]) {
      StripLeftKeepsEnd(s[1..]);
    }
  }

  /** After scanning a comma-join, the last item is still pending. */
  lemma {:induction false} ScanJoinEnds(ts: seq<string>, results: seq<string>, current: string)
    requires |ts| >= 2 && forall t :: t in ts ==> Inert(t, false)
    ensures var r := ScanText(Scan(results, current, 0, None), Join(ts), ',');
            r.current == " " + ts[|ts| - 1] && r.depth == 0 && r.quote.None?
  {
    hide ScanText;
    var st := Scan(results, current, 0, None);
    ScanConcat(st, ts[0] + ", ", Join(ts[1..]));
    ScanItem(results, current, ts[0]);
    var after := Emit(results, current + ts[0]);
    if |ts| == 2 {
      assert Inert(ts[1], false);
      assert ScanText(Scan(after, " ", 0, None), ts[1], ',') == Scan(after, " " + ts[1], 0, None);
    } else {
      ScanJoinEnds(ts[1..], after, " ");
    }
  }

  lemma {:induction false} ScanCutList(head: string, ts: seq<string>, results: seq<string>, pad: string)
    requires Inert(head, false) && |ts| >= 2 && forall t :: t in ts ==> Inert(t, false)
    ensures var r := ScanText(Scan(results, pad, 0, None), head + Join(ts) + "]", ',');
            r == Scan(r.results, " " + ts[|ts| - 1] + "]", 0, None)
  {
    hide ScanText;
    var st := Scan(results, pad, 0, None);
    ScanJoinEnds(ts, results, pad + head);
    ScanConcat(st, head, Join(ts));
    var listed := ScanText(st, head + Join(ts), ',');
    ScanPlain(listed, "]");
    ScanConcat(st, head + Join(ts), "]");
  }

  lemma {:induction false} ListLeafText(field: string, op: string, joined: string)
    ensures PrintComparison(field, op, "[" + joined + "]") == PrintComparison(field, op, "[") + joined + "]"
  {
    assert " " + ("[" + joined + "]") == " " + "[" + joined + "]";
    assert op + (" " + "[" + joined + "]") == op + (" " + "[") + joined + "]";
  }

  /** Scanning a leaf with a long list leaves `last]` pending. */
  lemma {:induction false} ScanLongList(e: Expr, results: seq<string>, pad: string) returns (emitted: seq<string>)
    requires Printable(e) && LongList(e)
    ensures ScanText(Scan(results, pad, 0, None), Print(e), ',')
         == Scan(emitted, " " + PrintScalars(e.value.items)[|e.value.items| - 1] + "]", 0, None)
  {
    hide ScanText;
    var ts := PrintScalars(e.value.items);
    ListLeafText(e.field, e.op, Join(ts));
    InertPlain("[", false);
    InertComparison(e.field, e.op, "[", false);
    ListTextsAreInert(e.value.items);
    ScanCutList(PrintComparison(e.field, e.op, "["), ts, results, pad);
    emitted := ScanText(Scan(results, pad, 0, None), Print(e), ',').results;
  }

  lemma {:induction false} LongListEndsBadly(e: Expr, results: seq<string>, pad: string)
    returns (emitted: seq<string>, bad: string)
    requires Printable(e) && LongList(e)
    ensures ScanText(Scan(results, pad, 0, None), Print(e), ',') == Scan(emitted, " " + bad, 0, None)
    ensures Tight(bad) && ParseRule(bad).Err?
  {
    hide ScanText;
    var last := e.value.items[|e.value.items| - 1];
    assert last in e.value.items;
    ListTailIsNoRule(last);
    bad := PrintScalar(last) + "]";
    emitted := ScanLongList(e, results, pad);
    assert " " + bad == " " + PrintScalar(last) + "]";
  }

  predicate HasError(r: Result<seq<string>>) {
    r.Err? || exists i :: 0 <= i < |r.value| && ParseRule(r.value[i]).Err?
  }

  /** A bad token already emitted, or pending at the end, is among the parts. */
  lemma {:induction false} BadTokenSurvives(st: Scan, rest: string, bad: string)
    requires bad in st.results && ParseRule(bad).Err?
    ensures HasError(Finish(ScanText(st, rest, ',')))
  {
    ScanOnlyAdds(st, rest, ',');
    var i :| 0 <= i < |st.results| && st.results[i] == bad;
    var final := ScanText(st, rest, ',');
    assert final.results[i] == bad;
    assert Emit(final.results, final.current)[i] == bad;
  }

  /** A bad token that is pending at the top level is emitted sooner or later. */
  lemma {:induction false} PendingBadToken(results: seq<string>, bad: string, rest: seq<string>)
    requires Tight(bad) && ParseRule(bad).Err?
    ensures var st := Scan(results, " " + bad, 0, None);
            HasError(Finish(if rest == [] then st else ScanText(st, ", " + Join(rest), ',')))
  {
    StripPadded(bad, " ");
    var emitted := Emit(results, " " + bad);
    assert emitted[|results|] == bad;
    if rest != [] {
      ScanConcat(Scan(results, " " + bad, 0, None), ", ", Join(rest));
      ScanSeparator(results, " " + bad);
      BadTokenSurvives(Scan(emitted, " ", 0, None), Join(rest), bad);
    }
  }

  lemma {:induction false} PendingBadTokenInJoin(ts: seq<string>, st: Scan, results: seq<string>, bad: string)
    requires ts != [] && ScanText(st, ts[0], ',') == Scan(results, " " + bad, 0, None)
    requires Tight(bad) && ParseRule(bad).Err?
    ensures HasError(Finish(ScanText(st, Join(ts), ',')))
  {
    hide ScanText;
    PendingBadToken(results, bad, ts[1..]);
    if |ts| > 1 {
      JoinTail(ts);
      ScanConcat(st, ts[0], ", " + Join(ts[1..]));
    }
  }

  lemma {:induction false} LongHeadPoisons(es: seq<Expr>, results: seq<string>, pad: string)
    requires es != [] && (forall e :: e in es ==> Printable(e)) && LongList(es[0])
    ensures HasError(Finish(ScanText(Scan(results, pad, 0, None), Join(PrintAll(es)), ',')))
  {
    assert Printable(es[0]);
    var emitted, bad := LongListEndsBadly(es[0], results, pad);
    PendingBadTokenInJoin(PrintAll(es), Scan(results, pad, 0, None), emitted, bad);
  }

  lemma {:induction false} JoinTail(ts: seq<string>)
    requires |ts| >= 2
    ensures Join(ts) == ts[0] + (", " + Join(ts[1..]))
  {
  }

  lemma {:induction false} LongListPoisons(es: seq<Expr>, results: seq<string>, pad: string)
    requires (forall e :: e in es ==> Printable(e)) && (exists e :: e in es && LongList(e))
    requires pad == "" || pad == " "
    ensures HasError(Finish(ScanText(Scan(results, pad, 0, None), Join(PrintAll(es)), ',')))
  {
    if LongList(es[0]) {
      LongHeadPoisons(es, results, pad);
    } else {
      InertPrint(es[0], false);
      PrintIsTight(es[0]);
      assert PrintAll(es)[1..] == PrintAll(es[1..]);
      ScanFirst(PrintAll(es), results, pad);
      LongListPoisons(es[1..], results + [Print(es[0])], " ");
    }
  }

  lemma {:induction false} UnfitRulesFail(e: Expr)
    requires Printable(e) && !NestedListsFit(e)
    ensures ParseRule(Print(e)).Err?
    decreases e
  {
    var ts := PrintAll(e.conditions);
    ParseLogicalText(e.op, Join(ts));
    TightJoinOf(e.conditions);
    StripTight(Join(ts));
    var split := Split(Join(ts), ',');
    var i :| 0 <= i < |e.conditions| && (LongList(e.conditions[i]) || !NestedListsFit(e.conditions[i]));
    if child :| child in e.conditions && LongList(child) {
      LongListPoisons(e.conditions, [], "");
    } else {
      ConditionTextsSplit(e.conditions);
      UnfitRulesFail(e.conditions[i]);
      assert ParseRule(ts[i]).Err?;
    }
    if split.Ok? {
      var bad :| 0 <= bad < |split.value| && ParseRule(split.value[bad]).Err?;
      OneErrorIsEnough(split.value, |Join(ts)|, bad);
    }
  }

  /**
   * The round trip: a printable rule comes back from its text exactly when no list of
   * two or more items is nested below an operator. Otherwise the parser rejects it,
   * because the splitter does not track brackets.
   */
  lemma {:induction false} RoundTrip(e: Expr)
    requires Printable(e)
    ensures ParseRule(Print(e)) == Ok(e) <==> NestedListsFit(e)
    ensures !NestedListsFit(e) ==> ParseRule(Print(e)).Err?
  {
    if NestedListsFit(e) {
      FittingRulesReturn(e);
    } else {
      UnfitRulesFail(e);
    }
  }

  const CUT_LIST_RULE := Logic("AND", [Leaf("x", "in", VList([VInt(1), VInt(2)]))])

  /** A rule the validator accepts whose own text the parser rejects. */
  lemma {:induction false} CutListExample()
    ensures Printable(CUT_LIST_RULE) && ParseRule(Print(CUT_LIST_RULE)).Err?
  {
    var leaf := CUT_LIST_RULE.conditions[0];
    assert Strip("x") == "x";
    assert Upper("AND") == "AND";
    assert leaf in CUT_LIST_RULE.conditions && LongList(leaf);
    RoundTrip(CUT_LIST_RULE);
  }
}
