/** The string operations the rule parser is built from. */
module RuleText {
  import opened Common

  /** The characters that `str.strip` removes and `\s` matches. */
  predicate IsSpace(c: char) {
    || '\U{0009}' <= c <= '\U{000D}'
    || '\U{001C}' <= c <= '\U{0020}'
    || c == '\U{0085}' || c == '\U{00A0}' || c == '\U{1680}'
    || '\U{2000}' <= c <= '\U{200A}'
    || c == '\U{2028}' || c == '\U{2029}' || c == '\U{202F}'
    || c == '\U{205F}' || c == '\U{3000}'
  }

  predicate IsDigit(c: char) { '0' <= c <= '9' }

  /** `[A-Za-z0-9_]` under IGNORECASE, which also admits four non-ASCII letters. */
  predicate IsFieldChar(c: char) {
    || 'a' <= c <= 'z' || 'A' <= c <= 'Z' || IsDigit(c) || c == '_'
    || c == '\U{0130}' || c == '\U{0131}' || c == '\U{017F}' || c == '\U{212A}'
  }

  function UpperChar(c: char): char {
    if 'a' <= c <= 'z' then (c as int - 32) as char else c
  }

  function Upper(s: string): (r: string)
    ensures |r| == |s|
    ensures forall i :: 0 <= i < |s| ==> r[i] == UpperChar(s[i])
  {
    seq(|s|, i requires 0 <= i < |s| => UpperChar(s[i]))
  }

  function StripLeft(s: string): (r: string)
    ensures |r| <= |s|
    ensures r != [] ==> !IsSpace(r[0])
  {
    if s != [] && IsSpace(s[0]) then StripLeft(s[1..]) else s
  }

  function StripRight(s: string): (r: string)
    ensures r <= s
    ensures r != [] ==> !IsSpace(r[|r| - 1])
  {
    if s != [] && IsSpace(s[|s| - 1]) then StripRight(s[..|s| - 1]) else s
  }

  function Strip(s: string): (r: string)
    ensures |r| <= |s|
  {
    StripRight(StripLeft(s))
  }

  /** Non-empty and not touched by `Strip`. */
  predicate Tight(s: string) {
    s != [] && !IsSpace(s[0]) && !IsSpace(s[|s| - 1])
  }

  lemma {:induction false} StripTight(s: string)
    requires Tight(s)
    ensures Strip(s) == s && Strip(" " + s) == s
  {
  }

  // ---- Integers ------------------------------------------------------------

  function DigitChar(d: nat): char
    requires d < 10
  {
    ('0' as int + d) as char
  }

  function DigitValue(c: char): (d: nat)
    requires IsDigit(c)
    ensures d < 10
  {
    c as int - '0' as int
  }

  function PrintNat(n: nat): (s: string)
    ensures s != []
    ensures forall i :: 0 <= i < |s| ==> IsDigit(s[i])
  {
    if n < 10 then [DigitChar(n)] else PrintNat(n / 10) + [DigitChar(n % 10)]
  }

  function PrintInt(n: int): (s: string)
    ensures Tight(s)
  {
    if n < 0 then "-" + PrintNat(-n) else PrintNat(n)
  }

  /** Digits, with single underscores allowed between them. */
  function ParseDigits(s: string): Option<int> {
    if s == [] || !IsDigit(s[|s| - 1]) then None
    else if |s| == 1 then Some(DigitValue(s[0]))
    else
      var front := s[..|s| - 1];
      var head := if front[|front| - 1] == '_' then front[..|front| - 1] else front;
      match ParseDigits(head)
      case None => None
      case Some(n) => Some(10 * n + DigitValue(s[|s| - 1]))
  }

  /** `int(s)` for a stripped text: an optional sign, then digits. */
  function ParseInt(s: string): Option<int> {
    if s == [] then None
    else if s[0] == '-' then
      (match ParseDigits(s[1..]) case None => None case Some(n) => Some(-n))
    else if s[0] == '+' then ParseDigits(s[1..])
    else ParseDigits(s)
  }

  lemma {:induction false} ParsePrintNat(n: nat)
    ensures ParseDigits(PrintNat(n)) == Some(n)
  {
    if n >= 10 {
      var s := PrintNat(n);
      assert s[..|s| - 1] == PrintNat(n / 10);
      ParsePrintNat(n / 10);
    }
  }

  lemma {:induction false} ParseIntDigits(s: string)
    requires s != [] && IsDigit(s[0])
    ensures ParseInt(s) == ParseDigits(s)
    ensures ParseInt("-" + s) ==
            match ParseDigits(s) { case None => None case Some(n) => Some(-n) }
  {
  }

  lemma {:induction false} ParsePrintInt(n: int)
    ensures ParseInt(PrintInt(n)) == Some(n)
  {
    var magnitude: nat := if n < 0 then -n else n;
    ParsePrintNat(magnitude);
    ParseIntDigits(PrintNat(magnitude));
  }

  // ---- Decimals ------------------------------------------------------------

  function Pow10(n: nat): (p: nat)
    ensures p > 0
  {
    if n == 0 then 1 else 10 * Pow10(n - 1)
  }

  function DigitCount(s: string): nat {
    if s == [] then 0 else (if IsDigit(s[0]) then 1 else 0) + DigitCount(s[1..])
  }

  /** `float(s)` for `[sign] digits . digits`, at least one digit, as an exact real. */
  function ParseDecimal(s: string): Option<real> {
    if s == [] then None
    else if s[0] == '-' then
      (match ParseUnsigned(s[1..]) case None => None case Some(x) => Some(-x))
    else if s[0] == '+' then ParseUnsigned(s[1..])
    else ParseUnsigned(s)
  }

  function ParseUnsigned(s: string): Option<real> {
    var dot := IndexOf(s, '.');
    if dot == |s| then None
    else
      var whole, fraction := s[..dot], s[dot + 1..];
      if whole == [] && fraction == [] then None
      else
        match (if whole == [] then Some(0) else ParseDigits(whole),
               if fraction == [] then Some(0) else ParseDigits(fraction))
        case (Some(w), Some(f)) => Some(w as real + f as real / Pow10(DigitCount(fraction)) as real)
        case _ => None
  }

  /** The first index of `c` in `s`, or `|s|`. */
  function IndexOf(s: string, c: char): (i: nat)
    ensures i <= |s|
    ensures i < |s| ==> s[i] == c
    ensures forall j :: 0 <= j < i ==> s[j] != c
  {
    if s == [] || s[0] == c then 0 else 1 + IndexOf(s[1..], c)
  }

  /** The last `k` digits of a number, with zeros in front. */
  function Pad(n: nat, k: nat): (s: string)
    ensures |s| == k
    ensures forall i :: 0 <= i < |s| ==> IsDigit(s[i])
  {
    if k == 0 then [] else Pad(n / 10, k - 1) + [DigitChar(n % 10)]
  }

  /** The number without its last `k` digits. */
  function Whole(n: nat, k: nat): nat {
    if k == 0 then n else Whole(n / 10, k - 1)
  }

  /** The digits of `n` with a point before the last `k`. */
  function PrintShifted(n: nat, k: nat): string {
    PrintNat(Whole(n, k)) + "." + Pad(n, k)
  }

  function PrintDecimal(n: int, k: nat): string {
    if n < 0 then "-" + PrintShifted(-n, k) else PrintShifted(n, k)
  }

  /** The last digits, read back, are what the number exceeds its whole part by. */
  lemma {:induction false} ParsePad(n: nat, k: nat) returns (rest: nat)
    requires k > 0
    ensures ParseDigits(Pad(n, k)) == Some(rest)
    ensures n == Pow10(k) * Whole(n, k) + rest
  {
    var s := Pad(n, k);
    if k == 1 {
      assert Pow10(1) == 10 && Whole(n, 1) == Whole(n / 10, 0) == n / 10 && Pad(n / 10, 0) == [];
      assert s == [DigitChar(n % 10)];
      rest := n % 10;
    } else {
      var front := ParsePad(n / 10, k - 1);
      assert s[..k - 1] == Pad(n / 10, k - 1);
      rest := 10 * front + n % 10;
      Regroup(Pow10(k - 1), Whole(n / 10, k - 1), Pow10(k) * Whole(n, k));
    }
  }

  lemma {:induction false} Regroup(p: int, w: int, product: int)
    requires product == 10 * p * w
    ensures product == 10 * (p * w)
  {
  }

  lemma {:induction false} CountDigits(s: string)
    requires forall i :: 0 <= i < |s| ==> IsDigit(s[i])
    ensures DigitCount(s) == |s|
  {
    if s != [] {
      CountDigits(s[1..]);
    }
  }

  lemma {:induction false} PointAfterDigits(whole: string, fraction: string)
    requires forall i :: 0 <= i < |whole| ==> IsDigit(whole[i])
    ensures IndexOf(whole + "." + fraction, '.') == |whole|
    ensures var s := whole + "." + fraction; s[..|whole|] == whole && s[|whole| + 1..] == fraction
  {
    var s := whole + "." + fraction;
    assert s[|whole|] == '.' && s[..|whole|] == whole;
    assert forall j :: 0 <= j < |whole| ==> s[j] == whole[j];
    hide IndexOf;
    assert IndexOf(s, '.') < |s|;
  }

  /** Digits before and behind a point: the whole part and that many tenths, hundredths, ... */
  lemma {:induction false} ParsePoint(whole: string, fraction: string, w: nat, f: nat)
    requires whole != [] && fraction != [] && ParseDigits(whole) == Some(w) && ParseDigits(fraction) == Some(f)
    requires forall i :: 0 <= i < |whole| ==> IsDigit(whole[i])
    requires forall i :: 0 <= i < |fraction| ==> IsDigit(fraction[i])
    ensures ParseUnsigned(whole + "." + fraction) == Some(w as real + f as real / Pow10(|fraction|) as real)
  {
    PointAfterDigits(whole, fraction);
    CountDigits(fraction);
  }

  lemma {:induction false} WholeAndRest(n: nat, p: nat, w: nat, f: nat, parts: real, all: real)
    requires p > 0 && n == p * w + f
    requires parts == w as real + f as real / p as real && all == n as real / p as real
    ensures parts == all
  {
    var q, wr, fr := p as real, w as real, f as real;
    assert n as real == q * wr + fr;
    assert (q * wr + fr) / q == wr + fr / q;
  }

  lemma {:induction false} ParsePrintShifted(n: nat, k: nat, p: nat, value: real)
    requires k > 0 && p == Pow10(k) && value == n as real / p as real
    ensures ParseUnsigned(PrintShifted(n, k)) == Some(value)
  {
    var rest := ParsePad(n, k);
    var whole := Whole(n, k);
    ParsePrintNat(whole);
    assert PrintShifted(n, k) == PrintNat(whole) + "." + Pad(n, k);
    hide *;
    ParsePoint(PrintNat(whole), Pad(n, k), whole, rest);
    WholeAndRest(n, p, whole, rest, whole as real + rest as real / p as real, value);
  }

  lemma {:induction false} SignedDecimal(s: string)
    requires s != [] && IsDigit(s[0])
    ensures ParseDecimal(s) == ParseUnsigned(s)
    ensures ParseDecimal("-" + s) ==
            match ParseUnsigned(s) { case None => None case Some(x) => Some(-x) }
  {
    hide ParseUnsigned;
    assert ("-" + s)[1..] == s;
  }

  lemma {:induction false} ParsePrintDecimal(n: int, k: nat, p: nat, value: real)
    requires k > 0 && p == Pow10(k) && value == n as real / p as real
    ensures ParseDecimal(PrintDecimal(n, k)) == Some(value)
  {
    hide PrintShifted, ParseUnsigned, Pow10, ParseDecimal;
    if n < 0 {
      Negated(n as real, p as real, value, -(n as real) / p as real);
      ParsePrintShifted(-n, k, p, -value);
      StartsWithDigit(-n, k);
      SignedDecimal(PrintShifted(-n, k));
    } else {
      ParsePrintShifted(n, k, p, value);
      StartsWithDigit(n, k);
      SignedDecimal(PrintShifted(n, k));
    }
  }

  lemma {:induction false} StartsWithDigit(n: nat, k: nat)
    ensures PrintShifted(n, k) != [] && IsDigit(PrintShifted(n, k)[0])
  {
    hide Pow10, Pad, PrintNat;
    var whole := PrintNat(Whole(n, k));
    assert PrintShifted(n, k)[0] == whole[0];
  }

  lemma {:induction false} Negated(x: real, q: real, quotient: real, negated: real)
    requires q > 0.0 && quotient == x / q && negated == -x / q
    ensures negated == -quotient
  {
  }

  /** Moving the point one digit to the right multiplies by ten. */
  lemma {:induction false} MovingThePoint(a: string, d: char, b: string, x: real, y: real)
    requires a != [] && IsDigit(d) && b != []
    requires (forall i :: 0 <= i < |a| ==> IsDigit(a[i])) && (forall i :: 0 <= i < |b| ==> IsDigit(b[i]))
    requires ParseUnsigned(a + "." + ([d] + b)) == Some(x) && ParseUnsigned(a + [d] + "." + b) == Some(y)
    ensures y == 10.0 * x
  {
    hide ParseUnsigned, ParseDigits;
    DigitsParse(a);
    DigitsParse(b);
    DigitsParse(a + [d]);
    assert (a + [d])[..|a|] == a;
    var w, f, v, p := ParseDigits(a).value, ParseDigits(b).value, DigitValue(d), Pow10(|b|);
    LeadingDigit(d, b, v * p);
    ParsePoint(a, [d] + b, w, v * p + f);
    ParsePoint(a + [d], b, 10 * w + v, f);
    assert Pow10(|[d] + b|) == 10 * p;
    hide Pow10;
    Tenfold(w, v, f, p, v * p, x, y);
  }

  lemma {:induction false} DigitsParse(s: string)
    requires s != [] && forall i :: 0 <= i < |s| ==> IsDigit(s[i])
    ensures ParseDigits(s).Some? && ParseDigits(s).value >= 0
    ensures |s| > 1 ==> ParseDigits(s).value == 10 * ParseDigits(s[..|s| - 1]).value + DigitValue(s[|s| - 1])
  {
    if |s| > 1 {
      DigitsParse(s[..|s| - 1]);
    }
  }

  lemma {:induction false} LeadingDigit(d: char, b: string, lead: nat)
    requires IsDigit(d) && b != [] && forall i :: 0 <= i < |b| ==> IsDigit(b[i])
    requires lead == DigitValue(d) * Pow10(|b|)
    ensures ParseDigits(b).Some? && ParseDigits([d] + b) == Some(lead + ParseDigits(b).value)
  {
    hide ParseDigits;
    DigitsParse(b);
    DigitsParse([d] + b);
    var n := |b| - 1;
    assert ([d] + b)[..|b|] == [d] + b[..n];
    if n == 0 {
      assert Pow10(0) == 1 && Pow10(1) == 10 && b[..0] == [] && [d] + b[..0] == [d] && b == [b[0]];
      OneDigit(d);
      OneDigit(b[0]);
    } else {
      Regroup(Pow10(n), DigitValue(d), lead);
      LeadingDigit(d, b[..n], DigitValue(d) * Pow10(n));
    }
  }

  lemma {:induction false} OneDigit(d: char)
    requires IsDigit(d)
    ensures ParseDigits([d]) == Some(DigitValue(d))
  {
  }

  lemma {:induction false} Tenfold(w: int, d: int, f: int, p: nat, lead: int, x: real, y: real)
    requires p > 0 && lead == d * p
    requires x == w as real + (lead + f) as real / (10 * p) as real
    requires y == (10 * w + d) as real + f as real / p as real
    ensures y == 10.0 * x
  {
    var q, dr, fr := p as real, d as real, f as real;
    assert (lead + f) as real == dr * q + fr && (10 * p) as real == 10.0 * q;
    SplitQuotient(dr, q, fr, (dr * q + fr) / (10.0 * q));
  }

  lemma {:induction false} SplitQuotient(d: real, q: real, f: real, quotient: real)
    requires q > 0.0 && quotient == (d * q + f) / (10.0 * q)
    ensures 10.0 * quotient == d + f / q
  {
    assert quotient * (10.0 * q) == d * q + f;
    assert (d * q + f) / q == d + f / q;
  }
}
