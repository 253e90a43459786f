/** Numeric coercion, pd.to_numeric(col, errors="coerce").fillna(0): a
    number stays, a string that reads as a decimal number becomes that
    number, and everything else becomes 0. */
module Coercion {
  import opened Common
  import opened Table

  predicate IsDigit(c: char) { '0' <= c <= '9' }

  predicate AllDigits(s: string) { forall i :: 0 <= i < |s| ==> IsDigit(s[i]) }

  function DigitValue(c: char): nat
    requires IsDigit(c)
  {
    c as int - '0' as int
  }

  function DigitChar(d: nat): (c: char)
    requires d < 10
    ensures IsDigit(c) && DigitValue(c) == d
  {
    ('0' as int + d) as char
  }

  /** The value of a string of decimal digits, most significant first. */
  function DigitsValue(s: string): nat
    requires AllDigits(s)
  {
    if s == [] then 0 else 10 * DigitsValue(s[..|s| - 1]) + DigitValue(s[|s| - 1])
  }

  function Pow10(n: nat): (p: nat)
    ensures p >= 1
  {
    if n == 0 then 1 else 10 * Pow10(n - 1)
  }

  /** The length of the run of digits that starts s. */
  function LeadingDigits(s: string): (n: nat)
    ensures n <= |s| && AllDigits(s[..n])
    ensures n < |s| ==> !IsDigit(s[n])
  {
    if s == [] || !IsDigit(s[0]) then 0
    else
      var n := 1 + LeadingDigits(s[1..]);
      assert s[..n] == [s[0]] + s[1..][..n - 1];
      n
  }

  /** The value of "whole.fraction" written in decimal digits. */
  function DecimalValue(whole: string, fraction: string): real
    requires AllDigits(whole) && AllDigits(fraction)
  {
    DigitsValue(whole) as real + DigitsValue(fraction) as real / Pow10(|fraction|) as real
  }

  /** An unsigned decimal: digits, optionally followed by '.' and more
      digits, with at least one digit in all ("12", "12.5", "12.", ".5"). */
  function ParseUnsigned(s: string): Option<real>
  {
    var n := LeadingDigits(s);
    if n == |s| then
      if n == 0 then None else Some(DigitsValue(s[..n]) as real)
    else if s[n] == '.' && AllDigits(s[n + 1..]) && (n > 0 || n + 1 < |s|) then
      Some(DecimalValue(s[..n], s[n + 1..]))
    else None
  }

  /** A decimal number with an optional sign; None when s is not one. */
  function ParseNumber(s: string): Option<real>
  {
    if |s| > 0 && (s[0] == '+' || s[0] == '-') then
      match ParseUnsigned(s[1..])
      case None => None
      case Some(v) => Some(if s[0] == '-' then -v else v)
    else ParseUnsigned(s)
  }

  /** to_numeric(errors="coerce").fillna(0) on one cell. */
  function Coerce(c: Cell): (r: Cell)
    ensures r.Num?
    ensures c.Num? ==> r == c
    ensures c.Null? ==> r == Num(0.0)
    ensures c.Text? && ParseNumber(c.s).None? ==> r == Num(0.0)
    ensures c.Text? && ParseNumber(c.s).Some? ==> r == Num(ParseNumber(c.s).value)
  {
    match c
    case Num(_) => c
    case Null => Num(0.0)
    case Text(s) =>
      match ParseNumber(s)
      case Some(v) => Num(v)
      case None => Num(0.0)
  }

  /** Coercing a column that is already numeric changes nothing. */
  lemma CoerceIdempotent(c: Cell)
    ensures Coerce(Coerce(c)) == Coerce(c)
  {
  }

  /** Coerces the measure columns of r that are in targets; nothing else in
      r changes. */
  function CoerceRow(r: Sale, targets: set<Measure>): (r': Sale)
    ensures r'.measures.Keys == r.measures.Keys
    ensures r'.(measures := r.measures) == r
  {
    r.(measures := map m | m in r.measures :: if m in targets then Coerce(r.measures[m]) else r.measures[m])
  }

  /** Every row of a table coerced on the columns in targets. */
  function CoerceRows(rows: seq<Sale>, targets: set<Measure>): (rows': seq<Sale>)
    ensures |rows'| == |rows|
    ensures forall i :: 0 <= i < |rows| ==> rows'[i] == CoerceRow(rows[i], targets)
  {
    seq(|rows|, i requires 0 <= i < |rows| => CoerceRow(rows[i], targets))
  }

  /** After coercion every targeted column the row has is a number, columns
      outside targets are untouched, and a measure's value is the coerced
      value of its original cell. */
  lemma CoerceRowSpec(r: Sale, targets: set<Measure>, m: Measure)
    ensures m in targets && m in r.measures ==> CoerceRow(r, targets).measures[m].Num?
    ensures m !in targets && m in r.measures ==> CoerceRow(r, targets).measures[m] == r.measures[m]
    ensures m in targets && m in r.measures ==> MeasureOf(CoerceRow(r, targets), m) == CellNumber(Coerce(r.measures[m]))
    ensures m !in r.measures ==> MeasureOf(CoerceRow(r, targets), m) == 0.0
  {
  }

  /** Coercing the columns in a and then column m is coercing a + {m}; this
      is the step of the column loop of the loader. */
  lemma CoerceRowStep(r: Sale, a: set<Measure>, m: Measure)
    ensures CoerceRow(CoerceRow(r, a), {m}) == CoerceRow(r, a + {m})
  {
    var once := CoerceRow(r, a);
    var lhs := CoerceRow(once, {m});
    var rhs := CoerceRow(r, a + {m});
    forall x | x in r.measures ensures lhs.measures[x] == rhs.measures[x] {
      if x == m && x in a {
        CoerceIdempotent(r.measures[x]);
      }
    }
    assert lhs.measures == rhs.measures;
  }

  /** Coercing no column changes nothing. */
  lemma CoerceRowsNothing(rows: seq<Sale>)
    ensures CoerceRows(rows, {}) == rows
  {
    forall i | 0 <= i < |rows| ensures CoerceRow(rows[i], {}) == rows[i] {
      assert CoerceRow(rows[i], {}).measures == rows[i].measures;
    }
  }

  /** The table-wide form of CoerceRowStep. */
  lemma CoerceRowsStep(rows: seq<Sale>, a: set<Measure>, m: Measure)
    ensures CoerceRows(CoerceRows(rows, a), {m}) == CoerceRows(rows, a + {m})
  {
    forall i | 0 <= i < |rows| ensures CoerceRow(CoerceRow(rows[i], a), {m}) == CoerceRow(rows[i], a + {m}) {
      CoerceRowStep(rows[i], a, m);
    }
  }

  /** Normalising a table twice gives the same table as normalising it once. */
  lemma {:induction false} CoerceRowsIdempotent(rows: seq<Sale>, targets: set<Measure>)
    ensures CoerceRows(CoerceRows(rows, targets), targets) == CoerceRows(rows, targets)
  {
    var once := CoerceRows(rows, targets);
    forall i | 0 <= i < |rows| ensures CoerceRow(once[i], targets) == once[i] {
      var r := rows[i];
      var twice := CoerceRow(once[i], targets);
      forall x | x in r.measures ensures twice.measures[x] == once[i].measures[x] {
        CoerceIdempotent(r.measures[x]);
      }
      assert twice.measures == once[i].measures;
    }
  }

  // ---- Round trips: a well-formed decimal keeps its value.

  /** The decimal digits of n, without leading zeros. */
  function NatToString(n: nat): (s: string)
    ensures |s| >= 1 && AllDigits(s) && DigitsValue(s) == n
    decreases n
  {
    if n < 10 then [DigitChar(n)]
    else
      var s := NatToString(n / 10) + [DigitChar(n % 10)];
      assert s[..|s| - 1] == NatToString(n / 10);
      s
  }

  lemma LeadingDigitsOfDigits(s: string, rest: string)
    requires AllDigits(s)
    requires rest == [] || !IsDigit(rest[0])
    ensures LeadingDigits(s + rest) == |s|
    decreases |s|
  {
    if s != [] {
      assert (s + rest)[1..] == s[1..] + rest;
      LeadingDigitsOfDigits(s[1..], rest);
    } else {
      assert s + rest == rest;
    }
  }

  /** Every natural number written in decimal reads back as itself. */
  lemma ParseNatToString(n: nat)
    ensures ParseNumber(NatToString(n)) == Some(n as real)
  {
    var s := NatToString(n);
    LeadingDigitsOfDigits(s, []);
    assert s + [] == s;
    assert s[..|s|] == s;
  }

  lemma TwoDigits(a: nat)
    ensures DigitsValue(CentsDigits(a)) == a % 100
  {
    var b := a % 100;
    var t := [DigitChar(b / 10), DigitChar(a % 10)];
    var hi := [DigitChar(b / 10)];
    assert hi[..0] == [];
    assert DigitsValue(hi) == b / 10;
    assert t[..1] == hi;
    assert DigitsValue(t) == 10 * DigitsValue(t[..1]) + DigitValue(t[1]);
    assert DigitsValue(t) == 10 * (b / 10) + a % 10;
    assert a == 100 * (a / 100) + b;
    assert a == 10 * (10 * (a / 100) + b / 10) + b % 10;
    assert a % 10 == b % 10;
  }

  /** The two-decimal digits of an amount in cents. */
  function CentsDigits(a: nat): (s: string)
    ensures |s| == 2 && AllDigits(s)
  {
    [DigitChar(a % 100 / 10), DigitChar(a % 10)]
  }

  /** A non-negative amount in cents written with two decimals, e.g. 1234 as "12.34". */
  function UnsignedCents(a: nat): (s: string)
    ensures |s| > 0 && IsDigit(s[0])
  {
    var whole := NatToString(a / 100);
    assert (whole + "." + CentsDigits(a))[0] == whole[0];
    whole + "." + CentsDigits(a)
  }

  /** An amount in cents written with two decimals, e.g. -1234 as "-12.34". */
  function FormatCents(c: int): string
  {
    if c < 0 then "-" + UnsignedCents(-c) else UnsignedCents(c)
  }

  /** The whole part, the point and the fraction sit where the parser reads them. */
  lemma PointFields(whole: string, fraction: string)
    ensures var s := whole + "." + fraction;
      s[..|whole|] == whole && s[|whole|] == '.' && s[|whole| + 1..] == fraction
  {
  }

  /** Digits, a point and more digits read as the whole part plus the
      fraction scaled by its number of digits. */
  lemma ParseDecimal(whole: string, fraction: string)
    requires AllDigits(whole) && AllDigits(fraction) && |whole| > 0
    ensures ParseUnsigned(whole + "." + fraction) == Some(DecimalValue(whole, fraction))
  {
    var s := whole + "." + fraction;
    LeadingDigitsOfDigits(whole, "." + fraction);
    assert whole + ("." + fraction) == s;
    PointFields(whole, fraction);
    var n := LeadingDigits(s);
    assert n == |whole| && n < |s| && s[n] == '.';
    assert s[..n] == whole && s[n + 1..] == fraction;
  }

  /** The digits of an amount in cents, read as a decimal, are that amount. */
  lemma CentsValue(a: nat)
    ensures DecimalValue(NatToString(a / 100), CentsDigits(a)) == a as real / 100.0
  {
    TwoDigits(a);
    assert Pow10(2) == 100;
    assert (a / 100) as real + (a % 100) as real / 100.0 == a as real / 100.0;
  }

  /** An unsigned amount written with two decimals reads back as that amount. */
  lemma ParseUnsignedCents(a: nat)
    ensures ParseUnsigned(UnsignedCents(a)) == Some(a as real / 100.0)
  {
    var whole := NatToString(a / 100);
    var cents := CentsDigits(a);
    assert UnsignedCents(a) == whole + "." + cents;
    ParseDecimal(whole, cents);
    CentsValue(a);
  }

  /** A sign in front of an unsigned number that starts with a digit. */
  lemma SignedParse(body: string, v: real)
    requires ParseUnsigned(body) == Some(v) && |body| > 0 && IsDigit(body[0])
    ensures ParseNumber(body) == Some(v)
    ensures ParseNumber("-" + body) == Some(-v)
  {
    assert ("-" + body)[1..] == body;
  }

  /** A non-negative amount written with two decimals reads back as itself. */
  lemma ParseNonNegativeCents(a: nat)
    ensures ParseNumber(UnsignedCents(a)) == Some(a as real / 100.0)
  {
    ParseUnsignedCents(a);
    SignedParse(UnsignedCents(a), a as real / 100.0);
  }

  /** A negative amount written with two decimals reads back as itself. */
  lemma ParseNegativeCents(a: nat)
    ensures ParseNumber("-" + UnsignedCents(a)) == Some(-(a as real / 100.0))
  {
    ParseUnsignedCents(a);
    SignedParse(UnsignedCents(a), a as real / 100.0);
  }

  /** Every amount written with two decimals, negatives included, reads back
      as that amount. */
  lemma ParseFormatCents(c: int)
    ensures ParseNumber(FormatCents(c)) == Some(c as real / 100.0)
  {
    if c < 0 {
      ParseNegativeCents(-c);
    } else {
      ParseNonNegativeCents(c);
    }
  }
}
