/** Day-first date parsing, pd.to_datetime(col, format="%d/%m/%Y",
    errors="coerce"): a valid DD/MM/YYYY string becomes a date and anything
    else becomes NaT instead of raising. */
module Dates {
  import opened Common
  import opened Table
  import opened Coercion

  predicate LeapYear(y: int)
  {
    y % 4 == 0 && (y % 100 != 0 || y % 400 == 0)
  }

  function DaysInMonth(month: int, year: int): int
  {
    if month == 2 then (if LeapYear(year) then 29 else 28)
    else if month == 4 || month == 6 || month == 9 || month == 11 then 30
    else 31
  }

  /** A date of the proleptic Gregorian calendar with a four-digit year. */
  predicate ValidDate(d: Date)
  {
    1 <= d.year <= 9999 && 1 <= d.month <= 12 && 1 <= d.day <= DaysInMonth(d.month, d.year)
  }

  /** "DD/MM/YYYY" with exactly two, two and four digits. */
  predicate WellShaped(s: string)
  {
    |s| == 10 && s[2] == '/' && s[5] == '/' &&
    AllDigits(s[..2]) && AllDigits(s[3..5]) && AllDigits(s[6..])
  }

  function ParseDate(s: string): (r: Option<Date>)
    ensures r.Some? ==> ValidDate(r.value)
    ensures r.Some? ==> WellShaped(s)
  {
    if WellShaped(s) then
      var d := Date(DigitsValue(s[..2]), DigitsValue(s[3..5]), DigitsValue(s[6..]));
      if ValidDate(d) then Some(d) else None
    else None
  }

  /** to_datetime on the Data column: a raw string is parsed or becomes NaT;
      a value that is already a date (or NaT) is left as it is. */
  function ParseDateCell(c: DateCell): (r: DateCell)
    ensures !r.Raw?
    ensures r.Parsed? ==> ValidDate(r.date) || c.Parsed?
    ensures c.Raw? ==> (r.Parsed? <==> ParseDate(c.text).Some?)
    ensures !c.Raw? ==> r == c
  {
    match c
    case Raw(s) => (if ParseDate(s).Some? then Parsed(ParseDate(s).value) else NaT)
    case _ => c
  }

  /** Parsing the column a second time changes nothing. */
  lemma ParseDateCellIdempotent(c: DateCell)
    ensures ParseDateCell(ParseDateCell(c)) == ParseDateCell(c)
  {
  }

  /** to_datetime applied to the whole Data column: each row keeps its place
      and everything but its date. */
  function ParseDateColumn(rows: seq<Sale>): (rows': seq<Sale>)
    ensures |rows'| == |rows|
    ensures forall i :: 0 <= i < |rows| ==> rows'[i] == rows[i].(date := ParseDateCell(rows[i].date))
  {
    seq(|rows|, i requires 0 <= i < |rows| => rows[i].(date := ParseDateCell(rows[i].date)))
  }

  /** After the parse no row holds raw text, a row has a year exactly when
      its text was a valid DD/MM/YYYY date (or it already held a date), and
      a bad date makes the row's date missing instead of failing. */
  lemma ParseDateColumnSpec(rows: seq<Sale>, i: int)
    requires 0 <= i < |rows|
    ensures !ParseDateColumn(rows)[i].date.Raw?
    ensures rows[i].date.Raw? ==>
      (YearOf(ParseDateColumn(rows)[i]).Some? <==> ParseDate(rows[i].date.text).Some?)
    ensures rows[i].date.Raw? && ParseDate(rows[i].date.text).Some? ==>
      ParseDateColumn(rows)[i].date == Parsed(ParseDate(rows[i].date.text).value)
    ensures rows[i].date.Raw? && ParseDate(rows[i].date.text).None? ==> ParseDateColumn(rows)[i].date == NaT
    ensures ParseDateColumn(rows)[i].(date := rows[i].date) == rows[i]
  {
  }

  /** df.dropna(subset=["Data"]) keeps a row unless its date is NaT. */
  predicate HasDate(r: Sale)
  {
    !r.date.NaT?
  }

  // ---- Round trip with the formatter that writes dates in the file's layout.

  /** n in exactly w digits, with leading zeros. */
  function Pad(n: nat, w: nat): (s: string)
    ensures |s| == w && AllDigits(s)
  {
    if w == 0 then [] else Pad(n / 10, w - 1) + [DigitChar(n % 10)]
  }

  function FormatDate(d: Date): string
    requires ValidDate(d)
  {
    Pad(d.day, 2) + "/" + Pad(d.month, 2) + "/" + Pad(d.year, 4)
  }

  lemma {:induction false} PadValue(n: nat, w: nat)
    requires n < Pow10(w)
    ensures DigitsValue(Pad(n, w)) == n
  {
    if w > 0 {
      var s := Pad(n, w);
      assert n / 10 < Pow10(w - 1);
      PadValue(n / 10, w - 1);
      assert s[..|s| - 1] == Pad(n / 10, w - 1);
    }
  }

  lemma {:induction false} PadOfDigits(s: string)
    requires AllDigits(s)
    ensures Pad(DigitsValue(s), |s|) == s
  {
    if s != [] {
      var front := s[..|s| - 1];
      var v := DigitsValue(s);
      assert v / 10 == DigitsValue(front) && v % 10 == DigitValue(s[|s| - 1]);
      PadOfDigits(front);
      assert DigitChar(v % 10) == s[|s| - 1];
      assert s == front + [s[|s| - 1]];
    }
  }

  /** A valid date written as DD/MM/YYYY parses back to itself. */
  lemma ParseFormatDate(d: Date)
    requires ValidDate(d)
    ensures ParseDate(FormatDate(d)) == Some(d)
  {
    var s := FormatDate(d);
    assert Pow10(2) == 100 && Pow10(4) == 10000;
    PadValue(d.day, 2);
    PadValue(d.month, 2);
    PadValue(d.year, 4);
    Fields(Pad(d.day, 2), Pad(d.month, 2), Pad(d.year, 4));
    assert WellShaped(s);
    assert Date(DigitsValue(s[..2]), DigitsValue(s[3..5]), DigitsValue(s[6..])) == d;
  }

  /** The three fields of "DD/MM/YYYY" sit where WellShaped reads them. */
  lemma Fields(dd: string, mm: string, yyyy: string)
    requires |dd| == 2 && |mm| == 2 && |yyyy| == 4
    ensures var s := dd + "/" + mm + "/" + yyyy;
      |s| == 10 && s[2] == '/' && s[5] == '/' && s[..2] == dd && s[3..5] == mm && s[6..] == yyyy
  {
  }

  /** The parser accepts nothing but the canonical spelling of a valid date:
      whatever it parses is exactly what the formatter writes for the result. */
  lemma FormatParseDate(s: string)
    requires ParseDate(s).Some?
    ensures FormatDate(ParseDate(s).value) == s
  {
    var d := ParseDate(s).value;
    PadOfDigits(s[..2]);
    PadOfDigits(s[3..5]);
    PadOfDigits(s[6..]);
    assert s == s[..2] + "/" + s[3..5] + "/" + s[6..];
  }
}
