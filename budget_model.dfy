/**
 * The `Budget` collection's schema: the `YYYY-MM` month key (the reduced-precision calendar
 * month of ISO 8601:2004, section 4.1.2.3) and the unique index on (user, category, month).
 */
module BudgetModel {
  import opened Wrappers
  import opened Text
  import opened Calendar

  datatype Budget = Budget(id: nat, user: nat, category: string, amount: real, month: string)

  /** The fields of the unique index `{ user: 1, category: 1, month: 1 }`. */
  type BudgetKey = (nat, string, string)

  function KeyOf(b: Budget): BudgetKey {
    (b.user, b.category, b.month)
  }

  /** The schema's `match: /^\d{4}-\d{2}$/`: four ASCII digits, a hyphen, two ASCII digits. */
  predicate MatchesMonthPattern(s: string) {
    && |s| == 7
    && IsDigit(s[0]) && IsDigit(s[1]) && IsDigit(s[2]) && IsDigit(s[3])
    && s[4] == '-'
    && IsDigit(s[5]) && IsDigit(s[6])
  }

  /**
   * What the schema admits: all four fields are required (a string must be non-empty) and the
   * month must match the pattern; the amount may have any sign.
   */
  predicate ValidBudget(b: Budget) {
    b.category != "" && MatchesMonthPattern(b.month)
  }

  lemma DigitRoundTrip(d: int)
    requires 0 <= d < 10
    ensures IsDigit(DigitChar(d)) && DigitValue(DigitChar(d)) == d
  {
    if d == 0 {} else if d == 1 {} else if d == 2 {} else if d == 3 {} else if d == 4 {}
    else if d == 5 {} else if d == 6 {} else if d == 7 {} else if d == 8 {} else {}
  }

  lemma CharRoundTrip(c: char)
    requires IsDigit(c)
    ensures DigitChar(DigitValue(c)) == c
  {
    DigitRoundTrip(DigitValue(c));
    if c == '0' {} else if c == '1' {} else if c == '2' {} else if c == '3' {} else if c == '4' {}
    else if c == '5' {} else if c == '6' {} else if c == '7' {} else if c == '8' {} else {}
  }

  /**
   * A year and a two-digit month number written as `YYYY-MM`, the form
   * `toISOString().slice(0, 7)` gives for years 0 to 9999.
   */
  function FormatMonthKey(year: int, month: int): (s: string)
    requires 0 <= year <= 9999 && 0 <= month <= 99
    ensures MatchesMonthPattern(s)
  {
    DigitRoundTrip(year / 1000); DigitRoundTrip(year / 100 % 10); DigitRoundTrip(year / 10 % 10);
    DigitRoundTrip(year % 10); DigitRoundTrip(month / 10); DigitRoundTrip(month % 10);
    [DigitChar(year / 1000), DigitChar(year / 100 % 10), DigitChar(year / 10 % 10), DigitChar(year % 10),
     '-', DigitChar(month / 10), DigitChar(month % 10)]
  }

  /** The year and month number a key that matches the pattern spells. */
  function ParseMonthKey(s: string): (r: Option<YearMonth>)
    ensures r.Some? <==> MatchesMonthPattern(s)
    ensures r.Some? ==> 0 <= r.value.year <= 9999 && 0 <= r.value.month <= 99
  {
    if MatchesMonthPattern(s) then
      Some(YearMonth(
        DigitValue(s[0]) * 1000 + DigitValue(s[1]) * 100 + DigitValue(s[2]) * 10 + DigitValue(s[3]),
        DigitValue(s[5]) * 10 + DigitValue(s[6])))
    else None
  }

  lemma FourDigitsOf(y: int)
    requires 0 <= y <= 9999
    ensures y / 1000 * 1000 + y / 100 % 10 * 100 + y / 10 % 10 * 10 + y % 10 == y
  {
    var a := y / 1000;
    var r := y - a * 1000;
    var b := r / 100;
    var r2 := r - b * 100;
    var c := r2 / 10;
    var d := r2 - c * 10;
    DigitsOfFour(a, b, c, d);
  }

  lemma DigitsOfFour(a: int, b: int, c: int, d: int)
    requires 0 <= a < 10 && 0 <= b < 10 && 0 <= c < 10 && 0 <= d < 10
    ensures var y := a * 1000 + b * 100 + c * 10 + d;
            y / 1000 == a && y / 100 % 10 == b && y / 10 % 10 == c && y % 10 == d
  {
    var y := a * 1000 + b * 100 + c * 10 + d;
    assert y / 10 == a * 100 + b * 10 + c;
    assert y / 100 == a * 10 + b;
  }

  /** Writing a month key and reading it back gives the year and month again. */
  lemma ParseFormatted(year: int, month: int)
    requires 0 <= year <= 9999 && 0 <= month <= 99
    ensures ParseMonthKey(FormatMonthKey(year, month)) == Some(YearMonth(year, month))
  {
    var s := FormatMonthKey(year, month);
    DigitRoundTrip(year / 1000); DigitRoundTrip(year / 100 % 10); DigitRoundTrip(year / 10 % 10);
    DigitRoundTrip(year % 10); DigitRoundTrip(month / 10); DigitRoundTrip(month % 10);
    FourDigitsOf(year);
    assert DigitValue(s[5]) * 10 + DigitValue(s[6]) == month;
  }

  /** Every string the pattern admits is the key of the year and month it spells. */
  lemma FormatParsed(s: string)
    requires MatchesMonthPattern(s)
    ensures FormatMonthKey(ParseMonthKey(s).value.year, ParseMonthKey(s).value.month) == s
  {
    var ym := ParseMonthKey(s).value;
    var a, b, c, d := DigitValue(s[0]), DigitValue(s[1]), DigitValue(s[2]), DigitValue(s[3]);
    var e, f := DigitValue(s[5]), DigitValue(s[6]);
    DigitsOfFour(a, b, c, d);
    assert ym.month / 10 == e && ym.month % 10 == f;
    CharRoundTrip(s[0]); CharRoundTrip(s[1]); CharRoundTrip(s[2]); CharRoundTrip(s[3]);
    CharRoundTrip(s[5]); CharRoundTrip(s[6]);
    var t := FormatMonthKey(ym.year, ym.month);
    assert t[0] == DigitChar(a) && t[1] == DigitChar(b) && t[2] == DigitChar(c) && t[3] == DigitChar(d);
    assert t[5] == DigitChar(e) && t[6] == DigitChar(f);
    assert |t| == |s| == 7;
    assert t[4] == s[4];
  }

  /**
   * The pattern does not bound the month number: `"2024-13"` and `"2024-00"` match but denote
   * no calendar month.
   */
  lemma PatternAdmitsMonthOutOfRange()
    ensures MatchesMonthPattern("2024-13") && ParseMonthKey("2024-13") == Some(YearMonth(2024, 13))
    ensures MatchesMonthPattern("2024-00") && !ValidMonth(ParseMonthKey("2024-00").value)
  {
    assert DigitValue('2') == 2 && DigitValue('0') == 0 && DigitValue('4') == 4;
    assert DigitValue('1') == 1 && DigitValue('3') == 3;
  }
}
