/** Calendar dates as the service writes them: `YYYY-MM-DD` strings.

    The commission recompute compares parsed datetimes, while the history filter
    and the per-sale projection hand the raw strings to the database, which
    compares them character by character. `FormatOrder` shows that for
    well-formed, zero-padded dates both comparisons agree. */
module Dates {
  import opened Wrappers

  datatype Ymd = Ymd(year: int, month: int, day: int)

  predicate IsLeapYear(y: int) {
    y % 4 == 0 && (y % 100 != 0 || y % 400 == 0)
  }

  function DaysInMonth(y: int, m: int): int
    requires 1 <= m <= 12
  {
    if m == 2 then (if IsLeapYear(y) then 29 else 28)
    else if m == 4 || m == 6 || m == 9 || m == 11 then 30
    else 31
  }

  /** The dates a `datetime` can hold (years 1 through 9999). */
  predicate IsValid(d: Ymd) {
    && 1 <= d.year <= 9999
    && 1 <= d.month <= 12
    && 1 <= d.day <= DaysInMonth(d.year, d.month)
  }

  type Date = d: Ymd | IsValid(d) witness Ymd(2024, 1, 1)

  /** Chronological order, as `datetime` comparison orders midnight datetimes. */
  predicate Le(a: Date, b: Date) {
    || a.year < b.year
    || (a.year == b.year && a.month < b.month)
    || (a.year == b.year && a.month == b.month && a.day <= b.day)
  }

  /** String order: character-by-character, a proper prefix sorting first. This
      is how both Python and the database compare two strings. */
  predicate StrLe(a: string, b: string)
    decreases |a|
  {
    |a| == 0 || (|b| > 0 && (a[0] < b[0] || (a[0] == b[0] && StrLe(a[1..], b[1..]))))
  }

  function Pow10(k: nat): nat
  {
    if k == 0 then 1 else 10 * Pow10(k - 1)
  }

  predicate IsDigit(c: char) {
    '0' <= c <= '9'
  }

  predicate AllDigits(s: string) {
    forall i :: 0 <= i < |s| ==> IsDigit(s[i])
  }

  function DigitChar(n: int): (c: char)
    requires 0 <= n <= 9
    ensures IsDigit(c)
  {
    (48 + n) as char
  }

  function DigitValue(c: char): (n: int)
    requires IsDigit(c)
    ensures 0 <= n <= 9 && DigitChar(n) == c
  {
    c as int - 48
  }

  /** `n` written with exactly `k` decimal digits, zero-padded on the left. */
  function Digits(n: nat, k: nat): (s: string)
    requires n < Pow10(k)
    ensures |s| == k && AllDigits(s)
  {
    if k == 0 then [] else Digits(n / 10, k - 1) + [DigitChar(n % 10)]
  }

  /** The decimal number a string of digits denotes. */
  function DigitsValue(s: string): (n: nat)
    requires AllDigits(s)
    ensures n < Pow10(|s|)
  {
    if |s| == 0 then 0 else DigitsValue(s[..|s| - 1]) * 10 + DigitValue(s[|s| - 1])
  }

  /** `strftime('%Y-%m-%d')`. */
  function Format(d: Date): (s: string)
    ensures IsDateShaped(s)
  {
    Digits(d.year, 4) + "-" + Digits(d.month, 2) + "-" + Digits(d.day, 2)
  }

  /** `strptime(s, '%Y-%m-%d')` restricted to the zero-padded form the service
      writes; a string that is not a real calendar date is refused. */
  function Parse(s: string): (r: Option<Date>)
    ensures r.Some? ==> Format(r.value) == s
  {
    if IsDateShaped(s) then
      var d := Ymd(DigitsValue(s[..4]), DigitsValue(s[5..7]), DigitsValue(s[8..]));
      if IsValid(d) then
        FieldsRoundTrip(s);
        Some(d)
      else None
    else None
  }

  /** Four digits, a dash, two digits, a dash, two digits. */
  predicate IsDateShaped(s: string) {
    |s| == 10 && s[4] == '-' && s[7] == '-'
    && AllDigits(s[..4]) && AllDigits(s[5..7]) && AllDigits(s[8..])
  }

  lemma FieldsRoundTrip(s: string)
    requires IsDateShaped(s)
    requires IsValid(Ymd(DigitsValue(s[..4]), DigitsValue(s[5..7]), DigitsValue(s[8..])))
    ensures Format(Ymd(DigitsValue(s[..4]), DigitsValue(s[5..7]), DigitsValue(s[8..]))) == s
  {
    DigitsRoundTrip(s[..4]);
    DigitsRoundTrip(s[5..7]);
    DigitsRoundTrip(s[8..]);
    assert s == s[..4] + "-" + s[5..7] + "-" + s[8..];
  }

  lemma {:induction false} DigitsRoundTrip(s: string)
    requires AllDigits(s)
    ensures Digits(DigitsValue(s), |s|) == s
  {
    if |s| > 0 {
      var init := s[..|s| - 1];
      var n := DigitsValue(s);
      assert AllDigits(init);
      DigitsRoundTrip(init);
      assert n / 10 == DigitsValue(init);
      assert n % 10 == DigitValue(s[|s| - 1]);
      assert s == init + [s[|s| - 1]];
    }
  }

  lemma {:induction false} ValueOfDigits(n: nat, k: nat)
    requires n < Pow10(k)
    ensures DigitsValue(Digits(n, k)) == n
  {
    if k > 0 {
      var s := Digits(n, k);
      ValueOfDigits(n / 10, k - 1);
      assert s[..|s| - 1] == Digits(n / 10, k - 1);
      assert s[|s| - 1] == DigitChar(n % 10);
    }
  }

  /** Parsing a formatted date gives the date back. */
  lemma ParseFormat(d: Date)
    ensures Parse(Format(d)) == Some(d)
  {
    var s := Format(d);
    var y, m, dd := Digits(d.year, 4), Digits(d.month, 2), Digits(d.day, 2);
    assert s[..4] == y;
    assert s[5..7] == m;
    assert s[8..] == dd;
    ValueOfDigits(d.year, 4);
    ValueOfDigits(d.month, 2);
    ValueOfDigits(d.day, 2);
  }

  /** Comparing two concatenations whose first parts have equal length compares
      the first parts, and only on a tie the second parts. */
  lemma {:induction false} StrLeConcat(a1: string, a2: string, b1: string, b2: string)
    requires |a1| == |b1|
    ensures StrLe(a1 + a2, b1 + b2) <==> (a1 != b1 && StrLe(a1, b1)) || (a1 == b1 && StrLe(a2, b2))
  {
    if |a1| > 0 {
      assert (a1 + a2)[1..] == a1[1..] + a2;
      assert (b1 + b2)[1..] == b1[1..] + b2;
      StrLeConcat(a1[1..], a2, b1[1..], b2);
      if a1[0] == b1[0] {
        assert a1 == b1 <==> a1[1..] == b1[1..] by {
          if a1[1..] == b1[1..] {
            assert a1 == [a1[0]] + a1[1..];
            assert b1 == [b1[0]] + b1[1..];
          }
        }
      }
    } else {
      assert a1 + a2 == a2;
      assert b1 + b2 == b2;
    }
  }

  lemma ConcatInjective(a1: string, a2: string, b1: string, b2: string)
    requires |a1| == |b1|
    ensures a1 + a2 == b1 + b2 <==> a1 == b1 && a2 == b2
  {
    if a1 + a2 == b1 + b2 {
      assert a1 == (a1 + a2)[..|a1|];
      assert b1 == (b1 + b2)[..|b1|];
      assert a2 == (a1 + a2)[|a1|..];
      assert b2 == (b1 + b2)[|b1|..];
    }
  }

  /** Zero-padded numerals of one width sort as the numbers they denote. */
  lemma {:induction false} DigitsOrder(x: nat, y: nat, k: nat)
    requires x < Pow10(k) && y < Pow10(k)
    ensures Digits(x, k) == Digits(y, k) <==> x == y
    ensures StrLe(Digits(x, k), Digits(y, k)) <==> x <= y
  {
    if k > 0 {
      var hx, hy := Digits(x / 10, k - 1), Digits(y / 10, k - 1);
      var cx, cy := DigitChar(x % 10), DigitChar(y % 10);
      DigitsOrder(x / 10, y / 10, k - 1);
      ConcatInjective(hx, [cx], hy, [cy]);
      StrLeConcat(hx, [cx], hy, [cy]);
      assert StrLe([cx], [cy]) <==> x % 10 <= y % 10 by {
        assert [cx][1..] == [];
      }
      assert x == 10 * (x / 10) + x % 10;
      assert y == 10 * (y / 10) + y % 10;
    }
  }

  /** The month-and-day tail of a formatted date orders as the pair it denotes. */
  lemma MonthDayOrder(a: Date, b: Date)
    ensures var ta, tb := Digits(a.month, 2) + ("-" + Digits(a.day, 2)), Digits(b.month, 2) + ("-" + Digits(b.day, 2));
            (StrLe(ta, tb) <==> a.month < b.month || (a.month == b.month && a.day <= b.day))
            && (ta == tb <==> a.month == b.month && a.day == b.day)
  {
    var ma, da := Digits(a.month, 2), Digits(a.day, 2);
    var mb, db := Digits(b.month, 2), Digits(b.day, 2);
    DigitsOrder(a.month, b.month, 2);
    DigitsOrder(a.day, b.day, 2);
    StrLeConcat("-", da, "-", db);
    ConcatInjective("-", da, "-", db);
    StrLeConcat(ma, "-" + da, mb, "-" + db);
    ConcatInjective(ma, "-" + da, mb, "-" + db);
  }

  /** For formatted dates, string order is chronological order. */
  lemma FormatOrder(a: Date, b: Date)
    ensures StrLe(Format(a), Format(b)) <==> Le(a, b)
    ensures Format(a) == Format(b) <==> a == b
  {
    var ya, ta := Digits(a.year, 4), Digits(a.month, 2) + ("-" + Digits(a.day, 2));
    var yb, tb := Digits(b.year, 4), Digits(b.month, 2) + ("-" + Digits(b.day, 2));
    DigitsOrder(a.year, b.year, 4);
    MonthDayOrder(a, b);
    StrLeConcat("-", ta, "-", tb);
    ConcatInjective("-", ta, "-", tb);
    StrLeConcat(ya, "-" + ta, yb, "-" + tb);
    ConcatInjective(ya, "-" + ta, yb, "-" + tb);
    FormatSplit(a);
    FormatSplit(b);
  }

  /** A formatted date is its year, then a dash, then its month-and-day tail. */
  lemma FormatSplit(d: Date)
    ensures Format(d) == Digits(d.year, 4) + ("-" + (Digits(d.month, 2) + ("-" + Digits(d.day, 2))))
  {
  }
}
