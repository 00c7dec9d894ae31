/**
 * The completion time of a dbt test: `datetime.strptime(s, "%Y-%m-%dT%H:%M:%S.%fZ")` followed by
 * `unix_time_millis`, the milliseconds since 1970-01-01T00:00:00 UTC.
 */
module Timestamps {
  import opened Wrappers

  datatype DateTime = DateTime(year: int, month: int, day: int,
                               hour: int, minute: int, second: int, microsecond: int)

  predicate IsLeap(y: int)
  {
    y % 4 == 0 && (y % 100 != 0 || y % 400 == 0)
  }

  function DaysInMonth(y: int, m: int): int
    requires 1 <= m <= 12
  {
    if m == 2 then (if IsLeap(y) then 29 else 28)
    else if m == 4 || m == 6 || m == 9 || m == 11 then 30
    else 31
  }

  function DaysInYear(y: int): int
  {
    if IsLeap(y) then 366 else 365
  }

  /** The values Python's `datetime` accepts. */
  predicate ValidDate(y: int, m: int, d: int)
  {
    1 <= y <= 9999 && 1 <= m <= 12 && 1 <= d <= DaysInMonth(y, m)
  }

  predicate Valid(dt: DateTime)
  {
    && ValidDate(dt.year, dt.month, dt.day)
    && 0 <= dt.hour <= 23 && 0 <= dt.minute <= 59 && 0 <= dt.second <= 59
    && 0 <= dt.microsecond <= 999999
  }

  // ---------------------------------------------------------------------------------------------
  // Parsing with the fixed layout "%Y-%m-%dT%H:%M:%S.%fZ"
  // ---------------------------------------------------------------------------------------------

  predicate IsDigit(c: char)
  {
    '0' <= c <= '9'
  }

  predicate AllDigits(s: string)
  {
    forall i :: 0 <= i < |s| ==> IsDigit(s[i])
  }

  function DigitValue(c: char): nat
    requires IsDigit(c)
  {
    c as int - '0' as int
  }

  /** `int(s)` for a string of decimal digits. */
  function DigitsValue(s: string): nat
    requires AllDigits(s)
  {
    if s == [] then 0 else DigitsValue(s[..|s| - 1]) * 10 + DigitValue(s[|s| - 1])
  }

  // What each directive of the layout matches (the alternatives of Python's `_strptime` patterns).

  /** `%Y`: exactly four digits. */
  predicate YearToken(t: string)
  {
    |t| == 4 && AllDigits(t)
  }

  /** `%m`: `1[0-2]|0[1-9]|[1-9]`. */
  predicate MonthToken(t: string)
  {
    || (|t| == 2 && t[0] == '1' && '0' <= t[1] <= '2')
    || (|t| == 2 && t[0] == '0' && '1' <= t[1] <= '9')
    || (|t| == 1 && '1' <= t[0] <= '9')
  }

  /** `%d`: `3[01]|[12]\d|0[1-9]|[1-9]| [1-9]`. */
  predicate DayToken(t: string)
  {
    || (|t| == 2 && t[0] == '3' && '0' <= t[1] <= '1')
    || (|t| == 2 && '1' <= t[0] <= '2' && IsDigit(t[1]))
    || (|t| == 2 && t[0] == '0' && '1' <= t[1] <= '9')
    || (|t| == 1 && '1' <= t[0] <= '9')
    || (|t| == 2 && t[0] == ' ' && '1' <= t[1] <= '9')
  }

  /** `%H`: `2[0-3]|[0-1]\d|\d`. */
  predicate HourToken(t: string)
  {
    || (|t| == 2 && t[0] == '2' && '0' <= t[1] <= '3')
    || (|t| == 2 && '0' <= t[0] <= '1' && IsDigit(t[1]))
    || (|t| == 1 && IsDigit(t[0]))
  }

  /** `%M`: `[0-5]\d|\d`. */
  predicate MinuteToken(t: string)
  {
    || (|t| == 2 && '0' <= t[0] <= '5' && IsDigit(t[1]))
    || (|t| == 1 && IsDigit(t[0]))
  }

  /** `%S`: `6[0-1]|[0-5]\d|\d` (60 and 61 match, and `datetime` then refuses them). */
  predicate SecondToken(t: string)
  {
    || (|t| == 2 && t[0] == '6' && '0' <= t[1] <= '1')
    || (|t| == 2 && '0' <= t[0] <= '5' && IsDigit(t[1]))
    || (|t| == 1 && IsDigit(t[0]))
  }

  /** `%f`: one to six digits. */
  predicate FractionToken(t: string)
  {
    1 <= |t| <= 6 && AllDigits(t)
  }

  /** `int(t)` for a numeric token, which may carry the one leading blank `%d` allows. */
  function Number(t: string): nat
    requires AllDigits(t) || (|t| == 2 && t[0] == ' ' && IsDigit(t[1]))
  {
    if |t| == 2 && t[0] == ' ' then DigitValue(t[1]) else DigitsValue(t)
  }

  /** `%f` pads its digits with zeros on the right to six places before `int`. */
  function PadFraction(t: string): (r: string)
    requires FractionToken(t)
    ensures |r| == 6 && AllDigits(r)
  {
    t + seq(6 - |t|, _ => '0')
  }

  /** The text before the first character of delims, and the text after it. */
  function SplitAt(s: string, delims: set<char>): Option<(string, string)>
  {
    if s == [] then None
    else if s[0] in delims then Some(([], s[1..]))
    else
      match SplitAt(s[1..], delims)
      case None => None
      case Some(p) => Some(([s[0]] + p.0, p.1))
  }

  /**
   * The eight pieces of s cut at the delimiters of the layout, in order: the seven fields and
   * whatever follows the final `Z`. The pattern is matched ignoring case, so `t` and `z` stand
   * for `T` and `Z`. No directive matches its own delimiter, so each field is the text before
   * the next delimiter.
   */
  function Pieces(s: string): Option<seq<string>>
  {
    var p1 :- SplitAt(s, {'-'});
    var p2 :- SplitAt(p1.1, {'-'});
    var p3 :- SplitAt(p2.1, {'T', 't'});
    var p4 :- SplitAt(p3.1, {':'});
    var p5 :- SplitAt(p4.1, {':'});
    var p6 :- SplitAt(p5.1, {'.'});
    var p7 :- SplitAt(p6.1, {'Z', 'z'});
    Some([p1.0, p2.0, p3.0, p4.0, p5.0, p6.0, p7.0, p7.1])
  }

  /** The fields of a match, and the range checks `datetime` applies to them. */
  function FromPieces(ps: seq<string>): Option<DateTime>
    requires |ps| == 8
  {
    if !(&& YearToken(ps[0]) && MonthToken(ps[1]) && DayToken(ps[2]) && HourToken(ps[3])
         && MinuteToken(ps[4]) && SecondToken(ps[5]) && FractionToken(ps[6]) && ps[7] == [])
    then None  // no match, or "unconverted data remains"
    else
      MonthValue(ps[1]);
      var dt := DateTime(Number(ps[0]), Number(ps[1]), Number(ps[2]), Number(ps[3]),
                         Number(ps[4]), Number(ps[5]), DigitsValue(PadFraction(ps[6])));
      // year 0, a day past the end of the month and a leap second are refused by `datetime`
      if 1 <= dt.year && dt.day <= DaysInMonth(dt.year, dt.month) && dt.second <= 59
      then Some(dt) else None
  }

  /** `datetime.strptime(s, "%Y-%m-%dT%H:%M:%S.%fZ")`, `None` where it raises ValueError. */
  function ParseTimestamp(s: string): Option<DateTime>
  {
    var ps :- Pieces(s);
    FromPieces(ps)
  }

  lemma MonthValue(t: string)
    requires MonthToken(t)
    ensures AllDigits(t) && 1 <= Number(t) <= 12
  {
    if |t| == 2 { TwoDigits(t); } else { SingleDigit(t); }
  }

  lemma HourValue(t: string)
    requires HourToken(t)
    ensures AllDigits(t) && 0 <= Number(t) <= 23
  {
    if |t| == 2 { TwoDigits(t); } else { SingleDigit(t); }
  }

  lemma MinuteValue(t: string)
    requires MinuteToken(t)
    ensures AllDigits(t) && 0 <= Number(t) <= 59
  {
    if |t| == 2 { TwoDigits(t); } else { SingleDigit(t); }
  }

  lemma SingleDigit(t: string)
    requires |t| == 1 && AllDigits(t)
    ensures DigitsValue(t) == DigitValue(t[0])
  {
    assert t[..0] == [];
  }

  lemma TwoDigits(t: string)
    requires |t| == 2 && AllDigits(t)
    ensures DigitsValue(t) == 10 * DigitValue(t[0]) + DigitValue(t[1])
  {
    SingleDigit(t[..1]);
  }

  lemma {:induction false} DigitsBound(t: string)
    requires AllDigits(t)
    ensures DigitsValue(t) < Pow10(|t|)
  {
    if t != [] {
      DigitsBound(t[..|t| - 1]);
    }
  }

  function Pow10(n: nat): nat
  {
    if n == 0 then 1 else 10 * Pow10(n - 1)
  }

  /** Whatever strptime accepts is a valid `datetime`. */
  lemma ParseValid(s: string)
    ensures ParseTimestamp(s).Some? ==> Valid(ParseTimestamp(s).value)
  {
    if ParseTimestamp(s).Some? {
      var ps := Pieces(s).value;
      DigitsBound(ps[0]);
      MonthValue(ps[1]);
      HourValue(ps[3]);
      MinuteValue(ps[4]);
      DigitsBound(PadFraction(ps[6]));
      if |ps[2]| == 2 && ps[2][0] != ' ' { TwoDigits(ps[2]); }
      if |ps[2]| == 1 { SingleDigit(ps[2]); }
      if |ps[5]| == 2 { TwoDigits(ps[5]); }
      if |ps[5]| == 1 { SingleDigit(ps[5]); }
    }
  }

  // ---------------------------------------------------------------------------------------------
  // The canonical text of a timestamp, the inverse of ParseTimestamp
  // ---------------------------------------------------------------------------------------------

  function Digit(n: int): char
    requires 0 <= n <= 9
  {
    ('0' as int + n) as char
  }

  /** n written with exactly `width` digits, zero padded. */
  function Pad(n: nat, width: nat): (r: string)
    ensures |r| == width && AllDigits(r)
  {
    if width == 0 then [] else Pad(n / 10, width - 1) + [Digit(n % 10)]
  }

  function Cat(a: string, delim: char, b: string): string
  {
    a + [delim] + b
  }

  /** The text `dt.strftime("%Y-%m-%dT%H:%M:%S.%fZ")` gives for a four-digit year. */
  function Format(dt: DateTime): string
    requires Valid(dt)
  {
    Cat(Pad(dt.year, 4), '-', Cat(Pad(dt.month, 2), '-', Cat(Pad(dt.day, 2), 'T',
      Cat(Pad(dt.hour, 2), ':', Cat(Pad(dt.minute, 2), ':', Cat(Pad(dt.second, 2), '.',
      Cat(Pad(dt.microsecond, 6), 'Z', [])))))))
  }

  lemma {:induction false} PadValue(n: nat, width: nat)
    requires n < Pow10(width)
    ensures DigitsValue(Pad(n, width)) == n
  {
    if width > 0 {
      PadValue(n / 10, width - 1);
      var r := Pad(n, width);
      assert r[..|r| - 1] == Pad(n / 10, width - 1);
    }
  }

  lemma Pad2(n: nat)
    requires n < 100
    ensures Pad(n, 2) == [Digit(n / 10), Digit(n % 10)]
  {
    var q := n / 10;
    assert q < 10 && q % 10 == q;
    assert Pad(q, 1) == Pad(q / 10, 0) + [Digit(q % 10)];
  }

  lemma {:induction false} SplitCat(a: string, c: char, b: string, delims: set<char>)
    requires c in delims
    requires forall i :: 0 <= i < |a| ==> a[i] !in delims
    ensures SplitAt(Cat(a, c, b), delims) == Some((a, b))
  {
    if a == [] {
      assert Cat(a, c, b) == [c] + b;
    } else {
      assert Cat(a, c, b)[1..] == Cat(a[1..], c, b);
      SplitCat(a[1..], c, b, delims);
      assert [a[0]] + a[1..] == a;
    }
  }

  lemma PiecesOfFormat(dt: DateTime)
    requires Valid(dt)
    ensures Pieces(Format(dt)) == Some([Pad(dt.year, 4), Pad(dt.month, 2), Pad(dt.day, 2),
      Pad(dt.hour, 2), Pad(dt.minute, 2), Pad(dt.second, 2), Pad(dt.microsecond, 6), []])
  {
    var y, mo, d := Pad(dt.year, 4), Pad(dt.month, 2), Pad(dt.day, 2);
    var h, mi, se := Pad(dt.hour, 2), Pad(dt.minute, 2), Pad(dt.second, 2);
    var f := Pad(dt.microsecond, 6);
    var s7 := Cat(f, 'Z', []);
    var s6 := Cat(se, '.', s7);
    var s5 := Cat(mi, ':', s6);
    var s4 := Cat(h, ':', s5);
    var s3 := Cat(d, 'T', s4);
    var s2 := Cat(mo, '-', s3);
    SplitCat(y, '-', s2, {'-'});
    SplitCat(mo, '-', s3, {'-'});
    SplitCat(d, 'T', s4, {'T', 't'});
    SplitCat(h, ':', s5, {':'});
    SplitCat(mi, ':', s6, {':'});
    SplitCat(se, '.', s7, {'.'});
    SplitCat(f, 'Z', [], {'Z', 'z'});
  }

  lemma Pad2Number(n: nat)
    requires n < 100
    ensures Pad(n, 2) == [Digit(n / 10), Digit(n % 10)]
    ensures Number(Pad(n, 2)) == n
  {
    Pad2(n);
    PadValue(n, 2);
  }

  lemma DateTokens(dt: DateTime)
    requires Valid(dt)
    ensures YearToken(Pad(dt.year, 4)) && Number(Pad(dt.year, 4)) == dt.year
    ensures MonthToken(Pad(dt.month, 2)) && Number(Pad(dt.month, 2)) == dt.month
    ensures DayToken(Pad(dt.day, 2)) && Number(Pad(dt.day, 2)) == dt.day
  {
    assert Pow10(4) == 10000;
    PadValue(dt.year, 4);
    Pad2Number(dt.month);
    Pad2Number(dt.day);
  }

  lemma TimeTokens(dt: DateTime)
    requires Valid(dt)
    ensures HourToken(Pad(dt.hour, 2)) && Number(Pad(dt.hour, 2)) == dt.hour
    ensures MinuteToken(Pad(dt.minute, 2)) && Number(Pad(dt.minute, 2)) == dt.minute
    ensures SecondToken(Pad(dt.second, 2)) && Number(Pad(dt.second, 2)) == dt.second
  {
    Pad2Number(dt.hour);
    Pad2Number(dt.minute);
    Pad2Number(dt.second);
  }

  lemma FractionPiece(us: nat)
    requires us <= 999999
    ensures FractionToken(Pad(us, 6)) && PadFraction(Pad(us, 6)) == Pad(us, 6)
    ensures DigitsValue(PadFraction(Pad(us, 6))) == us
  {
    assert Pow10(6) == 1000000;
    PadValue(us, 6);
    assert Pad(us, 6) + [] == Pad(us, 6);
  }

  lemma FromPiecesOfFormat(dt: DateTime)
    requires Valid(dt)
    ensures FromPieces([Pad(dt.year, 4), Pad(dt.month, 2), Pad(dt.day, 2),
      Pad(dt.hour, 2), Pad(dt.minute, 2), Pad(dt.second, 2), Pad(dt.microsecond, 6), []]) == Some(dt)
  {
    DateTokens(dt);
    TimeTokens(dt);
    FractionPiece(dt.microsecond);
  }

  /** Parsing the canonical text of a valid timestamp gives it back. */
  lemma ParseFormat(dt: DateTime)
    requires Valid(dt)
    ensures ParseTimestamp(Format(dt)) == Some(dt)
  {
    PiecesOfFormat(dt);
    FromPiecesOfFormat(dt);
  }

  // ---------------------------------------------------------------------------------------------
  // unix_time and unix_time_millis
  // ---------------------------------------------------------------------------------------------

  /** Days in the years before y, as Python's `datetime` computes them. */
  function DaysBeforeYear(y: int): int
    requires y >= 1
  {
    var p := y - 1;
    p * 365 + p / 4 - p / 100 + p / 400
  }

  /** Days in the months of year y before month m, as Python's `datetime` computes them. */
  function DaysBeforeMonth(y: int, m: int): int
    requires 1 <= m <= 12
  {
    [0, 31, 59, 90, 120, 151, 181, 212, 243, 273, 304, 334][m - 1]
      + (if m > 2 && IsLeap(y) then 1 else 0)
  }

  /** The proleptic Gregorian ordinal: 0001-01-01 is day 1. */
  function Ordinal(y: int, m: int, d: int): int
    requires y >= 1 && 1 <= m <= 12
  {
    DaysBeforeYear(y) + DaysBeforeMonth(y, m) + d
  }

  /** The reference count of days before year y: the lengths of years 1 .. y-1 added up. */
  function DaysBeforeYearCount(y: int): int
    requires y >= 1
  {
    if y == 1 then 0 else DaysBeforeYearCount(y - 1) + DaysInYear(y - 1)
  }

  /** The reference count of days before month m: the lengths of months 1 .. m-1 added up. */
  function DaysBeforeMonthCount(y: int, m: int): int
    requires 1 <= m <= 12
  {
    if m == 1 then 0 else DaysBeforeMonthCount(y, m - 1) + DaysInMonth(y, m - 1)
  }

  lemma DivStep(p: int)
    requires p >= 1
    ensures p / 4 - (p - 1) / 4 == (if p % 4 == 0 then 1 else 0)
    ensures p / 100 - (p - 1) / 100 == (if p % 100 == 0 then 1 else 0)
    ensures p / 400 - (p - 1) / 400 == (if p % 400 == 0 then 1 else 0)
  {
  }

  /** A year's length from the three divisibility tests that the closed form counts. */
  lemma LeapCount(p: int)
    ensures DaysInYear(p) == 365 + (if p % 4 == 0 then 1 else 0) - (if p % 100 == 0 then 1 else 0) + (if p % 400 == 0 then 1 else 0)
  {
    if p % 400 == 0 {
      assert p % 100 == 0 && p % 4 == 0 by {
        assert p == 400 * (p / 400);
      }
    } else if p % 100 == 0 {
      assert p % 4 == 0 by {
        assert p == 100 * (p / 100);
      }
    }
  }

  /** Python's closed form agrees with counting the days year by year. */
  lemma {:induction false} DaysBeforeYearCorrect(y: int)
    requires y >= 1
    ensures DaysBeforeYear(y) == DaysBeforeYearCount(y)
  {
    if y > 1 {
      DaysBeforeYearCorrect(y - 1);
      var p := y - 1;
      DivStep(p);
      assert DaysBeforeYear(y) - DaysBeforeYear(y - 1) == 365 + (p / 4 - (p - 1) / 4) - (p / 100 - (p - 1) / 100) + (p / 400 - (p - 1) / 400);
      LeapCount(p);
    }
  }

  /** Python's month table agrees with counting the days month by month. */
  lemma DaysBeforeMonthCorrect(y: int, m: int)
    requires 1 <= m <= 12
    ensures DaysBeforeMonth(y, m) == DaysBeforeMonthCount(y, m)
  {
  }

  /** The day after a valid date. */
  function NextDate(y: int, m: int, d: int): (int, int, int)
    requires ValidDate(y, m, d)
  {
    if d < DaysInMonth(y, m) then (y, m, d + 1)
    else if m < 12 then (y, m + 1, 1)
    else (y + 1, 1, 1)
  }

  /** Consecutive dates have consecutive ordinals. */
  lemma OrdinalNextDate(y: int, m: int, d: int)
    requires ValidDate(y, m, d)
    ensures var (y', m', d') := NextDate(y, m, d);
            y' >= 1 && 1 <= m' <= 12 && Ordinal(y', m', d') == Ordinal(y, m, d) + 1
  {
    DaysBeforeYearCorrect(y);
    DaysBeforeYearCorrect(y + 1);
  }

  /** `dt - datetime.utcfromtimestamp(0)`, in microseconds. */
  function EpochMicroseconds(dt: DateTime): int
    requires Valid(dt)
  {
    var days := Ordinal(dt.year, dt.month, dt.day) - Ordinal(1970, 1, 1);
    ((days * 86400 + dt.hour * 3600 + dt.minute * 60 + dt.second) * 1000000) + dt.microsecond
  }

  /** `unix_time`: `(dt - epoch).total_seconds()`, as an exact rational. */
  function UnixTime(dt: DateTime): real
    requires Valid(dt)
  {
    EpochMicroseconds(dt) as real / 1000000.0
  }

  /** Python's `int()` of a number: truncation toward zero. */
  function Truncate(x: real): int
  {
    if x >= 0.0 then x.Floor else -((-x).Floor)
  }

  /** `unix_time_millis`: `int(unix_time(dt) * 1000)`. */
  function UnixTimeMillis(dt: DateTime): int
    requires Valid(dt)
  {
    Truncate(UnixTime(dt) * 1000.0)
  }

  /** Integer division rounding toward zero. */
  function DivTowardZero(a: int, b: int): int
    requires b > 0
  {
    if a >= 0 then a / b else -((-a) / b)
  }

  lemma FloorOfQuotient(n: nat)
    ensures (n as real / 1000.0).Floor == n / 1000
  {
    var q, r := n / 1000, n % 1000;
    assert n as real == 1000.0 * q as real + r as real;
  }

  /** The milliseconds are the microseconds since the epoch divided by 1000, rounded toward zero. */
  lemma UnixTimeMillisExact(dt: DateTime)
    requires Valid(dt)
    ensures UnixTimeMillis(dt) == DivTowardZero(EpochMicroseconds(dt), 1000)
  {
    var m := EpochMicroseconds(dt);
    assert UnixTime(dt) * 1000.0 == m as real / 1000.0;
    if m >= 0 {
      FloorOfQuotient(m);
    } else {
      assert -(m as real / 1000.0) == (-m) as real / 1000.0;
      FloorOfQuotient(-m);
    }
  }

  /** The first second of 2023 in UTC is 1672531200000 milliseconds after the epoch. */
  lemma NewYearMillis()
    ensures Valid(DateTime(2023, 1, 1, 0, 0, 0, 0)) && UnixTimeMillis(DateTime(2023, 1, 1, 0, 0, 0, 0)) == 1672531200000
  {
    UnixTimeMillisExact(DateTime(2023, 1, 1, 0, 0, 0, 0));
  }
}
