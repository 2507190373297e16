// Calendar timestamps as `datetime` produces and `strftime`/`strptime` read them.

module Clock {
  import opened Wrappers
  import opened Strings

  /** A naive local date and time, to the second. */
  datatype DateTime = DateTime(year: int, month: int, day: int, hour: int, minute: int, second: int)

  predicate IsLeap(y: int) {
    y % 4 == 0 && (y % 100 != 0 || y % 400 == 0)
  }

  function DaysInMonth(y: int, m: int): int
    requires 1 <= m <= 12
  {
    if m == 2 then (if IsLeap(y) then 29 else 28)
    else if m == 4 || m == 6 || m == 9 || m == 11 then 30
    else 31
  }

  /** The values `datetime` accepts. */
  predicate Valid(t: DateTime) {
    && 1 <= t.year <= 9999
    && 1 <= t.month <= 12
    && 1 <= t.day <= DaysInMonth(t.year, t.month)
    && 0 <= t.hour < 24 && 0 <= t.minute < 60 && 0 <= t.second < 60
  }

  /** A moment `datetime` can represent. */
  type Moment = t: DateTime | Valid(t) witness DateTime(1970, 1, 1, 0, 0, 0)

  /** Days in the months of year `y` before month `m`. */
  function DaysBeforeMonth(y: int, m: int): int
    requires 1 <= m <= 12
    decreases m
  {
    if m == 1 then 0 else DaysBeforeMonth(y, m - 1) + DaysInMonth(y, m - 1)
  }

  /** Days elapsed since 0001-01-01 (the proleptic Gregorian ordinal minus one). */
  function DayNumber(t: DateTime): int
    requires Valid(t)
  {
    var y := t.year - 1;
    365 * y + y / 4 - y / 100 + y / 400 + DaysBeforeMonth(t.year, t.month) + t.day - 1
  }

  /** Seconds since 0001-01-01 00:00:00; differences are `(a - b).total_seconds()`. */
  function Seconds(t: DateTime): int
    requires Valid(t)
  {
    DayNumber(t) * 86400 + t.hour * 3600 + t.minute * 60 + t.second
  }

  /** On one calendar day, the difference in seconds is the difference of the clock readings. */
  lemma SameDayDifference(a: DateTime, b: DateTime)
    requires Valid(a) && Valid(b)
    requires a.year == b.year && a.month == b.month && a.day == b.day
    ensures Seconds(a) - Seconds(b)
            == (a.hour - b.hour) * 3600 + (a.minute - b.minute) * 60 + (a.second - b.second)
  {
  }

  // ---------------------------------------------------------------- formatting

  /** A number rendered with at least `w` digits, as `%0wd` does. */
  function Pad(n: nat, w: nat): string {
    ZFill(NatToString(n), w)
  }

  /** `strftime('%Y-%m-%d %H:%M:%S')` */
  function FormatTs(t: DateTime): (s: string)
    requires Valid(t)
    ensures |s| == 19
  {
    Pad4Len(t.year);
    Pad2Len(t.month); Pad2Len(t.day); Pad2Len(t.hour); Pad2Len(t.minute); Pad2Len(t.second);
    Pad(t.year, 4) + "-" + Pad(t.month, 2) + "-" + Pad(t.day, 2) + " "
      + Pad(t.hour, 2) + ":" + Pad(t.minute, 2) + ":" + Pad(t.second, 2)
  }

  /** `strftime('%Y-%m-%d')` */
  function FormatDate(t: DateTime): (s: string)
    requires Valid(t)
    ensures |s| == 10
  {
    Pad4Len(t.year); Pad2Len(t.month); Pad2Len(t.day);
    Pad(t.year, 4) + "-" + Pad(t.month, 2) + "-" + Pad(t.day, 2)
  }

  /** `strftime('%Y%m%d_%H%M%S')` */
  function FormatCompact(t: DateTime): (s: string)
    requires Valid(t)
    ensures |s| == 15
  {
    Pad4Len(t.year);
    Pad2Len(t.month); Pad2Len(t.day); Pad2Len(t.hour); Pad2Len(t.minute); Pad2Len(t.second);
    Pad(t.year, 4) + Pad(t.month, 2) + Pad(t.day, 2) + "_"
      + Pad(t.hour, 2) + Pad(t.minute, 2) + Pad(t.second, 2)
  }

  /** `strftime('%Y%m')` */
  function FormatMonth(t: DateTime): (s: string)
    requires Valid(t)
    ensures IsDigits(s) && |s| == 6
  {
    Pad4Len(t.year); Pad2Len(t.month);
    Pad(t.year, 4) + Pad(t.month, 2)
  }

  lemma Pad2Len(n: int)
    requires 0 <= n < 100
    ensures |Pad(n, 2)| == 2 && AllDigits(Pad(n, 2)) && DigitsValue(Pad(n, 2)) == n
  {
    assert Pow10(2) == 100 by { assert Pow10(1) == 10; }
    PaddedRoundTrip(n, 2);
  }

  lemma Pad4Len(n: int)
    requires 0 <= n < 10000
    ensures |Pad(n, 4)| == 4 && AllDigits(Pad(n, 4)) && DigitsValue(Pad(n, 4)) == n
  {
    assert Pow10(4) == 10000 by { assert Pow10(2) == 100 by { assert Pow10(1) == 10; } }
    PaddedRoundTrip(n, 4);
  }

  // ---------------------------------------------------------------- parsing

  predicate TsShape(s: string) {
    && |s| == 19
    && s[4] == '-' && s[7] == '-' && s[10] == ' ' && s[13] == ':' && s[16] == ':'
    && AllDigits(s[0..4]) && AllDigits(s[5..7]) && AllDigits(s[8..10])
    && AllDigits(s[11..13]) && AllDigits(s[14..16]) && AllDigits(s[17..19])
  }

  /** `datetime.strptime(s, '%Y-%m-%d %H:%M:%S')` on zero-padded text; `None` is the ValueError. */
  function ParseTs(s: string): (r: Option<DateTime>)
    ensures r.Some? ==> Valid(r.value)
  {
    if !TsShape(s) then None
    else
      var t := DateTime(DigitsValue(s[0..4]), DigitsValue(s[5..7]), DigitsValue(s[8..10]),
                        DigitsValue(s[11..13]), DigitsValue(s[14..16]), DigitsValue(s[17..19]));
      if Valid(t) then Some(t) else None
  }

  /** Whatever is written with `FormatTs` reads back as the same moment. */
  lemma ParseFormat(t: DateTime)
    requires Valid(t)
    ensures ParseTs(FormatTs(t)) == Some(t)
  {
    var s := FormatTs(t);
    Pad4Len(t.year);
    Pad2Len(t.month); Pad2Len(t.day); Pad2Len(t.hour); Pad2Len(t.minute); Pad2Len(t.second);
    assert s[0..4] == Pad(t.year, 4);
    assert s[5..7] == Pad(t.month, 2);
    assert s[8..10] == Pad(t.day, 2);
    assert s[11..13] == Pad(t.hour, 2);
    assert s[14..16] == Pad(t.minute, 2);
    assert s[17..19] == Pad(t.second, 2);
  }

  /** Digits everywhere but at the separator positions 4, 7 (`-`), 10 (space), 13 and 16 (`:`). */
  predicate TsLayout(s: string) {
    && |s| == 19
    && s[4] == '-' && s[7] == '-' && s[10] == ' ' && s[13] == ':' && s[16] == ':'
    && forall j :: 0 <= j < 19 && j != 4 && j != 7 && j != 10 && j != 13 && j != 16 ==> IsDigit(s[j])
  }

  /** A formatted timestamp has the fixed nineteen-character layout. */
  lemma FormatTsLayout(t: DateTime)
    requires Valid(t)
    ensures TsLayout(FormatTs(t))
  {
    var s := FormatTs(t);
    ParseFormat(t);
    assert TsShape(s);
    forall j | 0 <= j < 19 && j != 4 && j != 7 && j != 10 && j != 13 && j != 16 ensures IsDigit(s[j]) {
      if j < 4 { assert s[j] == s[0..4][j]; }
      else if j < 7 { assert s[j] == s[5..7][j - 5]; }
      else if j < 10 { assert s[j] == s[8..10][j - 8]; }
      else if j < 13 { assert s[j] == s[11..13][j - 11]; }
      else if j < 16 { assert s[j] == s[14..16][j - 14]; }
      else { assert s[j] == s[17..19][j - 17]; }
    }
  }

  /** A character that is neither a digit nor a separator does not occur in a formatted timestamp. */
  lemma FormatTsAvoids(t: DateTime, c: char)
    requires Valid(t)
    requires !IsDigit(c) && c != '-' && c != ' ' && c != ':'
    ensures c !in FormatTs(t)
  {
    var s := FormatTs(t);
    FormatTsLayout(t);
    forall j | 0 <= j < 19 ensures s[j] != c {
      if j != 4 && j != 7 && j != 10 && j != 13 && j != 16 {
        assert IsDigit(s[j]);
      }
    }
  }

  /** Digits never include a character that is not one. */
  lemma DigitsAvoid(s: string, c: char)
    requires AllDigits(s) && !IsDigit(c)
    ensures c !in s
  {
  }

  /** A compact timestamp holds digits and one underscore only. */
  lemma FormatCompactAvoids(t: DateTime, c: char)
    requires Valid(t)
    requires !IsDigit(c) && c != '_'
    ensures c !in FormatCompact(t)
  {
    Pad4Len(t.year);
    Pad2Len(t.month); Pad2Len(t.day); Pad2Len(t.hour); Pad2Len(t.minute); Pad2Len(t.second);
    DigitsAvoid(Pad(t.year, 4), c);
    DigitsAvoid(Pad(t.month, 2), c); DigitsAvoid(Pad(t.day, 2), c);
    DigitsAvoid(Pad(t.hour, 2), c); DigitsAvoid(Pad(t.minute, 2), c); DigitsAvoid(Pad(t.second, 2), c);
  }
}
