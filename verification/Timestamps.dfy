/** The text the store keeps for a UTC time, and why ordering that text by bytes orders the times, although
    a time with zero microseconds is written without a fraction. */
module Timestamps {

  datatype Stamp = Stamp(year: nat, month: nat, day: nat, hour: nat, minute: nat, second: nat, micro: nat)

  predicate IsLeap(year: nat) {
    year % 4 == 0 && (year % 100 != 0 || year % 400 == 0)
  }

  function DaysInMonth(year: nat, month: nat): nat {
    if month == 2 then (if IsLeap(year) then 29 else 28)
    else if month == 4 || month == 6 || month == 9 || month == 11 then 30
    else 31
  }

  /** A UTC datetime as Python accepts it. */
  predicate Valid(s: Stamp) {
    && 1 <= s.year <= 9999 && 1 <= s.month <= 12 && 1 <= s.day <= DaysInMonth(s.year, s.month)
    && s.hour < 24 && s.minute < 60 && s.second < 60 && s.micro < 1_000_000
  }

  // ---- Chronological order: microseconds since the beginning of year 1 ----

  function DaysBeforeMonth(year: nat, month: nat): nat {
    if month <= 1 then 0 else DaysBeforeMonth(year, month - 1) + DaysInMonth(year, month - 1)
  }

  function DaysBeforeYear(year: nat): nat {
    if year <= 1 then 0 else DaysBeforeYear(year - 1) + DaysBeforeMonth(year - 1, 13)
  }

  function DayNumber(s: Stamp): nat {
    DaysBeforeYear(s.year) + DaysBeforeMonth(s.year, s.month) + s.day
  }

  function Instant(s: Stamp): nat {
    (((DayNumber(s) * 24 + s.hour) * 60 + s.minute) * 60 + s.second) * 1_000_000 + s.micro
  }

  lemma {:induction false} MonthsAdvance(year: nat, m: nat, m': nat)
    requires 1 <= m < m' <= 13
    ensures DaysBeforeMonth(year, m) + DaysInMonth(year, m) <= DaysBeforeMonth(year, m')
  {
    if m + 1 < m' {
      MonthsAdvance(year, m, m' - 1);
    }
  }

  lemma {:induction false} YearsAdvance(y: nat, y': nat)
    requires 1 <= y < y'
    ensures DaysBeforeYear(y) + DaysBeforeMonth(y, 13) <= DaysBeforeYear(y')
  {
    hide DaysBeforeMonth;
    if y + 1 < y' {
      YearsAdvance(y, y' - 1);
    }
  }

  // ---- The calendar is the Gregorian one ----

  /** The days before each month, and in a whole year. */
  lemma MonthStarts(year: nat)
    ensures var leap := if year % 4 == 0 && (year % 100 != 0 || year % 400 == 0) then 1 else 0;
      && DaysBeforeMonth(year, 1) == 0 && DaysBeforeMonth(year, 2) == 31 && DaysBeforeMonth(year, 3) == 59 + leap
      && DaysBeforeMonth(year, 4) == 90 + leap && DaysBeforeMonth(year, 5) == 120 + leap && DaysBeforeMonth(year, 6) == 151 + leap
      && DaysBeforeMonth(year, 7) == 181 + leap && DaysBeforeMonth(year, 8) == 212 + leap && DaysBeforeMonth(year, 9) == 243 + leap
      && DaysBeforeMonth(year, 10) == 273 + leap && DaysBeforeMonth(year, 11) == 304 + leap
      && DaysBeforeMonth(year, 12) == 334 + leap && DaysBeforeMonth(year, 13) == 365 + leap
  {
    assert DaysBeforeMonth(year, 4) == DaysBeforeMonth(year, 3) + 31;
    assert DaysBeforeMonth(year, 6) == DaysBeforeMonth(year, 5) + 31;
    assert DaysBeforeMonth(year, 8) == DaysBeforeMonth(year, 7) + 31;
    assert DaysBeforeMonth(year, 10) == DaysBeforeMonth(year, 9) + 30;
    assert DaysBeforeMonth(year, 12) == DaysBeforeMonth(year, 11) + 30;
  }

  lemma Every4(n: nat)
    requires n > 0
    ensures n / 4 == (n - 1) / 4 + if n % 4 == 0 then 1 else 0
  {
  }

  lemma Every100(n: nat)
    requires n > 0
    ensures n / 100 == (n - 1) / 100 + if n % 100 == 0 then 1 else 0
    ensures n % 100 == 0 ==> n % 4 == 0
  {
    assert n == 100 * (n / 100) + n % 100;
    assert n % 100 == 0 ==> n == 4 * (25 * (n / 100));
  }

  lemma Every400(n: nat)
    requires n > 0
    ensures n / 400 == (n - 1) / 400 + if n % 400 == 0 then 1 else 0
    ensures n % 400 == 0 ==> n % 100 == 0
  {
    assert n == 400 * (n / 400) + n % 400;
    assert n % 400 == 0 ==> n == 100 * (4 * (n / 400));
  }

  /** The leap years up to year n. */
  function LeapYears(n: nat): int {
    n / 4 - n / 100 + n / 400
  }

  lemma LeapYearsGrow(n: nat)
    requires n > 0
    ensures LeapYears(n) == LeapYears(n - 1) + if n % 4 == 0 && (n % 100 != 0 || n % 400 == 0) then 1 else 0
  {
    Every4(n);
    Every100(n);
    Every400(n);
  }

  /** Before year y there were 365 days a year, and one more for every leap year. */
  lemma {:induction false} YearStarts(y: nat)
    requires y >= 1
    ensures DaysBeforeYear(y) == 365 * (y - 1) + LeapYears(y - 1)
  {
    if y > 1 {
      hide DaysBeforeMonth, LeapYears;
      YearStarts(y - 1);
      YearLength(y - 1);
      LeapYearsGrow(y - 1);
    } else {
      assert DaysBeforeYear(1) == 0 && LeapYears(0) == 0;
    }
  }

  lemma YearLength(year: nat)
    ensures DaysBeforeMonth(year, 13) == 365 + if year % 4 == 0 && (year % 100 != 0 || year % 400 == 0) then 1 else 0
  {
    MonthStarts(year);
    hide DaysBeforeMonth;
  }

  /** Field by field, most significant first. */
  predicate DateBefore(a: Stamp, b: Stamp) {
    a.year < b.year || (a.year == b.year && (a.month < b.month || (a.month == b.month && a.day < b.day)))
  }

  predicate SameDate(a: Stamp, b: Stamp) {
    a.year == b.year && a.month == b.month && a.day == b.day
  }

  function TimeOfDay(s: Stamp): nat {
    ((s.hour * 60 + s.minute) * 60 + s.second) * 1_000_000 + s.micro
  }

  predicate Before(a: Stamp, b: Stamp) {
    DateBefore(a, b) || (SameDate(a, b) && TimeOfDay(a) < TimeOfDay(b))
  }

  lemma DateBeforeIsEarlier(a: Stamp, b: Stamp)
    requires Valid(a) && Valid(b) && DateBefore(a, b)
    ensures DayNumber(a) < DayNumber(b)
  {
    if a.year < b.year {
      YearsAdvance(a.year, b.year);
      MonthsAdvance(a.year, a.month, 13);
    } else if a.month < b.month {
      MonthsAdvance(a.year, a.month, b.month);
    }
  }

  lemma BeforeIsEarlier(a: Stamp, b: Stamp)
    requires Valid(a) && Valid(b)
    ensures Before(a, b) <==> Instant(a) < Instant(b)
  {
    if DateBefore(a, b) {
      DateBeforeIsEarlier(a, b);
    } else if DateBefore(b, a) {
      DateBeforeIsEarlier(b, a);
    }
  }

  // ---- The text, and the byte order of SQLite's TEXT comparison ----

  function Digits(n: nat, width: nat): (r: string)
    ensures |r| == width
  {
    if width == 0 then "" else Digits(n / 10, width - 1) + [('0' as int + n % 10) as char]
  }

  /** `datetime.isoformat()` of a UTC time. */
  function Iso(s: Stamp): string {
    Digits(s.year, 4) + "-" + Digits(s.month, 2) + "-" + Digits(s.day, 2) + "T" +
    Digits(s.hour, 2) + ":" + Digits(s.minute, 2) + ":" + Digits(s.second, 2) + Fraction(s.micro)
  }

  function Fraction(micro: nat): string {
    (if micro == 0 then "" else "." + Digits(micro, 6)) + "+00:00"
  }

  predicate Less(a: string, b: string) {
    |b| > 0 && (|a| == 0 || a[0] < b[0] || (a[0] == b[0] && Less(a[1..], b[1..])))
  }

  lemma {:induction false} LessIrreflexive(a: string)
    ensures !Less(a, a)
  {
    if a != "" {
      LessIrreflexive(a[1..]);
    }
  }

  /** Texts that begin with fields of one width are ordered by those fields first. */
  lemma {:induction false} LessFieldFirst(a: string, x: string, b: string, y: string)
    requires |a| == |b|
    ensures Less(a + x, b + y) <==> Less(a, b) || (a == b && Less(x, y))
  {
    if a == "" {
      assert a + x == x && b + y == y;
    } else {
      assert (a + x)[1..] == a[1..] + x && (b + y)[1..] == b[1..] + y;
      LessFieldFirst(a[1..], x, b[1..], y);
      assert a == [a[0]] + a[1..] && b == [b[0]] + b[1..];
    }
  }

  function Pow10(width: nat): nat { if width == 0 then 1 else 10 * Pow10(width - 1) }

  /** Zero-padded decimals of one width are ordered as numbers. */
  lemma {:induction false} DigitsOrder(m: nat, n: nat, width: nat)
    requires m < Pow10(width) && n < Pow10(width)
    ensures Less(Digits(m, width), Digits(n, width)) <==> m < n
    ensures Digits(m, width) == Digits(n, width) <==> m == n
  {
    if width > 0 {
      DigitsOrder(m / 10, n / 10, width - 1);
      var x, y := [('0' as int + m % 10) as char], [('0' as int + n % 10) as char];
      LessFieldFirst(Digits(m / 10, width - 1), x, Digits(n / 10, width - 1), y);
      assert Digits(m, width)[..width - 1] == Digits(m / 10, width - 1) && Digits(n, width)[..width - 1] == Digits(n / 10, width - 1);
      assert Digits(m, width)[width - 1] == x[0] && Digits(n, width)[width - 1] == y[0];
      assert Less(x, y) <==> m % 10 < n % 10;
    }
  }

  /** A field and its separator, followed by the rest. */
  lemma FieldOrder(m: nat, n: nat, width: nat, sep: string, x: string, y: string)
    requires m < Pow10(width) && n < Pow10(width)
    ensures Less(Digits(m, width) + sep + x, Digits(n, width) + sep + y) <==> m < n || (m == n && Less(x, y))
  {
    DigitsOrder(m, n, width);
    LessFieldFirst(Digits(m, width), sep + x, Digits(n, width), sep + y);
    LessFieldFirst(sep, x, sep, y);
    LessIrreflexive(sep);
    assert Digits(m, width) + sep + x == Digits(m, width) + (sep + x);
    assert Digits(n, width) + sep + y == Digits(n, width) + (sep + y);
  }

  /** The missing fraction sorts first: '+' comes before '.' and no other fraction is below it. */
  lemma FractionOrder(m: nat, n: nat)
    requires m < 1_000_000 && n < 1_000_000
    ensures Less(Fraction(m), Fraction(n)) <==> m < n
  {
    if m != 0 && n != 0 {
      assert Pow10(3) == 1000;
      assert Fraction(m) == "." + (Digits(m, 6) + "+00:00") && Fraction(n) == "." + (Digits(n, 6) + "+00:00");
      DigitsOrder(m, n, 6);
      hide Digits;
      LessFieldFirst(".", Digits(m, 6) + "+00:00", ".", Digits(n, 6) + "+00:00");
      LessFieldFirst(Digits(m, 6), "+00:00", Digits(n, 6), "+00:00");
      LessIrreflexive("+00:00");
      LessIrreflexive(".");
    } else if m != 0 {
      assert Fraction(m)[0] == '.' && Fraction(n)[0] == '+';
    } else if n != 0 {
      assert Fraction(n)[0] == '.' && Fraction(m)[0] == '+';
    } else {
      LessIrreflexive(Fraction(0));
    }
  }

  function FromSecond(s: Stamp): string { Digits(s.second, 2) + "" + Fraction(s.micro) }
  function FromMinute(s: Stamp): string { Digits(s.minute, 2) + ":" + FromSecond(s) }
  function FromHour(s: Stamp): string { Digits(s.hour, 2) + ":" + FromMinute(s) }
  function FromDay(s: Stamp): string { Digits(s.day, 2) + "T" + FromHour(s) }
  function FromMonth(s: Stamp): string { Digits(s.month, 2) + "-" + FromDay(s) }
  function FromYear(s: Stamp): string { Digits(s.year, 4) + "-" + FromMonth(s) }

  lemma IsoFromYear(s: Stamp)
    ensures Iso(s) == FromYear(s)
  {
  }

  lemma TimeOrder(a: Stamp, b: Stamp)
    requires Valid(a) && Valid(b)
    ensures Less(FromHour(a), FromHour(b)) <==> TimeOfDay(a) < TimeOfDay(b)
  {
    assert Pow10(2) == 100;
    FractionOrder(a.micro, b.micro);
    FieldOrder(a.second, b.second, 2, "", Fraction(a.micro), Fraction(b.micro));
    FieldOrder(a.minute, b.minute, 2, ":", FromSecond(a), FromSecond(b));
    FieldOrder(a.hour, b.hour, 2, ":", FromMinute(a), FromMinute(b));
  }

  /** Byte order of the stored texts is chronological order of the times. */
  lemma TextOrderIsTimeOrder(a: Stamp, b: Stamp)
    requires Valid(a) && Valid(b)
    ensures Less(Iso(a), Iso(b)) <==> Instant(a) < Instant(b)
  {
    assert Pow10(2) == 100 && Pow10(4) == 10000;
    BeforeIsEarlier(a, b);
    TimeOrder(a, b);
    FieldOrder(a.day, b.day, 2, "T", FromHour(a), FromHour(b));
    FieldOrder(a.month, b.month, 2, "-", FromDay(a), FromDay(b));
    FieldOrder(a.year, b.year, 4, "-", FromMonth(a), FromMonth(b));
    IsoFromYear(a);
    IsoFromYear(b);
  }

  lemma InstantInjective(a: Stamp, b: Stamp)
    requires Valid(a) && Valid(b) && Instant(a) == Instant(b)
    ensures a == b
  {
    BeforeIsEarlier(a, b);
    BeforeIsEarlier(b, a);
  }

  // ---- Reading the text back ----

  /** Different times have different texts. */
  lemma IsoInjective(a: Stamp, b: Stamp)
    requires Valid(a) && Valid(b) && Iso(a) == Iso(b)
    ensures a == b
  {
    TextOrderIsTimeOrder(a, b);
    TextOrderIsTimeOrder(b, a);
    LessIrreflexive(Iso(a));
    InstantInjective(a, b);
  }

  /** The number a decimal text stands for. */
  function Value(s: string): int {
    if s == "" then 0 else 10 * Value(s[..|s| - 1]) + (s[|s| - 1] as int - '0' as int)
  }

  lemma {:induction false} DigitsRead(n: nat, width: nat)
    requires n < Pow10(width)
    ensures Value(Digits(n, width)) == n && forall c :: c in Digits(n, width) ==> '0' <= c <= '9'
  {
    if width > 0 {
      DigitsRead(n / 10, width - 1);
      assert Digits(n, width)[..width - 1] == Digits(n / 10, width - 1);
    }
  }

  lemma Cut(a: string, b: string)
    ensures (a + b)[..|a|] == a && (a + b)[|a|..] == b
  {
  }

  /** field stands at position at of t, followed by rest. */
  ghost predicate Shows(t: string, at: nat, field: nat, width: nat, rest: string) {
    at + width <= |t| && Value(t[at..at + width]) == field && t[at + width..] == rest
  }

  lemma FieldShows(t: string, at: nat, field: nat, width: nat, rest: string)
    requires field < Pow10(width) && at <= |t| && t[at..] == Digits(field, width) + rest
    ensures Shows(t, at, field, width, rest)
  {
    DigitsRead(field, width);
    Cut(Digits(field, width), rest);
    hide Digits, Value, Pow10;
    assert t[at..at + width] == t[at..][..width];
    assert t[at + width..] == t[at..][width..];
  }

  lemma DateReads(t: string, s: Stamp)
    requires Valid(s) && t == FromYear(s)
    ensures 11 <= |t| && t[11..] == FromHour(s)
    ensures Value(t[0..4]) == s.year && t[4] == '-' && Value(t[5..7]) == s.month && t[7] == '-' && Value(t[8..10]) == s.day && t[10] == 'T'
  {
    PowersOfTen();
    hide Value, Digits, Pow10, FromHour;
    assert t[0..] == t;
    Assoc(Digits(s.year, 4), "-", FromMonth(s));
    FieldShows(t, 0, s.year, 4, "-" + FromMonth(s));
    Behind(t, 4, "-", FromMonth(s));
    Assoc(Digits(s.month, 2), "-", FromDay(s));
    FieldShows(t, 5, s.month, 2, "-" + FromDay(s));
    Behind(t, 7, "-", FromDay(s));
    Assoc(Digits(s.day, 2), "T", FromHour(s));
    FieldShows(t, 8, s.day, 2, "T" + FromHour(s));
    Behind(t, 10, "T", FromHour(s));
  }

  lemma TimeReads(t: string, s: Stamp)
    requires Valid(s) && 11 <= |t| && t[11..] == FromHour(s)
    ensures 19 <= |t| && t[19..] == Fraction(s.micro)
    ensures Value(t[11..13]) == s.hour && t[13] == ':' && Value(t[14..16]) == s.minute && t[16] == ':' && Value(t[17..19]) == s.second
  {
    PowersOfTen();
    hide Value, Digits, Pow10, Fraction;
    Assoc(Digits(s.hour, 2), ":", FromMinute(s));
    FieldShows(t, 11, s.hour, 2, ":" + FromMinute(s));
    Behind(t, 13, ":", FromMinute(s));
    Assoc(Digits(s.minute, 2), ":", FromSecond(s));
    FieldShows(t, 14, s.minute, 2, ":" + FromSecond(s));
    Behind(t, 16, ":", FromSecond(s));
    assert Digits(s.second, 2) + "" == Digits(s.second, 2);
    FieldShows(t, 17, s.second, 2, Fraction(s.micro));
  }

  lemma Assoc(a: string, b: string, c: string)
    ensures a + (b + c) == a + b + c
  {
  }

  /** The text is the ISO 8601 one: the fields in decimal at fixed places, a fraction of six digits unless it is
      zero, and the UTC offset. */
  lemma IsoReadsBack(s: Stamp)
    requires Valid(s)
    ensures var t := Iso(s);
      && |t| == (if s.micro == 0 then 25 else 32)
      && Value(t[0..4]) == s.year && t[4] == '-' && Value(t[5..7]) == s.month && t[7] == '-' && Value(t[8..10]) == s.day
      && t[10] == 'T' && Value(t[11..13]) == s.hour && t[13] == ':' && Value(t[14..16]) == s.minute && t[16] == ':'
      && Value(t[17..19]) == s.second
    ensures var t := Iso(s);
      if s.micro == 0 then t[19..] == "+00:00" else t[19] == '.' && Value(t[20..26]) == s.micro && t[26..] == "+00:00"
  {
    IsoFromYear(s);
    DateReads(Iso(s), s);
    TimeReads(Iso(s), s);
    FractionReads(Iso(s), s.micro);
    hide Iso, Value, Digits, Fraction, FromYear, FromHour;
  }

  lemma PowersOfTen()
    ensures Pow10(2) == 100 && Pow10(4) == 10_000 && Pow10(6) == 1_000_000
  {
    assert Pow10(4) == 100 * Pow10(2);
    assert Pow10(6) == 100 * Pow10(4);
  }

  lemma Behind(t: string, at: nat, sep: string, rest: string)
    requires at <= |t| && |sep| == 1 && t[at..] == sep + rest
    ensures at + 1 <= |t| && t[at] == sep[0] && t[at + 1..] == rest
  {
    assert t[at] == t[at..][0];
    assert t[at + 1..] == t[at..][1..];
  }

  lemma FractionReads(t: string, micro: nat)
    requires micro < 1_000_000 && 19 <= |t| && t[19..] == Fraction(micro)
    ensures |t| == (if micro == 0 then 25 else 32)
    ensures if micro == 0 then t[19..] == "+00:00" else t[19] == '.' && Value(t[20..26]) == micro && t[26..] == "+00:00"
  {
    PowersOfTen();
    if micro != 0 {
      hide Value;
      assert Fraction(micro) == "." + (Digits(micro, 6) + "+00:00");
      Behind(t, 19, ".", Digits(micro, 6) + "+00:00");
      FieldShows(t, 20, micro, 6, "+00:00");
    } else {
      assert |t| == 19 + |t[19..]|;
    }
  }
}
