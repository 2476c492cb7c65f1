/** Dates, times and durations as the loggers use them: `datetime.strptime` on
    the two stamp formats they read, subtraction of two datetimes, the
    normalised `timedelta` that results and its `str()` rendering. */
module Clock {
  import opened Py

  // ---------------------------------------------------------------------------
  // Calendar

  datatype DateTime = DateTime(year: int, month: int, day: int, hour: int, minute: int, second: int)

  predicate IsLeap(y: int)
  {
    y % 4 == 0 && (y % 100 != 0 || y % 400 == 0)
  }

  function DaysInMonth(y: int, m: int): (n: int)
    requires 1 <= m <= 12
    ensures 28 <= n <= 31
  {
    if m == 2 then (if IsLeap(y) then 29 else 28)
    else if m == 4 || m == 6 || m == 9 || m == 11 then 30
    else 31
  }

  /** What the `datetime` constructor accepts. */
  predicate Valid(d: DateTime)
  {
    1 <= d.year <= 9999 && 1 <= d.month <= 12 && 1 <= d.day <= DaysInMonth(d.year, d.month) &&
    0 <= d.hour < 24 && 0 <= d.minute < 60 && 0 <= d.second < 60
  }

  function DaysInYear(y: int): int
  {
    if IsLeap(y) then 366 else 365
  }

  /** Days of year `y` before the first day of month `m`. */
  function DaysBeforeMonth(y: int, m: int): int
    requires 1 <= m <= 12
  {
    [0, 31, 59, 90, 120, 151, 181, 212, 243, 273, 304, 334][m - 1] + (if m > 2 && IsLeap(y) then 1 else 0)
  }

  /** Days before 1 January of year `y` in the proleptic Gregorian calendar. */
  function DaysBeforeYear(y: int): int
    requires y >= 1
  {
    var p := y - 1;
    p * 365 + p / 4 - p / 100 + p / 400
  }

  /** `toordinal()`: 1 January of year 1 is day 1. */
  function Ordinal(d: DateTime): int
    requires Valid(d)
  {
    DaysBeforeYear(d.year) + DaysBeforeMonth(d.year, d.month) + d.day
  }

  /** Seconds since the start of the calendar; subtraction of two datetimes is
      the difference of these. */
  function Seconds(d: DateTime): int
    requires Valid(d)
  {
    Ordinal(d) * 86400 + DaySeconds(d)
  }

  /** Seconds since midnight. */
  function DaySeconds(d: DateTime): (n: int)
    requires Valid(d)
    ensures 0 <= n < 86400
  {
    d.hour * 3600 + d.minute * 60 + d.second
  }

  /** Year `y` adds one to the count of multiples of `k` exactly when `k` divides it. */
  lemma MultipleStep(y: int, k: int)
    requires k == 4 || k == 100 || k == 400
    ensures y / k == (y - 1) / k + (if y % k == 0 then 1 else 0)
  {
  }

  /** The leap rule as a count: one day more for multiples of 4, one less for
      multiples of 100, one more for multiples of 400. */
  lemma LeapCount(y: int)
    ensures DaysInYear(y) == 365 + (if y % 4 == 0 then 1 else 0) - (if y % 100 == 0 then 1 else 0) + (if y % 400 == 0 then 1 else 0)
  {
    if y % 400 == 0 {
      assert y == 100 * (4 * (y / 400)) == 4 * (100 * (y / 400));
    } else if y % 100 == 0 {
      assert y == 4 * (25 * (y / 100));
    }
  }

  lemma YearLength(y: int)
    requires y >= 1
    ensures DaysBeforeYear(y + 1) == DaysBeforeYear(y) + DaysInYear(y)
  {
    MultipleStep(y, 4);
    MultipleStep(y, 100);
    MultipleStep(y, 400);
    LeapCount(y);
  }

  /** Month `m` ends no later than month `m'` starts, and no month ends after
      the year does. */
  lemma MonthsBefore(y: int, m: int, m': int)
    requires 1 <= m <= 12 && m < m' <= 13
    ensures m' <= 12 ==> DaysBeforeMonth(y, m) + DaysInMonth(y, m) <= DaysBeforeMonth(y, m')
    ensures DaysBeforeMonth(y, m) + DaysInMonth(y, m) <= DaysInYear(y)
  {
  }

  lemma {:induction false} YearsBefore(y: int, y': int)
    requires 1 <= y < y'
    ensures DaysBeforeYear(y) + DaysInYear(y) <= DaysBeforeYear(y')
    decreases y' - y
  {
    YearLength(y);
    if y + 1 < y' {
      YearsBefore(y + 1, y');
    }
  }

  /** Chronological order of two datetimes: the fields compared from the year down. */
  predicate Before(a: DateTime, b: DateTime)
  {
    a.year < b.year ||
    (a.year == b.year && (a.month < b.month ||
    (a.month == b.month && (a.day < b.day ||
    (a.day == b.day && (a.hour < b.hour ||
    (a.hour == b.hour && (a.minute < b.minute ||
    (a.minute == b.minute && a.second < b.second)))))))))
  }

  lemma OrdinalOrder(a: DateTime, b: DateTime)
    requires Valid(a) && Valid(b)
    requires a.year < b.year || (a.year == b.year && (a.month < b.month || (a.month == b.month && a.day < b.day)))
    ensures Ordinal(a) < Ordinal(b)
  {
    if a.year < b.year {
      MonthsBefore(a.year, a.month, 13);
      YearsBefore(a.year, b.year);
    } else if a.month < b.month {
      MonthsBefore(a.year, a.month, b.month);
    }
  }

  /** Later datetimes are further from the epoch: subtraction is positive
      exactly when the first operand is later. */
  lemma SecondsOrder(a: DateTime, b: DateTime)
    requires Valid(a) && Valid(b) && Before(a, b)
    ensures Seconds(a) < Seconds(b)
  {
    if a.year < b.year || (a.year == b.year && (a.month < b.month || (a.month == b.month && a.day < b.day))) {
      OrdinalOrder(a, b);
    }
  }

  lemma SecondsInjective(a: DateTime, b: DateTime)
    requires Valid(a) && Valid(b) && Seconds(a) == Seconds(b)
    ensures a == b
  {
    if Before(a, b) {
      SecondsOrder(a, b);
    } else if Before(b, a) {
      SecondsOrder(b, a);
    }
  }

  // ---------------------------------------------------------------------------
  // timedelta

  /** A normalised `timedelta` without microseconds: the day count carries the
      sign and the seconds are always in [0, 86400). */
  datatype Timedelta = Timedelta(days: int, seconds: nat)

  predicate Normal(td: Timedelta)
  {
    td.seconds < 86400
  }

  function TotalSeconds(td: Timedelta): int
  {
    td.days * 86400 + td.seconds
  }

  /** `timedelta(seconds=t)`: floor division into days, remainder in seconds. */
  function FromSeconds(t: int): (td: Timedelta)
    ensures Normal(td) && TotalSeconds(td) == t
  {
    Timedelta(t / 86400, t % 86400)
  }

  /** The normalised form is unique: any two normal timedeltas with the same
      total are equal, so `FromSeconds` inverts `TotalSeconds`. */
  lemma NormalUnique(td: Timedelta)
    requires Normal(td)
    ensures FromSeconds(TotalSeconds(td)) == td
  {
  }

  /** `end - start` for two datetimes: the difference of the day ordinals and
      of the seconds since midnight, a negative second count borrowing a day. */
  function Difference(end: DateTime, start: DateTime): (td: Timedelta)
    requires Valid(end) && Valid(start)
    ensures Normal(td) && TotalSeconds(td) == Seconds(end) - Seconds(start)
  {
    var days, secs := Ordinal(end) - Ordinal(start), DaySeconds(end) - DaySeconds(start);
    if secs < 0 then Timedelta(days - 1, secs + 86400) else Timedelta(days, secs)
  }

  /** A difference is zero (and so falsy in Python) exactly when the two
      datetimes are the same. */
  lemma ZeroDifference(end: DateTime, start: DateTime)
    requires Valid(end) && Valid(start)
    ensures Difference(end, start) == Timedelta(0, 0) <==> end == start
  {
    var td := Difference(end, start);
    if td == Timedelta(0, 0) {
      assert Seconds(end) - Seconds(start) == TotalSeconds(td) == 0;
      SecondsInjective(end, start);
    }
  }

  /** A zero difference prints as `0:00:00`. */
  lemma ZeroStr()
    ensures TimedeltaStr(Timedelta(0, 0)) == "0:00:00"
  {
    assert NatToStr(0) == "0";
  }

  /** What both loggers add to their running total for one job:
      `abs(days * 86400)` when there are days, then `abs(seconds)`. */
  function Increment(td: Timedelta): (n: nat)
    requires Normal(td)
    ensures td.days >= 0 ==> n == TotalSeconds(td)
    ensures td.days < 0 ==> n == -TotalSeconds(td) + 2 * td.seconds
  {
    (if td.days != 0 then Abs(td.days * 86400) else 0) + td.seconds
  }

  function Abs(x: int): nat
  {
    if x < 0 then -x else x
  }

  /** A job whose end precedes its start adds more than its length: the
      seconds part is counted forwards while the day part is counted backwards. */
  lemma NegativeIncrement(end: DateTime, start: DateTime)
    requires Valid(end) && Valid(start) && Before(end, start)
    ensures Increment(Difference(end, start)) >= Seconds(start) - Seconds(end)
    ensures Increment(Difference(end, start)) == Seconds(start) - Seconds(end)
            <==> Difference(end, start).seconds == 0
  {
    SecondsOrder(end, start);
  }

  // ---------------------------------------------------------------------------
  // str(timedelta)

  /** `str(td)`: `H:MM:SS`, preceded by `N day, ` or `N days, ` when the day
      count is not zero (`day` exactly when it is 1 or -1). */
  function TimedeltaStr(td: Timedelta): string
    requires Normal(td)
  {
    var hms := Hms(td.seconds);
    if td.days == 0 then hms
    else IntToStr(td.days) + " " + DayWord(td.days) + " " + hms
  }

  function DayWord(days: int): string
  {
    if days == 1 || days == -1 then "day," else "days,"
  }

  /** `mm, ss = divmod(seconds, 60); hh, mm = divmod(mm, 60)` */
  function Hms(s: nat): string
    requires s < 86400
  {
    NatToStr(s / 60 / 60) + ":" + TwoDigits(s / 60 % 60) + ":" + TwoDigits(s % 60)
  }

  lemma HmsValue(s: nat)
    ensures (s / 60 / 60) * 3600 + (s / 60 % 60) * 60 + s % 60 == s
  {
    var t := s / 60;
    assert s == 60 * t + s % 60;
    assert t == 60 * (t / 60) + t % 60;
  }

  /** A non-empty run of ASCII digits and its value. */
  function Numeral(s: string): Option<nat>
  {
    if |s| > 0 && AllDigits(s) then Some(DigitsValue(s)) else None
  }

  /** Reads back a rendered duration: `H:MM:SS`, optionally preceded by
      `N day, ` / `N days, ` with N possibly negative. */
  function DurationSeconds(s: string): Option<int>
  {
    var parts := Split(s, " ");
    if |parts| == 1 then HmsSeconds(parts[0])
    else if |parts| == 3 && (parts[1] == "day," || parts[1] == "days,") then
      match (DayCount(parts[0]), HmsSeconds(parts[2]))
      case (Some(d), Some(t)) => Some(d * 86400 + t)
      case _ => None
    else None
  }

  /** A day count: a numeral, possibly preceded by a minus sign. */
  function DayCount(s: string): Option<int>
  {
    if |s| > 0 && s[0] == '-' then
      match Numeral(s[1..])
      case Some(d) => Some(-(d as int))
      case None => None
    else
      match Numeral(s)
      case Some(d) => Some(d as int)
      case None => None
  }

  function HmsSeconds(s: string): Option<int>
  {
    HmsParts(Split(s, ":"))
  }

  /** Exactly three numerals: hours, minutes and seconds. */
  function HmsParts(parts: seq<string>): Option<int>
  {
    if |parts| != 3 || Numeral(parts[0]).None? || Numeral(parts[1]).None? || Numeral(parts[2]).None? then None
    else Some(Numeral(parts[0]).value * 3600 + Numeral(parts[1]).value * 60 + Numeral(parts[2]).value)
  }

  lemma DigitsExclude(s: string, c: char)
    requires AllDigits(s) && !IsDigit(c)
    ensures c !in s
  {
  }

  lemma HmsSplit(h: string, m: string, sec: string)
    requires AllDigits(h) && AllDigits(m) && AllDigits(sec)
    ensures Split(h + ":" + m + ":" + sec, ":") == [h, m, sec]
  {
    DigitsExclude(h, ':');
    DigitsExclude(m, ':');
    DigitsExclude(sec, ':');
    SplitThree(h, m, sec, ':');
  }

  lemma HmsNoSpace(h: string, m: string, sec: string)
    requires AllDigits(h) && AllDigits(m) && AllDigits(sec)
    ensures ' ' !in h + ":" + m + ":" + sec
  {
    DigitsExclude(h, ' ');
    DigitsExclude(m, ' ');
    DigitsExclude(sec, ' ');
  }

  /** Three numerals separated by colons read back as hours, minutes and seconds. */
  lemma HmsRead(x: string, h: string, m: string, sec: string)
    requires Split(x, ":") == [h, m, sec]
    requires |h| > 0 && |m| > 0 && |sec| > 0 && AllDigits(h) && AllDigits(m) && AllDigits(sec)
    ensures HmsSeconds(x) == Some(DigitsValue(h) * 3600 + DigitsValue(m) * 60 + DigitsValue(sec))
  {
    HmsPartsRead(h, m, sec);
  }

  lemma HmsPartsRead(h: string, m: string, sec: string)
    requires |h| > 0 && |m| > 0 && |sec| > 0 && AllDigits(h) && AllDigits(m) && AllDigits(sec)
    ensures HmsParts([h, m, sec]) == Some(DigitsValue(h) * 3600 + DigitsValue(m) * 60 + DigitsValue(sec))
  {
  }

  lemma HmsRoundTrip(s: nat)
    requires s < 86400
    ensures HmsSeconds(Hms(s)) == Some(s)
    ensures ' ' !in Hms(s)
  {
    var h, m, sec := NatToStr(s / 60 / 60), TwoDigits(s / 60 % 60), TwoDigits(s % 60);
    NatToStrValue(s / 60 / 60);
    HmsSplit(h, m, sec);
    HmsNoSpace(h, m, sec);
    HmsRead(Hms(s), h, m, sec);
    HmsValue(s);
  }

  lemma DayCountRead(days: int)
    ensures DayCount(IntToStr(days)) == Some(days)
  {
    var n := NatToStr(if days < 0 then -days else days);
    NatToStrValue(if days < 0 then -days else days);
    if days < 0 {
      assert IntToStr(days)[1..] == n;
    }
  }

  /** A day count, its word and a time of day read back as a total. */
  lemma DaysRead(x: string, p: string, w: string, h: string, td: Timedelta)
    requires Split(x, " ") == [p, w, h] && (w == "day," || w == "days,")
    requires DayCount(p) == Some(td.days) && HmsSeconds(h) == Some(td.seconds)
    ensures DurationSeconds(x) == Some(TotalSeconds(td))
  {
  }

  lemma DayCountNoSpace(days: int)
    ensures ' ' !in IntToStr(days)
  {
    DigitsExclude(NatToStr(if days < 0 then -days else days), ' ');
  }

  lemma DaysSplit(td: Timedelta)
    requires Normal(td) && td.days != 0
    ensures Split(TimedeltaStr(td), " ") == [IntToStr(td.days), DayWord(td.days), Hms(td.seconds)]
  {
    HmsRoundTrip(td.seconds);
    DayCountNoSpace(td.days);
    SplitThree(IntToStr(td.days), DayWord(td.days), Hms(td.seconds), ' ');
  }

  lemma SameDayRead(s: nat)
    requires s < 86400
    ensures DurationSeconds(Hms(s)) == Some(s)
  {
    HmsRoundTrip(s);
    SplitJoin([Hms(s)], ' ');
  }

  lemma DaysLaterRead(td: Timedelta)
    requires Normal(td) && td.days != 0
    ensures DurationSeconds(TimedeltaStr(td)) == Some(TotalSeconds(td))
  {
    var p, w, h := IntToStr(td.days), DayWord(td.days), Hms(td.seconds);
    assert Split(TimedeltaStr(td), " ") == [p, w, h] by { DaysSplit(td); }
    assert DayCount(p) == Some(td.days) by { DayCountRead(td.days); }
    assert HmsSeconds(h) == Some(td.seconds) by { HmsRoundTrip(td.seconds); }
    DaysRead(TimedeltaStr(td), p, w, h, td);
  }

  lemma TimedeltaRead(td: Timedelta)
    requires Normal(td)
    ensures DurationSeconds(TimedeltaStr(td)) == Some(TotalSeconds(td))
  {
    if td.days == 0 {
      SameDayRead(td.seconds);
    } else {
      DaysLaterRead(td);
    }
  }

  /** Reading back `str(td)` gives the total length, for every duration,
      negative ones included. */
  /** `str(end - start)` reads back as the seconds between the two datetimes. */
  lemma DifferenceRead(end: DateTime, start: DateTime)
    requires Valid(end) && Valid(start)
    ensures DurationSeconds(TimedeltaStr(Difference(end, start))) == Some(Seconds(end) - Seconds(start))
  {
    var td := Difference(end, start);
    TimedeltaRead(td);
    assert TotalSeconds(td) == Seconds(end) - Seconds(start);
  }

  lemma DurationRoundTrip(t: int)
    ensures DurationSeconds(TimedeltaStr(FromSeconds(t))) == Some(t)
  {
    TimedeltaRead(FromSeconds(t));
  }

  // ---------------------------------------------------------------------------
  // datetime.strptime

  /** A field of a `strptime` format, as the regular expression Python compiles
      it to: `%Y` is four digits; `%m`, `%d`, `%H`, `%M` and `%S` try a two-digit
      alternative in [lo, hi] first, then one digit in [lo, 9], and `%d` last a
      space followed by a digit 1-9. */
  datatype Field = YearField | NumField(lo: nat, hi: nat, spaced: bool)

  /** Literal text followed by a field. */
  datatype Directive = Directive(prefix: string, field: Field)

  /** `'%Y-%m-%d' + dateSep + '%H' + timeSep + '%M' + timeSep + '%S'` */
  function StampFormat(dateSep: string, timeSep: string): seq<Directive>
  {
    [Directive("", YearField), Directive("-", NumField(1, 12, false)), Directive("-", NumField(1, 31, true)),
     Directive(dateSep, NumField(0, 23, false)), Directive(timeSep, NumField(0, 59, false)),
     Directive(timeSep, NumField(0, 61, false))]
  }

  /** The print-log stamp `'%Y-%m-%d__%H-%M-%S'`. */
  const LogStamp := StampFormat("__", "-")

  /** The time-estimation stamp `'%Y-%m-%d %H:%M:%S'`. */
  const EstimationStamp := StampFormat(" ", ":")

  /** The first alternative of a field that matches at index `i` of `s`: its
      value and its width. */
  function MatchField(s: string, i: nat, f: Field): (r: Option<(nat, nat)>)
    ensures r.Some? ==> 1 <= r.value.1 && i + r.value.1 <= |s|
  {
    match f
    case YearField =>
      if i + 4 <= |s| && IsDigit(s[i]) && IsDigit(s[i + 1]) && IsDigit(s[i + 2]) && IsDigit(s[i + 3])
      then Some((DigitValue(s[i]) * 1000 + DigitValue(s[i + 1]) * 100 + DigitValue(s[i + 2]) * 10 + DigitValue(s[i + 3]), 4))
      else None
    case NumField(lo, hi, spaced) =>
      if i + 2 <= |s| && IsDigit(s[i]) && IsDigit(s[i + 1]) && lo <= DigitValue(s[i]) * 10 + DigitValue(s[i + 1]) <= hi
      then Some((DigitValue(s[i]) * 10 + DigitValue(s[i + 1]), 2))
      else if i + 1 <= |s| && IsDigit(s[i]) && lo <= DigitValue(s[i]) then Some((DigitValue(s[i]), 1))
      else if spaced && i + 2 <= |s| && s[i] == ' ' && IsDigit(s[i + 1]) && 1 <= DigitValue(s[i + 1])
      then Some((DigitValue(s[i + 1]), 2))
      else None
  }

  predicate PrefixAt(s: string, i: nat, p: string)
  {
    i + |p| <= |s| && s[i..i + |p|] == p
  }

  /** `re.match` of the compiled format from index `i` of `s`: the field values
      and the index where the match ends. Every literal of the two stamp
      formats starts with a non-digit, so the first matching alternative of each
      field is the one the backtracking matcher keeps. */
  function MatchFormat(s: string, i: nat, pat: seq<Directive>): (r: Option<(seq<nat>, nat)>)
    requires i <= |s|
    ensures r.Some? ==> |r.value.0| == |pat| && i <= r.value.1 <= |s|
    decreases |pat|
  {
    if pat == [] then Some(([], i))
    else
      var p := pat[0].prefix;
      if PrefixAt(s, i, p) then
        match MatchField(s, i + |p|, pat[0].field)
        case None => None
        case Some((v, w)) =>
          (match MatchFormat(s, i + |p| + w, pat[1..])
           case Some((vs, end)) => Some(([v] + vs, end))
           case None => None)
      else None
  }

  /** `datetime.strptime(s, fmt)` for one of the two stamp formats: no match,
      text left over ("unconverted data remains") and a date or time the
      `datetime` constructor refuses (year 0, 30 February, second 60 or 61) all
      raise ValueError. */
  function Strptime(s: string, dateSep: string, timeSep: string): (r: Result<DateTime>)
    ensures r.Ok? ==> Valid(r.value)
    ensures r.Err? ==> r.error == ValueError
  {
    match MatchFormat(s, 0, StampFormat(dateSep, timeSep))
    case None => Err(ValueError)
    case Some((vs, end)) =>
      if end != |s| then Err(ValueError)
      else
        var d := DateTime(vs[0], vs[1], vs[2], vs[3], vs[4], vs[5]);
        if Valid(d) then Ok(d) else Err(ValueError)
  }

  function Pad4(n: nat): (s: string)
    requires n < 10000
    ensures |s| == 4 && AllDigits(s)
  {
    [DigitChar(n / 1000), DigitChar(n / 100 % 10), DigitChar(n / 10 % 10), DigitChar(n % 10)]
  }

  lemma Pad4Value(n: nat)
    requires n < 10000
    ensures DigitValue(Pad4(n)[0]) * 1000 + DigitValue(Pad4(n)[1]) * 100 + DigitValue(Pad4(n)[2]) * 10 + DigitValue(Pad4(n)[3]) == n
  {
    var a, b, c := n / 1000, n / 100, n / 10;
    assert n == 10 * c + n % 10;
    assert c == 10 * b + c % 10 by { assert c == 10 * (c / 10) + c % 10; assert c / 10 == b; }
    assert b == 10 * a + b % 10 by { assert b == 10 * (b / 10) + b % 10; assert b / 10 == a; }
  }

  predicate FieldFits(f: Field, v: nat)
  {
    match f
    case YearField => v < 10000
    case NumField(lo, hi, _) => lo <= v <= hi && v < 100
  }

  /** A field written zero-padded to its full width. */
  function FieldText(f: Field, v: nat): (s: string)
    requires FieldFits(f, v)
    ensures |s| == FieldWidth(f)
  {
    match f
    case YearField => Pad4(v)
    case NumField(_, _, _) => TwoDigits(v)
  }

  predicate AllFit(vs: seq<nat>, pat: seq<Directive>)
  {
    |vs| == |pat| && forall i :: 0 <= i < |pat| ==> FieldFits(pat[i].field, vs[i])
  }

  /** `strftime` with every field zero-padded. */
  function Spell(vs: seq<nat>, pat: seq<Directive>): string
    requires AllFit(vs, pat)
  {
    if pat == [] then "" else pat[0].prefix + FieldText(pat[0].field, vs[0]) + Spell(vs[1..], pat[1..])
  }

  function Fields(d: DateTime): seq<nat>
    requires Valid(d)
  {
    [d.year, d.month, d.day, d.hour, d.minute, d.second]
  }

  /** The canonical, zero-padded spelling of a datetime in a stamp format. */
  function Render(d: DateTime, dateSep: string, timeSep: string): string
    requires Valid(d)
  {
    Spell(Fields(d), StampFormat(dateSep, timeSep))
  }

  lemma FieldRead(s: string, i: nat, f: Field, v: nat)
    requires FieldFits(f, v) && PrefixAt(s, i, FieldText(f, v))
    ensures MatchField(s, i, f) == Some((v, |FieldText(f, v)|))
  {
    var t := FieldText(f, v);
    if f.YearField? {
      Pad4Value(v);
    } else {
      assert DigitsValue(t) == v;
      assert t[..1][..0] == [];
      assert DigitsValue(t) == DigitsValue(t[..1]) * 10 + DigitValue(t[1]);
    }
  }

  lemma SliceConcat(s: string, i: nat, a: string, b: string)
    requires PrefixAt(s, i, a + b)
    ensures PrefixAt(s, i, a) && PrefixAt(s, i + |a|, b)
  {
    var ab := s[i..i + |a| + |b|];
    assert s[i..i + |a|] == ab[..|a|] == (a + b)[..|a|] == a;
    assert s[i + |a|..i + |a| + |b|] == ab[|a|..] == (a + b)[|a|..] == b;
  }

  lemma SpellCons(vs: seq<nat>, pat: seq<Directive>)
    requires AllFit(vs, pat) && pat != []
    ensures AllFit(vs[1..], pat[1..])
    ensures Spell(vs, pat) == pat[0].prefix + (FieldText(pat[0].field, vs[0]) + Spell(vs[1..], pat[1..]))
  {
    assert forall k :: 0 <= k < |pat| - 1 ==> pat[1..][k] == pat[k + 1] && vs[1..][k] == vs[k + 1];
  }

  lemma AllFitTail(vs: seq<nat>, pat: seq<Directive>)
    requires AllFit(vs, pat) && pat != []
    ensures AllFit(vs[1..], pat[1..]) && FieldFits(pat[0].field, vs[0])
  {
    assert forall k :: 0 <= k < |pat| - 1 ==> pat[1..][k] == pat[k + 1] && vs[1..][k] == vs[k + 1];
  }

  /** One step of the matcher: the prefix, then the field, then the rest. */
  lemma MatchStep(s: string, i: nat, pat: seq<Directive>, vs: seq<nat>, w: nat, k: nat)
    requires pat != [] && |vs| == |pat| && PrefixAt(s, i, pat[0].prefix)
    requires MatchField(s, i + |pat[0].prefix|, pat[0].field) == Some((vs[0], w)) && w == FieldWidth(pat[0].field)
    requires k == i + |pat[0].prefix| + w && k <= |s|
    requires MatchFormat(s, k, pat[1..]) == Some((vs[1..], k + Width(pat[1..])))
    ensures MatchFormat(s, i, pat) == Some((vs, i + Width(pat)))
  {
    assert [vs[0]] + vs[1..] == vs;
  }

  function FieldWidth(f: Field): nat
  {
    if f.YearField? then 4 else 2
  }

  /** The length of a spelled format, which does not depend on the values. */
  function Width(pat: seq<Directive>): nat
  {
    if pat == [] then 0 else |pat[0].prefix| + FieldWidth(pat[0].field) + Width(pat[1..])
  }

  lemma {:induction false} SpellWidth(vs: seq<nat>, pat: seq<Directive>)
    requires AllFit(vs, pat)
    ensures |Spell(vs, pat)| == Width(pat)
    decreases |pat|
  {
    if pat != [] {
      SpellCons(vs, pat);
      SpellWidth(vs[1..], pat[1..]);
    }
  }

  /** A spelled format at index `i`: the first prefix, the first field, which
      the matcher reads back at its full width, then the spelling of the rest. */
  lemma SpellSplit(s: string, i: nat, vs: seq<nat>, pat: seq<Directive>)
    requires AllFit(vs, pat) && pat != [] && PrefixAt(s, i, Spell(vs, pat))
    ensures AllFit(vs[1..], pat[1..])
    ensures PrefixAt(s, i, pat[0].prefix) && i + |pat[0].prefix| + FieldWidth(pat[0].field) <= |s|
    ensures MatchField(s, i + |pat[0].prefix|, pat[0].field) == Some((vs[0], FieldWidth(pat[0].field)))
    ensures PrefixAt(s, i + |pat[0].prefix| + FieldWidth(pat[0].field), Spell(vs[1..], pat[1..]))
  {
    AllFitTail(vs, pat);
    var p, t, more := pat[0].prefix, FieldText(pat[0].field, vs[0]), Spell(vs[1..], pat[1..]);
    assert PrefixAt(s, i, p + (t + more)) by {
      SpellCons(vs, pat);
    }
    SliceConcat(s, i, p, t + more);
    SliceConcat(s, i + |p|, t, more);
    FieldRead(s, i + |p|, pat[0].field, vs[0]);
  }

  /** The matcher reads back what `Spell` writes, whatever follows it. */
  lemma {:induction false} MatchSpell(s: string, i: nat, vs: seq<nat>, pat: seq<Directive>)
    requires AllFit(vs, pat) && PrefixAt(s, i, Spell(vs, pat))
    ensures MatchFormat(s, i, pat) == Some((vs, i + Width(pat)))
    decreases |pat|
  {
    if pat == [] {
      assert vs == [];
    } else {
      var w := FieldWidth(pat[0].field);
      var k := i + |pat[0].prefix| + w;
      SpellSplit(s, i, vs, pat);
      MatchSpell(s, k, vs[1..], pat[1..]);
      MatchStep(s, i, pat, vs, w, k);
    }
  }

  /** Every valid datetime, written zero-padded, is parsed back to itself:
      the parser recognises all the stamps the printer writes. */
  lemma StrptimeRender(d: DateTime, dateSep: string, timeSep: string)
    requires Valid(d)
    ensures Strptime(Render(d, dateSep, timeSep), dateSep, timeSep) == Ok(d)
  {
    var r := Render(d, dateSep, timeSep);
    assert r[0..|r|] == r;
    SpellWidth(Fields(d), StampFormat(dateSep, timeSep));
    MatchSpell(r, 0, Fields(d), StampFormat(dateSep, timeSep));
  }

  // ---------------------------------------------------------------------------
  // The stamp search in time-estimation files

  /** One character of the stamp pattern: `D` is any digit, `2` and `6` a
      digit up to that one, and any other character stands for itself. */
  predicate CharFits(c: char, p: char)
  {
    if p == 'D' then IsDigit(c) else if p == '2' || p == '6' then '0' <= c <= p else c == p
  }

  /** `s` holds a string of the pattern `shape` at index `i`. */
  predicate ShapeAt(s: string, i: nat, shape: string)
    decreases |shape|
  {
    i + |shape| <= |s| && (shape == [] || (CharFits(s[i], shape[0]) && ShapeAt(s, i + 1, shape[1..])))
  }

  /** `\d{4}-\d{2}-\d{2} [0-2]\d:[0-6]\d:[0-6]\d` */
  const StampShape: string := "DDDD-DD-DD 2D:6D:6D"

  /** The stamp pattern at index `i`. */
  predicate StampAt(s: string, i: nat)
  {
    ShapeAt(s, i, StampShape)
  }

  /** `re.search` of that pattern: the leftmost index where it occurs. */
  function SearchStamp(s: string, from: nat): (r: Option<nat>)
    requires from <= |s|
    ensures r.Some? ==> from <= r.value && StampAt(s, r.value)
    ensures r.Some? ==> forall j :: from <= j < r.value ==> !StampAt(s, j)
    ensures r.None? ==> forall j :: from <= j <= |s| ==> !StampAt(s, j)
    decreases |s| - from
  {
    if from + |StampShape| > |s| then None
    else if StampAt(s, from) then Some(from)
    else SearchStamp(s, from + 1)
  }

  /** The matched stamp itself, `line[m.start():m.end()]`. */
  function FoundStamp(s: string): Option<string>
  {
    match SearchStamp(s, 0)
    case Some(i) => Some(s[i..i + |StampShape|])
    case None => None
  }
}
