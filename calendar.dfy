/**
 * Calendar dates and clock readings in the bot's fixed reference zone
 * (Europe/Moscow), with the day arithmetic of Python's `date + timedelta`
 * and the two textual forms the cache uses: ISO `YYYY-MM-DD` and `DD.MM.YYYY`.
 */
module Calendar {
  import opened Wrappers
  import opened Text

  datatype Date = Date(year: int, month: int, day: int)

  /** Python's date.max.year. */
  const MaxYear := 9999

  predicate IsLeapYear(y: int) {
    y % 4 == 0 && (y % 100 != 0 || y % 400 == 0)
  }

  function DaysInMonth(y: int, m: int): int {
    if m == 2 then (if IsLeapYear(y) then 29 else 28)
    else if m == 4 || m == 6 || m == 9 || m == 11 then 30
    else 31
  }

  /** A proleptic Gregorian date that Python's `date` can represent. */
  predicate ValidDate(d: Date) {
    1 <= d.year <= MaxYear && 1 <= d.month <= 12 && 1 <= d.day <= DaysInMonth(d.year, d.month)
  }

  /** Chronological order of dates. */
  predicate Before(a: Date, b: Date) {
    || a.year < b.year
    || (a.year == b.year && a.month < b.month)
    || (a.year == b.year && a.month == b.month && a.day < b.day)
  }

  /** A date that has a successor (Python raises OverflowError past date.max). */
  predicate HasNextDay(d: Date) {
    ValidDate(d) && d != Date(MaxYear, 12, 31)
  }

  /** d + timedelta(days=1). */
  function NextDay(d: Date): (r: Date)
    requires HasNextDay(d)
    ensures ValidDate(r) && Before(d, r)
  {
    if d.day < DaysInMonth(d.year, d.month) then d.(day := d.day + 1)
    else if d.month < 12 then Date(d.year, d.month + 1, 1)
    else Date(d.year + 1, 1, 1)
  }

  /** NextDay is the immediate successor: no valid date lies strictly between d and NextDay(d). */
  lemma NextDayIsSuccessor(d: Date, e: Date)
    requires HasNextDay(d) && ValidDate(e) && Before(d, e)
    ensures e == NextDay(d) || Before(NextDay(d), e)
  {
  }

  /** A clock reading in the reference zone, to whole seconds. */
  datatype Moment = Moment(date: Date, hour: int, minute: int, second: int)

  predicate ValidMoment(m: Moment) {
    ValidDate(m.date) && 0 <= m.hour < 24 && 0 <= m.minute < 60 && 0 <= m.second < 60
  }

  /**
   * A reading the refresh logic can work with: it looks two days ahead, so
   * the date must not be in the last representable year.
   */
  predicate ClockInRange(m: Moment) {
    ValidMoment(m) && m.date.year < MaxYear
  }

  function SecondOfDay(m: Moment): int {
    m.hour * 3600 + m.minute * 60 + m.second
  }

  /** f"{n:04d}" for 0 <= n < 10000. */
  function Pad4(n: nat): (r: string)
    requires n < 10000
    ensures |r| == 4 && AllDigits(r)
  {
    [DigitChar(n / 1000), DigitChar(n / 100 % 10), DigitChar(n / 10 % 10), DigitChar(n % 10)]
  }

  /** date.isoformat(). */
  function IsoDate(d: Date): (r: string)
    requires ValidDate(d)
    ensures |r| == 10
  {
    Pad4(d.year) + "-" + Pad2(d.month) + "-" + Pad2(d.day)
  }

  /** date.fromisoformat(s) in its `YYYY-MM-DD` form; None where Python raises ValueError. */
  function ParseIsoDate(s: string): (r: Option<Date>)
    ensures r.Some? ==> ValidDate(r.value)
  {
    if |s| == 10 && s[4] == '-' && s[7] == '-'
       && AllDigits(s[..4]) && AllDigits(s[5..7]) && AllDigits(s[8..])
    then
      var d := Date(DigitsValue(s[..4]), DigitsValue(s[5..7]), DigitsValue(s[8..]));
      if ValidDate(d) then Some(d) else None
    else None
  }

  lemma FourDigits(t: string)
    requires |t| == 4 && AllDigits(t)
    ensures DigitsValue(t) == 1000 * DigitValue(t[0]) + 100 * DigitValue(t[1]) + 10 * DigitValue(t[2]) + DigitValue(t[3])
  {
    var t3, t2, t1 := t[..3], t[..2], t[..1];
    assert t3[..2] == t2 && t2[..1] == t1 && t1[..0] == [];
    assert DigitsValue(t1) == DigitValue(t[0]);
    assert DigitsValue(t2) == DigitsValue(t1) * 10 + DigitValue(t[1]);
    assert DigitsValue(t3) == DigitsValue(t2) * 10 + DigitValue(t[2]);
    assert DigitsValue(t) == DigitsValue(t3) * 10 + DigitValue(t[3]);
  }

  lemma TwoDigits(t: string)
    requires |t| == 2 && AllDigits(t)
    ensures DigitsValue(t) == 10 * DigitValue(t[0]) + DigitValue(t[1])
  {
    var t1 := t[..1];
    assert t1[..0] == [];
    assert DigitsValue(t1) == DigitValue(t[0]);
    assert DigitsValue(t) == DigitsValue(t1) * 10 + DigitValue(t[1]);
  }

  /** Division by a constant base, stated by quotient and remainder. */
  lemma DivMod10(x: int, q: int, r: int)
    requires 0 <= r < 10 && x == 10 * q + r
    ensures x / 10 == q && x % 10 == r
  {
  }

  lemma DivMod100(x: int, q: int, r: int)
    requires 0 <= r < 100 && x == 100 * q + r
    ensures x / 100 == q
  {
  }

  lemma DivMod1000(x: int, q: int, r: int)
    requires 0 <= r < 1000 && x == 1000 * q + r
    ensures x / 1000 == q
  {
  }

  lemma Pad4Value(n: nat)
    requires n < 10000
    ensures DigitsValue(Pad4(n)) == n
  {
    var t := Pad4(n);
    FourDigits(t);
    var q1, q2, q3 := n / 10, n / 100, n / 1000;
    assert q2 == q1 / 10 && q3 == q2 / 10;
    assert n == 10 * q1 + n % 10;
    assert q1 == 10 * q2 + q1 % 10;
    assert q2 == 10 * q3 + q2 % 10;
    assert DigitValue(t[0]) == q3 && DigitValue(t[1]) == q2 % 10;
    assert DigitValue(t[2]) == q1 % 10 && DigitValue(t[3]) == n % 10;
  }

  lemma DigitCharValue(c: char)
    requires IsDigit(c)
    ensures DigitChar(DigitValue(c)) == c
  {
  }

  lemma Pad4OfValue(t: string)
    requires |t| == 4 && AllDigits(t)
    ensures DigitsValue(t) < 10000 && Pad4(DigitsValue(t)) == t
  {
    FourDigits(t);
    var a, b, c, e := DigitValue(t[0]), DigitValue(t[1]), DigitValue(t[2]), DigitValue(t[3]);
    var n := DigitsValue(t);
    assert n == 1000 * a + 100 * b + 10 * c + e;
    DivMod10(n, 100 * a + 10 * b + c, e);
    DivMod10(100 * a + 10 * b + c, 10 * a + b, c);
    DivMod100(n, 10 * a + b, 10 * c + e);
    DivMod10(10 * a + b, a, b);
    DivMod1000(n, a, 100 * b + 10 * c + e);
    DigitCharValue(t[0]);
    DigitCharValue(t[1]);
    DigitCharValue(t[2]);
    DigitCharValue(t[3]);
  }

  lemma Pad2OfValue(t: string)
    requires |t| == 2 && AllDigits(t)
    ensures DigitsValue(t) < 100 && Pad2(DigitsValue(t)) == t
  {
    TwoDigits(t);
    DigitCharValue(t[0]);
    DigitCharValue(t[1]);
  }

  /** date.fromisoformat(d.isoformat()) == d. */
  lemma IsoDateRoundTrip(d: Date)
    requires ValidDate(d)
    ensures ParseIsoDate(IsoDate(d)) == Some(d)
  {
    var s := IsoDate(d);
    assert s[..4] == Pad4(d.year);
    assert s[5..7] == Pad2(d.month);
    assert s[8..] == Pad2(d.day);
    Pad4Value(d.year);
  }

  /** The only string fromisoformat maps to d is d.isoformat(). */
  lemma ParseIsoDateCanonical(s: string, d: Date)
    requires ParseIsoDate(s) == Some(d)
    ensures IsoDate(d) == s
  {
    Pad4OfValue(s[..4]);
    Pad2OfValue(s[5..7]);
    Pad2OfValue(s[8..]);
    assert s == s[..4] + "-" + s[5..7] + "-" + s[8..];
  }

  /** date.strftime('%d.%m.%Y'). */
  function DisplayDate(d: Date): string
    requires ValidDate(d)
  {
    Pad2(d.day) + "." + Pad2(d.month) + "." + Pad4(d.year)
  }
}
