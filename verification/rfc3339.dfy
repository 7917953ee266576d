/** Instants as text: time.Time.Format and time.Parse with the layout RFC3339. */
module Rfc3339 {
  import opened Wrappers
  import opened Decimal
  import opened Calendar

  /** Days of a common year before the first of each month, and of the next year. */
  const MONTH_STARTS: seq<int> := [0, 31, 59, 90, 120, 151, 181, 212, 243, 273, 304, 334, 365]

  function MonthStart(month: int, leap: bool): int
    requires 1 <= month <= 13
  {
    MONTH_STARTS[month - 1] + (if leap && month > 2 then 1 else 0)
  }

  function MonthUp(yday: int, leap: bool, month: int): (m: int)
    requires 1 <= month <= 12 && MonthStart(month, leap) <= yday < (if leap then 366 else 365)
    ensures 1 <= m <= 12 && MonthStart(m, leap) <= yday < MonthStart(m + 1, leap)
    decreases 13 - month
  {
    if month == 12 || yday < MonthStart(month + 1, leap) then month else MonthUp(yday, leap, month + 1)
  }

  /** A civil date and time of day, to the second. */
  datatype Civil = Civil(year: int, month: int, day: int, hour: int, minute: int, second: int) {
    predicate Valid() {
      && 1 <= month <= 12
      && 1 <= day <= MonthStart(month + 1, Leap(year)) - MonthStart(month, Leap(year))
      && 0 <= hour < 24 && 0 <= minute < 60 && 0 <= second < 60
    }

    function ToInstant(): Instant
      requires Valid()
    {
      (YearStart(year) + MonthStart(month, Leap(year)) + day - 1) * DAY
      + (hour * 3600 + minute * 60 + second) * SECOND
    }
  }

  /** Thirty days have April, June, September and November, February has 28 or 29, and
      the rest have 31; the twelve are the year. */
  lemma MonthLength(month: int, leap: bool)
    requires 1 <= month <= 12
    ensures MonthStart(month + 1, leap) - MonthStart(month, leap)
      == if month == 2 then (if leap then 29 else 28) else if month in {4, 6, 9, 11} then 30 else 31
    ensures MonthStart(1, leap) == 0 && MonthStart(13, leap) == if leap then 366 else 365
  {
  }

  /** The year, month and day of month of a day. */
  function DateOf(day: int): (d: (int, int, int))
    ensures d.0 == YearOf(day) && 1 <= d.1 <= 12
    ensures 1 <= d.2 <= MonthStart(d.1 + 1, Leap(d.0)) - MonthStart(d.1, Leap(d.0)) <= 31
    ensures YearStart(d.0) + MonthStart(d.1, Leap(d.0)) + d.2 - 1 == day
  {
    var year := YearOf(day);
    YearStartNext(year);
    var yday := day - YearStart(year);
    MonthLength(1, Leap(year));
    var month := MonthUp(yday, Leap(year), 1);
    MonthLength(month, Leap(year));
    (year, month, yday - MonthStart(month, Leap(year)) + 1)
  }

  function CivilOf(t: Instant): (c: Civil)
    ensures c.Valid() && c.day <= 31
  {
    var (year, month, day) := DateOf(t / DAY);
    var sod := t % DAY / SECOND;
    TimeOfDay(t);
    Civil(year, month, day, sod / 3600, sod % 3600 / 60, sod % 60)
  }

  lemma TimeOfDay(t: Instant)
    ensures 0 <= t % DAY / SECOND < 86400
    ensures t % SECOND == 0 ==> t == (t / DAY) * DAY + (t % DAY / SECOND) * SECOND
  {
    assert t == (t / DAY) * DAY + t % DAY;
    if t % SECOND == 0 {
      assert (t % DAY) % SECOND == 0;
    }
  }

  lemma CivilReadBack(t: Instant)
    requires t % SECOND == 0
    ensures CivilOf(t).ToInstant() == t
  {
    TimeOfDay(t);
    Sexagesimal(t % DAY / SECOND);
    hide YearStart, MonthStart, DateOf;
    var (year, month, day) := DateOf(t / DAY);
    assert (YearStart(year) + MonthStart(month, Leap(year)) + day - 1) * DAY == t / DAY * DAY;
  }

  lemma Sexagesimal(sod: int)
    ensures sod / 3600 * 3600 + sod % 3600 / 60 * 60 + sod % 60 == sod
  {
    var (hour, rest) := (sod / 3600, sod % 3600);
    MinuteRest(sod, 60 * hour + rest / 60, rest % 60);
  }

  lemma MinuteRest(sod: int, minutes: int, rest: int)
    requires sod == 60 * minutes + rest && 0 <= rest < 60
    ensures sod % 60 == rest
  {
  }

  function FourDigits(n: int): (s: string)
    requires 0 <= n < 10000
    ensures |s| == 4
  {
    TwoDigits(n / 100) + TwoDigits(n % 100)
  }

  /** A year, at least four digits wide. */
  function YearText(year: int): string {
    if 0 <= year < 10000 then FourDigits(year)
    else if year >= 0 then Digits(year)
    else if year > -10000 then "-" + FourDigits(-year)
    else "-" + Digits(Abs(year))
  }

  /** The layout 2006-01-02T15:04:05Z. */
  function Layout(year: string, month: string, day: string, hour: string, minute: string, second: string): string {
    year + "-" + month + "-" + day + "T" + hour + ":" + minute + ":" + second + "Z"
  }

  /** t.UTC().Format(time.RFC3339). */
  function FormatTime(t: Instant): string {
    var c := CivilOf(t);
    Layout(YearText(c.year), TwoDigits(c.month), TwoDigits(c.day),
           TwoDigits(c.hour), TwoDigits(c.minute), TwoDigits(c.second))
  }

  function Number2(s: string, i: nat): Option<int> {
    if i + 1 < |s| && IsDigit(s[i]) && IsDigit(s[i + 1])
    then Some(10 * DigitValue(s[i]) + DigitValue(s[i + 1])) else None
  }

  /** The run of digits at the front of s. */
  function LeadingDigits(s: string): (n: nat)
    ensures n <= |s| && AllDigits(s[..n])
  {
    if s == [] || !IsDigit(s[0]) then 0 else 1 + LeadingDigits(s[1..])
  }

  /** The nanoseconds a fraction adds, and the text after it. Nine digits count. */
  function Fraction(s: string): (int, string) {
    var n := if |s| > 0 && (s[0] == '.' || s[0] == ',') then LeadingDigits(s[1..]) else 0;
    if n == 0 then (0, s)
    else
      var used := if n > 9 then 9 else n;
      (Value(s[1..][..used]) * Pow10(9 - used), s[1 + n..])
  }

  /** The offset from UTC in seconds. */
  function Zone(s: string): Option<int> {
    if s == "Z" then Some(0)
    else if |s| == 6 && (s[0] == '+' || s[0] == '-') && s[3] == ':' then
      match (Number2(s, 1), Number2(s, 4))
      case (Some(h), Some(m)) =>
        if h <= 24 && m <= 60 then Some((if s[0] == '-' then -1 else 1) * (h * 3600 + m * 60)) else None
      case _ => None
    else None
  }

  /** The nineteen characters before the fraction. */
  function ParseCivil(s: string): Option<Civil>
    requires |s| >= 19
  {
    if s[4] == '-' && s[7] == '-' && s[10] == 'T' && s[13] == ':' && s[16] == ':' then
      match (Number2(s, 0), Number2(s, 2), Number2(s, 5), Number2(s, 8), Number2(s, 11), Number2(s, 14), Number2(s, 17))
      case (Some(c), Some(y), Some(mo), Some(d), Some(h), Some(mi), Some(sec)) =>
        var civil := Civil(c * 100 + y, mo, d, h, mi, sec);
        if civil.Valid() then Some(civil) else None
      case _ => None
    else None
  }

  /** time.Parse(time.RFC3339, s), then UTC. */
  function ParseTime(s: string): Option<Instant> {
    if |s| < 20 then None
    else
      match ParseCivil(s)
      case None => None
      case Some(civil) =>
        var (nanos, zone) := Fraction(s[19..]);
        match Zone(zone)
        case None => None
        case Some(offset) => Some(civil.ToInstant() + nanos - offset * SECOND)
  }

  /** The week of 7 September 2026 is the 37th, and its partition is named so. */
  lemma NameOfAWeek()
    ensures PartitionName(Civil(2026, 9, 7, 0, 0, 0).ToInstant()) == "events_w2026_37"
  {
    var c := Civil(2026, 9, 7, 0, 0, 0);
    YearStartIs(2026);
    YearStartIs(2027);
    hide YearStart;
    var day := YearStart(2026) + 249;
    assert c.ToInstant() == day * DAY && day * DAY / DAY == day;
    YearOfIs(day + 3, 2026);
    assert IsoWeek(day * DAY) == (2026, 37);
    hide IsoWeek;
    assert Itoa(2026) == "2026" && TwoDigits(37) == "37";
  }

  /** Times of section 5.6 of RFC 3339: a year of four digits. */
  predicate Printable(t: Instant) {
    t % SECOND == 0 && 0 <= YearOf(t / DAY) <= 9999
  }

  lemma LayoutAt(year: string, month: string, day: string, hour: string, minute: string, second: string)
    requires |year| == 4 && |month| == |day| == |hour| == |minute| == |second| == 2
    ensures var s := Layout(year, month, day, hour, minute, second);
      && |s| == 20 && s[4] == s[7] == '-' && s[10] == 'T' && s[13] == s[16] == ':' && s[19..] == "Z"
      && s[0] == year[0] && s[1] == year[1] && s[2] == year[2] && s[3] == year[3]
      && s[5] == month[0] && s[6] == month[1] && s[8] == day[0] && s[9] == day[1]
      && s[11] == hour[0] && s[12] == hour[1] && s[14] == minute[0] && s[15] == minute[1]
      && s[17] == second[0] && s[18] == second[1]
  {
  }

  lemma Number2Reads(s: string, i: nat, n: int)
    requires 0 <= n < 100 && i + 1 < |s| && s[i] == TwoDigits(n)[0] && s[i + 1] == TwoDigits(n)[1]
    ensures Number2(s, i) == Some(n)
  {
  }

  lemma FormatParts(c: Civil)
    requires c.Valid() && 0 <= c.year <= 9999
    ensures var s := Layout(FourDigits(c.year), TwoDigits(c.month), TwoDigits(c.day),
                            TwoDigits(c.hour), TwoDigits(c.minute), TwoDigits(c.second));
      |s| == 20 && s[19..] == "Z" && ParseCivil(s) == Some(c)
  {
    hide TwoDigits, Number2, Layout;
    var y := FourDigits(c.year);
    var s := Layout(y, TwoDigits(c.month), TwoDigits(c.day),
                    TwoDigits(c.hour), TwoDigits(c.minute), TwoDigits(c.second));
    LayoutAt(y, TwoDigits(c.month), TwoDigits(c.day), TwoDigits(c.hour), TwoDigits(c.minute), TwoDigits(c.second));
    Number2Reads(s, 0, c.year / 100);
    Number2Reads(s, 2, c.year % 100);
    Number2Reads(s, 5, c.month);
    Number2Reads(s, 8, c.day);
    Number2Reads(s, 11, c.hour);
    Number2Reads(s, 14, c.minute);
    Number2Reads(s, 17, c.second);
  }

  lemma ParseCivilReads(s: string, t: string)
    requires |s| >= 19 && |t| >= 19 && s[..19] == t[..19]
    ensures ParseCivil(s) == ParseCivil(t)
  {
    assert forall i | 0 <= i < 19 :: s[i] == s[..19][i] && t[i] == t[..19][i];
    hide Number2;
    forall i: nat | i < 18 ensures Number2(s, i) == Number2(t, i) {
      Number2Same(s, t, i);
    }
  }

  lemma Number2Same(s: string, t: string, i: nat)
    requires i + 1 < |s| && i + 1 < |t| && s[i] == t[i] && s[i + 1] == t[i + 1]
    ensures Number2(s, i) == Number2(t, i)
  {
  }

  /** The first nineteen characters of a printed time. */
  function Stem(c: Civil): (s: string)
    requires c.Valid() && 0 <= c.year <= 9999
    ensures |s| == 19
  {
    FourDigits(c.year) + "-" + TwoDigits(c.month) + "-" + TwoDigits(c.day)
    + "T" + TwoDigits(c.hour) + ":" + TwoDigits(c.minute) + ":" + TwoDigits(c.second)
  }

  lemma StemReads(c: Civil, rest: string)
    requires c.Valid() && 0 <= c.year <= 9999
    ensures ParseCivil(Stem(c) + rest) == Some(c)
  {
    hide FourDigits, TwoDigits, ParseCivil;
    var s := Layout(FourDigits(c.year), TwoDigits(c.month), TwoDigits(c.day),
                    TwoDigits(c.hour), TwoDigits(c.minute), TwoDigits(c.second));
    FormatParts(c);
    assert s == Stem(c) + "Z";
    ParseCivilReads(s, Stem(c) + rest);
  }

  /** A time under an offset is that much earlier in UTC east of it, and later west. */
  lemma OffsetsShift(c: Civil, east: bool, hours: nat, minutes: nat)
    requires c.Valid() && 0 <= c.year <= 9999 && hours <= 24 && minutes <= 60
    ensures var offset := (if east then "+" else "-") + TwoDigits(hours) + ":" + TwoDigits(minutes);
      ParseTime(Stem(c) + offset)
      == Some(c.ToInstant() + (if east then -1 else 1) * (60 * hours + minutes) * MINUTE)
  {
    hide TwoDigits, Stem, ParseCivil;
    var offset := (if east then "+" else "-") + TwoDigits(hours) + ":" + TwoDigits(minutes);
    StemReads(c, offset);
    assert (Stem(c) + offset)[19..] == offset;
    Number2Reads(offset, 1, hours);
    Number2Reads(offset, 4, minutes);
    assert offset[0] == if east then '+' else '-';
    assert Fraction(offset) == (0, offset);
    assert Zone(offset) == Some((if east then 1 else -1) * (hours * 3600 + minutes * 60));
  }

  /** A fraction of up to nine digits counts nanoseconds. */
  lemma FractionsCount(c: Civil, ds: string)
    requires c.Valid() && 0 <= c.year <= 9999 && AllDigits(ds) && 1 <= |ds| <= 9
    ensures ParseTime(Stem(c) + "." + ds + "Z") == Some(c.ToInstant() + Value(ds) * Pow10(9 - |ds|))
  {
    hide Stem, ParseCivil, Fraction, AllDigits, Value, Pow10;
    var rest := "." + ds + "Z";
    assert Stem(c) + "." + ds + "Z" == Stem(c) + rest;
    StemReads(c, rest);
    assert (Stem(c) + rest)[19..] == rest;
    FractionReads(ds);
  }

  lemma FractionReads(ds: string)
    requires AllDigits(ds) && 1 <= |ds| <= 9
    ensures Fraction("." + ds + "Z") == (Value(ds) * Pow10(9 - |ds|), "Z")
  {
    hide *;
    var rest := "." + ds + "Z";
    assert rest[0] == '.' && rest[1..] == ds + "Z";
    assert rest[1..][..|ds|] == ds && rest[1 + |ds|..] == "Z";
    NoDigit("Z");
    DigitsLead(ds, "Z");
    FractionOf(rest, |ds|);
  }

  lemma NoDigit(s: string)
    requires s == "Z"
    ensures !IsDigit(s[0])
  {
  }

  lemma FractionOf(s: string, n: nat)
    requires s != [] && s[0] == '.' && n == LeadingDigits(s[1..]) && 1 <= n <= 9
    ensures Fraction(s) == (Value(s[1..][..n]) * Pow10(9 - n), s[1 + n..])
  {
    hide Value, Pow10, LeadingDigits;
  }

  lemma {:induction false} DigitsLead(ds: string, rest: string)
    requires AllDigits(ds) && (rest == [] || !IsDigit(rest[0]))
    ensures LeadingDigits(ds + rest) == |ds|
  {
    if ds == [] {
      assert ds + rest == rest;
    } else {
      assert (ds + rest)[1..] == ds[1..] + rest && (ds + rest)[0] == ds[0];
      DigitsLead(ds[1..], rest);
    }
  }

  /** Printing and parsing a whole second gives that second back. */
  lemma TimeReadsBack(t: Instant)
    requires Printable(t)
    ensures ParseTime(FormatTime(t)) == Some(t)
  {
    hide ParseCivil, Layout;
    FormatParts(CivilOf(t));
    CivilReadBack(t);
  }
}
