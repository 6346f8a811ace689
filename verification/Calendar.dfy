/** The daylight-saving fallback of the time tool (zen_claw/agent/intent_router_parsers.py). Instants
    are microseconds in UTC; days are proleptic Gregorian ordinals. */
module Calendar {
  import opened Options

  const SUNDAY := 6

  predicate Leap(year: int) {
    year % 4 == 0 && (year % 100 != 0 || year % 400 == 0)
  }

  function MonthLength(year: int, month: int): (n: int)
    requires 1 <= month <= 12
    ensures 28 <= n <= 31 && (n < 30 <==> month == 2) && (n == 30 <==> month in {4, 6, 9, 11})
  {
    if month == 2 then (if Leap(year) then 29 else 28)
    else if month == 4 || month == 6 || month == 9 || month == 11 then 30
    else 31
  }

  function DaysBefore(year: int, month: int): int
    requires 1 <= month <= 12
  {
    if month == 1 then 0 else DaysBefore(year, month - 1) + MonthLength(year, month - 1)
  }

  /** Days since 31 December of year 0. */
  function Ordinal(year: int, month: int, day: int): int
    requires 1 <= month <= 12
  {
    365 * (year - 1) + (year - 1) / 4 - (year - 1) / 100 + (year - 1) / 400 + DaysBefore(year, month) + day
  }

  /** Monday is 0; ordinal 1 is a Monday. */
  function Weekday(ordinal: int): (w: int)
    ensures 0 <= w < 7
  {
    (ordinal + 6) % 7
  }

  /** Microseconds, the resolution of the library's timestamps. */
  const HOUR := 3600 * 1000000

  function Instant(ordinal: int, hour: int): int {
    HOUR * (24 * ordinal + hour)
  }

  /** Days from a day to the next given weekday, none if it is one. */
  function DaysUntil(ordinal: int, weekday: int): (k: int)
    requires 0 <= weekday < 7
    ensures 0 <= k < 7 && Weekday(ordinal + k) == weekday
  {
    (weekday - Weekday(ordinal)) % 7
  }

  /** Days from the first of the month to the first given weekday in it. */
  function FirstOffset(year: int, month: int, weekday: int): (k: int)
    requires 1 <= month <= 12 && 0 <= weekday < 7
    ensures 0 <= k < 7 && Weekday(Ordinal(year, month, 1) + k) == weekday
  {
    DaysUntil(Ordinal(year, month, 1), weekday)
  }

  /** Closed form of the n-th weekday of a month. */
  function NthDay(year: int, month: int, weekday: int, occurrence: int): int
    requires 1 <= month <= 12 && 0 <= weekday < 7
  {
    1 + FirstOffset(year, month, weekday) + 7 * (occurrence - 1)
  }

  /** How many of the days before `day` fall on the weekday whose first occurrence is `first` days in. */
  function Hits(first: int, day: int): int {
    if day - 1 <= first then 0 else 1 + (day - 2 - first) / 7
  }

  lemma HitsStep(first: int, day: int)
    requires 0 <= first < 7 && day >= 1
    ensures Hits(first, day + 1) == Hits(first, day) + (if (day - 1 - first) % 7 == 0 then 1 else 0)
  {
  }

  lemma WeekdayOf(year: int, month: int, weekday: int, day: int)
    requires 1 <= month <= 12 && 0 <= weekday < 7
    ensures Weekday(Ordinal(year, month, day)) == weekday <==> (day - 1 - FirstOffset(year, month, weekday)) % 7 == 0
  {
    hide Ordinal;
    DayOf(year, month, day);
    DayOf(year, month, 1 + FirstOffset(year, month, weekday));
  }

  /** `_nth_weekday_utc` scans the days of the month and equals its closed form; constructing a day
      past the end of the month raises (`None`), which the first four occurrences never reach. */
  method NthWeekdayUtc(year: int, month: int, weekday: int, occurrence: int, hourUtc: int, dayOffset: int)
    returns (at: Option<int>)
    requires 1 <= month <= 12 && 0 <= weekday < 7
    ensures at == var day := NthDay(year, month, weekday, occurrence);
                  if occurrence >= 1 && day <= MonthLength(year, month)
                  then Some(Instant(Ordinal(year, month, day) + dayOffset, hourUtc)) else None
    ensures 1 <= occurrence <= 4 ==> at.Some?
  {
    hide Ordinal, Weekday;
    var day, hits := 1, 0;
    ghost var first := FirstOffset(year, month, weekday);
    while day <= MonthLength(year, month)
      invariant 1 <= day <= MonthLength(year, month) + 1
      invariant hits == Hits(first, day) && (occurrence >= 1 ==> hits < occurrence)
    {
      WeekdayOf(year, month, weekday, day);
      HitsStep(first, day);
      if Weekday(Ordinal(year, month, day)) == weekday {
        hits := hits + 1;
        if hits == occurrence {
          return Some(Instant(Ordinal(year, month, day) + dayOffset, hourUtc));
        }
      }
      day := day + 1;
    }
    return None;
  }

  /** Closed form of the last given weekday of a month. */
  function LastDay(year: int, month: int, weekday: int): (day: int)
    requires 1 <= month <= 12 && 0 <= weekday < 7
    ensures MonthLength(year, month) - 7 < day <= MonthLength(year, month)
    ensures Weekday(Ordinal(year, month, day)) == weekday
  {
    MonthLength(year, month) - (Weekday(Ordinal(year, month, MonthLength(year, month))) - weekday) % 7
  }

  /** `_last_weekday_utc` scans backwards; it always finds a day, within the last week. */
  method LastWeekdayUtc(year: int, month: int, weekday: int, hourUtc: int) returns (at: int)
    requires 1 <= month <= 12 && 0 <= weekday < 7
    ensures at == Instant(Ordinal(year, month, LastDay(year, month, weekday)), hourUtc)
  {
    var day := MonthLength(year, month);
    ghost var target := LastDay(year, month, weekday);
    while Weekday(Ordinal(year, month, day)) != weekday
      invariant target <= day <= MonthLength(year, month)
      decreases day
    {
      day := day - 1;
    }
    SameWeekday(year, month, target, day);
    return Instant(Ordinal(year, month, day), hourUtc);
  }

  lemma SameWeekday(year: int, month: int, a: int, b: int)
    requires 1 <= month <= 12 && a <= b < a + 7
    requires Weekday(Ordinal(year, month, a)) == Weekday(Ordinal(year, month, b))
    ensures a == b
  {
  }

  // --- the zones ---

  datatype Zone = NewYork | Chicago | LosAngeles | London | Paris | Berlin | Sydney

  /** UTC hours of the two switches of an American zone. */
  function AmericanHours(zone: Zone): (int, int)
    requires zone.NewYork? || zone.Chicago? || zone.LosAngeles?
  {
    match zone
    case NewYork => (7, 6)
    case Chicago => (8, 7)
    case LosAngeles => (10, 9)
  }

  function Start(zone: Zone, year: int): int {
    match zone
    case Sydney => Instant(Ordinal(year, 10, NthDay(year, 10, SUNDAY, 1)) - 1, 16)
    case London => Instant(Ordinal(year, 3, LastDay(year, 3, SUNDAY)), 1)
    case Paris => Instant(Ordinal(year, 3, LastDay(year, 3, SUNDAY)), 1)
    case Berlin => Instant(Ordinal(year, 3, LastDay(year, 3, SUNDAY)), 1)
    case _ => Instant(Ordinal(year, 3, NthDay(year, 3, SUNDAY, 2)), AmericanHours(zone).0)
  }

  function End(zone: Zone, year: int): int {
    match zone
    case Sydney => Instant(Ordinal(year, 4, NthDay(year, 4, SUNDAY, 1)) - 1, 16)
    case London => Instant(Ordinal(year, 10, LastDay(year, 10, SUNDAY)), 1)
    case Paris => Instant(Ordinal(year, 10, LastDay(year, 10, SUNDAY)), 1)
    case Berlin => Instant(Ordinal(year, 10, LastDay(year, 10, SUNDAY)), 1)
    case _ => Instant(Ordinal(year, 11, NthDay(year, 11, SUNDAY, 1)), AmericanHours(zone).1)
  }

  predicate Daylight(zone: Zone, year: int, now: int) {
    if zone.Sydney? then now >= Start(zone, year) || now < End(zone, year)
    else Start(zone, year) <= now < End(zone, year)
  }

  /** Standard and daylight offsets in hours. */
  function Offsets(zone: Zone): (int, int) {
    match zone
    case NewYork => (-5, -4)
    case Chicago => (-6, -5)
    case LosAngeles => (-8, -7)
    case London => (0, 1)
    case Paris => (1, 2)
    case Berlin => (1, 2)
    case Sydney => (10, 11)
  }

  function ZoneOf(candidate: string): Option<Zone> {
    if candidate == "America/New_York" then Some(NewYork)
    else if candidate == "America/Chicago" then Some(Chicago)
    else if candidate == "America/Los_Angeles" then Some(LosAngeles)
    else if candidate == "Europe/London" then Some(London)
    else if candidate == "Europe/Paris" then Some(Paris)
    else if candidate == "Europe/Berlin" then Some(Berlin)
    else if candidate == "Australia/Sydney" then Some(Sydney)
    else None
  }

  method Window(zone: Zone, year: int) returns (start: int, end: int)
    ensures start == Start(zone, year) && end == End(zone, year)
  {
    hide Ordinal, Instant;
    if zone.Sydney? {
      var a := NthWeekdayUtc(year, 10, SUNDAY, 1, 16, -1);
      var b := NthWeekdayUtc(year, 4, SUNDAY, 1, 16, -1);
      start, end := a.value, b.value;
    } else if zone.London? || zone.Paris? || zone.Berlin? {
      start := LastWeekdayUtc(year, 3, SUNDAY, 1);
      end := LastWeekdayUtc(year, 10, SUNDAY, 1);
    } else {
      var a := NthWeekdayUtc(year, 3, SUNDAY, 2, AmericanHours(zone).0, 0);
      var b := NthWeekdayUtc(year, 11, SUNDAY, 1, AmericanHours(zone).1, 0);
      start, end := a.value, b.value;
    }
  }

  /** `_fallback_dynamic_timezone` on an instant of the given UTC year. */
  method FallbackOffset(candidate: string, year: int, now: int) returns (offset: Option<int>)
    ensures offset == match ZoneOf(candidate)
                      case None => None
                      case Some(zone) => Some(if Daylight(zone, year, now) then Offsets(zone).1 else Offsets(zone).0)
    ensures candidate == "America/New_York" ==> offset == Some(if Start(NewYork, year) <= now < End(NewYork, year) then -4 else -5)
    ensures candidate == "America/Chicago" ==> offset == Some(if Start(Chicago, year) <= now < End(Chicago, year) then -5 else -6)
    ensures candidate == "America/Los_Angeles" ==>
      offset == Some(if Start(LosAngeles, year) <= now < End(LosAngeles, year) then -7 else -8)
    ensures candidate == "Europe/London" ==> offset == Some(if Start(London, year) <= now < End(London, year) then 1 else 0)
    ensures candidate == "Europe/Paris" ==> offset == Some(if Start(Paris, year) <= now < End(Paris, year) then 2 else 1)
    ensures candidate == "Europe/Berlin" ==> offset == Some(if Start(Berlin, year) <= now < End(Berlin, year) then 2 else 1)
    ensures candidate == "Australia/Sydney" ==> offset == Some(if End(Sydney, year) <= now < Start(Sydney, year) then 10 else 11)
  {
    match ZoneOf(candidate)
    case None => return None;
    case Some(zone) =>
      var start, end := Window(zone, year);
      var dst := if zone.Sydney? then now >= start || now < end else start <= now < end;
      return Some(if dst then Offsets(zone).1 else Offsets(zone).0);
  }

  function YearStart(year: int): int {
    Instant(Ordinal(year, 1, 1), 0)
  }

  /** Local wall-clock hour and weekday of an instant on the hour. */
  function LocalHours(at: int, offset: int): int {
    at / HOUR + offset
  }

  // --- months apart ---

  function LeapDay(year: int): int {
    if Leap(year) then 1 else 0
  }

  lemma Cumulative(year: int)
    ensures DaysBefore(year, 3) == 59 + LeapDay(year) && DaysBefore(year, 4) == 90 + LeapDay(year)
    ensures DaysBefore(year, 10) == 273 + LeapDay(year) && DaysBefore(year, 11) == 304 + LeapDay(year)
  {
    assert DaysBefore(year, 2) == 31;
    assert DaysBefore(year, 4) == DaysBefore(year, 3) + 31;
    assert DaysBefore(year, 6) == DaysBefore(year, 4) + 61;
    assert DaysBefore(year, 8) == DaysBefore(year, 6) + 61;
    assert DaysBefore(year, 10) == DaysBefore(year, 8) + 61;
  }

  lemma OrdinalParts(year: int, month: int, day: int, month': int, day': int)
    requires 1 <= month <= 12 && 1 <= month' <= 12
    ensures Ordinal(year, month, day) - Ordinal(year, month', day')
            == DaysBefore(year, month) - DaysBefore(year, month') + day - day'
  {
    hide DaysBefore;
  }

  lemma MultiplesPass(year: int)
    ensures year / 4 == (year - 1) / 4 + (if year % 4 == 0 then 1 else 0)
    ensures year / 100 == (year - 1) / 100 + (if year % 100 == 0 then 1 else 0)
    ensures year / 400 == (year - 1) / 400 + (if year % 400 == 0 then 1 else 0)
  {
  }

  lemma MultiplesNest(year: int)
    ensures year % 400 == 0 ==> year % 100 == 0
    ensures year % 100 == 0 ==> year % 4 == 0
  {
  }

  /** The ordinals of successive years fit together. */
  lemma NewYear(year: int)
    ensures Ordinal(year + 1, 1, 1) == Ordinal(year, 1, 1) + 365 + LeapDay(year)
  {
    MultiplesPass(year);
    MultiplesNest(year);
  }

  lemma Months(year: int)
    ensures Ordinal(year, 11, 1) - Ordinal(year, 3, 1) == 245
    ensures Ordinal(year, 10, 31) - Ordinal(year, 3, 31) == 214
    ensures Ordinal(year, 10, 1) - Ordinal(year, 4, 1) == 183
  {
    hide DaysBefore, Ordinal;
    Cumulative(year);
    OrdinalParts(year, 11, 1, 3, 1);
    OrdinalParts(year, 10, 31, 3, 31);
    OrdinalParts(year, 10, 1, 4, 1);
  }

  lemma DayOf(year: int, month: int, day: int)
    requires 1 <= month <= 12
    ensures Ordinal(year, month, day) == Ordinal(year, month, 1) + day - 1
  {
    hide DaysBefore;
  }

  // --- the windows ---

  predicate American(zone: Zone) {
    zone.NewYork? || zone.Chicago? || zone.LosAngeles?
  }

  predicate European(zone: Zone) {
    zone.London? || zone.Paris? || zone.Berlin?
  }

  const WEEK := 7 * 24 * HOUR

  /** Every American window lasts exactly 34 weeks less one hour, whatever the year. */
  lemma AmericanWindow(zone: Zone, year: int)
    requires American(zone)
    ensures End(zone, year) - Start(zone, year) == 34 * WEEK - HOUR
  {
    hide Ordinal, DaysBefore;
    Months(year);
    DayOf(year, 3, NthDay(year, 3, SUNDAY, 2));
    DayOf(year, 11, NthDay(year, 11, SUNDAY, 1));
    assert FirstOffset(year, 3, SUNDAY) == FirstOffset(year, 11, SUNDAY);
  }

  /** Every European window lasts 31 weeks when the last Sunday of March is the 28th or earlier, and
      30 weeks otherwise. */
  lemma EuropeanWindow(zone: Zone, year: int)
    requires European(zone)
    ensures End(zone, year) - Start(zone, year) == (if LastDay(year, 3, SUNDAY) <= 28 then 31 else 30) * WEEK
  {
    hide Ordinal, DaysBefore, Weekday, LastDay, Instant;
    LastSundays(year);
    InstantsApart(Ordinal(year, 3, LastDay(year, 3, SUNDAY)), Ordinal(year, 10, LastDay(year, 10, SUNDAY)), 1, 1);
  }

  lemma InstantsApart(a: int, b: int, h: int, k: int)
    ensures Instant(b, k) - Instant(a, h) == HOUR * (24 * (b - a) + k - h)
  {
  }

  lemma LastSundays(year: int)
    ensures Ordinal(year, 10, LastDay(year, 10, SUNDAY)) - Ordinal(year, 3, LastDay(year, 3, SUNDAY))
            == if LastDay(year, 3, SUNDAY) <= 28 then 217 else 210
  {
    hide Ordinal, DaysBefore;
    Months(year);
    var spring, autumn := Ordinal(year, 3, 31), Ordinal(year, 10, 31);
    DayOf(year, 3, LastDay(year, 3, SUNDAY));
    DayOf(year, 10, LastDay(year, 10, SUNDAY));
    DayOf(year, 3, 31);
    DayOf(year, 10, 31);
    hide Weekday;
    SundaysBefore(spring);
    assert autumn == spring + 214;
  }

  /** How far back the last Sundays are from two days that lie 214 days apart. */
  lemma SundaysBefore(o: int)
    ensures var a, b := (Weekday(o) - SUNDAY) % 7, (Weekday(o + 214) - SUNDAY) % 7;
            b == if a >= 3 then a - 3 else a + 4
  {
  }

  /** Sydney's standard time lasts 26 or 27 weeks: 27 when the first Sunday of April is the 1st. */
  lemma SydneyWindow(year: int)
    ensures Start(Sydney, year) - End(Sydney, year) == (if NthDay(year, 4, SUNDAY, 1) == 1 then 27 else 26) * WEEK
  {
    hide Ordinal, DaysBefore;
    Months(year);
    DayOf(year, 4, NthDay(year, 4, SUNDAY, 1));
    DayOf(year, 10, NthDay(year, 10, SUNDAY, 1));
  }

  lemma LocalTime(ordinal: int, hour: int, offset: int)
    requires 0 <= hour + offset < 48
    ensures var h := LocalHours(Instant(ordinal, hour), offset);
            if hour + offset < 24 then h / 24 == ordinal && h % 24 == hour + offset
            else h / 24 == ordinal + 1 && h % 24 == hour + offset - 24
  {
  }

  lemma NthIsThatWeekday(year: int, month: int, weekday: int, occurrence: int)
    requires 1 <= month <= 12 && 0 <= weekday < 7
    ensures Weekday(Ordinal(year, month, NthDay(year, month, weekday, occurrence))) == weekday
  {
    hide Ordinal, DaysBefore;
    DayOf(year, month, NthDay(year, month, weekday, occurrence));
  }

  /** American clocks change on a Sunday at 02:00 by the clock being changed. */
  lemma AmericanSwitch(zone: Zone, year: int)
    requires American(zone)
    ensures var (s, e) := (LocalHours(Start(zone, year), Offsets(zone).0), LocalHours(End(zone, year), Offsets(zone).1));
            Weekday(s / 24) == SUNDAY && s % 24 == 2 && Weekday(e / 24) == SUNDAY && e % 24 == 2
  {
    hide Ordinal, DaysBefore, LocalHours, Instant, Weekday, NthDay;
    var (h, h') := AmericanHours(zone);
    NthIsThatWeekday(year, 3, SUNDAY, 2);
    NthIsThatWeekday(year, 11, SUNDAY, 1);
    LocalTime(Ordinal(year, 3, NthDay(year, 3, SUNDAY, 2)), h, Offsets(zone).0);
    LocalTime(Ordinal(year, 11, NthDay(year, 11, SUNDAY, 1)), h', Offsets(zone).1);
  }

  /** European clocks change on a Sunday at 01:00 UTC, everywhere at once. */
  lemma EuropeanSwitch(zone: Zone, year: int)
    requires European(zone)
    ensures var (s, e) := (LocalHours(Start(zone, year), Offsets(zone).0), LocalHours(End(zone, year), Offsets(zone).1));
            && Weekday(s / 24) == SUNDAY && s % 24 == 1 + Offsets(zone).0
            && Weekday(e / 24) == SUNDAY && e % 24 == 1 + Offsets(zone).1
    ensures Start(zone, year) == Start(London, year) && End(zone, year) == End(London, year)
  {
    hide Ordinal, DaysBefore, LocalHours, Instant, Weekday, LastDay;
    LocalTime(Ordinal(year, 3, LastDay(year, 3, SUNDAY)), 1, Offsets(zone).0);
    LocalTime(Ordinal(year, 10, LastDay(year, 10, SUNDAY)), 1, Offsets(zone).1);
  }

  /** Sydney's clocks change on a Sunday at 02:00 standard time. */
  lemma SydneySwitch(year: int)
    ensures var (s, e) := (LocalHours(Start(Sydney, year), Offsets(Sydney).0), LocalHours(End(Sydney, year), Offsets(Sydney).0));
            Weekday(s / 24) == SUNDAY && s % 24 == 2 && Weekday(e / 24) == SUNDAY && e % 24 == 2
  {
    hide Ordinal, DaysBefore, LocalHours, Instant, Weekday, NthDay;
    NthIsThatWeekday(year, 10, SUNDAY, 1);
    NthIsThatWeekday(year, 4, SUNDAY, 1);
    LocalTime(Ordinal(year, 10, NthDay(year, 10, SUNDAY, 1)) - 1, 16, Offsets(Sydney).0);
    LocalTime(Ordinal(year, 4, NthDay(year, 4, SUNDAY, 1)) - 1, 16, Offsets(Sydney).0);
  }

  /** The days on which clocks change: the second Sunday of March and the first of November in America, the
      last Sundays of March and October in Europe, the first ones of October and April in Sydney. */
  lemma SwitchDays(year: int) returns (a: int, b: int, c: int, d: int, e: int, f: int)
    ensures 8 <= a <= 14 && Weekday(Ordinal(year, 3, a)) == 6 && 1 <= b <= 7 && Weekday(Ordinal(year, 11, b)) == 6
    ensures Start(NewYork, year) == Instant(Ordinal(year, 3, a), 7) && End(NewYork, year) == Instant(Ordinal(year, 11, b), 6)
    ensures Start(Chicago, year) == Instant(Ordinal(year, 3, a), 8) && End(Chicago, year) == Instant(Ordinal(year, 11, b), 7)
    ensures Start(LosAngeles, year) == Instant(Ordinal(year, 3, a), 10)
    ensures End(LosAngeles, year) == Instant(Ordinal(year, 11, b), 9)
    ensures 25 <= c <= 31 && Weekday(Ordinal(year, 3, c)) == 6 && 25 <= d <= 31 && Weekday(Ordinal(year, 10, d)) == 6
    ensures forall zone :: European(zone) ==>
      Start(zone, year) == Instant(Ordinal(year, 3, c), 1) && End(zone, year) == Instant(Ordinal(year, 10, d), 1)
    ensures 1 <= e <= 7 && Weekday(Ordinal(year, 10, e)) == 6 && 1 <= f <= 7 && Weekday(Ordinal(year, 4, f)) == 6
    ensures Start(Sydney, year) == Instant(Ordinal(year, 10, e) - 1, 16) && End(Sydney, year) == Instant(Ordinal(year, 4, f) - 1, 16)
  {
    hide Ordinal, Weekday, Instant;
    a, b := NthDay(year, 3, SUNDAY, 2), NthDay(year, 11, SUNDAY, 1);
    c, d := LastDay(year, 3, SUNDAY), LastDay(year, 10, SUNDAY);
    e, f := NthDay(year, 10, SUNDAY, 1), NthDay(year, 4, SUNDAY, 1);
    NthIsThatWeekday(year, 3, SUNDAY, 2);
    NthIsThatWeekday(year, 11, SUNDAY, 1);
    NthIsThatWeekday(year, 10, SUNDAY, 1);
    NthIsThatWeekday(year, 4, SUNDAY, 1);
  }

  /** The calendar is the one in use: 1 January 1970, the origin of the clock, was a Thursday and day 719163. */
  lemma ClockOrigin()
    ensures Ordinal(1970, 1, 1) == 719163 && Weekday(Ordinal(1970, 1, 1)) == 3
    ensures HOUR == 3600000000
  {
  }

  function FirstSwitch(zone: Zone, year: int): int {
    if zone.Sydney? then End(zone, year) else Start(zone, year)
  }

  function SecondSwitch(zone: Zone, year: int): int {
    if zone.Sydney? then Start(zone, year) else End(zone, year)
  }

  lemma FirstSwitchInSpring(zone: Zone, year: int)
    ensures YearStart(year) + 59 * 24 * HOUR <= FirstSwitch(zone, year)
    ensures FirstSwitch(zone, year) <= YearStart(year) + (if American(zone) then 76 else 100) * 24 * HOUR
  {
    hide Ordinal, DaysBefore, Weekday, NthDay, LastDay, Instant;
    MonthStarts(year);
    var jan := Ordinal(year, 1, 1);
    if American(zone) {
      DayOf(year, 3, NthDay(year, 3, SUNDAY, 2));
      NthDayRange(year, 3, 2);
      InstantsApart(jan, Ordinal(year, 3, NthDay(year, 3, SUNDAY, 2)), 0, AmericanHours(zone).0);
    } else if European(zone) {
      DayOf(year, 3, LastDay(year, 3, SUNDAY));
      InstantsApart(jan, Ordinal(year, 3, LastDay(year, 3, SUNDAY)), 0, 1);
    } else {
      DayOf(year, 4, NthDay(year, 4, SUNDAY, 1));
      NthDayRange(year, 4, 1);
      InstantsApart(jan, Ordinal(year, 4, NthDay(year, 4, SUNDAY, 1)) - 1, 0, 16);
    }
  }

  lemma MonthStarts(year: int)
    ensures 59 <= Ordinal(year, 3, 1) - Ordinal(year, 1, 1) <= 60
    ensures 90 <= Ordinal(year, 4, 1) - Ordinal(year, 1, 1) <= 91
  {
    hide Ordinal, DaysBefore;
    Cumulative(year);
    FirstMonthIsEmpty(year);
    OrdinalParts(year, 3, 1, 1, 1);
    OrdinalParts(year, 4, 1, 1, 1);
  }

  lemma NthDayRange(year: int, month: int, occurrence: int)
    requires 1 <= month <= 12
    ensures 7 * occurrence - 6 <= NthDay(year, month, SUNDAY, occurrence) <= 7 * occurrence
  {
  }

  /** Between the two switches of a year lie at most 34 weeks. */
  lemma SwitchesApart(zone: Zone, year: int)
    ensures 0 < SecondSwitch(zone, year) - FirstSwitch(zone, year) <= (if American(zone) then 34 else 31) * WEEK
  {
    hide Start, End, LastDay, NthDay;
    if American(zone) { AmericanWindow(zone, year); }
    else if European(zone) { EuropeanWindow(zone, year); }
    else { SydneyWindow(year); }
  }

  lemma SwitchesInsideYear(zone: Zone, year: int)
    ensures YearStart(year) + 59 * 24 * HOUR <= FirstSwitch(zone, year) < SecondSwitch(zone, year)
            <= YearStart(year) + 330 * 24 * HOUR
  {
    hide FirstSwitch, SecondSwitch, YearStart;
    FirstSwitchInSpring(zone, year);
    SwitchesApart(zone, year);
  }

  lemma FirstMonthIsEmpty(year: int)
    ensures DaysBefore(year, 1) == 0
  {
  }

  /** Both switches fall well inside the calendar year, so whether daylight time holds never depends
      on which side of New Year the clock is read: northern zones are on standard time around every
      New Year, Sydney on daylight time. */
  lemma NewYearIsSeamless(zone: Zone, year: int, now: int)
    requires YearStart(year) <= now < YearStart(year + 1)
    requires now < YearStart(year) + 59 * 24 * HOUR || now >= YearStart(year + 1) - 30 * 24 * HOUR
    ensures Daylight(zone, year, now) <==> zone.Sydney?
  {
    hide Ordinal, DaysBefore, Start, End;
    NewYear(year);
    SwitchesInsideYear(zone, year);
  }
}
