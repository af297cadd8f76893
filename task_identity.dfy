/** Task identity and the calendar arithmetic of the scheduler (core/schedule_task.py).
    A job id is `booking_job_{run_datetime.timestamp()}_{hash(json.dumps(payload, sort_keys=True))}`;
    the timestamp is rendered as Python's `repr` of a float holding seconds, the hash as `str(int)`.
    The main result is that the id text determines both the run instant and the payload hash
    (ParseJobIdRoundTrip), so two ids collide exactly when those two numbers do. */
module TaskIdentity {
  import opened Text

  const DayMs: int := 86400000
  const JobIdPrefix: string := "booking_job_"

  /** A calendar date (Python `datetime.date`). */
  datatype Date = Date(year: nat, month: nat, day: nat)

  /** A time of day (Python `datetime.time` at second resolution). */
  datatype TimeOfDay = TimeOfDay(hour: nat, minute: nat, second: nat)

  /** Gregorian leap years: divisible by 4, except centuries not divisible by 400. */
  predicate IsLeapYear(y: int) {
    (y % 4 == 0 && y % 100 != 0) || y % 400 == 0
  }

  function DaysInMonth(y: int, m: int): nat {
    if m == 2 then (if IsLeapYear(y) then 29 else 28)
    else if m == 4 || m == 6 || m == 9 || m == 11 then 30
    else 31
  }

  /** The dates Python's `datetime.date` accepts. */
  predicate ValidDate(d: Date) {
    1 <= d.year <= 9999 && 1 <= d.month <= 12 && 1 <= d.day <= DaysInMonth(d.year, d.month)
  }

  /** A time of day within one day. */
  predicate ValidTime(t: TimeOfDay) {
    t.hour < 24 && t.minute < 60 && t.second < 60
  }

  /** The calendar date after `d`. */
  function NextDay(d: Date): Date
    requires ValidDate(d)
  {
    if d.day < DaysInMonth(d.year, d.month) then Date(d.year, d.month, d.day + 1)
    else if d.month < 12 then Date(d.year, d.month + 1, 1)
    else Date(d.year + 1, 1, 1)
  }

  /** Days from 1970-01-01 to `d` in the proleptic Gregorian calendar, so that
      `(a - b).days` on Python dates is `DaysFromCivil(a) - DaysFromCivil(b)`. */
  function DaysFromCivil(d: Date): int {
    var y: int := if d.month <= 2 then d.year - 1 else d.year;
    var era := y / 400;  // division by a positive divisor floors
    var yoe := y - era * 400;
    var mp := if d.month > 2 then d.month - 3 else d.month + 9;
    era * 146097 + DaysBeforeYear(yoe) + DaysBeforeMonth(mp) + d.day - 1 - 719468
  }

  /** Days from March 1 to the first of the month `mp` months later (0 for March). */
  function DaysBeforeMonth(mp: int): int {
    (153 * mp + 2) / 5
  }

  /** Outside February, consecutive month starts are the month's length apart. */
  lemma MonthBoundary(year: int, month: int)
    requires 1 <= month <= 11 && month != 2
    ensures var mp := if month > 2 then month - 3 else month + 9;
      DaysBeforeMonth(mp + 1) == DaysBeforeMonth(mp) + DaysInMonth(year, month)
  {
  }

  /** Days from March 1 of year 0 of a 400-year era to March 1 of year `yoe` of it. */
  function DaysBeforeYear(yoe: int): int {
    yoe * 365 + yoe / 4 - yoe / 100
  }

  /** The year from March 1 of year `z - 1` of an era to March 1 of year `z` has a
      February 29 exactly when `z` is a leap year number within the era. */
  lemma YearOfEraLength(z: int)
    requires 1 <= z <= 399
    ensures DaysBeforeYear(z) - DaysBeforeYear(z - 1) == 365 + (if z % 4 == 0 && z % 100 != 0 then 1 else 0)
  {
  }

  /** Remainders by 4, 100 and 400 ignore whole eras of 400 years. */
  lemma RemaindersOfEra(era: int, z: int)
    ensures (era * 400 + z) % 4 == z % 4
    ensures (era * 400 + z) % 100 == z % 100
    ensures (era * 400 + z) % 400 == z % 400
  {
    var y := era * 400 + z;
    assert y == (era * 100) * 4 + z;
    assert y / 4 == era * 100 + z / 4;
    assert y == (era * 4) * 100 + z;
    assert y / 100 == era * 4 + z / 100;
    assert y / 400 == era + z / 400;
  }

  /** A year's leap-ness depends only on its position within a 400-year era. */
  lemma LeapYearOfEra(era: int, z: int)
    requires 1 <= z <= 399
    ensures IsLeapYear(era * 400 + z) == (z % 4 == 0 && z % 100 != 0)
  {
    RemaindersOfEra(era, z);
  }

  /** The epoch is day zero. */
  lemma CivilEpoch()
    ensures DaysFromCivil(Date(1970, 1, 1)) == 0
  {
  }

  /** The last day of February is followed by March 1 one day later, in leap and common
      years alike, including the years where a 400-year era ends. */
  lemma MarchFollowsFebruary(year: nat)
    requires 1 <= year
    ensures DaysFromCivil(Date(year, 3, 1)) == DaysFromCivil(Date(year, 2, DaysInMonth(year, 2))) + 1
  {
    var era, yoe := (year - 1) / 400, (year - 1) % 400;
    LastOfFebruary(year);
    FirstOfMarch(year);
    if yoe == 399 {
      EraEnd(era);
    } else {
      assert year / 400 == era && year % 400 == yoe + 1;
      YearOfEraLength(yoe + 1);
      LeapYearOfEra(era, yoe + 1);
    }
  }

  lemma LastOfFebruary(year: nat)
    requires 1 <= year
    ensures DaysFromCivil(Date(year, 2, DaysInMonth(year, 2)))
      == (year - 1) / 400 * 146097 + DaysBeforeYear((year - 1) % 400) + 336 + DaysInMonth(year, 2) - 719468
  {
    assert DaysBeforeMonth(11) == 337;
  }

  lemma FirstOfMarch(year: nat)
    ensures DaysFromCivil(Date(year, 3, 1)) == year / 400 * 146097 + DaysBeforeYear(year % 400) - 719468
  {
    assert DaysBeforeMonth(0) == 0;
  }

  /** The last year of an era: its February has 29 days and a whole era of days has passed. */
  lemma EraEnd(era: int)
    requires 0 <= era
    ensures var year := era * 400 + 400;
      && year / 400 == era + 1 && year % 400 == 0 && (year - 1) / 400 == era && (year - 1) % 400 == 399
      && IsLeapYear(year)
      && DaysBeforeYear(399) + 336 + 29 + 1 == 146097
  {
    RemaindersOfEra(era + 1, 0);
    assert era * 400 + 400 == (era + 1) * 400;
  }

  /** The day count advances by exactly one from every valid date to the next, so it
      counts calendar days. */
  lemma {:induction false} NextDayIsOneDayLater(d: Date)
    requires ValidDate(d)
    ensures DaysFromCivil(NextDay(d)) == DaysFromCivil(d) + 1
  {
    if d.day < DaysInMonth(d.year, d.month) {
    } else if d.month == 2 {
      MarchFollowsFebruary(d.year);
    } else if d.month < 12 {
      MonthBoundary(d.year, d.month);
    }
  }

  /** `datetime.combine(date, time)` as naive local milliseconds since 1970-01-01 00:00. */
  function LocalMs(d: Date, t: TimeOfDay): int {
    DaysFromCivil(d) * DayMs + ((t.hour * 60 + t.minute) * 60 + t.second) * 1000
  }

  /** The calendar day (as a day number) a naive local instant falls on. */
  function DayNumber(localMs: int): int {
    localMs / DayMs  // floors, like Python's `//`
  }

  /** An instant made from a date and a time within the day falls on that date. */
  lemma DayOfLocalInstant(d: Date, t: TimeOfDay)
    requires ValidTime(t)
    ensures DayNumber(LocalMs(d, t)) == DaysFromCivil(d)
  {
    var r := ((t.hour * 60 + t.minute) * 60 + t.second) * 1000;
    assert t.hour * 60 + t.minute <= 1439;
    assert (t.hour * 60 + t.minute) * 60 + t.second <= 86399;
    assert 0 <= r < DayMs;
  }

  /** The digits after the decimal point of `repr(float)` for a whole number of
      milliseconds `f`: trailing zeros dropped, "0" when there are none. */
  function FracText(f: nat): (s: string)
    requires f < 1000
    ensures 1 <= |s| <= 3
    ensures forall i :: 0 <= i < |s| ==> IsDigit(s[i])
  {
    var d0, d1, d2 := f / 100, f / 10 % 10, f % 10;
    if f == 0 then "0"
    else if d1 == 0 && d2 == 0 then [DigitChar(d0)]
    else if d2 == 0 then [DigitChar(d0), DigitChar(d1)]
    else [DigitChar(d0), DigitChar(d1), DigitChar(d2)]
  }

  function ParseFrac(s: string): nat {
    (if |s| > 0 then DigitValue(s[0]) * 100 else 0)
    + (if |s| > 1 then DigitValue(s[1]) * 10 else 0)
    + (if |s| > 2 then DigitValue(s[2]) else 0)
  }

  lemma ParseFracText(f: nat)
    requires f < 1000
    ensures ParseFrac(FracText(f)) == f
  {
  }

  /** `str(ms / 1000)` for a float: sign, whole seconds, '.', fractional digits. */
  function TimestampText(ms: int): (s: string)
    ensures '_' !in s
  {
    var magnitude: nat := if ms < 0 then -ms else ms;
    (if ms < 0 then "-" else "") + (NatText(magnitude / 1000) + "." + FracText(magnitude % 1000))
  }

  function ParseTimestamp(s: string): int {
    var negative := |s| > 0 && s[0] == '-';
    var body := if negative then s[1..] else s;
    var parts := Split(body, '.');
    var magnitude := ParseNat(parts[0]) * 1000 + (if |parts| > 1 then ParseFrac(parts[1]) else 0);
    if negative then -magnitude else magnitude
  }

  lemma ParseTimestampText(ms: int)
    ensures ParseTimestamp(TimestampText(ms)) == ms
  {
    var magnitude: nat := if ms < 0 then -ms else ms;
    var whole, frac := NatText(magnitude / 1000), FracText(magnitude % 1000);
    var body := whole + "." + frac;
    assert '.' !in whole;
    assert '.' !in frac;
    SplitAtFirst(whole, '.', frac);
    SplitWithoutSeparator(frac, '.');
    assert Split(body, '.') == [whole, frac];
    ParseNatText(magnitude / 1000);
    ParseFracText(magnitude % 1000);
    var s := TimestampText(ms);
    if ms < 0 {
      assert s[1..] == body;
    } else {
      assert s == "" + body == body;
      assert IsDigit(whole[0]);
    }
  }

  /** The scheduler's job id for a job whose run instant is `epochMs` milliseconds
      after the epoch and whose canonical payload hashes to `payloadHash`. */
  function JobId(epochMs: int, payloadHash: int): string {
    JobIdPrefix + TimestampText(epochMs) + "_" + IntText(payloadHash)
  }

  function ParseJobId(id: string): (int, int) {
    var rest := if |id| >= |JobIdPrefix| then id[|JobIdPrefix|..] else "";
    var parts := Split(rest, '_');
    (ParseTimestamp(parts[0]), if |parts| > 1 then ParseInt(parts[1]) else 0)
  }

  /** The id text gives back the run instant and the payload hash it was made from. */
  lemma ParseJobIdRoundTrip(epochMs: int, payloadHash: int)
    ensures ParseJobId(JobId(epochMs, payloadHash)) == (epochMs, payloadHash)
  {
    var ts, h := TimestampText(epochMs), IntText(payloadHash);
    var id := JobId(epochMs, payloadHash);
    assert id[|JobIdPrefix|..] == ts + "_" + h;
    assert '_' !in h;
    SplitAtFirst(ts, '_', h);
    SplitWithoutSeparator(h, '_');
    ParseTimestampText(epochMs);
    ParseIntText(payloadHash);
  }

  /** Two jobs get the same id exactly when their run instants and payload hashes agree,
      so `replace_existing` only ever replaces a job for the same instant and payload hash. */
  lemma JobIdInjective(t1: int, h1: int, t2: int, h2: int)
    ensures JobId(t1, h1) == JobId(t2, h2) <==> t1 == t2 && h1 == h2
  {
    ParseJobIdRoundTrip(t1, h1);
    ParseJobIdRoundTrip(t2, h2);
  }

  /** `date.strftime('%Y-%m-%d')` (years below 1000 unpadded, as glibc renders them). */
  function DateText(d: Date): string {
    NatText(d.year) + "-" + Pad2(d.month) + "-" + Pad2(d.day)
  }

  /** `time.strftime('%H:%M')`. */
  function HourMinuteText(t: TimeOfDay): string {
    Pad2(t.hour) + ":" + Pad2(t.minute)
  }

  /** `datetime.strftime('%Y-%m-%d %H:%M:%S')`. */
  function DateTimeText(d: Date, t: TimeOfDay): string {
    DateText(d) + " " + Pad2(t.hour) + ":" + Pad2(t.minute) + ":" + Pad2(t.second)
  }

  /** The job's display name: `场馆预约任务 (<booking date> <HH:MM>)`. */
  function JobName(bookingDate: Date, scriptTime: TimeOfDay): string {
    "场馆预约任务 (" + DateText(bookingDate) + " " + HourMinuteText(scriptTime) + ")"
  }
}
