/**
 * Time handling of snapshots.py: the whole-day age test `older_than` and the
 * `%Y%m%d%H%M%S` stamp put into snapshot names. Instants are integer
 * microseconds on the UTC time line, the resolution of Python's datetime;
 * the current time is always passed in.
 */
module Clock {

  const MicrosPerSecond: int := 1_000_000
  const MicrosPerDay: int := 86_400_000_000

  /** `timedelta(microseconds=delta).days`: the floor of `delta` over one day. */
  function WholeDays(delta: int): (d: int)
    ensures d * MicrosPerDay <= delta < (d + 1) * MicrosPerDay
  {
    delta / MicrosPerDay
  }

  /** `older_than(start, days)` read at instant `now`: `(now - start).days > days`. */
  predicate OlderThan(now: int, start: int, days: int) {
    WholeDays(now - start) > days
  }

  /** Older than `days` days means at least `days + 1` full days have elapsed. */
  lemma OlderThanIff(now: int, start: int, days: int)
    ensures OlderThan(now, start, days) <==> now - start >= (days + 1) * MicrosPerDay
  {
  }

  /** The comparison is strict: exactly `days` whole days is not older than `days`. */
  lemma OlderThanIsStrict(now: int, days: int)
    ensures !OlderThan(now, now - days * MicrosPerDay, days)
    ensures OlderThan(now, now - (days + 1) * MicrosPerDay, days)
  {
    OlderThanIff(now, now - days * MicrosPerDay, days);
    OlderThanIff(now, now - (days + 1) * MicrosPerDay, days);
  }

  /** A start at or after `now` is never older, for any non-negative threshold. */
  lemma FutureIsNeverOlder(now: int, start: int, days: int)
    requires now <= start && 0 <= days
    ensures !OlderThan(now, start, days)
  {
  }

  /** A later reading of the clock, an earlier start or a lower threshold keep a snapshot old. */
  lemma OlderThanMonotone(now: int, now': int, start: int, start': int, days: int, days': int)
    requires now <= now' && start' <= start && days' <= days
    requires OlderThan(now, start, days)
    ensures OlderThan(now', start', days')
  {
    OlderThanIff(now, start, days);
    OlderThanIff(now', start', days');
  }

  /** test_older_than_true and test_older_than_false, and the boundary case. */
  lemma OlderThanExamples(now: int)
    ensures OlderThan(now, now - 2 * MicrosPerDay, 1)
    ensures !OlderThan(now, now - 1 * MicrosPerDay, 2)
    ensures !OlderThan(now, now - 1 * MicrosPerDay, 1)
  {
    OlderThanIsStrict(now, 1);
    OlderThanIff(now, now - MicrosPerDay, 2);
  }

  /** Day counts round down, not toward zero: one microsecond in the future is day -1. */
  lemma WholeDaysFloors()
    ensures WholeDays(-1) == -1 && WholeDays(MicrosPerDay - 1) == 0
    ensures !OlderThan(0, 1, -1)
  {
  }

  /** Whole days rounded toward zero, the reading `timedelta.days` does not use. */
  function TruncatedDays(delta: int): (d: int)
    ensures delta >= 0 ==> d * MicrosPerDay <= delta < (d + 1) * MicrosPerDay
    ensures delta < 0 ==> (d - 1) * MicrosPerDay < delta <= d * MicrosPerDay
  {
    if delta >= 0 then delta / MicrosPerDay else -((-delta) / MicrosPerDay)
  }

  /**
   * Floor and truncation decide `older_than` alike for every threshold
   * `days >= 0`; at a negative threshold they part: a start one microsecond
   * in the future is older than -1 days only under truncation.
   */
  lemma FloorAgreesWithTruncation(now: int, start: int, days: int)
    requires 0 <= days
    ensures OlderThan(now, start, days) <==> TruncatedDays(now - start) > days
    ensures TruncatedDays(-1) > -1 && !OlderThan(0, 1, -1)
  {
    if now - start < 0 {
      assert WholeDays(now - start) < 0;
      assert TruncatedDays(now - start) <= 0;
    }
  }

  /** The broken-down fields of a UTC datetime. */
  datatype CalendarTime = CalendarTime(year: int, month: int, day: int, hour: int, minute: int, second: int)

  predicate IsLeapYear(year: int) {
    year % 4 == 0 && (year % 100 != 0 || year % 400 == 0)
  }

  function DaysInMonth(year: int, month: int): int
    requires 1 <= month <= 12
  {
    if month == 2 then (if IsLeapYear(year) then 29 else 28)
    else if month == 4 || month == 6 || month == 9 || month == 11 then 30
    else 31
  }

  /** The field ranges a Python datetime keeps. */
  predicate IsValidCalendarTime(t: CalendarTime) {
    && 1 <= t.year <= 9999
    && 1 <= t.month <= 12
    && 1 <= t.day <= DaysInMonth(t.year, t.month)
    && 0 <= t.hour < 24
    && 0 <= t.minute < 60
    && 0 <= t.second < 60
  }

  type DateTime = t: CalendarTime | IsValidCalendarTime(t) witness CalendarTime(1970, 1, 1, 0, 0, 0)

  function Pow10(n: nat): (p: nat)
    ensures 1 <= p
  {
    if n == 0 then 1 else 10 * Pow10(n - 1)
  }

  predicate IsDigit(c: char) {
    '0' <= c <= '9'
  }

  predicate AllDigits(s: string) {
    forall i :: 0 <= i < |s| ==> IsDigit(s[i])
  }

  function Digit(d: int): (c: char)
    requires 0 <= d < 10
    ensures IsDigit(c) && c as int - '0' as int == d
  {
    ('0' as int + d) as char
  }

  /** The number a string of decimal digits denotes. */
  function DecimalValue(s: string): nat
    requires AllDigits(s)
  {
    if s == [] then 0
    else 10 * DecimalValue(s[..|s| - 1]) + (s[|s| - 1] as int - '0' as int)
  }

  /** `n` written in decimal, zero-padded on the left to exactly `width` digits. */
  function PadDecimal(n: nat, width: nat): (r: string)
    requires n < Pow10(width)
    ensures |r| == width && AllDigits(r)
  {
    if width == 0 then ""
    else PadDecimal(n / 10, width - 1) + [Digit(n % 10)]
  }

  /** Zero padding loses nothing: the padded digits read back as `n`. */
  lemma {:induction false} PadDecimalRoundTrip(n: nat, width: nat)
    requires n < Pow10(width)
    ensures DecimalValue(PadDecimal(n, width)) == n
  {
    if width > 0 {
      var r := PadDecimal(n, width);
      assert r[..|r| - 1] == PadDecimal(n / 10, width - 1);
      PadDecimalRoundTrip(n / 10, width - 1);
    }
  }

  /** Field i of the `%Y%m%d%H%M%S` stamp: year, month, day, hour, minute, second. */
  function StampField(t: DateTime, i: nat): nat
    requires i < 6
  {
    if i == 0 then t.year else if i == 1 then t.month else if i == 2 then t.day
    else if i == 3 then t.hour else if i == 4 then t.minute else t.second
  }

  /** `%Y` takes four digits, every other field two. */
  function StampWidth(i: nat): nat {
    if i == 0 then 4 else 2
  }

  /** The first `n` fields of the stamp, each zero-padded to its width. */
  function StampPrefix(t: DateTime, n: nat): string
    requires n <= 6
  {
    if n == 0 then "" else StampPrefix(t, n - 1) + PadDecimal(StampField(t, n - 1), StampWidth(n - 1))
  }

  /** `strftime("%Y%m%d%H%M%S")` */
  function DateStamp(t: DateTime): string {
    StampPrefix(t, 6)
  }

  /** The stamp is the six zero-padded fields in order. */
  lemma DateStampPieces(t: DateTime)
    ensures DateStamp(t) == PadDecimal(t.year, 4) + PadDecimal(t.month, 2) + PadDecimal(t.day, 2)
      + PadDecimal(t.hour, 2) + PadDecimal(t.minute, 2) + PadDecimal(t.second, 2)
  {
    assert StampPrefix(t, 1) == PadDecimal(t.year, 4);
    assert StampPrefix(t, 2) == StampPrefix(t, 1) + PadDecimal(t.month, 2);
    assert StampPrefix(t, 3) == StampPrefix(t, 2) + PadDecimal(t.day, 2);
    assert StampPrefix(t, 4) == StampPrefix(t, 3) + PadDecimal(t.hour, 2);
    assert StampPrefix(t, 5) == StampPrefix(t, 4) + PadDecimal(t.minute, 2);
  }

  /** Fourteen decimal digits. */
  lemma DateStampShape(t: DateTime)
    ensures |DateStamp(t)| == 14 && AllDigits(DateStamp(t))
  {
    DateStampPieces(t);
  }

  /** `s[lo..hi]` is a run of decimal digits denoting `n`. */
  predicate DigitsAt(s: string, lo: nat, hi: nat, n: int) {
    lo <= hi <= |s| && AllDigits(s[lo..hi]) && DecimalValue(s[lo..hi]) == n
  }

  /** Each field's digits sit at a fixed offset of the stamp. */
  lemma DateStampSlices(t: DateTime)
    ensures |DateStamp(t)| == 14
    ensures DateStamp(t)[0..4] == PadDecimal(t.year, 4) && DateStamp(t)[4..6] == PadDecimal(t.month, 2)
    ensures DateStamp(t)[6..8] == PadDecimal(t.day, 2) && DateStamp(t)[8..10] == PadDecimal(t.hour, 2)
    ensures DateStamp(t)[10..12] == PadDecimal(t.minute, 2) && DateStamp(t)[12..14] == PadDecimal(t.second, 2)
  {
    DateStampPieces(t);
  }

  /** The stamp is fixed-width: each field sits at its own offset and reads back as its value. */
  lemma DateStampFields(t: DateTime)
    ensures DigitsAt(DateStamp(t), 0, 4, t.year) && DigitsAt(DateStamp(t), 4, 6, t.month)
    ensures DigitsAt(DateStamp(t), 6, 8, t.day) && DigitsAt(DateStamp(t), 8, 10, t.hour)
    ensures DigitsAt(DateStamp(t), 10, 12, t.minute) && DigitsAt(DateStamp(t), 12, 14, t.second)
  {
    DateStampSlices(t);
    PadDecimalRoundTrip(t.year, 4);
    PadDecimalRoundTrip(t.month, 2);
    PadDecimalRoundTrip(t.day, 2);
    PadDecimalRoundTrip(t.hour, 2);
    PadDecimalRoundTrip(t.minute, 2);
    PadDecimalRoundTrip(t.second, 2);
  }

  /** Distinct clock readings give distinct stamps. */
  lemma DateStampInjective(a: DateTime, b: DateTime)
    requires DateStamp(a) == DateStamp(b)
    ensures a == b
  {
    DateStampFields(a);
    DateStampFields(b);
  }

  /** Single digits are padded with a leading zero. */
  lemma ZeroPaddingExample()
    ensures PadDecimal(7, 2) == "07" && PadDecimal(0, 2) == "00" && PadDecimal(2016, 4) == "2016"
  {
  }
}
