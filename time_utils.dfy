/**
 * Time arithmetic of the rate engine (src/lib/time-utils.ts): clock text, the 6-minute
 * round-up, decimal hours, durations with overnight wrap, meal minutes, the latest and
 * earliest of several times, and the payment due date.
 */
module TimeUtils {
  import opened Wrappers
  import opened RateConstants

  const MINUTES_PER_DAY: int := 24 * 60

  /** A wall-clock time of day, in minutes since midnight. */
  type Time = m: int | 0 <= m < 1440

  /** A number of hours written in tenths of an hour (15 stands for 1.5 h). */
  type Tenths = int

  // ---------------------------------------------------------------------------
  // Clock text "H:MM" / "HH:MM"
  // ---------------------------------------------------------------------------

  predicate IsDigit(c: char)
  {
    '0' <= c <= '9'
  }

  function DigitValue(c: char): (d: nat)
    requires IsDigit(c)
    ensures d < 10
  {
    c as int - '0' as int
  }

  function DigitChar(d: nat): (c: char)
    requires d < 10
    ensures IsDigit(c) && DigitValue(c) == d
  {
    ('0' as int + d) as char
  }

  predicate AllDigits(s: string)
  {
    forall k :: 0 <= k < |s| ==> IsDigit(s[k])
  }

  /** The value of a string of decimal digits, as JavaScript's `Number` reads it. */
  function DecimalValue(s: string): nat
    requires AllDigits(s)
  {
    if s == [] then 0 else 10 * DecimalValue(s[..|s| - 1]) + DigitValue(s[|s| - 1])
  }

  lemma DecimalValueOfOne(s: string)
    requires |s| == 1 && IsDigit(s[0])
    ensures DecimalValue(s) == DigitValue(s[0])
  {
    assert s[..0] == [];
  }

  lemma DecimalValueOfTwo(s: string)
    requires |s| == 2 && IsDigit(s[0]) && IsDigit(s[1])
    ensures DecimalValue(s) == 10 * DigitValue(s[0]) + DigitValue(s[1])
  {
    DecimalValueOfOne(s[..1]);
  }

  /** The hour part of `^([01]?\d|2[0-3])...$`: one digit, or 00-19, or 20-23. */
  predicate IsValidHourText(h: string)
  {
    || (|h| == 1 && IsDigit(h[0]))
    || (|h| == 2 && (h[0] == '0' || h[0] == '1') && IsDigit(h[1]))
    || (|h| == 2 && h[0] == '2' && '0' <= h[1] <= '3')
  }

  /** The minute part of `...:([0-5]\d)$`. */
  predicate IsValidMinuteText(m: string)
  {
    |m| == 2 && '0' <= m[0] <= '5' && IsDigit(m[1])
  }

  /** `isValidTime`: the whole text matches `^([01]?\d|2[0-3]):([0-5]\d)$`. The minute part is
      always the last two characters, so the colon stands third from the end. */
  predicate IsValidTime(s: string)
  {
    |s| >= 3 && s[|s| - 3] == ':' && IsValidHourText(s[..|s| - 3]) && IsValidMinuteText(s[|s| - 2..])
  }

  /** The text before the only colon of a valid time. */
  function HourText(s: string): (h: string)
    requires IsValidTime(s)
    ensures AllDigits(h) && 1 <= |h| <= 2
  {
    s[..|s| - 3]
  }

  /** The text after the only colon of a valid time. */
  function MinuteText(s: string): (m: string)
    requires IsValidTime(s)
    ensures AllDigits(m) && |m| == 2
  {
    s[|s| - 2..]
  }

  lemma HourAndMinuteBounds(s: string)
    requires IsValidTime(s)
    ensures DecimalValue(HourText(s)) < 24 && DecimalValue(MinuteText(s)) < 60
  {
    var h, m := HourText(s), MinuteText(s);
    if |h| == 1 { DecimalValueOfOne(h); } else { DecimalValueOfTwo(h); }
    DecimalValueOfTwo(m);
  }

  /** `parseTimeToMinutes`: split at the colon and read hours and minutes. Malformed text
      (where the source yields NaN) is excluded by the precondition. */
  function ParseTimeToMinutes(s: string): (t: Time)
    requires IsValidTime(s)
  {
    HourAndMinuteBounds(s);
    DecimalValue(HourText(s)) * 60 + DecimalValue(MinuteText(s))
  }

  /** `String(n).padStart(2, "0")` for n below 100. */
  function TwoDigits(n: nat): (s: string)
    requires n < 100
  {
    [DigitChar(n / 10), DigitChar(n % 10)]
  }

  /** "HH:MM" with both parts zero-padded to two digits. */
  function FormatHourMinute(h: nat, m: nat): string
    requires h < 100 && m < 100
  {
    TwoDigits(h) + ":" + TwoDigits(m)
  }

  function FormatTime(t: Time): string
  {
    FormatHourMinute(t / 60, t % 60)
  }

  /** Formatting a time gives valid clock text that parses back to the same time. */
  lemma FormatTimeRoundTrip(t: Time)
    ensures IsValidTime(FormatTime(t)) && |FormatTime(t)| == 5
    ensures ParseTimeToMinutes(FormatTime(t)) == t
  {
    var s := FormatTime(t);
    assert HourText(s) == TwoDigits(t / 60);
    assert MinuteText(s) == TwoDigits(t % 60);
    DecimalValueOfTwo(HourText(s));
    DecimalValueOfTwo(MinuteText(s));
  }

  /** Valid clock text is exactly a formatted time, possibly without the leading zero of the hour:
      with FormatTimeRoundTrip this characterises `isValidTime` in both directions. */
  lemma ValidTimeIsFormatted(s: string)
    requires IsValidTime(s)
    ensures |s| == 5 ==> s == FormatTime(ParseTimeToMinutes(s))
    ensures |s| == 4 ==> ['0'] + s == FormatTime(ParseTimeToMinutes(s))
  {
    var h, m := HourText(s), MinuteText(s);
    HourAndMinuteBounds(s);
    var t := ParseTimeToMinutes(s);
    assert t / 60 == DecimalValue(h) && t % 60 == DecimalValue(m);
    DecimalValueOfTwo(m);
    assert TwoDigits(t % 60) == m;
    if |h| == 1 {
      DecimalValueOfOne(h);
      assert TwoDigits(t / 60) == ['0'] + h;
      assert ['0'] + s == (['0'] + h) + ":" + m;
    } else {
      DecimalValueOfTwo(h);
      assert TwoDigits(t / 60) == h;
      assert s == h + ":" + m;
    }
  }

  /** A time with no leading zero on a single-digit hour is valid as well. */
  lemma UnpaddedTimeIsValid(t: Time)
    requires t < 600
    ensures IsValidTime(FormatTime(t)[1..])
    ensures ParseTimeToMinutes(FormatTime(t)[1..]) == t
  {
    var s := FormatTime(t)[1..];
    assert HourText(s) == [DigitChar(t / 60)];
    assert MinuteText(s) == TwoDigits(t % 60);
    DecimalValueOfOne(HourText(s));
    DecimalValueOfTwo(MinuteText(s));
  }

  /** `snapToSixMinutes`: round the minute to the nearest multiple of 6 (half up,
      as `Math.round` does); a minute that rounds to 60 rolls over to the next hour, modulo 24. */
  function SnapToSixMinutes(s: string): (r: string)
    requires IsValidTime(s)
    ensures IsValidTime(r) && |r| == 5
    ensures ParseTimeToMinutes(r) % 6 == 0
    ensures ParseTimeToMinutes(r) == (6 * ((ParseTimeToMinutes(s) + 3) / 6)) % MINUTES_PER_DAY
  {
    HourAndMinuteBounds(s);
    var h := DecimalValue(HourText(s));
    var m := DecimalValue(MinuteText(s));
    var snapped := ((m + 3) / 6) * 6;
    var adjustedH := if snapped == 60 then (h + 1) % 24 else h;
    var adjustedM := if snapped == 60 then 0 else snapped;
    assert h * 60 + m == ParseTimeToMinutes(s);
    SnapArithmetic(h, m, adjustedH, adjustedM);
    FormatHourMinuteRoundTrip(adjustedH, adjustedM);
    FormatHourMinute(adjustedH, adjustedM)
  }

  lemma FormatHourMinuteRoundTrip(h: nat, m: nat)
    requires h < 24 && m < 60
    ensures IsValidTime(FormatHourMinute(h, m)) && |FormatHourMinute(h, m)| == 5
    ensures ParseTimeToMinutes(FormatHourMinute(h, m)) == h * 60 + m
  {
    var t: Time := h * 60 + m;
    assert t / 60 == h && t % 60 == m;
    assert FormatHourMinute(h, m) == FormatTime(t);
    FormatTimeRoundTrip(t);
  }

  /** Snapping the minute within its hour is snapping the whole time of day. */
  lemma SnapArithmetic(h: nat, m: nat, adjustedH: int, adjustedM: int)
    requires h < 24 && m < 60
    requires adjustedH == if ((m + 3) / 6) * 6 == 60 then (h + 1) % 24 else h
    requires adjustedM == if ((m + 3) / 6) * 6 == 60 then 0 else ((m + 3) / 6) * 6
    ensures 0 <= adjustedH < 24 && 0 <= adjustedM < 60
    ensures (adjustedH * 60 + adjustedM) % 6 == 0
    ensures adjustedH * 60 + adjustedM == (6 * ((h * 60 + m + 3) / 6)) % MINUTES_PER_DAY
  {
    assert (h * 60 + m + 3) / 6 == h * 10 + (m + 3) / 6;
  }

  // ---------------------------------------------------------------------------
  // Minutes and hours
  // ---------------------------------------------------------------------------

  /** `roundUpToTenthHour`: the least multiple of 6 minutes that is not below `minutes`. */
  function RoundUpToTenthHour(minutes: int): (r: int)
    ensures r % TIME_INCREMENT_MINUTES == 0
    ensures minutes <= r < minutes + TIME_INCREMENT_MINUTES
  {
    ((minutes + TIME_INCREMENT_MINUTES - 1) / TIME_INCREMENT_MINUTES) * TIME_INCREMENT_MINUTES
  }

  /** Rounding up leaves a multiple of 6 alone, so rounding twice is rounding once. */
  lemma RoundUpToTenthHourIdempotent(minutes: int)
    ensures minutes % TIME_INCREMENT_MINUTES == 0 ==> RoundUpToTenthHour(minutes) == minutes
    ensures RoundUpToTenthHour(RoundUpToTenthHour(minutes)) == RoundUpToTenthHour(minutes)
  {
  }

  /** `minutesToDecimalHours`: minutes as hours rounded half up to one decimal, returned as a
      number of tenths; exact (minutes / 6) when `minutes` is a multiple of 6. */
  function MinutesToDecimalHours(minutes: int): (tenths: Tenths)
    ensures 6 * tenths - 3 <= minutes < 6 * tenths + 3
    ensures minutes % TIME_INCREMENT_MINUTES == 0 ==> 6 * tenths == minutes
  {
    (minutes + 3) / 6
  }

  /** The time of day `k` minutes after `start`. */
  function ClockAfter(start: Time, k: int): Time
  {
    (start + k) % MINUTES_PER_DAY
  }

  /** `calculateDuration`: minutes from `start` forward to `end`; an end at or before the
      start is on the next day. */
  function CalculateDuration(start: Time, end: Time): (d: int)
    ensures 1 <= d <= MINUTES_PER_DAY
    ensures end > start ==> d == end - start
    ensures end <= start ==> d == end + MINUTES_PER_DAY - start
  {
    var endMin := if end <= start then end + MINUTES_PER_DAY else end;
    endMin - start
  }

  /** After the duration has elapsed the clock shows `end`. */
  lemma DurationReachesEnd(start: Time, end: Time)
    ensures ClockAfter(start, CalculateDuration(start, end)) == end
  {
  }

  /** The duration is the least positive number of minutes after which the clock shows `end`. */
  lemma DurationIsLeastPositive(start: Time, end: Time, k: int)
    requires 1 <= k < CalculateDuration(start, end)
    ensures ClockAfter(start, k) != end
  {
    if start + k >= MINUTES_PER_DAY {
      assert ClockAfter(start, k) == start + k - MINUTES_PER_DAY;
    } else {
      assert ClockAfter(start, k) == start + k;
    }
  }

  /** The documented overnight example, and a whole day for equal times. */
  lemma DurationExamples()
    ensures CalculateDuration(18 * 60, 2 * 60) == 480
    ensures CalculateDuration(22 * 60, 6 * 60) == 480
    ensures forall t: Time :: CalculateDuration(t, t) == MINUTES_PER_DAY
  {
  }

  /** The position of `t` on a clock that starts at `reference`: a time before the
      reference is taken to fall on the next day. */
  function WrapAfter(t: Time, reference: Time): (p: int)
    ensures reference <= p < reference + MINUTES_PER_DAY
    ensures p == t || p == t + MINUTES_PER_DAY
  {
    if t < reference then t + MINUTES_PER_DAY else t
  }

  /** The position shows the same time of day. */
  lemma WrapAfterIsSameClockTime(t: Time, reference: Time)
    ensures WrapAfter(t, reference) % MINUTES_PER_DAY == t
  {
  }

  /** Different times have different positions. */
  lemma WrapAfterInjective(a: Time, b: Time, reference: Time)
    requires WrapAfter(a, reference) == WrapAfter(b, reference)
    ensures a == b
  {
  }

  // ---------------------------------------------------------------------------
  // Meals
  // ---------------------------------------------------------------------------

  /** A deductible meal period; either end may be missing. */
  datatype MealPeriod = MealPeriod(start: Option<Time>, finish: Option<Time>)

  /** The minutes one meal deducts: its duration when both ends are recorded, else nothing. */
  function MealDuration(meal: MealPeriod): (d: int)
    ensures 0 <= d <= MINUTES_PER_DAY
    ensures d == 0 <==> (meal.start.None? || meal.finish.None?)
    ensures meal.start.Some? && meal.finish.Some? ==> d == CalculateDuration(meal.start.value, meal.finish.value)
  {
    if meal.start.Some? && meal.finish.Some? then CalculateDuration(meal.start.value, meal.finish.value) else 0
  }

  /** The total of `calculateMealMinutes`, meal by meal. */
  function MealMinutes(meals: seq<MealPeriod>): (total: int)
    ensures 0 <= total <= MINUTES_PER_DAY * |meals|
  {
    if meals == [] then 0 else MealMinutes(meals[..|meals| - 1]) + MealDuration(meals[|meals| - 1])
  }

  /** Meal minutes add up over consecutive lists of meals. */
  lemma {:induction false} MealMinutesAppend(a: seq<MealPeriod>, b: seq<MealPeriod>)
    ensures MealMinutes(a + b) == MealMinutes(a) + MealMinutes(b)
    decreases |b|
  {
    if b == [] {
      assert a + b == a;
    } else {
      assert (a + b)[..|a + b| - 1] == a + b[..|b| - 1];
      MealMinutesAppend(a, b[..|b| - 1]);
    }
  }

  /** `calculateMealMinutes`: a loop accumulating the duration of every complete meal. */
  method CalculateMealMinutes(meals: seq<MealPeriod>) returns (total: int)
    ensures total == MealMinutes(meals)
  {
    total := 0;
    for i := 0 to |meals|
      invariant total == MealMinutes(meals[..i])
    {
      var meal := meals[i];
      if meal.start.Some? && meal.finish.Some? {
        total := total + CalculateDuration(meal.start.value, meal.finish.value);
      }
      assert meals[..i + 1][..i] == meals[..i];
    }
    assert meals[..|meals|] == meals;
  }

  // ---------------------------------------------------------------------------
  // Latest and earliest time
  // ---------------------------------------------------------------------------

  /** The candidates that are present, in order (the `filter` step). */
  function PresentTimes(times: seq<Option<Time>>): (valid: seq<Time>)
    ensures forall t :: t in valid <==> Some(t) in times
  {
    if times == [] then []
    else (if times[0].Some? then [times[0].value] else []) + PresentTimes(times[1..])
  }

  /** The `reduce` step of `getLatestTime`: keep the running latest unless a later
      candidate lies strictly further after the reference. */
  function LatestOf(reference: Time, latest: Time, rest: seq<Time>): (r: Time)
    ensures r == latest || r in rest
    ensures WrapAfter(latest, reference) <= WrapAfter(r, reference)
    ensures forall t :: t in rest ==> WrapAfter(t, reference) <= WrapAfter(r, reference)
    decreases |rest|
  {
    if rest == [] then latest
    else
      var time := rest[0];
      var next := if WrapAfter(time, reference) > WrapAfter(latest, reference) then time else latest;
      LatestOf(reference, next, rest[1..])
  }

  /** `getLatestTime`: None (the source throws "No valid times provided") when no candidate
      is present; otherwise the present candidate furthest after the reference. */
  function GetLatestTime(reference: Time, times: seq<Option<Time>>): (r: Option<Time>)
    ensures r.None? <==> forall i :: 0 <= i < |times| ==> times[i].None?
    ensures r.Some? ==> Some(r.value) in times
    ensures r.Some? ==> forall i :: 0 <= i < |times| && times[i].Some? ==>
      WrapAfter(times[i].value, reference) <= WrapAfter(r.value, reference)
  {
    var valid := PresentTimes(times);
    if |valid| == 0 then
      None
    else
      assert valid[0] in valid;
      Some(LatestOf(reference, valid[0], valid[1..]))
  }

  /** The latest time is the only present candidate that no other lies after. */
  lemma LatestTimeIsUnique(reference: Time, times: seq<Option<Time>>, t: Time)
    requires Some(t) in times
    requires forall i :: 0 <= i < |times| && times[i].Some? ==>
      WrapAfter(times[i].value, reference) <= WrapAfter(t, reference)
    ensures GetLatestTime(reference, times) == Some(t)
  {
    var r := GetLatestTime(reference, times);
    var j :| 0 <= j < |times| && times[j] == Some(t);
    var k :| 0 <= k < |times| && times[k] == Some(r.value);
    WrapAfterInjective(t, r.value, reference);
  }

  /** The `reduce` step of `getEarliestTime`: plain minutes, no overnight handling. */
  function EarliestOf(earliest: Time, rest: seq<Time>): (r: Time)
    ensures r == earliest || r in rest
    ensures r <= earliest && forall t :: t in rest ==> r <= t
    decreases |rest|
  {
    if rest == [] then earliest
    else
      assert forall t :: t in rest ==> t == rest[0] || t in rest[1..];
      EarliestOf(if rest[0] < earliest then rest[0] else earliest, rest[1..])
  }

  /** `getEarliestTime`: None when no candidate is present, otherwise the smallest present time. */
  function GetEarliestTime(times: seq<Option<Time>>): (r: Option<Time>)
    ensures r.None? <==> forall i :: 0 <= i < |times| ==> times[i].None?
    ensures r.Some? ==> Some(r.value) in times
    ensures r.Some? ==> forall i :: 0 <= i < |times| && times[i].Some? ==> r.value <= times[i].value
  {
    var valid := PresentTimes(times);
    if |valid| == 0 then
      None
    else
      assert forall t :: t in valid ==> t == valid[0] || t in valid[1..];
      Some(EarliestOf(valid[0], valid[1..]))
  }

  // ---------------------------------------------------------------------------
  // Payment due date, over day numbers
  // ---------------------------------------------------------------------------

  /** A calendar date as a day number: days since Thursday 1 January 1970. */
  type Day = int

  const SATURDAY: int := 6
  const WEDNESDAY: int := 3

  /** Day of the week, 0 for Sunday through 6 for Saturday. */
  function Weekday(d: Day): (w: int)
    ensures 0 <= w < 7
  {
    (d + 4) % 7
  }

  lemma WeekdayAfter(d: Day, j: int)
    ensures Weekday(d + j) == (Weekday(d) + j) % 7
  {
  }

  /** `s` is the first Saturday strictly after `d`. */
  ghost predicate IsFirstSaturdayAfter(s: Day, d: Day)
  {
    d < s && Weekday(s) == SATURDAY && forall k :: d < k < s ==> Weekday(k) != SATURDAY
  }

  /** date-fns `nextSaturday`: the first Saturday strictly after `d`. */
  function NextSaturday(d: Day): (s: Day)
    ensures d < s <= d + 7
    ensures IsFirstSaturdayAfter(s, d)
  {
    var delta := SATURDAY - Weekday(d);
    var s := d + (if delta <= 0 then delta + 7 else delta);
    assert forall k :: d < k < s ==> Weekday(k) != SATURDAY by {
      forall k | d < k < s ensures Weekday(k) != SATURDAY {
        WeekdayAfter(d, k - d);
      }
    }
    WeekdayAfter(d, s - d);
    s
  }

  /** `calculatePaymentDueDate`: the Wednesday after the second Saturday following the work date. */
  function CalculatePaymentDueDate(workDate: Day): (due: Day)
    ensures IsFirstSaturdayAfter(due - 11, workDate)
    ensures Weekday(due) == WEDNESDAY
    ensures workDate + 12 <= due <= workDate + 18
  {
    var firstSat := if Weekday(workDate) == SATURDAY then workDate + 7 else NextSaturday(workDate);
    assert IsFirstSaturdayAfter(firstSat, workDate) by {
      if Weekday(workDate) == SATURDAY {
        forall k | workDate < k < firstSat ensures Weekday(k) != SATURDAY {
          WeekdayAfter(workDate, k - workDate);
        }
        WeekdayAfter(workDate, 7);
      }
    }
    var secondSat := firstSat + 7;
    WeekdayAfter(firstSat, 11);
    secondSat + 4
  }

  /** The documented example: Monday 6 January 2025 (day 20094) falls due on Wednesday 22 January. */
  lemma PaymentDueDateExample()
    ensures Weekday(20094) == 1
    ensures CalculatePaymentDueDate(20094) == 20094 + 16
  {
  }
}
