/**
 * The Exhibit G pay engine (src/lib/rate-engine.ts): one reported work day becomes an
 * itemised pay breakdown under the agreement's overtime, minimum-guarantee, special-day,
 * meal-penalty and forced-call rules.
 */
module RateEngine {
  import opened Wrappers
  import opened RateConstants
  import opened TimeUtils

  // ---------------------------------------------------------------------------
  // Data model
  // ---------------------------------------------------------------------------

  /** One reported work day (the fields the engine reads). */
  datatype ExhibitGInput = ExhibitGInput(
    workStatus: WorkStatus,
    callTime: Time,
    dismissOnSet: Time,
    dismissMakeupWardrobe: Option<Time>,
    ndMealIn: Option<Time>,
    ndMealOut: Option<Time>,
    firstMealStart: Option<Time>,
    firstMealFinish: Option<Time>,
    secondMealStart: Option<Time>,
    secondMealFinish: Option<Time>,
    stuntAdjustment: real,
    forcedCall: bool,
    isSixthDay: bool,
    isSeventhDay: bool,
    isHoliday: bool)

  /** The overtime band a segment is charged in (its display label is not modelled). */
  datatype Tier = StraightTime | TimeAndHalf | DoubleTime

  /** One charged band: hours in tenths, hourly rate, effective multiplier and rounded subtotal. */
  datatype TimeSegment = TimeSegment(tier: Tier, hours: Tenths, rate: real, multiplier: real, subtotal: real)

  /** The meal a penalty entry belongs to ("1st Meal", "2nd Meal", "3rd Meal"). */
  datatype MealLabel = FirstMeal | SecondMeal | ThirdMeal

  /** One half-hour penalty period. */
  datatype MealPenalty = MealPenalty(meal: MealLabel, minutesLate: int, amount: real)

  /** The special-day classifications ("6th_day", "7th_day", "holiday"). */
  datatype SpecialDay = SixthDay | SeventhDay | Holiday

  datatype DayMultiplier = DayMultiplier(applied: bool, kind: Option<SpecialDay>, multiplier: real)

  datatype PenaltySummary = PenaltySummary(mealPenalties: seq<MealPenalty>, forcedCallPenalty: real, totalPenalties: real)

  /** The itemised result; durations are in tenths of an hour. */
  datatype CalculationBreakdown = CalculationBreakdown(
    baseRate: real,
    hourlyRate: real,
    adjustedBaseRate: real,
    adjustedHourlyRate: real,
    totalWorkHours: Tenths,
    totalMealTime: Tenths,
    netWorkHours: Tenths,
    segments: seq<TimeSegment>,
    penalties: PenaltySummary,
    dayMultiplier: DayMultiplier,
    grandTotal: real)

  datatype RateError = InvalidTimeRelationship(message: string)

  const ND_MEAL_MESSAGE: string := "ND meal must end within 2 hours of call time"

  // ---------------------------------------------------------------------------
  // Arithmetic helpers
  // ---------------------------------------------------------------------------

  function Min(a: int, b: int): int { if a <= b then a else b }

  function Max(a: int, b: int): int { if a >= b then a else b }

  function MinReal(a: real, b: real): real { if a <= b then a else b }

  function MaxReal(a: real, b: real): real { if a >= b then a else b }

  /** `round2`: `Math.round(x * 100) / 100`, where `Math.round(y)` is the floor of `y + 1/2`. */
  function Round2(x: real): real
  {
    (x * 100.0 + 0.5).Floor as real / 100.0
  }

  /** `round2` lands on whole cents, within half a cent of its argument. */
  lemma Round2IsNearestCent(x: real)
    ensures Round2(x) - 0.005 <= x < Round2(x) + 0.005
    ensures (Round2(x) * 100.0).Floor as real == Round2(x) * 100.0
  {
  }

  /** `round1`: `Math.round(x * 10) / 10`. */
  function Round1(x: real): real
  {
    (x * 10.0 + 0.5).Floor as real / 10.0
  }

  /** `round1` lands on whole tenths, within a twentieth of its argument. */
  lemma Round1IsNearestTenth(x: real)
    ensures Round1(x) - 0.05 <= x < Round1(x) + 0.05
    ensures (Round1(x) * 10.0).Floor as real == Round1(x) * 10.0
  {
  }

  /** `round2` leaves whole cents unchanged. */
  lemma Round2OfCents(k: int)
    ensures Round2(k as real / 100.0) == k as real / 100.0
  {
    var x := k as real / 100.0;
    assert x * 100.0 == k as real;
    assert (x * 100.0 + 0.5).Floor == k;
  }

  /** Every hours value of the engine is a whole number of tenths, on which `round1` is the
      identity; that is why the segment builder below works on tenths without calling it. */
  lemma Round1OfTenths(k: Tenths)
    ensures Round1(k as real / 10.0) == k as real / 10.0
  {
    var x := k as real / 10.0;
    assert x * 10.0 == k as real;
    assert (x * 10.0 + 0.5).Floor == k;
  }

  // ---------------------------------------------------------------------------
  // ND meal, work span and net hours
  // ---------------------------------------------------------------------------

  /** An ND (non-deductible) meal is recorded when both of its ends are. */
  predicate HasNdMeal(input: ExhibitGInput)
  {
    input.ndMealIn.Some? && input.ndMealOut.Some?
  }

  /** ND meal end, on the clock that starts at call time. */
  function NdMealOutPosition(input: ExhibitGInput): int
    requires HasNdMeal(input)
  {
    WrapAfter(input.ndMealOut.value, input.callTime)
  }

  /** The rejected case: the ND meal ends more than two hours after call. */
  predicate NdMealTooLate(input: ExhibitGInput)
  {
    HasNdMeal(input) && NdMealOutPosition(input) - input.callTime > 2 * 60
  }

  /** Work ends at the later of the two dismissals, judged on the clock that starts at call. */
  function WorkEnd(input: ExhibitGInput): (end: Time)
    ensures end == input.dismissOnSet || Some(end) == input.dismissMakeupWardrobe
    ensures WrapAfter(input.dismissOnSet, input.callTime) <= WrapAfter(end, input.callTime)
    ensures input.dismissMakeupWardrobe.Some? ==>
      WrapAfter(input.dismissMakeupWardrobe.value, input.callTime) <= WrapAfter(end, input.callTime)
  {
    var candidates := [Some(input.dismissOnSet), input.dismissMakeupWardrobe];
    var latest := GetLatestTime(input.callTime, candidates);
    assert candidates[0].Some?;
    latest.value
  }

  /** Elapsed minutes from call to the end of work (overnight wrap included). */
  function WorkSpanMinutes(input: ExhibitGInput): (m: int)
    ensures 1 <= m <= MINUTES_PER_DAY
  {
    CalculateDuration(input.callTime, WorkEnd(input))
  }

  /** The deductible meals; an ND meal is not among them. */
  function Meals(input: ExhibitGInput): seq<MealPeriod>
  {
    [MealPeriod(input.firstMealStart, input.firstMealFinish),
     MealPeriod(input.secondMealStart, input.secondMealFinish)]
  }

  /** Work span less deductible meal minutes, never negative. */
  function NetWorkMinutes(input: ExhibitGInput): (m: int)
    ensures m >= 0
  {
    Max(0, WorkSpanMinutes(input) - MealMinutes(Meals(input)))
  }

  // ---------------------------------------------------------------------------
  // Day multiplier and overtime bands
  // ---------------------------------------------------------------------------

  function SpecialDayMultiplier(kind: Option<SpecialDay>): real
  {
    match kind
    case None => 1.0
    case Some(SixthDay) => MULTIPLIERS.sixthDay
    case Some(SeventhDay) => MULTIPLIERS.seventhDay
    case Some(Holiday) => MULTIPLIERS.holiday
  }

  /** `getDayMultiplier`: holiday takes precedence over 7th day, which takes precedence over 6th day. */
  function GetDayMultiplier(input: ExhibitGInput): (d: DayMultiplier)
    ensures d.applied <==> (input.isHoliday || input.isSeventhDay || input.isSixthDay)
    ensures d.applied <==> d.kind.Some?
    ensures d.kind == Some(Holiday) <==> input.isHoliday
    ensures d.kind == Some(SeventhDay) <==> !input.isHoliday && input.isSeventhDay
    ensures d.kind == Some(SixthDay) <==> !input.isHoliday && !input.isSeventhDay && input.isSixthDay
    ensures d.multiplier == SpecialDayMultiplier(d.kind)
  {
    if input.isHoliday then DayMultiplier(true, Some(Holiday), MULTIPLIERS.holiday)
    else if input.isSeventhDay then DayMultiplier(true, Some(SeventhDay), MULTIPLIERS.seventhDay)
    else if input.isSixthDay then DayMultiplier(true, Some(SixthDay), MULTIPLIERS.sixthDay)
    else DayMultiplier(false, None, 1.0)
  }

  /** The largest multiplier among the flags that are set (1.0 when none is). */
  function LargestFlaggedMultiplier(input: ExhibitGInput): real
  {
    MaxReal(1.0, MaxReal(if input.isHoliday then MULTIPLIERS.holiday else 0.0,
      MaxReal(if input.isSeventhDay then MULTIPLIERS.seventhDay else 0.0,
              if input.isSixthDay then MULTIPLIERS.sixthDay else 0.0)))
  }

  /** The precedence never lowers pay: the chosen multiplier is the largest one flagged. */
  lemma DayMultiplierIsLargestFlagged(input: ExhibitGInput)
    ensures GetDayMultiplier(input).multiplier == LargestFlaggedMultiplier(input)
    ensures 1.0 <= GetDayMultiplier(input).multiplier <= 2.0
  {
  }

  /** Where time-and-a-half ends, in hours: 12 when the stunt adjustment exceeds the base
      daily rate, otherwise the table's 10. */
  function EffectiveTimeAndHalfEnd(baseRate: real, stuntAdjustment: real): (end: int)
    ensures end == 12 <==> stuntAdjustment > baseRate
    ensures end != 12 ==> end == OVERTIME.timeAndHalfEnd
  {
    if stuntAdjustment > baseRate then 12 else OVERTIME.timeAndHalfEnd
  }

  function TierMultiplier(tier: Tier): real
  {
    match tier
    case StraightTime => MULTIPLIERS.straight
    case TimeAndHalf => MULTIPLIERS.timeAndHalf
    case DoubleTime => MULTIPLIERS.doubleTime
  }

  function TierRank(tier: Tier): int
  {
    match tier
    case StraightTime => 0
    case TimeAndHalf => 1
    case DoubleTime => 2
  }

  /** The pay for `hours` tenths of an hour at `rate` times `multiplier`, to the cent. */
  function SegmentPay(hours: Tenths, rate: real, multiplier: real): real
  {
    Round2(hours as real / 10.0 * rate * multiplier)
  }

  /** A charged band: the effective multiplier is the larger of the tier's and the day's. */
  function MakeSegment(tier: Tier, hours: Tenths, rate: real, dayMultiplier: real): TimeSegment
  {
    var multiplier := MaxReal(TierMultiplier(tier), dayMultiplier);
    TimeSegment(tier, hours, rate, multiplier, SegmentPay(hours, rate, multiplier))
  }

  /** What every emitted segment satisfies. */
  predicate WellFormedSegment(s: TimeSegment, rate: real, dayMultiplier: real)
  {
    && s.hours > 0
    && s.rate == rate
    && s.multiplier == MaxReal(TierMultiplier(s.tier), dayMultiplier)
    && s.multiplier >= dayMultiplier
    && s.subtotal == SegmentPay(s.hours, rate, s.multiplier)
  }

  /** `buildTimeSegments` as a value: straight time up to 8 h, then time-and-a-half up to
      `timeAndHalfEnd`, then double time for the rest; an empty band is not emitted. */
  function TimeSegments(netWorkHours: Tenths, rate: real, dayMultiplier: real, timeAndHalfEnd: int): seq<TimeSegment>
  {
    var straightHours := Min(netWorkHours, OVERTIME.straightTimeEnd * 10);
    var straight := if straightHours > 0 then [MakeSegment(StraightTime, straightHours, rate, dayMultiplier)] else [];
    var remaining := if straightHours > 0 then netWorkHours - straightHours else netWorkHours;
    var timeAndHalfCapacity := (timeAndHalfEnd - OVERTIME.straightTimeEnd) * 10;
    var timeAndHalfHours := Min(remaining, timeAndHalfCapacity);
    var timeAndHalf := if timeAndHalfHours > 0 then [MakeSegment(TimeAndHalf, timeAndHalfHours, rate, dayMultiplier)] else [];
    var remaining' := if timeAndHalfHours > 0 then remaining - timeAndHalfHours else remaining;
    var double := if remaining' > 0 then [MakeSegment(DoubleTime, remaining', rate, dayMultiplier)] else [];
    straight + timeAndHalf + double
  }

  /** `buildTimeSegments` as the source writes it: push each non-empty band and take its
      hours off the remaining pool. */
  method BuildTimeSegments(netWorkHours: Tenths, rate: real, dayMultiplier: real, timeAndHalfEnd: int)
    returns (segments: seq<TimeSegment>)
    ensures segments == TimeSegments(netWorkHours, rate, dayMultiplier, timeAndHalfEnd)
  {
    segments := [];
    var remainingHours := netWorkHours;
    var straightHours := Min(remainingHours, OVERTIME.straightTimeEnd * 10);
    if straightHours > 0 {
      segments := segments + [MakeSegment(StraightTime, straightHours, rate, dayMultiplier)];
      remainingHours := remainingHours - straightHours;
    }
    var timeAndHalfCapacity := (timeAndHalfEnd - OVERTIME.straightTimeEnd) * 10;
    var timeAndHalfHours := Min(remainingHours, timeAndHalfCapacity);
    if timeAndHalfHours > 0 {
      segments := segments + [MakeSegment(TimeAndHalf, timeAndHalfHours, rate, dayMultiplier)];
      remainingHours := remainingHours - timeAndHalfHours;
    }
    if remainingHours > 0 {
      segments := segments + [MakeSegment(DoubleTime, remainingHours, rate, dayMultiplier)];
    }
  }

  /** Tiers appear at most once each, in band order. */
  predicate TiersInOrder(segments: seq<TimeSegment>)
  {
    forall i, j :: 0 <= i < j < |segments| ==> TierRank(segments[i].tier) < TierRank(segments[j].tier)
  }

  predicate AllWellFormed(segments: seq<TimeSegment>, rate: real, dayMultiplier: real)
  {
    forall i :: 0 <= i < |segments| ==> WellFormedSegment(segments[i], rate, dayMultiplier)
  }

  /** At most one segment per tier, in tier order, each non-empty and charged at the larger of
      its tier's and the day's multiplier. */
  lemma TimeSegmentsShape(netWorkHours: Tenths, rate: real, dayMultiplier: real, timeAndHalfEnd: int)
    ensures |TimeSegments(netWorkHours, rate, dayMultiplier, timeAndHalfEnd)| <= 3
    ensures TiersInOrder(TimeSegments(netWorkHours, rate, dayMultiplier, timeAndHalfEnd))
    ensures AllWellFormed(TimeSegments(netWorkHours, rate, dayMultiplier, timeAndHalfEnd), rate, dayMultiplier)
  {
    var straightHours := Min(netWorkHours, OVERTIME.straightTimeEnd * 10);
    var straight := if straightHours > 0 then [MakeSegment(StraightTime, straightHours, rate, dayMultiplier)] else [];
    var remaining := if straightHours > 0 then netWorkHours - straightHours else netWorkHours;
    var timeAndHalfCapacity := (timeAndHalfEnd - OVERTIME.straightTimeEnd) * 10;
    var timeAndHalfHours := Min(remaining, timeAndHalfCapacity);
    var timeAndHalf := if timeAndHalfHours > 0 then [MakeSegment(TimeAndHalf, timeAndHalfHours, rate, dayMultiplier)] else [];
    var remaining' := if timeAndHalfHours > 0 then remaining - timeAndHalfHours else remaining;
    var double := if remaining' > 0 then [MakeSegment(DoubleTime, remaining', rate, dayMultiplier)] else [];
    var segments := straight + timeAndHalf + double;
    assert segments == TimeSegments(netWorkHours, rate, dayMultiplier, timeAndHalfEnd);
    forall i | 0 <= i < |segments|
      ensures TierRank(segments[i].tier) == if i < |straight| then 0 else if i < |straight| + |timeAndHalf| then 1 else 2
      ensures WellFormedSegment(segments[i], rate, dayMultiplier)
    {
      if i < |straight| {
        assert segments[i] == straight[0];
        MakeSegmentWellFormed(StraightTime, straightHours, rate, dayMultiplier);
      } else if i < |straight| + |timeAndHalf| {
        assert segments[i] == timeAndHalf[0];
        MakeSegmentWellFormed(TimeAndHalf, timeAndHalfHours, rate, dayMultiplier);
      } else {
        assert segments[i] == double[0];
        MakeSegmentWellFormed(DoubleTime, remaining', rate, dayMultiplier);
      }
    }
  }

  lemma MakeSegmentWellFormed(tier: Tier, hours: Tenths, rate: real, dayMultiplier: real)
    requires hours > 0
    ensures MakeSegment(tier, hours, rate, dayMultiplier).tier == tier
    ensures WellFormedSegment(MakeSegment(tier, hours, rate, dayMultiplier), rate, dayMultiplier)
  {
  }

  lemma HoursInSingleton(s: TimeSegment, tier: Tier)
    ensures HoursIn([s], tier) == if s.tier == tier then s.hours else 0
  {
    assert [s][1..] == [];
  }

  /** Hours of one tier in three pieces of at most one segment each. */
  lemma HoursInOfThree(a: seq<TimeSegment>, b: seq<TimeSegment>, c: seq<TimeSegment>, tier: Tier)
    requires |a| <= 1 && |b| <= 1 && |c| <= 1
    ensures HoursIn(a + b + c, tier) ==
      (if a != [] && a[0].tier == tier then a[0].hours else 0)
      + (if b != [] && b[0].tier == tier then b[0].hours else 0)
      + (if c != [] && c[0].tier == tier then c[0].hours else 0)
  {
    HoursInAppend(a + b, c, tier);
    HoursInAppend(a, b, tier);
    if a != [] { HoursInSingleton(a[0], tier); assert a == [a[0]]; }
    if b != [] { HoursInSingleton(b[0], tier); assert b == [b[0]]; }
    if c != [] { HoursInSingleton(c[0], tier); assert c == [c[0]]; }
  }

  /** Hours (tenths) charged in one tier. */
  function HoursIn(segments: seq<TimeSegment>, tier: Tier): Tenths
  {
    if segments == [] then 0
    else (if segments[0].tier == tier then segments[0].hours else 0) + HoursIn(segments[1..], tier)
  }

  /** Hours (tenths) charged in all. */
  function TotalHours(segments: seq<TimeSegment>): Tenths
  {
    if segments == [] then 0 else segments[0].hours + TotalHours(segments[1..])
  }

  /** The segment subtotals added up (`segments.reduce`). */
  function SegmentTotal(segments: seq<TimeSegment>): real
  {
    if segments == [] then 0.0 else segments[0].subtotal + SegmentTotal(segments[1..])
  }

  lemma {:induction false} HoursInAppend(a: seq<TimeSegment>, b: seq<TimeSegment>, tier: Tier)
    ensures HoursIn(a + b, tier) == HoursIn(a, tier) + HoursIn(b, tier)
    decreases |a|
  {
    if a == [] {
      assert a + b == b;
    } else {
      assert (a + b)[1..] == a[1..] + b;
      HoursInAppend(a[1..], b, tier);
    }
  }

  lemma {:induction false} TotalHoursByTier(segments: seq<TimeSegment>)
    ensures TotalHours(segments) == HoursIn(segments, StraightTime) + HoursIn(segments, TimeAndHalf) + HoursIn(segments, DoubleTime)
    decreases |segments|
  {
    if segments != [] {
      TotalHoursByTier(segments[1..]);
    }
  }

  /** The part of `netWorkHours` (tenths) that falls between hour marks `lo` and `hi` (tenths). */
  function BandHours(netWorkHours: Tenths, lo: int, hi: int): Tenths
  {
    if netWorkHours <= lo || hi <= lo then 0 else Min(netWorkHours, hi) - lo
  }

  /** Each tier is charged exactly the part of the day that falls in its band, so the bands
      fill in order and their hours add up to the net hours worked. */
  lemma TimeSegmentsCoverNetHours(netWorkHours: Tenths, rate: real, dayMultiplier: real, timeAndHalfEnd: int)
    ensures HoursIn(TimeSegments(netWorkHours, rate, dayMultiplier, timeAndHalfEnd), StraightTime)
      == BandHours(netWorkHours, 0, OVERTIME.straightTimeEnd * 10)
    ensures HoursIn(TimeSegments(netWorkHours, rate, dayMultiplier, timeAndHalfEnd), TimeAndHalf)
      == BandHours(netWorkHours, OVERTIME.straightTimeEnd * 10, timeAndHalfEnd * 10)
    ensures HoursIn(TimeSegments(netWorkHours, rate, dayMultiplier, timeAndHalfEnd), DoubleTime)
      == Max(0, netWorkHours - Max(OVERTIME.straightTimeEnd * 10, timeAndHalfEnd * 10))
    ensures TotalHours(TimeSegments(netWorkHours, rate, dayMultiplier, timeAndHalfEnd)) == Max(0, netWorkHours)
  {
    var straightHours := Min(netWorkHours, OVERTIME.straightTimeEnd * 10);
    var straight := if straightHours > 0 then [MakeSegment(StraightTime, straightHours, rate, dayMultiplier)] else [];
    var remaining := if straightHours > 0 then netWorkHours - straightHours else netWorkHours;
    var timeAndHalfCapacity := (timeAndHalfEnd - OVERTIME.straightTimeEnd) * 10;
    var timeAndHalfHours := Min(remaining, timeAndHalfCapacity);
    var timeAndHalf := if timeAndHalfHours > 0 then [MakeSegment(TimeAndHalf, timeAndHalfHours, rate, dayMultiplier)] else [];
    var remaining' := if timeAndHalfHours > 0 then remaining - timeAndHalfHours else remaining;
    var double := if remaining' > 0 then [MakeSegment(DoubleTime, remaining', rate, dayMultiplier)] else [];
    var segments := straight + timeAndHalf + double;
    assert segments == TimeSegments(netWorkHours, rate, dayMultiplier, timeAndHalfEnd);
    HoursInOfThree(straight, timeAndHalf, double, StraightTime);
    HoursInOfThree(straight, timeAndHalf, double, TimeAndHalf);
    HoursInOfThree(straight, timeAndHalf, double, DoubleTime);
    assert HoursIn(timeAndHalf, TimeAndHalf) == (if timeAndHalfHours > 0 then timeAndHalfHours else 0);
    TotalHoursByTier(segments);
  }

  /** No band holds more than its capacity: 8 h straight, `timeAndHalfEnd - 8` h at time-and-a-half. */
  lemma TimeSegmentsWithinCapacity(netWorkHours: Tenths, rate: real, dayMultiplier: real, timeAndHalfEnd: int)
    ensures HoursIn(TimeSegments(netWorkHours, rate, dayMultiplier, timeAndHalfEnd), StraightTime) <= OVERTIME.straightTimeEnd * 10
    ensures HoursIn(TimeSegments(netWorkHours, rate, dayMultiplier, timeAndHalfEnd), TimeAndHalf) <= Max(0, (timeAndHalfEnd - OVERTIME.straightTimeEnd) * 10)
  {
    TimeSegmentsCoverNetHours(netWorkHours, rate, dayMultiplier, timeAndHalfEnd);
  }

  // ---------------------------------------------------------------------------
  // Escalating meal penalties
  // ---------------------------------------------------------------------------

  /** The amount of the `period`-th half hour: $25, then $35, then $50 each. */
  function PeriodAmount(period: nat): real
  {
    if period == 1 then MEAL_PENALTIES.firstHalfHour
    else if period == 2 then MEAL_PENALTIES.secondHalfHour
    else MEAL_PENALTIES.eachAdditionalHalfHour
  }

  /** The entries for `remaining` late minutes, starting at half-hour period number `period`. */
  function PenaltyPeriods(meal: MealLabel, remaining: int, period: nat): (entries: seq<MealPenalty>)
    ensures |entries| == if remaining <= 0 then 0 else (remaining + 29) / 30
    decreases remaining
  {
    if remaining <= 0 then []
    else [MealPenalty(meal, Min(remaining, 30), PeriodAmount(period))] + PenaltyPeriods(meal, remaining - 30, period + 1)
  }

  /** One half-hour entry of `meal`, charged as period number `period`. */
  predicate IsPeriodEntry(e: MealPenalty, meal: MealLabel, period: nat)
  {
    e.meal == meal && e.amount == PeriodAmount(period) && 1 <= e.minutesLate <= 30
  }

  /** Entry `i` is the meal's `(period + i)`-th half hour, charged at that period's amount for
      the lesser of 30 and the minutes still late after the `i` periods before it. */
  lemma {:induction false} PenaltyPeriodsEntries(meal: MealLabel, remaining: int, period: nat)
    ensures forall i :: 0 <= i < |PenaltyPeriods(meal, remaining, period)| ==>
      IsPeriodEntry(PenaltyPeriods(meal, remaining, period)[i], meal, period + i)
    ensures forall i :: 0 <= i < |PenaltyPeriods(meal, remaining, period)| ==>
      PenaltyPeriods(meal, remaining, period)[i].minutesLate == Min(remaining - 30 * i, 30)
    decreases remaining
  {
    if remaining > 0 {
      PenaltyPeriodsEntries(meal, remaining - 30, period + 1);
      var entries := PenaltyPeriods(meal, remaining, period);
      var rest := PenaltyPeriods(meal, remaining - 30, period + 1);
      assert entries == [MealPenalty(meal, Min(remaining, 30), PeriodAmount(period))] + rest;
      forall i | 0 <= i < |entries|
        ensures IsPeriodEntry(entries[i], meal, period + i)
        ensures entries[i].minutesLate == Min(remaining - 30 * i, 30)
      {
        if i > 0 {
          assert 0 <= i - 1 < |rest|;
          assert entries[i] == rest[i - 1];
          assert IsPeriodEntry(rest[i - 1], meal, period + 1 + (i - 1));
          assert rest[i - 1].minutesLate == Min(remaining - 30 - 30 * (i - 1), 30);
        }
      }
    }
  }

  /** `calculatePenaltyAmounts` as a value. */
  function PenaltyAmounts(meal: MealLabel, minutesLate: int): seq<MealPenalty>
  {
    PenaltyPeriods(meal, minutesLate, 1)
  }

  /** `calculatePenaltyAmounts` as the source writes it: a loop over 30-minute periods. */
  method CalculatePenaltyAmounts(meal: MealLabel, minutesLate: int) returns (penalties: seq<MealPenalty>)
    ensures penalties == PenaltyAmounts(meal, minutesLate)
  {
    penalties := [];
    var remaining := minutesLate;
    var periodCount := 0;
    while remaining > 0
      invariant penalties + PenaltyPeriods(meal, remaining, periodCount + 1) == PenaltyAmounts(meal, minutesLate)
      decreases remaining
    {
      periodCount := periodCount + 1;
      var periodMinutes := Min(remaining, 30);
      var amount: real;
      if periodCount == 1 {
        amount := MEAL_PENALTIES.firstHalfHour;
      } else if periodCount == 2 {
        amount := MEAL_PENALTIES.secondHalfHour;
      } else {
        amount := MEAL_PENALTIES.eachAdditionalHalfHour;
      }
      assert amount == PeriodAmount(periodCount);
      PenaltyPeriodsStep(meal, remaining, periodCount, penalties);
      penalties := penalties + [MealPenalty(meal, periodMinutes, amount)];
      remaining := remaining - 30;
    }
  }

  /** Emitting the entry for the current period leaves the later periods to come. */
  lemma PenaltyPeriodsStep(meal: MealLabel, remaining: int, period: nat, done: seq<MealPenalty>)
    requires remaining > 0
    ensures done + [MealPenalty(meal, Min(remaining, 30), PeriodAmount(period))] + PenaltyPeriods(meal, remaining - 30, period + 1)
      == done + PenaltyPeriods(meal, remaining, period)
  {
    var entry := [MealPenalty(meal, Min(remaining, 30), PeriodAmount(period))];
    assert done + entry + PenaltyPeriods(meal, remaining - 30, period + 1)
      == done + (entry + PenaltyPeriods(meal, remaining - 30, period + 1));
  }

  /** Late minutes recorded across entries. */
  function LateMinutes(entries: seq<MealPenalty>): int
  {
    if entries == [] then 0 else entries[0].minutesLate + LateMinutes(entries[1..])
  }

  /** Dollar amount of entries (`reduce` over `amount`). */
  function PenaltyTotal(entries: seq<MealPenalty>): real
  {
    if entries == [] then 0.0 else entries[0].amount + PenaltyTotal(entries[1..])
  }

  lemma {:induction false} LateMinutesAppend(a: seq<MealPenalty>, b: seq<MealPenalty>)
    ensures LateMinutes(a + b) == LateMinutes(a) + LateMinutes(b)
    decreases |a|
  {
    if a == [] {
      assert a + b == b;
    } else {
      assert (a + b)[1..] == a[1..] + b;
      LateMinutesAppend(a[1..], b);
    }
  }

  lemma {:induction false} PenaltyTotalAppend(a: seq<MealPenalty>, b: seq<MealPenalty>)
    ensures PenaltyTotal(a + b) == PenaltyTotal(a) + PenaltyTotal(b)
    decreases |a|
  {
    if a == [] {
      assert a + b == b;
    } else {
      assert (a + b)[1..] == a[1..] + b;
      PenaltyTotalAppend(a[1..], b);
    }
  }

  /** The periods split the lateness exactly: their minutes add up to the minutes late. */
  lemma {:induction false} PenaltyMinutesCoverLateness(meal: MealLabel, remaining: int, period: nat)
    ensures LateMinutes(PenaltyPeriods(meal, remaining, period)) == Max(0, remaining)
    decreases remaining
  {
    if remaining > 0 {
      PenaltyMinutesCoverLateness(meal, remaining - 30, period + 1);
    }
  }

  /** The sum of the amounts of `count` consecutive periods starting at `period`. */
  function AmountsFrom(period: nat, count: nat): real
    decreases count
  {
    if count == 0 then 0.0 else PeriodAmount(period) + AmountsFrom(period + 1, count - 1)
  }

  lemma {:induction false} PenaltyTotalIsAmountsFrom(meal: MealLabel, remaining: int, period: nat)
    ensures PenaltyTotal(PenaltyPeriods(meal, remaining, period)) == AmountsFrom(period, |PenaltyPeriods(meal, remaining, period)|)
    decreases remaining
  {
    if remaining > 0 {
      PenaltyTotalIsAmountsFrom(meal, remaining - 30, period + 1);
    }
  }

  lemma {:induction false} AmountsFromThird(period: nat, count: nat)
    requires period >= 3
    ensures AmountsFrom(period, count) == 50.0 * count as real
    decreases count
  {
    if count > 0 {
      AmountsFromThird(period + 1, count - 1);
    }
  }

  /** The dollar total of `n` escalating periods: $25, $60, then $50 more for each further period. */
  function EscalatingTotal(n: nat): real
  {
    if n == 0 then 0.0 else if n == 1 then 25.0 else 60.0 + 50.0 * (n - 2) as real
  }

  /** Number of half-hour periods charged for `minutesLate` (a partial period counts in full). */
  function PeriodCount(minutesLate: int): nat
  {
    if minutesLate <= 0 then 0 else (minutesLate + 29) / 30
  }

  /** Closed form of the penalty for `minutesLate`: every half hour started is charged at its
      escalating rate, whichever meal it belongs to. */
  lemma PenaltyAmountsTotal(meal: MealLabel, minutesLate: int)
    ensures |PenaltyAmounts(meal, minutesLate)| == PeriodCount(minutesLate)
    ensures PenaltyTotal(PenaltyAmounts(meal, minutesLate)) == EscalatingTotal(PeriodCount(minutesLate))
    ensures LateMinutes(PenaltyAmounts(meal, minutesLate)) == Max(0, minutesLate)
  {
    PenaltyTotalIsAmountsFrom(meal, minutesLate, 1);
    PenaltyMinutesCoverLateness(meal, minutesLate, 1);
    var n := PeriodCount(minutesLate);
    if n >= 2 {
      AmountsFromThird(3, n - 2);
      assert AmountsFrom(1, n) == 25.0 + (35.0 + AmountsFrom(3, n - 2));
    }
  }

  /** Being later never costs less. */
  lemma PenaltyTotalMonotone(meal: MealLabel, m1: int, m2: int)
    requires m1 <= m2
    ensures PenaltyTotal(PenaltyAmounts(meal, m1)) <= PenaltyTotal(PenaltyAmounts(meal, m2))
  {
    PenaltyAmountsTotal(meal, m1);
    PenaltyAmountsTotal(meal, m2);
  }

  // ---------------------------------------------------------------------------
  // Meal deadlines
  // ---------------------------------------------------------------------------

  function LabelRank(meal: MealLabel): int
  {
    match meal
    case FirstMeal => 0
    case SecondMeal => 1
    case ThirdMeal => 2
  }

  /** All entries carry the given meal. */
  predicate AllLabelled(entries: seq<MealPenalty>, meal: MealLabel)
  {
    forall e :: e in entries ==> e.meal == meal
  }

  /** The meal clock starts at call, or at the end of an ND meal when one was taken. */
  function MealClockStart(input: ExhibitGInput): int
  {
    if HasNdMeal(input) then NdMealOutPosition(input) else input.callTime
  }

  /** Six hours after the meal clock starts. */
  function FirstMealDeadline(input: ExhibitGInput): int
  {
    MealClockStart(input) + MEAL_PENALTIES.maxHoursBeforeFirstMeal * 60
  }

  function FirstMealPenalties(input: ExhibitGInput): seq<MealPenalty>
  {
    if input.firstMealStart.Some? then
      var firstMealStartMin := WrapAfter(input.firstMealStart.value, input.callTime);
      var maxFirstMealMinutes := FirstMealDeadline(input);
      if firstMealStartMin > maxFirstMealMinutes then PenaltyAmounts(FirstMeal, firstMealStartMin - maxFirstMealMinutes) else []
    else
      var totalMinutes := WorkSpanMinutes(input);
      var limit := MEAL_PENALTIES.maxHoursBeforeFirstMeal * 60;
      if totalMinutes > limit then PenaltyAmounts(FirstMeal, totalMinutes - limit) else []
  }

  /** The end of a 2nd or 3rd meal window: dismissal on set (not the wardrobe dismissal), on
      the call clock, moved to the next day when it would fall before `after`. */
  function PenaltyEnd(input: ExhibitGInput, after: int): int
  {
    var penaltyEndMin := WrapAfter(input.dismissOnSet, input.callTime);
    if penaltyEndMin < after then penaltyEndMin + MINUTES_PER_DAY else penaltyEndMin
  }

  function SecondMealPenalties(input: ExhibitGInput): seq<MealPenalty>
  {
    if input.firstMealFinish.None? then []
    else
      var firstMealFinishMin := WrapAfter(input.firstMealFinish.value, input.callTime);
      var maxSecondMealMinutes := firstMealFinishMin + MEAL_PENALTIES.maxHoursBeforeSecondMeal * 60;
      if input.secondMealStart.Some? then
        var secondMealStartMin := WrapAfter(input.secondMealStart.value, input.callTime);
        if secondMealStartMin > maxSecondMealMinutes then PenaltyAmounts(SecondMeal, secondMealStartMin - maxSecondMealMinutes) else []
      else
        var penaltyEndMin := PenaltyEnd(input, firstMealFinishMin);
        if penaltyEndMin > maxSecondMealMinutes then PenaltyAmounts(SecondMeal, penaltyEndMin - maxSecondMealMinutes) else []
  }

  function ThirdMealPenalties(input: ExhibitGInput): seq<MealPenalty>
  {
    if input.secondMealFinish.None? then []
    else
      var secondMealFinishMin := WrapAfter(input.secondMealFinish.value, input.callTime);
      var maxThirdMealMinutes := secondMealFinishMin + MEAL_PENALTIES.maxHoursBeforeSecondMeal * 60;
      var penaltyEndMin := PenaltyEnd(input, secondMealFinishMin);
      if penaltyEndMin > maxThirdMealMinutes then PenaltyAmounts(ThirdMeal, penaltyEndMin - maxThirdMealMinutes) else []
  }

  /** `calculateMealPenalties` as a value: 1st-meal entries, then 2nd, then 3rd. */
  function MealPenalties(input: ExhibitGInput): seq<MealPenalty>
  {
    FirstMealPenalties(input) + SecondMealPenalties(input) + ThirdMealPenalties(input)
  }

  /** Every escalation list of one meal carries that meal's label. */
  lemma PenaltyAmountsLabelled(meal: MealLabel, minutesLate: int)
    ensures AllLabelled(PenaltyAmounts(meal, minutesLate), meal)
  {
    PenaltyPeriodsEntries(meal, minutesLate, 1);
    var entries := PenaltyAmounts(meal, minutesLate);
    forall e | e in entries
      ensures e.meal == meal
    {
      var i :| 0 <= i < |entries| && entries[i] == e;
      assert IsPeriodEntry(entries[i], meal, 1 + i);
    }
  }

  /** The list holds the 1st meal's entries, then the 2nd's, then the 3rd's. */
  predicate MealsInOrder(penalties: seq<MealPenalty>)
  {
    forall i, j :: 0 <= i < j < |penalties| ==> LabelRank(penalties[i].meal) <= LabelRank(penalties[j].meal)
  }

  /** Each meal's entries are the escalation list for its lateness (empty when on time). */
  lemma FirstMealByLateness(input: ExhibitGInput)
    ensures FirstMealPenalties(input) == PenaltyAmounts(FirstMeal, FirstMealLateness(input))
  {
  }

  lemma SecondMealByLateness(input: ExhibitGInput)
    ensures input.firstMealFinish.None? ==> SecondMealPenalties(input) == []
    ensures input.firstMealFinish.Some? ==> SecondMealPenalties(input) == PenaltyAmounts(SecondMeal, SecondMealLateness(input))
  {
  }

  lemma ThirdMealByLateness(input: ExhibitGInput)
    ensures input.secondMealFinish.None? ==> ThirdMealPenalties(input) == []
    ensures input.secondMealFinish.Some? ==> ThirdMealPenalties(input) == PenaltyAmounts(ThirdMeal, ThirdMealLateness(input))
  {
  }

  lemma MealPenaltiesOrdered(input: ExhibitGInput)
    ensures MealsInOrder(MealPenalties(input))
  {
    var first := FirstMealPenalties(input);
    var second := SecondMealPenalties(input);
    var third := ThirdMealPenalties(input);
    FirstMealByLateness(input);
    SecondMealByLateness(input);
    ThirdMealByLateness(input);
    PenaltyAmountsLabelled(FirstMeal, FirstMealLateness(input));
    if input.firstMealFinish.Some? {
      PenaltyAmountsLabelled(SecondMeal, SecondMealLateness(input));
    }
    if input.secondMealFinish.Some? {
      PenaltyAmountsLabelled(ThirdMeal, ThirdMealLateness(input));
    }
    LabelledPiecesInOrder(first, second, third);
  }

  lemma LabelledPiecesInOrder(first: seq<MealPenalty>, second: seq<MealPenalty>, third: seq<MealPenalty>)
    requires AllLabelled(first, FirstMeal) && AllLabelled(second, SecondMeal) && AllLabelled(third, ThirdMeal)
    ensures MealsInOrder(first + second + third)
  {
    var penalties := first + second + third;
    forall i | 0 <= i < |penalties|
      ensures LabelRank(penalties[i].meal) == if i < |first| then 0 else if i < |first| + |second| then 1 else 2
    {
      if i < |first| {
        assert penalties[i] == first[i];
        assert first[i] in first;
      } else if i < |first| + |second| {
        assert penalties[i] == second[i - |first|];
        assert second[i - |first|] in second;
      } else {
        assert penalties[i] == third[i - |first| - |second|];
        assert third[i - |first| - |second|] in third;
      }
    }
  }

  /** `calculateMealPenalties` as the source writes it: the three checks in turn, each
      appending its entries. */
  method CalculateMealPenalties(input: ExhibitGInput) returns (penalties: seq<MealPenalty>)
    ensures penalties == MealPenalties(input)
  {
    penalties := [];
    var items := CheckFirstMeal(input);
    penalties := penalties + items;
    items := CheckSecondMeal(input);
    penalties := penalties + items;
    items := CheckThirdMeal(input);
    penalties := penalties + items;
  }

  /** The 1st-meal check: the meal clock starts at call or at the end of an ND meal; with no
      1st meal it runs to the end of work. Times before call are moved past midnight. */
  method CheckFirstMeal(input: ExhibitGInput) returns (items: seq<MealPenalty>)
    ensures items == FirstMealPenalties(input)
  {
    items := [];
    var callMinutes := input.callTime as int;
    var mealClockStart := callMinutes;
    if input.ndMealIn.Some? && input.ndMealOut.Some? {
      var ndOutMinutes := input.ndMealOut.value as int;
      if ndOutMinutes < callMinutes { ndOutMinutes := ndOutMinutes + 24 * 60; }
      mealClockStart := ndOutMinutes;
    }
    var maxFirstMealMinutes := mealClockStart + MEAL_PENALTIES.maxHoursBeforeFirstMeal * 60;
    if input.firstMealStart.Some? {
      var firstMealStartMin := input.firstMealStart.value as int;
      if firstMealStartMin < callMinutes { firstMealStartMin := firstMealStartMin + 24 * 60; }
      if firstMealStartMin > maxFirstMealMinutes {
        items := CalculatePenaltyAmounts(FirstMeal, firstMealStartMin - maxFirstMealMinutes);
      }
    } else {
      var workEnd := GetLatestTime(input.callTime, [Some(input.dismissOnSet), input.dismissMakeupWardrobe]);
      assert workEnd == Some(WorkEnd(input));
      var totalMinutes := CalculateDuration(input.callTime, workEnd.value);
      if totalMinutes > MEAL_PENALTIES.maxHoursBeforeFirstMeal * 60 {
        items := CalculatePenaltyAmounts(FirstMeal, totalMinutes - MEAL_PENALTIES.maxHoursBeforeFirstMeal * 60);
      }
    }
  }

  /** The 2nd-meal check: six hours from the 1st meal's finish to the 2nd meal's start, or to
      dismissal on set when no 2nd meal was taken. */
  method CheckSecondMeal(input: ExhibitGInput) returns (items: seq<MealPenalty>)
    ensures items == SecondMealPenalties(input)
  {
    items := [];
    var callMinutes := input.callTime as int;
    if input.firstMealFinish.Some? {
      var firstMealFinishMin := input.firstMealFinish.value as int;
      if firstMealFinishMin < callMinutes { firstMealFinishMin := firstMealFinishMin + 24 * 60; }
      var maxSecondMealMinutes := firstMealFinishMin + MEAL_PENALTIES.maxHoursBeforeSecondMeal * 60;
      if input.secondMealStart.Some? {
        var secondMealStartMin := input.secondMealStart.value as int;
        if secondMealStartMin < callMinutes { secondMealStartMin := secondMealStartMin + 24 * 60; }
        if secondMealStartMin > maxSecondMealMinutes {
          items := CalculatePenaltyAmounts(SecondMeal, secondMealStartMin - maxSecondMealMinutes);
        }
      } else {
        var penaltyEndMin := input.dismissOnSet as int;
        if penaltyEndMin < callMinutes { penaltyEndMin := penaltyEndMin + 24 * 60; }
        if penaltyEndMin < firstMealFinishMin { penaltyEndMin := penaltyEndMin + 24 * 60; }
        if penaltyEndMin > maxSecondMealMinutes {
          items := CalculatePenaltyAmounts(SecondMeal, penaltyEndMin - maxSecondMealMinutes);
        }
      }
    }
  }

  /** The 3rd-meal check: six hours from the 2nd meal's finish to dismissal on set. */
  method CheckThirdMeal(input: ExhibitGInput) returns (items: seq<MealPenalty>)
    ensures items == ThirdMealPenalties(input)
  {
    items := [];
    var callMinutes := input.callTime as int;
    if input.secondMealFinish.Some? {
      var secondMealFinishMin := input.secondMealFinish.value as int;
      if secondMealFinishMin < callMinutes { secondMealFinishMin := secondMealFinishMin + 24 * 60; }
      var maxThirdMealMinutes := secondMealFinishMin + MEAL_PENALTIES.maxHoursBeforeSecondMeal * 60;
      var penaltyEndMin := input.dismissOnSet as int;
      if penaltyEndMin < callMinutes { penaltyEndMin := penaltyEndMin + 24 * 60; }
      if penaltyEndMin < secondMealFinishMin { penaltyEndMin := penaltyEndMin + 24 * 60; }
      if penaltyEndMin > maxThirdMealMinutes {
        items := CalculatePenaltyAmounts(ThirdMeal, penaltyEndMin - maxThirdMealMinutes);
      }
    }
  }

  /** The minutes past each meal deadline: 1st meal measured to the meal's start, or, when no
      1st meal was taken, to the end of work against call + 6 h (the ND reset is not used then). */
  function FirstMealLateness(input: ExhibitGInput): int
  {
    if input.firstMealStart.Some? then WrapAfter(input.firstMealStart.value, input.callTime) - FirstMealDeadline(input)
    else (input.callTime + WorkSpanMinutes(input)) - (input.callTime + MEAL_PENALTIES.maxHoursBeforeFirstMeal * 60)
  }

  /** 2nd meal: measured from six hours after the 1st meal's finish, to the 2nd meal's start or
      else to dismissal on set. */
  function SecondMealLateness(input: ExhibitGInput): int
    requires input.firstMealFinish.Some?
  {
    var finish := WrapAfter(input.firstMealFinish.value, input.callTime);
    var taken := if input.secondMealStart.Some? then WrapAfter(input.secondMealStart.value, input.callTime) else PenaltyEnd(input, finish);
    taken - (finish + MEAL_PENALTIES.maxHoursBeforeSecondMeal * 60)
  }

  /** 3rd meal: measured from six hours after the 2nd meal's finish to dismissal on set. */
  function ThirdMealLateness(input: ExhibitGInput): int
    requires input.secondMealFinish.Some?
  {
    var finish := WrapAfter(input.secondMealFinish.value, input.callTime);
    PenaltyEnd(input, finish) - (finish + MEAL_PENALTIES.maxHoursBeforeSecondMeal * 60)
  }

  /** Each meal's entries charge exactly the minutes past its deadline, at escalating rates. */
  lemma MealPenaltiesChargeLateness(input: ExhibitGInput)
    ensures LateMinutes(FirstMealPenalties(input)) == Max(0, FirstMealLateness(input))
    ensures PenaltyTotal(FirstMealPenalties(input)) == EscalatingTotal(PeriodCount(FirstMealLateness(input)))
    ensures input.firstMealFinish.None? ==> SecondMealPenalties(input) == []
    ensures input.firstMealFinish.Some? ==>
      && LateMinutes(SecondMealPenalties(input)) == Max(0, SecondMealLateness(input))
      && PenaltyTotal(SecondMealPenalties(input)) == EscalatingTotal(PeriodCount(SecondMealLateness(input)))
    ensures input.secondMealFinish.None? ==> ThirdMealPenalties(input) == []
    ensures input.secondMealFinish.Some? ==>
      && LateMinutes(ThirdMealPenalties(input)) == Max(0, ThirdMealLateness(input))
      && PenaltyTotal(ThirdMealPenalties(input)) == EscalatingTotal(PeriodCount(ThirdMealLateness(input)))
  {
    FirstMealChargesLateness(input);
    if input.firstMealFinish.Some? {
      SecondMealChargesLateness(input);
    }
    if input.secondMealFinish.Some? {
      ThirdMealChargesLateness(input);
    }
  }

  lemma FirstMealChargesLateness(input: ExhibitGInput)
    ensures LateMinutes(FirstMealPenalties(input)) == Max(0, FirstMealLateness(input))
    ensures PenaltyTotal(FirstMealPenalties(input)) == EscalatingTotal(PeriodCount(FirstMealLateness(input)))
  {
    FirstMealByLateness(input);
    PenaltyAmountsTotal(FirstMeal, FirstMealLateness(input));
  }

  lemma SecondMealChargesLateness(input: ExhibitGInput)
    requires input.firstMealFinish.Some?
    ensures LateMinutes(SecondMealPenalties(input)) == Max(0, SecondMealLateness(input))
    ensures PenaltyTotal(SecondMealPenalties(input)) == EscalatingTotal(PeriodCount(SecondMealLateness(input)))
  {
    SecondMealByLateness(input);
    PenaltyAmountsTotal(SecondMeal, SecondMealLateness(input));
  }

  lemma ThirdMealChargesLateness(input: ExhibitGInput)
    requires input.secondMealFinish.Some?
    ensures LateMinutes(ThirdMealPenalties(input)) == Max(0, ThirdMealLateness(input))
    ensures PenaltyTotal(ThirdMealPenalties(input)) == EscalatingTotal(PeriodCount(ThirdMealLateness(input)))
  {
    ThirdMealByLateness(input);
    PenaltyAmountsTotal(ThirdMeal, ThirdMealLateness(input));
  }

  /** Closed form of the day's meal penalties: each meal's lateness charged at the escalating
      half-hour rates, the 2nd and 3rd meals only once the meal before them has finished. */
  lemma MealPenaltyTotalByLateness(input: ExhibitGInput)
    ensures PenaltyTotal(MealPenalties(input)) ==
      EscalatingTotal(PeriodCount(FirstMealLateness(input)))
      + (if input.firstMealFinish.Some? then EscalatingTotal(PeriodCount(SecondMealLateness(input))) else 0.0)
      + (if input.secondMealFinish.Some? then EscalatingTotal(PeriodCount(ThirdMealLateness(input))) else 0.0)
  {
    var first := FirstMealPenalties(input);
    var second := SecondMealPenalties(input);
    var third := ThirdMealPenalties(input);
    MealPenaltiesChargeLateness(input);
    PenaltyTotalAppend(first + second, third);
    PenaltyTotalAppend(first, second);
  }

  /** The ND meal only moves the 1st meal's deadline: the 2nd and 3rd meal windows start at
      the 1st and 2nd meal finishes. */
  lemma LaterMealsIgnoreNdMeal(input: ExhibitGInput, ndMealIn: Option<Time>, ndMealOut: Option<Time>)
    ensures SecondMealPenalties(input.(ndMealIn := ndMealIn, ndMealOut := ndMealOut)) == SecondMealPenalties(input)
    ensures ThirdMealPenalties(input.(ndMealIn := ndMealIn, ndMealOut := ndMealOut)) == ThirdMealPenalties(input)
  {
  }

  lemma FirstMealIgnoresNdMealWhenSkipped(input: ExhibitGInput, ndMealIn: Option<Time>, ndMealOut: Option<Time>)
    requires input.firstMealStart.None?
    ensures FirstMealPenalties(input.(ndMealIn := ndMealIn, ndMealOut := ndMealOut)) == FirstMealPenalties(input)
  {
  }

  /** Without a recorded 1st meal the ND meal has no effect on meal penalties. */
  lemma NdMealIgnoredWithoutFirstMeal(input: ExhibitGInput, ndMealIn: Option<Time>, ndMealOut: Option<Time>)
    requires input.firstMealStart.None?
    ensures MealPenalties(input) == MealPenalties(input.(ndMealIn := ndMealIn, ndMealOut := ndMealOut))
  {
    LaterMealsIgnoreNdMeal(input, ndMealIn, ndMealOut);
    FirstMealIgnoresNdMealWhenSkipped(input, ndMealIn, ndMealOut);
  }

  /** The 2nd and 3rd meal windows end at dismissal on set: the wardrobe dismissal only matters
      to the 1st meal, and only when no 1st meal was recorded. */
  lemma WardrobeDismissalOnlyBoundsFirstMeal(input: ExhibitGInput, dismissMakeupWardrobe: Option<Time>)
    ensures var other := input.(dismissMakeupWardrobe := dismissMakeupWardrobe);
      && SecondMealPenalties(other) == SecondMealPenalties(input)
      && ThirdMealPenalties(other) == ThirdMealPenalties(input)
      && (input.firstMealStart.Some? ==> MealPenalties(other) == MealPenalties(input))
  {
    var other := input.(dismissMakeupWardrobe := dismissMakeupWardrobe);
    LaterMealsIgnoreWardrobeDismissal(input, dismissMakeupWardrobe);
    if input.firstMealStart.Some? {
      assert FirstMealPenalties(other) == FirstMealPenalties(input);
    }
  }

  lemma LaterMealsIgnoreWardrobeDismissal(input: ExhibitGInput, dismissMakeupWardrobe: Option<Time>)
    ensures SecondMealPenalties(input.(dismissMakeupWardrobe := dismissMakeupWardrobe)) == SecondMealPenalties(input)
    ensures ThirdMealPenalties(input.(dismissMakeupWardrobe := dismissMakeupWardrobe)) == ThirdMealPenalties(input)
  {
  }

  // ---------------------------------------------------------------------------
  // The engine
  // ---------------------------------------------------------------------------

  /** Net work time in tenths of an hour: net minutes rounded up to the next 6-minute step
      (unless `skipRounding`), then converted to the nearest tenth. */
  function NetWorkHours(input: ExhibitGInput, skipRounding: bool): (t: Tenths)
    ensures t >= 0
    ensures !skipRounding ==> NetWorkMinutes(input) <= 6 * t < NetWorkMinutes(input) + TIME_INCREMENT_MINUTES
    ensures skipRounding ==> NetWorkMinutes(input) - 3 < 6 * t <= NetWorkMinutes(input) + 3
  {
    var netWorkMinutes := NetWorkMinutes(input);
    var netWorkMinutesRounded := if skipRounding then netWorkMinutes else RoundUpToTenthHour(netWorkMinutes);
    MinutesToDecimalHours(netWorkMinutesRounded)
  }

  /** The forced-call penalty: the adjusted daily rate, capped at $900, when the call was forced. */
  function ForcedCallPenalty(forcedCall: bool, adjustedBaseRate: real): (p: real)
    ensures !forcedCall ==> p == 0.0
    ensures forcedCall ==> p <= FORCED_CALL.maxPenalty && p <= adjustedBaseRate
    ensures forcedCall ==> p == FORCED_CALL.maxPenalty || p == adjustedBaseRate
  {
    if forcedCall then MinReal(adjustedBaseRate, FORCED_CALL.maxPenalty) else 0.0
  }

  /** `calculateRate`. `skipRounding` is the live-preview option that keeps net minutes unrounded. */
  function CalculateRate(input: ExhibitGInput, skipRounding: bool): (r: Result<CalculationBreakdown, RateError>)
    ensures r.Err? <==> NdMealTooLate(input)
    ensures r.Err? ==> r.error == InvalidTimeRelationship(ND_MEAL_MESSAGE)
    ensures r.Ok? ==>
      var b := r.value;
      && b.baseRate == Rates(input.workStatus).daily
      && b.hourlyRate == Rates(input.workStatus).hourly
      && b.adjustedBaseRate == b.baseRate + input.stuntAdjustment
      && b.adjustedHourlyRate * 8.0 == b.adjustedBaseRate
      && b.dayMultiplier == GetDayMultiplier(input)
      && b.totalWorkHours == MinutesToDecimalHours(WorkSpanMinutes(input))
      && b.totalMealTime == MinutesToDecimalHours(MealMinutes(Meals(input)))
      && b.netWorkHours == NetWorkHours(input, skipRounding)
      && b.segments == TimeSegments(b.netWorkHours, b.adjustedHourlyRate, b.dayMultiplier.multiplier,
                                    EffectiveTimeAndHalfEnd(b.baseRate, input.stuntAdjustment))
      // Penalties.
      && b.penalties.mealPenalties == MealPenalties(input)
      && b.penalties.forcedCallPenalty == ForcedCallPenalty(input.forcedCall, b.adjustedBaseRate)
      && b.penalties.totalPenalties == PenaltyTotal(b.penalties.mealPenalties) + b.penalties.forcedCallPenalty
      // Minimum guarantee: time pay is the larger of the segment total and the daily minimum.
      && b.grandTotal == TimePay(b.segments, b.adjustedBaseRate, b.dayMultiplier.multiplier) + b.penalties.totalPenalties
  {
    var rates := Rates(input.workStatus);
    var baseRate := rates.daily;
    var hourlyRate := rates.hourly;
    var adjustedBaseRate := baseRate + input.stuntAdjustment;
    var adjustedHourlyRate := adjustedBaseRate / 8.0;
    if NdMealTooLate(input) then
      Err(InvalidTimeRelationship(ND_MEAL_MESSAGE))
    else
      var netWorkHours := NetWorkHours(input, skipRounding);
      var totalWorkHours := MinutesToDecimalHours(WorkSpanMinutes(input));
      var totalMealTime := MinutesToDecimalHours(MealMinutes(Meals(input)));
      var dayMultiplierInfo := GetDayMultiplier(input);
      var effectiveTimeAndHalfEnd := EffectiveTimeAndHalfEnd(baseRate, input.stuntAdjustment);
      var segments := TimeSegments(netWorkHours, adjustedHourlyRate, dayMultiplierInfo.multiplier, effectiveTimeAndHalfEnd);
      var mealPenalties := MealPenalties(input);
      var forcedCallPenalty := ForcedCallPenalty(input.forcedCall, adjustedBaseRate);
      var penaltyTotal := PenaltyTotal(mealPenalties) + forcedCallPenalty;
      var grandTotal := TimePay(segments, adjustedBaseRate, dayMultiplierInfo.multiplier) + penaltyTotal;
      Ok(CalculationBreakdown(
        baseRate, hourlyRate, adjustedBaseRate, adjustedHourlyRate,
        totalWorkHours, totalMealTime, netWorkHours,
        segments,
        PenaltySummary(mealPenalties, forcedCallPenalty, penaltyTotal),
        dayMultiplierInfo,
        grandTotal))
  }

  /** Time pay: the segment total, raised to the daily minimum (the adjusted daily rate times the
      day multiplier, rounded to the cent) when it falls short. */
  function TimePay(segments: seq<TimeSegment>, adjustedBaseRate: real, multiplier: real): (t: real)
    ensures t >= SegmentTotal(segments) && t >= Round2(adjustedBaseRate * multiplier)
    ensures t == SegmentTotal(segments) || t == Round2(adjustedBaseRate * multiplier)
  {
    MaxReal(SegmentTotal(segments), Round2(adjustedBaseRate * multiplier))
  }

  /** The minimum guarantee: a breakdown's grand total is never below the daily minimum (the
      adjusted daily rate times the day multiplier, to the cent) plus all penalties, nor below
      the itemised segments plus all penalties; the segments themselves are not topped up. */
  lemma GrandTotalCoversMinimum(input: ExhibitGInput, skipRounding: bool, b: CalculationBreakdown)
    requires CalculateRate(input, skipRounding) == Ok(b)
    ensures b.grandTotal >= Round2(b.adjustedBaseRate * b.dayMultiplier.multiplier) + b.penalties.totalPenalties
    ensures b.grandTotal >= SegmentTotal(b.segments) + b.penalties.totalPenalties
    ensures b.penalties.totalPenalties == PenaltyTotal(MealPenalties(input)) + ForcedCallPenalty(input.forcedCall, b.adjustedBaseRate)
  {
    TimePayCoversBoth(b.segments, b.adjustedBaseRate, b.dayMultiplier.multiplier, b.penalties.totalPenalties, b.grandTotal);
  }

  /** Adding the penalties to the time pay keeps both of its lower bounds. */
  lemma TimePayCoversBoth(segments: seq<TimeSegment>, adjustedBaseRate: real, multiplier: real, penalties: real, grandTotal: real)
    requires grandTotal == TimePay(segments, adjustedBaseRate, multiplier) + penalties
    ensures grandTotal >= Round2(adjustedBaseRate * multiplier) + penalties
    ensures grandTotal >= SegmentTotal(segments) + penalties
  {
  }

  /** The breakdown's segments charge every net hour, in tier order, at the adjusted hourly
      rate, and never below the day multiplier. */
  lemma CalculateRateSegments(input: ExhibitGInput, skipRounding: bool)
    requires !NdMealTooLate(input)
    ensures TotalHours(CalculateRate(input, skipRounding).value.segments) == CalculateRate(input, skipRounding).value.netWorkHours
    ensures TiersInOrder(CalculateRate(input, skipRounding).value.segments)
    ensures AllWellFormed(CalculateRate(input, skipRounding).value.segments,
                          CalculateRate(input, skipRounding).value.adjustedHourlyRate,
                          CalculateRate(input, skipRounding).value.dayMultiplier.multiplier)
  {
    var b := CalculateRate(input, skipRounding).value;
    var thEnd := EffectiveTimeAndHalfEnd(b.baseRate, input.stuntAdjustment);
    TimeSegmentsCoverNetHours(b.netWorkHours, b.adjustedHourlyRate, b.dayMultiplier.multiplier, thEnd);
    TimeSegmentsShape(b.netWorkHours, b.adjustedHourlyRate, b.dayMultiplier.multiplier, thEnd);
  }

  /** An ND meal inside the two-hour window is paid work time: it changes neither the net
      hours nor the segments. */
  lemma NdMealNotDeducted(input: ExhibitGInput, ndMealIn: Option<Time>, ndMealOut: Option<Time>, skipRounding: bool)
    ensures WorkSpanMinutes(input.(ndMealIn := ndMealIn, ndMealOut := ndMealOut)) == WorkSpanMinutes(input)
    ensures NetWorkHours(input.(ndMealIn := ndMealIn, ndMealOut := ndMealOut), skipRounding) == NetWorkHours(input, skipRounding)
    ensures CalculateRate(input, skipRounding).Ok? && CalculateRate(input.(ndMealIn := ndMealIn, ndMealOut := ndMealOut), skipRounding).Ok? ==>
      CalculateRate(input, skipRounding).value.netWorkHours
        == CalculateRate(input.(ndMealIn := ndMealIn, ndMealOut := ndMealOut), skipRounding).value.netWorkHours
  {
    var other := input.(ndMealIn := ndMealIn, ndMealOut := ndMealOut);
    assert WorkEnd(other) == WorkEnd(input);
    assert Meals(other) == Meals(input);
  }

  /** A night shift is measured forward across midnight: call 22:00, dismissal 06:00 is 8 hours. */
  lemma OvernightSpan(input: ExhibitGInput)
    requires input.callTime == 22 * 60 && input.dismissOnSet == 6 * 60
    requires input.dismissMakeupWardrobe.None? || input.dismissMakeupWardrobe == Some(6 * 60)
    ensures WorkSpanMinutes(input) == 8 * 60
  {
  }
}
