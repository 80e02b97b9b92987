/**
 * The pre-seeded cases of the rate test bench (src/app/test-bench/page.tsx), each stated as
 * the grand total the engine computes for it.
 */
module RateEngineExamples {
  import opened Wrappers
  import opened RateConstants
  import opened TimeUtils
  import opened RateEngine

  /** The bench's default day: theatrical basic, no special day, no forced call; the wardrobe
      dismissal defaults to dismissal on set. */
  function BenchInput(callTime: Time, dismissOnSet: Time, ndMeal: Option<MealPeriod>,
                      firstMeal: Option<MealPeriod>, secondMeal: Option<MealPeriod>,
                      stuntAdjustment: real): (input: ExhibitGInput)
    ensures input.dismissMakeupWardrobe == Some(dismissOnSet)
    ensures input.callTime == callTime && input.dismissOnSet == dismissOnSet
  {
    ExhibitGInput(
      TheatricalBasic, callTime, dismissOnSet, Some(dismissOnSet),
      if ndMeal.Some? then ndMeal.value.start else None,
      if ndMeal.Some? then ndMeal.value.finish else None,
      if firstMeal.Some? then firstMeal.value.start else None,
      if firstMeal.Some? then firstMeal.value.finish else None,
      if secondMeal.Some? then secondMeal.value.start else None,
      if secondMeal.Some? then secondMeal.value.finish else None,
      stuntAdjustment, false, false, false, false)
  }

  function Meal(start: Time, finish: Time): Option<MealPeriod>
  {
    Some(MealPeriod(Some(start), Some(finish)))
  }

  /** With the wardrobe dismissal equal to dismissal on set, work ends at dismissal on set. */
  lemma BenchWorkEnd(input: ExhibitGInput)
    requires input.dismissMakeupWardrobe == Some(input.dismissOnSet)
    ensures WorkEnd(input) == input.dismissOnSet
  {
  }

  function Case1(): ExhibitGInput
  {
    BenchInput(7 * 60, 11 * 60, None, None, None, 0.0)
  }

  lemma Case1Parts()
    ensures !NdMealTooLate(Case1())
    ensures NetWorkHours(Case1(), false) == 40
    ensures PenaltyTotal(MealPenalties(Case1())) == 0.0
    ensures TimeSegments(40, 155.75, 1.0, 10) == [TimeSegment(StraightTime, 40, 155.75, 1.0, 623.0)]
  {
    BenchWorkEnd(Case1());
    Case1Segments();
    Case1Penalties();
  }

  lemma Case1Penalties()
    ensures PenaltyTotal(MealPenalties(Case1())) == 0.0
  {
    BenchWorkEnd(Case1());
    MealPenaltyTotalByLateness(Case1());
  }

  lemma Case1Segments()
    ensures TimeSegments(40, 155.75, 1.0, 10) == [TimeSegment(StraightTime, 40, 155.75, 1.0, 623.0)]
  {
    Round2OfCents(62300);
  }

  /** Case 1: a 4-hour day with no meal is paid the 8-hour guarantee. */
  lemma ShortDayGuarantee()
    ensures CalculateRate(Case1(), false).Ok?
    ensures CalculateRate(Case1(), false).value.grandTotal == 1246.0
  {
    Case1Parts();
    Round2OfCents(124600);
  }

  function Case2(): ExhibitGInput
  {
    BenchInput(7 * 60, 15 * 60 + 30, None, Meal(13 * 60, 13 * 60 + 30), None, 0.0)
  }

  lemma Case2Parts()
    ensures !NdMealTooLate(Case2())
    ensures NetWorkHours(Case2(), false) == 80
    ensures PenaltyTotal(MealPenalties(Case2())) == 0.0
    ensures TimeSegments(80, 155.75, 1.0, 10) == [TimeSegment(StraightTime, 80, 155.75, 1.0, 1246.0)]
  {
    BenchWorkEnd(Case2());
    Case2Segments();
    Case2Penalties();
  }

  lemma Case2Penalties()
    ensures PenaltyTotal(MealPenalties(Case2())) == 0.0
  {
    BenchWorkEnd(Case2());
    MealPenaltyTotalByLateness(Case2());
  }

  lemma Case2Segments()
    ensures TimeSegments(80, 155.75, 1.0, 10) == [TimeSegment(StraightTime, 80, 155.75, 1.0, 1246.0)]
  {
    Round2OfCents(124600);
  }

  /** Case 2: 8 hours after a 30-minute lunch is exactly the daily rate. */
  lemma StandardEightHourDay()
    ensures CalculateRate(Case2(), false).Ok?
    ensures CalculateRate(Case2(), false).value.grandTotal == 1246.0
  {
    Case2Parts();
    Round2OfCents(124600);
  }

  function Case3(): ExhibitGInput
  {
    BenchInput(7 * 60, 17 * 60 + 30, None, Meal(13 * 60, 13 * 60 + 30), None, 0.0)
  }

  lemma Case3Parts()
    ensures !NdMealTooLate(Case3())
    ensures NetWorkHours(Case3(), false) == 100
    ensures PenaltyTotal(MealPenalties(Case3())) == 0.0
    ensures TimeSegments(100, 155.75, 1.0, 10) == [TimeSegment(StraightTime, 80, 155.75, 1.0, 1246.0), TimeSegment(TimeAndHalf, 20, 155.75, 1.5, 467.25)]
  {
    BenchWorkEnd(Case3());
    Case3Segments();
    Case3Penalties();
  }

  lemma Case3Penalties()
    ensures PenaltyTotal(MealPenalties(Case3())) == 0.0
  {
    BenchWorkEnd(Case3());
    MealPenaltyTotalByLateness(Case3());
  }

  lemma Case3Segments()
    ensures TimeSegments(100, 155.75, 1.0, 10) == [TimeSegment(StraightTime, 80, 155.75, 1.0, 1246.0), TimeSegment(TimeAndHalf, 20, 155.75, 1.5, 467.25)]
  {
    Round2OfCents(124600);
    Round2OfCents(46725);
  }

  /** Case 3: 10 hours: 8 at straight time and 2 at time-and-a-half. */
  lemma TenHourDayOvertime()
    ensures CalculateRate(Case3(), false).Ok?
    ensures CalculateRate(Case3(), false).value.grandTotal == 1713.25
  {
    Case3Parts();
    Round2OfCents(124600);
  }

  function Case4(): ExhibitGInput
  {
    BenchInput(7 * 60, 14 * 60 + 30, None, None, None, 0.0)
  }

  lemma Case4Parts()
    ensures !NdMealTooLate(Case4())
    ensures NetWorkHours(Case4(), false) == 75
    ensures TimeSegments(75, 155.75, 1.0, 10) == [TimeSegment(StraightTime, 75, 155.75, 1.0, 1168.13)]
    ensures PenaltyTotal(MealPenalties(Case4())) == 110.0
  {
    BenchWorkEnd(Case4());
    MealPenaltyTotalByLateness(Case4());

  }

  /** Case 4: 7.5 hours with no meal: the guarantee plus $25 + $35 + $50 for 90 minutes late. */
  lemma NoLunchPenalty()
    ensures CalculateRate(Case4(), false).Ok?
    ensures CalculateRate(Case4(), false).value.grandTotal == 1356.0
  {
    Case4Parts();
    Round2OfCents(124600);
  }

  function Case5(): ExhibitGInput
  {
    BenchInput(7 * 60, 15 * 60 + 30, Meal(8 * 60, 8 * 60 + 30), Meal(12 * 60, 12 * 60 + 30), None, 0.0)
  }

  lemma Case5Parts()
    ensures !NdMealTooLate(Case5())
    ensures NetWorkHours(Case5(), false) == 80
    ensures PenaltyTotal(MealPenalties(Case5())) == 0.0
    ensures TimeSegments(80, 155.75, 1.0, 10) == [TimeSegment(StraightTime, 80, 155.75, 1.0, 1246.0)]
  {
    BenchWorkEnd(Case5());
    Case5Segments();
    Case5Penalties();
  }

  lemma Case5Penalties()
    ensures PenaltyTotal(MealPenalties(Case5())) == 0.0
  {
    BenchWorkEnd(Case5());
    MealPenaltyTotalByLateness(Case5());
  }

  lemma Case5Segments()
    ensures TimeSegments(80, 155.75, 1.0, 10) == [TimeSegment(StraightTime, 80, 155.75, 1.0, 1246.0)]
  {
    Round2OfCents(124600);
  }

  /** Case 5: an ND meal within two hours of call is paid time and resets the meal clock. */
  lemma NdMealDay()
    ensures CalculateRate(Case5(), false).Ok?
    ensures CalculateRate(Case5(), false).value.grandTotal == 1246.0
  {
    Case5Parts();
    Round2OfCents(124600);
  }

  function Case6(): ExhibitGInput
  {
    BenchInput(7 * 60, 15 * 60 + 30, None, Meal(13 * 60, 13 * 60 + 30), None, 2000.0)
  }

  lemma Case6Parts()
    ensures !NdMealTooLate(Case6())
    ensures NetWorkHours(Case6(), false) == 80
    ensures PenaltyTotal(MealPenalties(Case6())) == 0.0
    ensures TimeSegments(80, 405.75, 1.0, 12) == [TimeSegment(StraightTime, 80, 405.75, 1.0, 3246.0)]
  {
    BenchWorkEnd(Case6());
    Case6Segments();
    Case6Penalties();
  }

  lemma Case6Penalties()
    ensures PenaltyTotal(MealPenalties(Case6())) == 0.0
  {
    BenchWorkEnd(Case6());
    MealPenaltyTotalByLateness(Case6());
  }

  lemma Case6Segments()
    ensures TimeSegments(80, 405.75, 1.0, 12) == [TimeSegment(StraightTime, 80, 405.75, 1.0, 3246.0)]
  {
    Round2OfCents(324600);
  }

  /** Case 6: a $2,000 stunt adjustment raises the 8-hour day to $3,246. */
  lemma LargeStuntAdjustment()
    ensures CalculateRate(Case6(), false).Ok?
    ensures CalculateRate(Case6(), false).value.grandTotal == 3246.0
  {
    Case6Parts();
    Round2OfCents(324600);
  }

  function Case7(): ExhibitGInput
  {
    BenchInput(6 * 60, 22 * 60 + 30, None, Meal(12 * 60, 12 * 60 + 30), None, 0.0)
  }

  lemma Case7Parts()
    ensures !NdMealTooLate(Case7())
    ensures NetWorkHours(Case7(), false) == 160
    ensures PenaltyTotal(MealPenalties(Case7())) == 360.0
    ensures TimeSegments(160, 155.75, 1.0, 10) == [TimeSegment(StraightTime, 80, 155.75, 1.0, 1246.0), TimeSegment(TimeAndHalf, 20, 155.75, 1.5, 467.25), TimeSegment(DoubleTime, 60, 155.75, 2.0, 1869.0)]
  {
    BenchWorkEnd(Case7());
    Case7Segments();
    Case7Penalties();
  }

  lemma Case7Penalties()
    ensures PenaltyTotal(MealPenalties(Case7())) == 360.0
  {
    BenchWorkEnd(Case7());
    MealPenaltyTotalByLateness(Case7());
  }

  lemma Case7Segments()
    ensures TimeSegments(160, 155.75, 1.0, 10) == [TimeSegment(StraightTime, 80, 155.75, 1.0, 1246.0), TimeSegment(TimeAndHalf, 20, 155.75, 1.5, 467.25), TimeSegment(DoubleTime, 60, 155.75, 2.0, 1869.0)]
  {
    Round2OfCents(124600);
    Round2OfCents(46725);
    Round2OfCents(186900);
  }

  /** Case 7: 16 hours: 8 straight, 2 at time-and-a-half, 6 double, and $360 for a 4-hour-late 2nd meal. */
  lemma SixteenHourDay()
    ensures CalculateRate(Case7(), false).Ok?
    ensures CalculateRate(Case7(), false).value.grandTotal == 3942.25
  {
    Case7Parts();
    Round2OfCents(124600);
  }

  function Case8(): ExhibitGInput
  {
    BenchInput(6 * 60, 6 * 60, None, Meal(12 * 60, 12 * 60 + 30), Meal(18 * 60 + 30, 19 * 60), 0.0)
  }

  lemma Case8Parts()
    ensures !NdMealTooLate(Case8())
    ensures NetWorkHours(Case8(), false) == 230
    ensures PenaltyTotal(MealPenalties(Case8())) == 460.0
    ensures TimeSegments(230, 155.75, 1.0, 10) == [TimeSegment(StraightTime, 80, 155.75, 1.0, 1246.0), TimeSegment(TimeAndHalf, 20, 155.75, 1.5, 467.25), TimeSegment(DoubleTime, 130, 155.75, 2.0, 4049.5)]
  {
    BenchWorkEnd(Case8());
    Case8Segments();
    Case8Penalties();
  }

  lemma Case8Penalties()
    ensures PenaltyTotal(MealPenalties(Case8())) == 460.0
  {
    BenchWorkEnd(Case8());
    MealPenaltyTotalByLateness(Case8());
  }

  lemma Case8Segments()
    ensures TimeSegments(230, 155.75, 1.0, 10) == [TimeSegment(StraightTime, 80, 155.75, 1.0, 1246.0), TimeSegment(TimeAndHalf, 20, 155.75, 1.5, 467.25), TimeSegment(DoubleTime, 130, 155.75, 2.0, 4049.5)]
  {
    Round2OfCents(124600);
    Round2OfCents(46725);
    Round2OfCents(404950);
  }

  /** Case 8: a 24-hour overnight day with two meals: 23 net hours and $460 for the 3rd meal. */
  lemma TwentyFourHourDay()
    ensures CalculateRate(Case8(), false).Ok?
    ensures CalculateRate(Case8(), false).value.grandTotal == 6222.75
  {
    Case8Parts();
    Round2OfCents(124600);
  }

  function Case9(): ExhibitGInput
  {
    BenchInput(7 * 60, 11 * 60, None, None, None, 100.0)
  }

  lemma Case9Parts()
    ensures !NdMealTooLate(Case9())
    ensures NetWorkHours(Case9(), false) == 40
    ensures PenaltyTotal(MealPenalties(Case9())) == 0.0
    ensures TimeSegments(40, 168.25, 1.0, 10) == [TimeSegment(StraightTime, 40, 168.25, 1.0, 673.0)]
  {
    BenchWorkEnd(Case9());
    Case9Segments();
    Case9Penalties();
  }

  lemma Case9Penalties()
    ensures PenaltyTotal(MealPenalties(Case9())) == 0.0
  {
    BenchWorkEnd(Case9());
    MealPenaltyTotalByLateness(Case9());
  }

  lemma Case9Segments()
    ensures TimeSegments(40, 168.25, 1.0, 10) == [TimeSegment(StraightTime, 40, 168.25, 1.0, 673.0)]
  {
    Round2OfCents(67300);
  }

  /** Case 9: case 1 with a $100 adjustment: the guarantee becomes $1,346. */
  lemma ShortDayGuaranteeAdjusted()
    ensures CalculateRate(Case9(), false).Ok?
    ensures CalculateRate(Case9(), false).value.grandTotal == 1346.0
  {
    Case9Parts();
    Round2OfCents(134600);
  }

  function Case10(): ExhibitGInput
  {
    BenchInput(7 * 60, 15 * 60 + 30, None, Meal(13 * 60, 13 * 60 + 30), None, 100.0)
  }

  lemma Case10Parts()
    ensures !NdMealTooLate(Case10())
    ensures NetWorkHours(Case10(), false) == 80
    ensures PenaltyTotal(MealPenalties(Case10())) == 0.0
    ensures TimeSegments(80, 168.25, 1.0, 10) == [TimeSegment(StraightTime, 80, 168.25, 1.0, 1346.0)]
  {
    BenchWorkEnd(Case10());
    Case10Segments();
    Case10Penalties();
  }

  lemma Case10Penalties()
    ensures PenaltyTotal(MealPenalties(Case10())) == 0.0
  {
    BenchWorkEnd(Case10());
    MealPenaltyTotalByLateness(Case10());
  }

  lemma Case10Segments()
    ensures TimeSegments(80, 168.25, 1.0, 10) == [TimeSegment(StraightTime, 80, 168.25, 1.0, 1346.0)]
  {
    Round2OfCents(134600);
  }

  /** Case 10: case 2 with a $100 adjustment: 8 hours at $168.25. */
  lemma StandardEightHourDayAdjusted()
    ensures CalculateRate(Case10(), false).Ok?
    ensures CalculateRate(Case10(), false).value.grandTotal == 1346.0
  {
    Case10Parts();
    Round2OfCents(134600);
  }

  function Case11(): ExhibitGInput
  {
    BenchInput(7 * 60, 17 * 60 + 30, None, Meal(13 * 60, 13 * 60 + 30), None, 100.0)
  }

  lemma Case11Parts()
    ensures !NdMealTooLate(Case11())
    ensures NetWorkHours(Case11(), false) == 100
    ensures PenaltyTotal(MealPenalties(Case11())) == 0.0
    ensures TimeSegments(100, 168.25, 1.0, 10) == [TimeSegment(StraightTime, 80, 168.25, 1.0, 1346.0), TimeSegment(TimeAndHalf, 20, 168.25, 1.5, 504.75)]
  {
    BenchWorkEnd(Case11());
    Case11Segments();
    Case11Penalties();
  }

  lemma Case11Penalties()
    ensures PenaltyTotal(MealPenalties(Case11())) == 0.0
  {
    BenchWorkEnd(Case11());
    MealPenaltyTotalByLateness(Case11());
  }

  lemma Case11Segments()
    ensures TimeSegments(100, 168.25, 1.0, 10) == [TimeSegment(StraightTime, 80, 168.25, 1.0, 1346.0), TimeSegment(TimeAndHalf, 20, 168.25, 1.5, 504.75)]
  {
    Round2OfCents(134600);
    Round2OfCents(50475);
  }

  /** Case 11: case 3 with a $100 adjustment. */
  lemma TenHourDayOvertimeAdjusted()
    ensures CalculateRate(Case11(), false).Ok?
    ensures CalculateRate(Case11(), false).value.grandTotal == 1850.75
  {
    Case11Parts();
    Round2OfCents(134600);
  }

  function Case12(): ExhibitGInput
  {
    BenchInput(7 * 60, 14 * 60 + 30, None, None, None, 100.0)
  }

  lemma Case12Parts()
    ensures !NdMealTooLate(Case12())
    ensures NetWorkHours(Case12(), false) == 75
    ensures TimeSegments(75, 168.25, 1.0, 10) == [TimeSegment(StraightTime, 75, 168.25, 1.0, 1261.88)]
    ensures PenaltyTotal(MealPenalties(Case12())) == 110.0
  {
    BenchWorkEnd(Case12());
    MealPenaltyTotalByLateness(Case12());

  }

  /** Case 12: case 4 with a $100 adjustment. */
  lemma NoLunchPenaltyAdjusted()
    ensures CalculateRate(Case12(), false).Ok?
    ensures CalculateRate(Case12(), false).value.grandTotal == 1456.0
  {
    Case12Parts();
    Round2OfCents(134600);
  }

  function Case13(): ExhibitGInput
  {
    BenchInput(7 * 60, 15 * 60 + 30, Meal(8 * 60, 8 * 60 + 30), Meal(12 * 60, 12 * 60 + 30), None, 100.0)
  }

  lemma Case13Parts()
    ensures !NdMealTooLate(Case13())
    ensures NetWorkHours(Case13(), false) == 80
    ensures PenaltyTotal(MealPenalties(Case13())) == 0.0
    ensures TimeSegments(80, 168.25, 1.0, 10) == [TimeSegment(StraightTime, 80, 168.25, 1.0, 1346.0)]
  {
    BenchWorkEnd(Case13());
    Case13Segments();
    Case13Penalties();
  }

  lemma Case13Penalties()
    ensures PenaltyTotal(MealPenalties(Case13())) == 0.0
  {
    BenchWorkEnd(Case13());
    MealPenaltyTotalByLateness(Case13());
  }

  lemma Case13Segments()
    ensures TimeSegments(80, 168.25, 1.0, 10) == [TimeSegment(StraightTime, 80, 168.25, 1.0, 1346.0)]
  {
    Round2OfCents(134600);
  }

  /** Case 13: case 5 with a $100 adjustment. */
  lemma NdMealDayAdjusted()
    ensures CalculateRate(Case13(), false).Ok?
    ensures CalculateRate(Case13(), false).value.grandTotal == 1346.0
  {
    Case13Parts();
    Round2OfCents(134600);
  }

  function Case15(): ExhibitGInput
  {
    BenchInput(6 * 60, 22 * 60 + 30, None, Meal(12 * 60, 12 * 60 + 30), None, 100.0)
  }

  lemma Case15Parts()
    ensures !NdMealTooLate(Case15())
    ensures NetWorkHours(Case15(), false) == 160
    ensures PenaltyTotal(MealPenalties(Case15())) == 360.0
    ensures TimeSegments(160, 168.25, 1.0, 10) == [TimeSegment(StraightTime, 80, 168.25, 1.0, 1346.0), TimeSegment(TimeAndHalf, 20, 168.25, 1.5, 504.75), TimeSegment(DoubleTime, 60, 168.25, 2.0, 2019.0)]
  {
    BenchWorkEnd(Case15());
    Case15Segments();
    Case15Penalties();
  }

  lemma Case15Penalties()
    ensures PenaltyTotal(MealPenalties(Case15())) == 360.0
  {
    BenchWorkEnd(Case15());
    MealPenaltyTotalByLateness(Case15());
  }

  lemma Case15Segments()
    ensures TimeSegments(160, 168.25, 1.0, 10) == [TimeSegment(StraightTime, 80, 168.25, 1.0, 1346.0), TimeSegment(TimeAndHalf, 20, 168.25, 1.5, 504.75), TimeSegment(DoubleTime, 60, 168.25, 2.0, 2019.0)]
  {
    Round2OfCents(134600);
    Round2OfCents(50475);
    Round2OfCents(201900);
  }

  /** Case 15: case 7 with a $100 adjustment. */
  lemma SixteenHourDayAdjusted()
    ensures CalculateRate(Case15(), false).Ok?
    ensures CalculateRate(Case15(), false).value.grandTotal == 4229.75
  {
    Case15Parts();
    Round2OfCents(134600);
  }

  function Case16(): ExhibitGInput
  {
    BenchInput(6 * 60, 6 * 60, None, Meal(12 * 60, 12 * 60 + 30), Meal(18 * 60 + 30, 19 * 60), 100.0)
  }

  lemma Case16Parts()
    ensures !NdMealTooLate(Case16())
    ensures NetWorkHours(Case16(), false) == 230
    ensures PenaltyTotal(MealPenalties(Case16())) == 460.0
    ensures TimeSegments(230, 168.25, 1.0, 10) == [TimeSegment(StraightTime, 80, 168.25, 1.0, 1346.0), TimeSegment(TimeAndHalf, 20, 168.25, 1.5, 504.75), TimeSegment(DoubleTime, 130, 168.25, 2.0, 4374.5)]
  {
    BenchWorkEnd(Case16());
    Case16Segments();
    Case16Penalties();
  }

  lemma Case16Penalties()
    ensures PenaltyTotal(MealPenalties(Case16())) == 460.0
  {
    BenchWorkEnd(Case16());
    MealPenaltyTotalByLateness(Case16());
  }

  lemma Case16Segments()
    ensures TimeSegments(230, 168.25, 1.0, 10) == [TimeSegment(StraightTime, 80, 168.25, 1.0, 1346.0), TimeSegment(TimeAndHalf, 20, 168.25, 1.5, 504.75), TimeSegment(DoubleTime, 130, 168.25, 2.0, 4374.5)]
  {
    Round2OfCents(134600);
    Round2OfCents(50475);
    Round2OfCents(437450);
  }

  /** Case 16: case 8 with a $100 adjustment. */
  lemma TwentyFourHourDayAdjusted()
    ensures CalculateRate(Case16(), false).Ok?
    ensures CalculateRate(Case16(), false).value.grandTotal == 6685.25
  {
    Case16Parts();
    Round2OfCents(134600);
  }

  function Case17(): ExhibitGInput
  {
    BenchInput(7 * 60, 20 * 60, None, Meal(12 * 60, 12 * 60 + 30), Meal(18 * 60, 18 * 60 + 30), 1300.0)
  }

  lemma Case17Parts()
    ensures !NdMealTooLate(Case17())
    ensures NetWorkHours(Case17(), false) == 120
    ensures PenaltyTotal(MealPenalties(Case17())) == 0.0
    ensures TimeSegments(120, 318.25, 1.0, 12) == [TimeSegment(StraightTime, 80, 318.25, 1.0, 2546.0), TimeSegment(TimeAndHalf, 40, 318.25, 1.5, 1909.5)]
  {
    BenchWorkEnd(Case17());
    Case17Segments();
    Case17Penalties();
  }

  lemma Case17Penalties()
    ensures PenaltyTotal(MealPenalties(Case17())) == 0.0
  {
    BenchWorkEnd(Case17());
    MealPenaltyTotalByLateness(Case17());
  }

  lemma Case17Segments()
    ensures TimeSegments(120, 318.25, 1.0, 12) == [TimeSegment(StraightTime, 80, 318.25, 1.0, 2546.0), TimeSegment(TimeAndHalf, 40, 318.25, 1.5, 1909.5)]
  {
    Round2OfCents(254600);
    Round2OfCents(190950);
  }

  /** Case 17: 12 hours with a $1,300 adjustment (more than the $1,246 base): time-and-a-half runs to hour 12, so 8 hours straight and 4 at time-and-a-half, $4,455.50 (the bench expects $3,819, which would be 12 straight hours). */
  lemma TwelveHourDayLargeAdjustment()
    ensures CalculateRate(Case17(), false).Ok?
    ensures CalculateRate(Case17(), false).value.grandTotal == 4455.5
  {
    Case17Parts();
    Round2OfCents(254600);
  }

  function Case18(): ExhibitGInput
  {
    BenchInput(7 * 60, 22 * 60, None, Meal(12 * 60, 12 * 60 + 30), Meal(18 * 60, 18 * 60 + 30), 1300.0)
  }

  lemma Case18Parts()
    ensures !NdMealTooLate(Case18())
    ensures NetWorkHours(Case18(), false) == 140
    ensures PenaltyTotal(MealPenalties(Case18())) == 0.0
    ensures TimeSegments(140, 318.25, 1.0, 12) == [TimeSegment(StraightTime, 80, 318.25, 1.0, 2546.0), TimeSegment(TimeAndHalf, 40, 318.25, 1.5, 1909.5), TimeSegment(DoubleTime, 20, 318.25, 2.0, 1273.0)]
  {
    BenchWorkEnd(Case18());
    Case18Segments();
    Case18Penalties();
  }

  lemma Case18Penalties()
    ensures PenaltyTotal(MealPenalties(Case18())) == 0.0
  {
    BenchWorkEnd(Case18());
    MealPenaltyTotalByLateness(Case18());
  }

  lemma Case18Segments()
    ensures TimeSegments(140, 318.25, 1.0, 12) == [TimeSegment(StraightTime, 80, 318.25, 1.0, 2546.0), TimeSegment(TimeAndHalf, 40, 318.25, 1.5, 1909.5), TimeSegment(DoubleTime, 20, 318.25, 2.0, 1273.0)]
  {
    Round2OfCents(254600);
    Round2OfCents(190950);
    Round2OfCents(127300);
  }

  /** Case 18: 14 hours with a $1,300 adjustment: 8 straight, 4 at time-and-a-half, 2 double, $5,728.50 (the bench expects $5,092, which would be 12 straight hours and 2 double). */
  lemma FourteenHourDayLargeAdjustment()
    ensures CalculateRate(Case18(), false).Ok?
    ensures CalculateRate(Case18(), false).value.grandTotal == 5728.5
  {
    Case18Parts();
    Round2OfCents(254600);
  }
}
