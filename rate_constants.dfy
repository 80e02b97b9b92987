/**
 * The SAG-AFTRA 2025-2026 rate schedule and the overtime, multiplier, meal-penalty and
 * forced-call rule tables (src/lib/rate-constants.ts), as immutable constants.
 */
module RateConstants {

  /** The agreement type, which selects a row of the rate schedule. */
  datatype WorkStatus = TheatricalBasic | Television | StuntCoordinator

  /** One row of the rate schedule. */
  datatype RateSchedule = RateSchedule(daily: real, weekly: real, hourly: real, straightTimeHours: int)

  /** The rate schedule `RATES`. */
  function Rates(status: WorkStatus): RateSchedule
  {
    match status
    case TheatricalBasic => RateSchedule(1246.0, 4646.0, 155.75, 8)
    case Television => RateSchedule(1246.0, 4646.0, 155.75, 8)
    case StuntCoordinator => RateSchedule(1938.0, 7222.0, 242.25, 8)
  }

  /** Overtime band boundaries, in hours. */
  datatype OvertimeRules = OvertimeRules(straightTimeEnd: int, timeAndHalfEnd: int)

  const OVERTIME := OvertimeRules(straightTimeEnd := 8, timeAndHalfEnd := 10)

  /** Pay multipliers of the overtime tiers and of the special days. */
  datatype Multipliers = Multipliers(
    straight: real, timeAndHalf: real, doubleTime: real,
    sixthDay: real, seventhDay: real, holiday: real)

  const MULTIPLIERS := Multipliers(
    straight := 1.0, timeAndHalf := 1.5, doubleTime := 2.0,
    sixthDay := 1.5, seventhDay := 2.0, holiday := 2.0)

  /** Escalating meal-penalty amounts per half hour, and the meal windows in hours. */
  datatype MealPenaltyRules = MealPenaltyRules(
    firstHalfHour: real, secondHalfHour: real, eachAdditionalHalfHour: real,
    maxHoursBeforeFirstMeal: int, maxHoursBeforeSecondMeal: int)

  const MEAL_PENALTIES := MealPenaltyRules(
    firstHalfHour := 25.0, secondHalfHour := 35.0, eachAdditionalHalfHour := 50.0,
    maxHoursBeforeFirstMeal := 6, maxHoursBeforeSecondMeal := 6)

  /** The forced-call penalty is the lesser of one day's pay and this cap. */
  datatype ForcedCallRules = ForcedCallRules(maxPenalty: real)

  const FORCED_CALL := ForcedCallRules(maxPenalty := 900.0)

  /** Overtime is paid in tenths of an hour, that is in 6-minute increments. */
  const TIME_INCREMENT_MINUTES: int := 6

  /** Every schedule's hourly rate is its daily rate over eight hours. */
  lemma HourlyIsDailyOverEight(status: WorkStatus)
    ensures Rates(status).hourly * 8.0 == Rates(status).daily
    ensures Rates(status).straightTimeHours == OVERTIME.straightTimeEnd
  {
  }

  /** The theatrical and television rows are identical. */
  lemma TheatricalEqualsTelevision()
    ensures Rates(TheatricalBasic) == Rates(Television)
    ensures Rates(TheatricalBasic).daily == 1246.0 && Rates(StuntCoordinator).daily == 1938.0
  {
  }

  /** Straight time ends before time-and-a-half ends. */
  lemma OvertimeBandsOrdered()
    ensures 0 < OVERTIME.straightTimeEnd < OVERTIME.timeAndHalfEnd
  {
  }

  /** The tier multipliers increase, and the special-day multipliers are as the agreement fixes them. */
  lemma MultipliersOrdered()
    ensures MULTIPLIERS.straight <= MULTIPLIERS.timeAndHalf <= MULTIPLIERS.doubleTime
    ensures MULTIPLIERS.straight == 1.0
    ensures MULTIPLIERS.sixthDay == MULTIPLIERS.timeAndHalf == 1.5
    ensures MULTIPLIERS.seventhDay == MULTIPLIERS.holiday == MULTIPLIERS.doubleTime == 2.0
  {
  }

  /** Meal penalties escalate, both meal windows are six hours, the forced-call cap is $900
      and the time increment is a tenth of an hour. */
  lemma PenaltyRulesShape()
    ensures 0.0 < MEAL_PENALTIES.firstHalfHour < MEAL_PENALTIES.secondHalfHour < MEAL_PENALTIES.eachAdditionalHalfHour
    ensures MEAL_PENALTIES.maxHoursBeforeFirstMeal == MEAL_PENALTIES.maxHoursBeforeSecondMeal == 6
    ensures FORCED_CALL.maxPenalty == 900.0
    ensures TIME_INCREMENT_MINUTES * 10 == 60
  {
  }
}
