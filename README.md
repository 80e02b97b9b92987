# Exhibit G rate engine and residuals CSV reader

This project models the core of a SAG-AFTRA stunt-performer pay tracker in Dafny. It has four parts:

- **Rate engine**: turns one day's Exhibit G time report into a pay breakdown. The report holds the call time, the dismissals, the meal periods, the stunt adjustment and the special-day flags.
  - Work time runs from call to the later dismissal, measured forward across midnight.
  - The deductible 1st and 2nd meals are subtracted. The net time is rounded up to a tenth of an hour.
  - Pay is split into straight time, time-and-a-half and double time. Each tier is paid at least the 6th-day, 7th-day or holiday multiplier. A stunt adjustment larger than the daily rate stretches time-and-a-half to hour 12.
  - Escalating meal penalties (25, 35, then 50 per half hour) and a capped forced-call penalty are added.
  - The 8-hour daily guarantee is enforced.
  - A non-deductible (ND) breakfast must end within two hours of call; otherwise the engine raises an error.
- **Time utilities**: clock-text parsing and validation, rounding to 6-minute steps, overnight durations, the latest and earliest of several times, and the payment due date.
- **Rate constants**: the 2025-2026 rate schedule and the overtime, multiplier and penalty tables, with the relations between them.
- **Residuals import** (`src/app/api/residuals/route.ts`): the CSV reader and its checks.
  - The reader works character by character: quoted sections, doubled-quote escapes, trimmed fields, blank lines skipped.
  - The header lookup matches columns case-insensitively.
  - An upload is refused when it has no data row or no title column.

Files:

- `wrappers.dfy`: `Option` and `Result`.
- `rate_constants.dfy` (module `RateConstants`): the constant tables.
- `time_utils.dfy` (module `TimeUtils`): times are `int` minutes since midnight (0..1439), and absent fields are `None`.
- `rate_engine.dfy` (module `RateEngine`):
  - The engine is written as functions: `CalculateRate`, `TimeSegments`, `MealPenalties` and `PenaltyAmounts`.
  - Where the source builds its result step by step, a method does the same and is proved equal to the function. Those methods are `BuildTimeSegments`, `CalculateMealPenalties` (and one method per meal check) and `CalculatePenaltyAmounts`, plus `TimeUtils.CalculateMealMinutes`.
  - Hours are held as whole tenths of an hour: `Tenths`, so 15 stands for 1.5 h. Money is `real`.
  - `Round2` is the source's `Math.round(n * 100) / 100` on exact reals.
- `rate_engine_examples.dfy` (module `RateEngineExamples`): the pre-seeded test-bench days, each proved to produce its grand total.
- `residuals_csv.dfy` (module `ResidualsCsv`):
  - `ParseCsv` is the source's nested loop, proved equal to the function `ParseCsvText`.
  - The properties are stated about `ParseLine`, the per-line state machine, and about `CsvRows` (all lines).

Where the code and its surrounding documentation disagree, the model follows the code. The test-bench expectations for days 17 and 18 are 3819.00 and 5092.00, and they treat hours 9-12 as straight time. The engine pays hours 9-12 at time and a half, as its own comments at `src/lib/rate-engine.ts` lines 81 and 159 say. The model therefore proves the engine's totals for those two days: 4455.50 and 5728.50.

## Model

| member | source | states |
|---|---|---|
| RateConstants.HourlyIsDailyOverEight | src/lib/rate-constants.ts:2-21 | every schedule's hourly rate is its daily rate over eight, with eight straight-time hours |
| RateConstants.TheatricalEqualsTelevision | src/lib/rate-constants.ts:2-21 | theatrical and television rows are identical ($1,246/day); stunt coordinator is $1,938/day |
| RateConstants.OvertimeBandsOrdered | src/lib/rate-constants.ts:25-29 | straight time (8 h) ends before time-and-a-half ends (10 h) |
| RateConstants.MultipliersOrdered | src/lib/rate-constants.ts:31-38 | 1.0 ≤ 1.5 ≤ 2.0, 6th day = 1.5, 7th day = holiday = 2.0 |
| RateConstants.PenaltyRulesShape | src/lib/rate-constants.ts:40-52 | penalties escalate 25 < 35 < 50, both meal windows are 6 h, forced-call cap 900, ten 6-minute steps per hour |
| TimeUtils.HourAndMinuteBounds | src/lib/time-utils.ts:117-120 | text accepted by `isValidTime` has hour < 24 and minute < 60 |
| TimeUtils.FormatTimeRoundTrip | src/lib/time-utils.ts:7-10 | a zero-padded "HH:MM" of any time is valid and parses back to that time |
| TimeUtils.ValidTimeIsFormatted | src/lib/time-utils.ts:117-120 | every valid text is the padded form of the time it parses to, or that form without the hour's leading zero |
| TimeUtils.UnpaddedTimeIsValid | src/lib/time-utils.ts:117-120 | "H:MM" for hours below 10 is also accepted and parses to the same time |
| TimeUtils.SnapToSixMinutes | src/lib/time-utils.ts:125-131 | the result is valid padded text of a multiple of 6 minutes: the nearest one (half up), wrapping 23:57 and later to 00:00 |
| TimeUtils.SnapArithmetic | src/lib/time-utils.ts:127-129 | snapping the minute within its hour (with the carry into the hour) is rounding the whole time of day to 6 minutes |
| TimeUtils.RoundUpToTenthHour | src/lib/time-utils.ts:15-17 | the least multiple of 6 not below the input |
| TimeUtils.RoundUpToTenthHourIdempotent | src/lib/time-utils.ts:15-17 | multiples of 6 are fixed, so rounding twice is rounding once |
| TimeUtils.MinutesToDecimalHours | src/lib/time-utils.ts:22-24 | the nearest tenth of an hour (half up); exact on multiples of 6 minutes |
| TimeUtils.CalculateDuration | src/lib/time-utils.ts:30-40 | between 1 and 1440 minutes; `end - start` when end is later, else wrapped past midnight |
| TimeUtils.DurationReachesEnd | src/lib/time-utils.ts:26-40 | after the duration the clock shows the end time |
| TimeUtils.DurationIsLeastPositive | src/lib/time-utils.ts:26-40 | no shorter positive wait reaches the end time |
| TimeUtils.DurationExamples | src/lib/time-utils.ts:28 | 18:00 to 02:00 is 480 minutes; equal times are a whole day |
| TimeUtils.WrapAfter | src/lib/time-utils.ts:85-87 | a time's position on the clock that starts at the reference: within one day after it, the time itself or a day later |
| TimeUtils.WrapAfterIsSameClockTime | src/lib/time-utils.ts:85-87 | the position shows the same time of day |
| TimeUtils.WrapAfterInjective | src/lib/time-utils.ts:85-87 | different times get different positions |
| TimeUtils.MealDuration | src/lib/time-utils.ts:49-53 | a meal deducts its duration when both ends are recorded, and nothing otherwise |
| TimeUtils.MealMinutes | src/lib/time-utils.ts:45-55 | total meal minutes lie between 0 and one day per meal |
| TimeUtils.MealMinutesAppend | src/lib/time-utils.ts:45-55 | meal minutes add up over consecutive lists of meals |
| TimeUtils.CalculateMealMinutes | src/lib/time-utils.ts:45-55 | the accumulating loop computes `MealMinutes` |
| TimeUtils.PresentTimes | src/lib/time-utils.ts:76 | the filter keeps exactly the present candidates |
| TimeUtils.LatestOf | src/lib/time-utils.ts:81-90 | the reduce step returns a candidate that no other lies after, on the clock starting at the reference |
| TimeUtils.GetLatestTime | src/lib/time-utils.ts:75-91 | None exactly when no candidate is present; otherwise a present candidate that is latest after the reference |
| TimeUtils.LatestTimeIsUnique | src/lib/time-utils.ts:75-91 | a present candidate that is latest is the one returned |
| TimeUtils.EarliestOf | src/lib/time-utils.ts:64-68 | the reduce step returns the smallest candidate |
| TimeUtils.GetEarliestTime | src/lib/time-utils.ts:60-69 | None exactly when no candidate is present; otherwise the smallest present time, with no overnight handling |
| TimeUtils.NextSaturday | src/lib/time-utils.ts:144-146 | the first Saturday strictly after the date, within a week |
| TimeUtils.CalculatePaymentDueDate | src/lib/time-utils.ts:139-155 | a Wednesday, 11 days after the first Saturday strictly after the work date, so 12 to 18 days later |
| TimeUtils.PaymentDueDateExample | src/lib/time-utils.ts:133-138 | Monday 6 January falls due on Wednesday 22 January |
| RateEngine.Round2IsNearestCent | src/lib/rate-engine.ts:382-384 | `round2` returns a whole number of cents within half a cent (half up) |
| RateEngine.Round1IsNearestTenth | src/lib/rate-engine.ts:375-377 | `round1` returns a whole number of tenths within half a tenth |
| RateEngine.Round2OfCents | src/lib/rate-engine.ts:382-384 | an amount already in whole cents is unchanged |
| RateEngine.Round1OfTenths | src/lib/rate-engine.ts:375-377 | an hours value already in tenths is unchanged, so the engine's `round1` calls on hours are identities |
| RateEngine.WorkEnd | src/lib/rate-engine.ts:49-55 | work ends at one of the two dismissals, the later one on the clock starting at call |
| RateEngine.WorkSpanMinutes | src/lib/rate-engine.ts:57-58 | the span from call to work end is 1 to 1440 minutes |
| RateEngine.NetWorkMinutes | src/lib/rate-engine.ts:63-69 | span minus deductible meal minutes, never negative |
| RateEngine.NetWorkHours | src/lib/rate-engine.ts:69-73 | net minutes rounded up to the next 6-minute step (or, with `skipRounding`, to the nearest tenth) in tenths of an hour |
| RateEngine.GetDayMultiplier | src/lib/rate-engine.ts:126-153 | holiday before 7th day before 6th day, each exactly when the higher ones are unset; applied iff some flag is set; multiplier of the kind chosen |
| RateEngine.DayMultiplierIsLargestFlagged | src/lib/rate-engine.ts:126-153 | the chosen multiplier is the largest among the flagged days (1.0 if none), between 1.0 and 2.0 |
| RateEngine.EffectiveTimeAndHalfEnd | src/lib/rate-engine.ts:81-83 | time-and-a-half ends at hour 12 exactly when the stunt adjustment exceeds the daily rate, else at hour 10 |
| RateEngine.BuildTimeSegments | src/lib/rate-engine.ts:163-231 | the step-by-step segment builder computes `TimeSegments` |
| RateEngine.TimeSegmentsShape | src/lib/rate-engine.ts:163-231 | at most three segments, in tier order, each with positive hours, the hourly rate, multiplier max(tier, day) ≥ day multiplier, and `round2(hours × rate × multiplier)` as subtotal |
| RateEngine.MakeSegmentWellFormed | src/lib/rate-engine.ts:177-188 | a segment built from positive hours carries its tier and is well formed |
| RateEngine.TimeSegmentsCoverNetHours | src/lib/rate-engine.ts:163-231 | straight time covers hours 0-8, time-and-a-half 8 to its end, double time the rest; together exactly the net hours |
| RateEngine.TimeSegmentsWithinCapacity | src/lib/rate-engine.ts:172-210 | straight time is at most 8 h and time-and-a-half at most its band's width |
| RateEngine.PenaltyPeriods | src/lib/rate-engine.ts:347-367 | one entry per started half hour of lateness |
| RateEngine.PenaltyPeriodsEntries | src/lib/rate-engine.ts:347-367 | entry i is labelled with the meal, covers min(minutes late − 30·i, 30) minutes, and costs 25, 35, then 50 by its period number |
| RateEngine.CalculatePenaltyAmounts | src/lib/rate-engine.ts:339-370 | the while loop computes `PenaltyAmounts` |
| RateEngine.PenaltyMinutesCoverLateness | src/lib/rate-engine.ts:349-366 | the entries' minutes add up to the lateness (0 if not late) |
| RateEngine.PenaltyAmountsTotal | src/lib/rate-engine.ts:335-370 | number of periods, total 0 / 25 / 60 + 50(n−2), and minutes summing to the lateness |
| RateEngine.PenaltyTotalMonotone | src/lib/rate-engine.ts:339-370 | a later meal never costs less |
| RateEngine.PenaltyAmountsLabelled | src/lib/rate-engine.ts:360-364 | every entry carries its meal's label |
| RateEngine.MealPenaltiesOrdered | src/lib/rate-engine.ts:236-333 | 1st-meal entries come before 2nd-meal entries, which come before 3rd-meal entries |
| RateEngine.CalculateMealPenalties | src/lib/rate-engine.ts:236-333 | the three sequential checks compute `MealPenalties` |
| RateEngine.CheckFirstMeal | src/lib/rate-engine.ts:240-277 | the 1st-meal check, with its overnight reassignments, computes `FirstMealPenalties` |
| RateEngine.CheckSecondMeal | src/lib/rate-engine.ts:279-309 | the 2nd-meal check computes `SecondMealPenalties` |
| RateEngine.CheckThirdMeal | src/lib/rate-engine.ts:311-330 | the 3rd-meal check computes `ThirdMealPenalties` |
| RateEngine.MealPenaltiesChargeLateness | src/lib/rate-engine.ts:236-333 | each meal's entries cover its lateness and cost its escalating total; later meals are empty without the previous finish |
| RateEngine.FirstMealChargesLateness | src/lib/rate-engine.ts:240-277 | the 1st meal's entries cover exactly the minutes past its deadline and cost the escalating total for that many half-hour periods |
| RateEngine.SecondMealChargesLateness | src/lib/rate-engine.ts:279-309 | the same for the 2nd meal, measured from six hours after the 1st meal's finish |
| RateEngine.ThirdMealChargesLateness | src/lib/rate-engine.ts:311-330 | the same for the 3rd meal, measured from six hours after the 2nd meal's finish to dismissal on set |
| RateEngine.MealPenaltyTotalByLateness | src/lib/rate-engine.ts:103-104 | the day's meal-penalty total in closed form from the three latenesses |
| RateEngine.LaterMealsIgnoreNdMeal | src/lib/rate-engine.ts:279-330 | the ND meal does not affect the 2nd or 3rd meal windows |
| RateEngine.NdMealIgnoredWithoutFirstMeal | src/lib/rate-engine.ts:240-277 | with no 1st meal recorded, the ND meal has no effect on any meal penalty |
| RateEngine.LaterMealsIgnoreWardrobeDismissal | src/lib/rate-engine.ts:279-330 | the wardrobe dismissal does not affect the 2nd or 3rd meal windows |
| RateEngine.WardrobeDismissalOnlyBoundsFirstMeal | src/lib/rate-engine.ts:262-301 | the wardrobe dismissal affects only the skipped-1st-meal case; the later windows end at dismissal on set |
| RateEngine.ForcedCallPenalty | src/lib/rate-engine.ts:94-97 | 0 without a forced call, else the lesser of the adjusted daily rate and 900 |
| RateEngine.CalculateRate | src/lib/rate-engine.ts:28-124 | error exactly when the ND meal ends more than 2 h after call; otherwise every breakdown field, from the segments to the penalties, and a grand total that is the time pay plus the penalties |
| RateEngine.TimePay | src/lib/rate-engine.ts:100-102 | the time pay is at least the segment total and at least the daily minimum (adjusted daily rate times the day multiplier, rounded to the cent), and equals one of them |
| RateEngine.GrandTotalCoversMinimum | src/lib/rate-engine.ts:99-105 | the grand total is at least the multiplier-adjusted daily minimum plus all penalties, and at least the segment total plus all penalties; the penalty total is the meal entries plus the forced-call penalty |
| RateEngine.CalculateRateSegments | src/lib/rate-engine.ts:80-89 | the breakdown's segments cover exactly the net hours, in tier order, each at the adjusted hourly rate and a multiplier no lower than the day's |
| RateEngine.NdMealNotDeducted | src/lib/rate-engine.ts:63-69 | ND meal times change neither the span nor the net hours |
| RateEngine.OvernightSpan | src/lib/rate-engine.ts:49-58 | call 22:00 with dismissal 06:00 spans 8 hours |
| RateEngineExamples.BenchInput | src/app/test-bench/page.tsx:49-77 | the bench's default input with the wardrobe dismissal equal to dismissal on set |
| RateEngineExamples.BenchWorkEnd | src/app/test-bench/page.tsx:49-77 | with equal dismissals, work ends at dismissal on set |
| RateEngineExamples.ShortDayGuarantee | src/app/test-bench/page.tsx:85-100 | 4 h day pays the 8-hour guarantee, 1246.00 |
| RateEngineExamples.StandardEightHourDay | src/app/test-bench/page.tsx:101-116 | 8 h day pays 1246.00 |
| RateEngineExamples.TenHourDayOvertime | src/app/test-bench/page.tsx:117-132 | 10 h day pays 1713.25 |
| RateEngineExamples.NoLunchPenalty | src/app/test-bench/page.tsx:133-148 | 7.5 h day without a meal pays 1356.00, including 110.00 of penalties |
| RateEngineExamples.NdMealDay | src/app/test-bench/page.tsx:149-166 | a day with an ND meal pays 1246.00 |
| RateEngineExamples.LargeStuntAdjustment | src/app/test-bench/page.tsx:167-183 | a $2,000 adjustment pays 3246.00 |
| RateEngineExamples.SixteenHourDay | src/app/test-bench/page.tsx:184-199 | 16 h day pays 3942.25 |
| RateEngineExamples.TwentyFourHourDay | src/app/test-bench/page.tsx:200-218 | overnight 24 h day pays 6222.75 |
| RateEngineExamples.ShortDayGuaranteeAdjusted | src/app/test-bench/page.tsx:221-237 | case 1 with +$100 pays 1346.00 |
| RateEngineExamples.StandardEightHourDayAdjusted | src/app/test-bench/page.tsx:238-254 | case 2 with +$100 pays 1346.00 (case 14 is the same input) |
| RateEngineExamples.TenHourDayOvertimeAdjusted | src/app/test-bench/page.tsx:255-271 | case 3 with +$100 pays 1850.75 |
| RateEngineExamples.NoLunchPenaltyAdjusted | src/app/test-bench/page.tsx:272-288 | case 4 with +$100 pays 1456.00 |
| RateEngineExamples.NdMealDayAdjusted | src/app/test-bench/page.tsx:289-306 | case 5 with +$100 pays 1346.00 |
| RateEngineExamples.SixteenHourDayAdjusted | src/app/test-bench/page.tsx:325-341 | case 7 with +$100 pays 4229.75 |
| RateEngineExamples.TwentyFourHourDayAdjusted | src/app/test-bench/page.tsx:342-360 | case 8 with +$100 pays 6685.25 |
| RateEngineExamples.TwelveHourDayLargeAdjustment | src/lib/rate-engine.ts:81-83 | the 12 h day with +$1,300 pays the engine's 4455.50: hours 9-12 at time and a half |
| RateEngineExamples.FourteenHourDayLargeAdjustment | src/lib/rate-engine.ts:81-83 | the 14 h day with +$1,300 pays the engine's 5728.50 |
| ResidualsCsv.TrimIsTrimmed | src/app/api/residuals/route.ts:41 | `trim` leaves no JavaScript white space at either end |
| ResidualsCsv.TrimKeepsMiddle | src/app/api/residuals/route.ts:41 | `trim` removes only white space, at the two ends, and keeps a contiguous middle |
| ResidualsCsv.TrimEmptyIffBlank | src/app/api/residuals/route.ts:19 | a line trims to nothing exactly when it is all white space |
| ResidualsCsv.TrimOfTrimmed | src/app/api/residuals/route.ts:41 | trimming a trimmed string changes nothing |
| ResidualsCsv.SplitOnJoin | src/app/api/residuals/route.ts:16 | splitting is undone by joining, yields one more piece than separators, and no piece holds a separator |
| ResidualsCsv.SplitOnRoundTrip | src/app/api/residuals/route.ts:16 | joining the pieces with the separator gives back the string |
| ResidualsCsv.SplitOnCount | src/app/api/residuals/route.ts:16 | there is one more piece than there are separators |
| ResidualsCsv.SplitOnPiecesFree | src/app/api/residuals/route.ts:16 | no piece holds the separator |
| ResidualsCsv.SplitLines | src/app/api/residuals/route.ts:16 | one line per line feed plus one, none containing a line feed |
| ResidualsCsv.ParseCsv | src/app/api/residuals/route.ts:14-53 | the nested loops, with the skip of an escaped quote, compute `ParseCsvText` |
| ResidualsCsv.CsvRowsAppend | src/app/api/residuals/route.ts:18-50 | the rows of a file are the rows of its lines, taken line by line, so quote state never carries into the next line |
| ResidualsCsv.CsvRowsOfOneLine | src/app/api/residuals/route.ts:16-49 | a blank line gives no row; any other line gives exactly one |
| ResidualsCsv.ScanFromExtendsRow | src/app/api/residuals/route.ts:41-48 | a scan keeps the fields already found and always adds the field in progress |
| ResidualsCsv.ParseLineNonEmpty | src/app/api/residuals/route.ts:48 | every row has at least one field |
| ResidualsCsv.ScanFromFieldsTrimmed | src/app/api/residuals/route.ts:41-48 | every field pushed is trimmed |
| ResidualsCsv.ParseLineFieldsTrimmed | src/app/api/residuals/route.ts:41-48 | every field of a line is trimmed |
| ResidualsCsv.CsvRowsFieldsTrimmed | src/app/api/residuals/route.ts:14-53 | every field of every row is trimmed |
| ResidualsCsv.ScanFromUnquoted | src/app/api/residuals/route.ts:37-46 | outside quotes, with no quote ahead, the scan is a split at commas with each piece trimmed |
| ResidualsCsv.ParseLineUnquoted | src/app/api/residuals/route.ts:37-48 | a line without quotes yields its comma pieces trimmed, k + 1 fields for k commas |
| ResidualsCsv.ScanEscapedRun | src/app/api/residuals/route.ts:26-36 | anywhere in a line, inside quotes, an escaped text ended by a quote that is not doubled joins the field in progress unescaped, and the scan goes on outside quotes just after that closing quote |
| ResidualsCsv.EscapedRunAtSlice | src/app/api/residuals/route.ts:26-36 | a stretch of the line holding an escaped text satisfies the character-by-character reading of it: doubled quotes two at a time, other characters one at a time |
| ResidualsCsv.ScanPlainRun | src/app/api/residuals/route.ts:37-46 | outside quotes, a stretch with no quote and no comma joins the field in progress unchanged |
| ResidualsCsv.ScanCell | src/app/api/residuals/route.ts:26-46 | outside quotes, one plain or quoted cell followed by a comma or the end of the line adds exactly its text to the field in progress |
| ResidualsCsv.ScanSuffix | src/app/api/residuals/route.ts:24-46 | two lines with equal tails from the scan positions onwards give the same fields: the scan depends only on the rest of the line |
| ResidualsCsv.ScanRow | src/app/api/residuals/route.ts:18-48 | scanning a comma-joined sequence of plain and quoted cells appends each cell's trimmed text, one field per cell |
| ResidualsCsv.EncodedRowRoundTrip | src/app/api/residuals/route.ts:18-48 | a row written as plain cells (no quote or comma) and quoted cells (quotes doubled) parses back to the cells' trimmed texts: as many fields as cells, field k being cell k's text trimmed |
| ResidualsCsv.QuotedFieldRoundTrip | src/app/api/residuals/route.ts:21-39 | a quoted field with its quotes doubled reads back as its trimmed text at its own position, wherever it sits among the other cells of the row |
| ResidualsCsv.QuotedFieldKeepsCommas | src/app/api/residuals/route.ts:21-46 | in `x,"a,b",y` with plain x and y, the commas inside the quotes stay in the middle field: the line has exactly the three fields x, the quoted text and y, each trimmed |
| ResidualsCsv.EscapedQuoteField | src/app/api/residuals/route.ts:27-30 | a doubled quote inside a quoted field between two plain fields yields one literal quote in that field, and the line still has exactly three fields |
| ResidualsCsv.EscapeAppend | src/app/api/residuals/route.ts:27-30 | escaping distributes over concatenation |
| ResidualsCsv.ScanFromNoQuote | src/app/api/residuals/route.ts:26-39 | a quote character reaches a field only through a doubled quote |
| ResidualsCsv.ParseLineWithoutDoubledQuote | src/app/api/residuals/route.ts:26-39 | a line with no doubled quote yields no field containing a quote |
| ResidualsCsv.TrimKeepsOut | src/app/api/residuals/route.ts:41 | trimming adds no character |
| ResidualsCsv.ToLower | src/app/api/residuals/route.ts:108 | the lower-cased text has the same length, no upper-case letter left, every other character kept in place, and each upper-case letter replaced by the lower-case letter at the same place in the alphabet |
| ResidualsCsv.ToLowerIdempotent | src/app/api/residuals/route.ts:108 | lower-casing twice is lower-casing once |
| ResidualsCsv.FindColumn | src/app/api/residuals/route.ts:108 | the search returns -1 or an index at or after its start |
| ResidualsCsv.FindColumnIsFirstMatch | src/app/api/residuals/route.ts:108 | it returns the first matching cell, and -1 exactly when none matches |
| ResidualsCsv.ColIndexIsFirstMatch | src/app/api/residuals/route.ts:107-108 | `colIndex(name)` is the first header cell whose lower-cased text contains the lower-cased name, or -1 when none does |
| ResidualsCsv.ColumnMatchIgnoresCase | src/app/api/residuals/route.ts:108 | matching a name and matching its lower-cased form are the same |
| ResidualsCsv.ColumnMatchesItself | src/app/api/residuals/route.ts:108 | a cell matches its own text |
| ResidualsCsv.CheckImport | src/app/api/residuals/route.ts:96-131 | refused as empty exactly when there are fewer than 2 rows; refused for the title column exactly when no header cell matches it; otherwise the first matching column |
| ResidualsCsv.TitleHeaderAccepted | src/app/api/residuals/route.ts:115-131 | an upload with a data row and a header cell named exactly "Production/Episode Title" passes, at that column or an earlier match |

## Left out

- User interface, persistence, authentication and HTTP handling are not modelled: React pages and components, API routes, database models, cookies and sessions. This includes the calculator form's flat-rate override for stunt coordinators. Only the two upload rejections of the residuals route are kept, as `CheckImport`.
- Floating point: money is exact `real` and hours are whole tenths. JavaScript binary-rounding artefacts cannot occur, for example a near-zero leftover producing a 0-hour double-time row.
- `additionalSeconds`, the live counter's wall-clock seconds, is left out. `skipRounding` is kept as a parameter.
- Segment and meal label strings are display text. Tiers and meals are enumerations instead.
- TimeUtils.ParseTimeToMinutes and all engine inputs take well-formed times. Malformed text, which the source turns into NaN, is excluded by the `Time` type and by `IsValidTime`.
- Unknown work statuses cannot occur: the work status is a three-value datatype.
- The residuals route's use of the rows after the checks is not modelled. That covers `parseDollar`, the `totalGross` float sum, the performer name and the check records.
- ResidualsCsv.ToLower lower-cases ASCII letters only, not the full Unicode case mapping of `toLowerCase`.
- TimeUtils.CalculatePaymentDueDate works on day numbers (days since Thursday 1 January 1970), not on the date-fns calendar and ISO date text.
- Test-bench case 14 has the same input as case 10, so it is covered by `StandardEightHourDayAdjusted`.
- The bench totals for cases 17 and 18 (3819.00 and 5092.00) are not asserted. They assume straight time to hour 12, which the engine does not compute; the engine's totals are proved instead.
- `formatDuration` and `formatCurrency` are display formatting and are not modelled.
