# CalcHub Child Care Subsidy engine in Dafny

This project models the Child Care Subsidy (CCS) estimator of CalcHub, for the
2024-25 rates. `CcsCalculatorService.Calculate` takes one input record and works
in four steps. First it validates the input. Then it applies two eligibility
gates: the activity test, and income at most $530,000. Next it tapers the
subsidy percentage down from 90 as income rises above $80,000. Last it caps the
hourly rate by care type and fills a fresh result object with hourly, weekly,
fortnightly and yearly subsidy and out-of-pocket figures.

Modules, one per source file:

- `Monetary` (`money.dfy`): the `Money` record, which holds an exact amount and a
  currency. It has the constructor, which defaults the currency to "AUD", and
  the `+`, `-` and `*` operators. A currency mismatch is a `Failure` that carries
  the exception's message.
- `CcsInput` (`ccs_input.dfy`): the input record and `Validate`, its ordered
  chain of four guards.
- `CcsResult` (`ccs_result.dfy`): the mutable result class. Its constructor
  zeroes every figure. `View()` is a snapshot of all its fields.
- `CcsCalculator` (`ccs_calculator.dfy`): the constants and tables, and
  `CheckEligibility`, a method that writes the message into the result.
  `CalculateSubsidyPercentage` and `GetSubsidisedHours` are functions.
  `Calculate` is a method that allocates and fills a `CcsCalculationResult`.
  It is proved against `CalculateSpec`, a function of the input.
- `CcsProperties` (`ccs_properties.dfy`): lemmas over `CalculateSpec`. The
  postcondition of `Calculate` carries them over to every object it returns.
- `DecimalRounding` (`decimal_rounding.dfy`): `Math.Round(decimal, 2)`.
- `Wrappers` (`wrappers.dfy`): `Result` and `Outcome`.

Modelling choices:

- Every decimal is a Dafny `real`, and Dafny reals are exact. C# `decimal`
  gives the same results only while every intermediate value fits in its 28-29
  significant digits (see "Left out").
- Care type and activity level are integer codes. Care types are 1..5 in the
  order of the API's catalogue: LongDayCare, FamilyDayCare,
  OutsideSchoolHoursCare, InHomecare, OccasionalCare. Activity levels are 1..3.
  Codes outside these ranges can be represented.
- The service throws `ArgumentException` from `Validate` and
  `KeyNotFoundException` from the cap table. These become `CalcError` values.
  The cap lookup only happens once both eligibility gates have passed. So an
  unknown care type fails only for eligible input, and ineligible input with an
  unknown care type still gets an ordinary ineligible result.
- Two behaviours are easy to misread. The model follows the code in both:
  - `Math.Round(decimal, 2)` without a mode rounds half-way values to the even
    cent, not away from zero. `ScenarioHalfCentTie` shows 0.125 becoming 0.12.
  - The weekly, fortnightly and yearly figures come from the *unrounded* hourly
    subsidy, and none of them is rounded, `TotalCostPerWeek` included.
    `WeeklySubsidyNearDisplayedHourly` bounds the gap between the weekly
    subsidy and the displayed hourly subsidy times the hours.
- `IsAboveIncomeThreshold` is assigned only on the eligible path. That path
  requires income of at most 530,000, so the flag is always false
  (`AboveThresholdFlagNeverSet`). This behaviour is kept as written.
- The clamp `Math.Max(…, 0)` in the taper never takes effect. Between the two
  thresholds the reduction is at most 90 (`PercentageInTaperBand`).

## Model

| member | source | states |
|---|---|---|
| DecimalRounding.RoundToEven | src/CalcHub.Application/Services/CcsCalculatorService.cs:49 | the result is an integer within 1/2 of the argument; at exactly 1/2 it is the even one |
| DecimalRounding.RoundToEvenUnique | src/CalcHub.Application/Services/CcsCalculatorService.cs:49 | those two properties single out one integer, so they define round-half-to-even |
| DecimalRounding.Round2 | src/CalcHub.Application/Services/CcsCalculatorService.cs:49-52 | `Math.Round(x, 2)` is a whole number of cents within half a cent of x; a half-cent tie goes to the even cent |
| DecimalRounding.Round2KeepsWholeCents | src/CalcHub.Application/Services/CcsCalculatorService.cs:49-52 | an amount already in whole cents is not changed by rounding |
| DecimalRounding.Round2Idempotent | src/CalcHub.Application/Services/CcsCalculatorService.cs:49-52 | rounding a rounded amount again changes nothing |
| Monetary.ConstructorDefaultsToAud | src/CalcHub.Domain/Money.cs:8-12 | the constructor keeps the amount unrounded and tags it "AUD" when no currency is given |
| Monetary.Plus | src/CalcHub.Domain/Money.cs:14-20 | `a + b` succeeds exactly when the currencies match, with the summed amount and a's currency; otherwise it fails with "Cannot add money with different currencies" |
| Monetary.Minus | src/CalcHub.Domain/Money.cs:22-28 | `a - b` succeeds exactly when the currencies match, with the difference and a's currency; otherwise it fails with "Cannot subtract money with different currencies" |
| Monetary.Times | src/CalcHub.Domain/Money.cs:30-33 | `a * k` never fails; it scales the amount by k and keeps a's currency |
| Monetary.MinusThenPlus | src/CalcHub.Domain/Money.cs:14-28 | for one currency, (a - b) + b equals a by record equality |
| Monetary.PlusThenMinus | src/CalcHub.Domain/Money.cs:14-28 | for one currency, (a + b) - b equals a by record equality |
| Monetary.TimesComposes | src/CalcHub.Domain/Money.cs:30-33 | scaling by j and then by k is scaling by j times k |
| CcsInput.Validate | src/CalcHub.Domain/CCS/CcsCalculationInput.cs:14-27 | passes exactly when income is at least 0, the rate is above 0, hours are in 1..168 and there is at least one child; otherwise the first failing check, taken in that order, gives the message |
| CcsInput.ValidateIgnoresUncheckedFields | src/CalcHub.Domain/CCS/CcsCalculationInput.cs:14-27 | care type, activity level and the activity-test flag do not affect validation |
| CcsInput.ValidateBoundaries | src/CalcHub.Domain/CCS/CcsCalculationInput.cs:16-23 | income 0 and hours 1 and 168 are accepted; hours 0 and 169 fail with the hours message |
| CcsResult.Defaults | src/CalcHub.Domain/CCS/CcsCalculationResult.cs:26-38 | the fresh-result values: all nine Money figures are 0 AUD, the percentage, cap and hours are 0, the flag is false and the message is empty |
| CcsResult.CcsCalculationResult.constructor | src/CalcHub.Domain/CCS/CcsCalculationResult.cs:26-38 | a new result object holds exactly those default values |
| CcsCalculator.EligibilityMessage | src/CalcHub.Application/Services/CcsCalculatorService.cs:74-90 | the activity-test message when the test is not met; otherwise the income message when income exceeds 530,000; the eligible message exactly when both gates pass |
| CcsCalculator.CheckEligibility | src/CalcHub.Application/Services/CcsCalculatorService.cs:74-90 | returns true exactly when both gates pass, writes that message into the result, and changes no other field |
| CcsCalculator.CalculateSubsidyPercentage | src/CalcHub.Application/Services/CcsCalculatorService.cs:92-113 | the percentage is a whole number in 0..90; it is 90 up to 80,000 and 0 above 530,000 |
| CcsCalculator.GetSubsidisedHours | src/CalcHub.Application/Services/CcsCalculatorService.cs:115-124 | the hours are 36, 72 or 100; 72 exactly for code 2 and 100 exactly for code 3, so 36 for code 1 and for every unknown code |
| CcsCalculator.Calculate | src/CalcHub.Application/Services/CcsCalculatorService.cs:25-72 | fails exactly as `CalculateSpec` does; otherwise it returns a fresh result object whose fields are `CalculateSpec`'s view |
| CcsCalculator.DeriveMoneyFigures | src/CalcHub.Application/Services/CcsCalculatorService.cs:46-66 | sets the nine Money figures to the eligible result's figures from the percentage and cap already in the object, and changes no other field |
| CcsProperties.InvalidInputFailsFirst | src/CalcHub.Application/Services/CcsCalculatorService.cs:27 | invalid input returns the validation message, one of the four, and no result, whatever the other fields hold |
| CcsProperties.IneligibleKeepsDefaults | src/CalcHub.Application/Services/CcsCalculatorService.cs:29-35 | an ineligible result is the constructor's result with only the message set: no money, no percentage, cap or hours, flag false |
| CcsProperties.NotActiveIsIneligible | src/CalcHub.Application/Services/CcsCalculatorService.cs:32-35 | when the activity test is not met, the result carries the activity message and nothing payable, at any income |
| CcsProperties.IncomeAboveUpperIsIneligible | src/CalcHub.Application/Services/CcsCalculatorService.cs:82-86 | when income is above 530,000, the result carries "Family income exceeds the threshold of $530,000. No subsidy is available." and nothing payable |
| CcsProperties.IncomeAtUpperIsEligibleAtZero | src/CalcHub.Application/Services/CcsCalculatorService.cs:82-88 | income of exactly 530,000 is eligible at 0 per cent: every subsidy figure is 0 and the weekly out-of-pocket amount is the whole weekly cost |
| CcsProperties.UnknownCareTypeFailsOnlyWhenEligible | src/CalcHub.Application/Services/CcsCalculatorService.cs:32-41 | for valid input, a care type with no cap fails with KeyNotFound exactly when both gates pass |
| CcsProperties.FailureCases | src/CalcHub.Application/Services/CcsCalculatorService.cs:25-72 | Calculate fails exactly on invalid input, or on eligible input with an unknown care type |
| CcsProperties.EligibleResult | src/CalcHub.Application/Services/CcsCalculatorService.cs:38-71 | eligible, valid input with a known care type yields the eligible view |
| CcsProperties.EligibleFigures | src/CalcHub.Application/Services/CcsCalculatorService.cs:38-58 | with s = min(rate, cap) x percentage / 100: the percentage, cap and hours come from the tables, the hourly subsidy is round(s), the hourly out-of-pocket is round(rate - s), and the weekly figures are rate x hours, s x hours and (rate - s) x hours |
| CcsProperties.ForWeekDistributes | src/CalcHub.Application/Services/CcsCalculatorService.cs:56-58 | proof helper for `EligibleFigures`: a week of a difference is the difference of the weeks |
| CcsProperties.AllFiguresInAud | src/CalcHub.Domain/CCS/CcsCalculationResult.cs:28-36 | every Money figure of every result is in AUD |
| CcsProperties.WeekSumsToTotal | src/CalcHub.Application/Services/CcsCalculatorService.cs:56-58 | the weekly subsidy plus the weekly out-of-pocket amount is exactly the weekly cost, in every result |
| CcsProperties.LongerPeriodsAreWeekMultiples | src/CalcHub.Application/Services/CcsCalculatorService.cs:60-66 | each fortnightly figure is 2 times its weekly figure, and each yearly figure is 52 times it |
| CcsProperties.AboveThresholdFlagNeverSet | src/CalcHub.Application/Services/CcsCalculatorService.cs:69 | `IsAboveIncomeThreshold` is false in every result |
| CcsProperties.SubsidyBoundedByCost | src/CalcHub.Application/Services/CcsCalculatorService.cs:47-58 | the weekly subsidy is between 0 and 90 per cent of the weekly cost, so the family pays at least 10 per cent |
| CcsProperties.PercentOfAtMostNinety | src/CalcHub.Application/Services/CcsCalculatorService.cs:47-48 | proof helper for `SubsidyBoundedByCost`: at most 90 per cent of the capped rate is at most 90 per cent of the charged rate |
| CcsProperties.WeekOfBoundedHourly | src/CalcHub.Application/Services/CcsCalculatorService.cs:56-57 | proof helper for `SubsidyBoundedByCost`: an hourly bound of 90 per cent of the rate carries over to the week |
| CcsProperties.WeeklySubsidyNearDisplayedHourly | src/CalcHub.Application/Services/CcsCalculatorService.cs:48-57 | the weekly subsidy differs from the displayed hourly subsidy times the hours by at most half a cent per hour |
| CcsProperties.ScaledRoundingError | src/CalcHub.Application/Services/CcsCalculatorService.cs:49-57 | proof helper for `WeeklySubsidyNearDisplayedHourly`: an hourly rounding error of at most half a cent grows to at most half a cent per hour over the week |
| CcsProperties.PercentageInTaperBand | src/CalcHub.Application/Services/CcsCalculatorService.cs:100-109 | income from 80,000 + 5,000k up to but not including 80,000 + 5,000(k+1), and at most 530,000, gives 90 - k per cent |
| CcsProperties.PercentageNonIncreasing | src/CalcHub.Application/Services/CcsCalculatorService.cs:92-113 | a higher income never gets a higher percentage |
| CcsProperties.PercentageExamples | src/CalcHub.Application/Services/CcsCalculatorService.cs:92-113 | 0, 80,000 and 80,001 give 90; 85,000 gives 89, 100,000 gives 86, 280,000 gives 50, 400,000 gives 26, 525,000 gives 1 and 530,000 gives 0 |
| CcsProperties.SubsidisedHoursByActivity | src/CalcHub.Application/Services/CcsCalculatorService.cs:115-124 | more activity never means fewer hours; every code outside 1..3 gets the hours of code 1 |
| CcsProperties.ScenarioModerateIncome | src/CalcHub.Application/Services/CcsCalculatorService.cs:25-72 | income 100,000, long day care at 12 for 40 hours, code 3: 86 per cent, cap 13.73, 100 hours, 10.32 and 1.68 an hour, 480 / 412.80 / 67.20 a week, 21,465.60 / 3,494.40 a year |
| CcsProperties.ScenarioRateAboveCap | src/CalcHub.Application/Services/CcsCalculatorService.cs:47-52 | a rate of 20 for long day care at 90 per cent gives 12.36 subsidy and 7.64 out-of-pocket an hour |
| CcsProperties.ScenarioHalfCentTie | src/CalcHub.Application/Services/CcsCalculatorService.cs:49-52 | a rate of 0.25 at 50 per cent shows 0.12 for both hourly figures, so their sum is not the rate |
| CcsProperties.ScenarioUnknownActivityLevel | src/CalcHub.Application/Services/CcsCalculatorService.cs:115-124 | activity code 99 gets 36 hours and no error |

## Left out

- `Money.ToString` and the culture-dependent `N0` formatting of the threshold
  are left out. The income message is the literal string the `en-AU` and
  invariant formats produce ("$530,000").
- The precision of C# `decimal` (28-29 significant digits) and its overflow
  exception are not modelled. Amounts are unbounded exact reals, and the
  `int` fields are unbounded integers.
- Only the exceptions' kind and message are modelled. `ArgumentException`
  becomes `CalcError.InvalidArgument(message)`, and a missing cap becomes
  `CalcError.KeyNotFound(code)`. The text of the `KeyNotFoundException` is not
  modelled.
- `CcsCalculator.Calculate`: the source fills the money figures inline. The model
  moves that part into `DeriveMoneyFigures`. Both set the same fields, with the
  same values, in the same order.
- The `ChildCareType` enum file is not part of this model. The care-type codes
  1..5 come from the API's care-type catalogue.
- The HTTP controller, its request and response DTOs and their `[Range]`
  attributes are not modelled. The same goes for logging, dependency injection,
  hosting and the React front end, since they make no decisions about the
  result.
- `NumberOfChildren` is validated but never used in any figure. The model
  behaves the same way.
