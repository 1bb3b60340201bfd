/**
 * The Child Care Subsidy calculator for the 2024-25 rates. `Calculate`
 * validates the input, applies the two eligibility gates, tapers the
 * subsidy percentage against income and derives the hourly, weekly,
 * fortnightly and yearly figures into a fresh result object.
 *
 * `CalculateSpec` states, as a function of the input, what `Calculate`
 * returns; the lemmas in CcsProperties are about that function.
 */
module CcsCalculator {
  import opened Wrappers
  import opened Monetary
  import opened DecimalRounding
  import opened CcsInput
  import opened CcsResult

  const IncomeThresholdLower: real := 80000.0
  const IncomeThresholdUpper: real := 530000.0
  const MaxSubsidyPercentage: real := 90.0
  const MinSubsidyPercentage: real := 0.0
  /** The percentage drops by one for each whole step of income above the lower threshold. */
  const TaperStep: real := 5000.0

  /** ChildCareType codes. */
  const LongDayCare: int := 1
  const FamilyDayCare: int := 2
  const OutsideSchoolHoursCare: int := 3
  const InHomeCare: int := 4
  const OccasionalCare: int := 5

  /** ActivityLevel codes. */
  const EightToSixteenHours: int := 1
  const SixteenToFortyEightHours: int := 2
  const OverFortyEightHours: int := 3

  /** Hourly rate caps by care type; other codes have no entry. */
  const HourlyCaps: map<int, real> := map[
    LongDayCare := 13.73,
    FamilyDayCare := 12.74,
    OutsideSchoolHoursCare := 12.75,
    InHomeCare := 36.24,
    OccasionalCare := 13.73]

  const NotActiveMessage: string :=
    "You must meet work, training, study or other activity requirements to be eligible for CCS."
  /** The upper threshold rendered with the "N0" format: thousands separators, no decimals. */
  const IncomeTooHighMessage: string :=
    "Family income exceeds the threshold of $530,000. No subsidy is available."
  const EligibleMessage: string := "You are eligible for Child Care Subsidy."

  /** What `Calculate` can throw: ArgumentException from Validate, KeyNotFoundException from the cap table. */
  datatype CalcError = InvalidArgument(message: string) | KeyNotFound(childCareType: int)

  function Min(a: real, b: real): real {
    if a <= b then a else b
  }

  function Max(a: real, b: real): real {
    if a >= b then a else b
  }

  /** Both gates pass: the activity test is met and income is at most the upper threshold. */
  predicate IsEligible(input: CcsCalculationInput) {
    input.isWorkingOrStudying && input.annualFamilyIncome <= IncomeThresholdUpper
  }

  /** The message CheckEligibility writes; the activity gate is checked first. */
  function EligibilityMessage(input: CcsCalculationInput): (m: string)
    ensures m == EligibleMessage <==> IsEligible(input)
    ensures !input.isWorkingOrStudying ==> m == NotActiveMessage
    ensures input.isWorkingOrStudying && input.annualFamilyIncome > IncomeThresholdUpper ==> m == IncomeTooHighMessage
  {
    if !input.isWorkingOrStudying then NotActiveMessage
    else if input.annualFamilyIncome > IncomeThresholdUpper then IncomeTooHighMessage
    else EligibleMessage
  }

  /** Writes the eligibility message into `result` and reports whether both gates pass. */
  method CheckEligibility(input: CcsCalculationInput, result: CcsCalculationResult) returns (eligible: bool)
    modifies result`eligibilityMessage
    ensures eligible <==> IsEligible(input)
    ensures result.eligibilityMessage == EligibilityMessage(input)
  {
    if !input.isWorkingOrStudying {
      result.eligibilityMessage := NotActiveMessage;
      return false;
    }

    if input.annualFamilyIncome > IncomeThresholdUpper {
      result.eligibilityMessage := IncomeTooHighMessage;
      return false;
    }

    result.eligibilityMessage := EligibleMessage;
    return true;
  }

  /**
   * 90 up to the lower threshold; above it, 90 less one for every whole
   * 5,000 over the lower threshold, not below 0; above the upper threshold, 0.
   */
  function CalculateSubsidyPercentage(annualIncome: real): (p: real)
    ensures MinSubsidyPercentage <= p <= MaxSubsidyPercentage
    ensures p.Floor as real == p
    ensures annualIncome <= IncomeThresholdLower ==> p == MaxSubsidyPercentage
    ensures annualIncome > IncomeThresholdUpper ==> p == MinSubsidyPercentage
  {
    if annualIncome <= IncomeThresholdLower then
      MaxSubsidyPercentage
    else if annualIncome <= IncomeThresholdUpper then
      var incomeOverThreshold := annualIncome - IncomeThresholdLower;
      var reductionPercentage := (incomeOverThreshold / TaperStep).Floor as real;
      assert 0.0 <= reductionPercentage <= MaxSubsidyPercentage;
      Max(MaxSubsidyPercentage - reductionPercentage, MinSubsidyPercentage)
    else
      MinSubsidyPercentage
  }

  /** Subsidised hours per fortnight for an activity level; an unknown code gets the lowest band's 36. */
  function GetSubsidisedHours(activityLevel: int): (hours: int)
    ensures hours in {36, 72, 100}
    ensures hours == 72 <==> activityLevel == SixteenToFortyEightHours
    ensures hours == 100 <==> activityLevel == OverFortyEightHours
  {
    match activityLevel
    case 1 => 36
    case 2 => 72
    case 3 => 100
    case _ => 36
  }

  /** `percentage` per cent of `amount`. */
  function PercentOf(amount: real, percentage: real): real {
    amount * (percentage / 100.0)
  }

  /** An hourly amount over a week of `hoursPerWeek` hours. */
  function ForWeek(hourly: real, hoursPerWeek: int): real {
    hourly * hoursPerWeek as real
  }

  /** The result of an eligible calculation whose care type has a cap. */
  function EligibleView(input: CcsCalculationInput): ResultView
    requires input.childCareType in HourlyCaps
  {
    var percentage := CalculateSubsidyPercentage(input.annualFamilyIncome);
    var cap := HourlyCaps[input.childCareType];
    var perHour := PercentOf(Min(input.hourlyRate, cap), percentage);
    var totalPerWeek := Money(ForWeek(input.hourlyRate, input.hoursPerWeek));
    var subsidyPerWeek := Money(ForWeek(perHour, input.hoursPerWeek));
    var outOfPocketPerWeek := Money(totalPerWeek.amount - subsidyPerWeek.amount);
    ResultView(
      subsidyPercentage := percentage,
      subsidyPerHour := Money(Round2(perHour)),
      subsidyPerWeek := subsidyPerWeek,
      subsidyPerFortnight := Money(subsidyPerWeek.amount * 2.0),
      subsidyPerYear := Money(subsidyPerWeek.amount * 52.0),
      outOfPocketPerHour := Money(Round2(input.hourlyRate - perHour)),
      outOfPocketPerWeek := outOfPocketPerWeek,
      outOfPocketPerFortnight := Money(outOfPocketPerWeek.amount * 2.0),
      outOfPocketPerYear := Money(outOfPocketPerWeek.amount * 52.0),
      totalCostPerWeek := totalPerWeek,
      subsidisedHoursPerFortnight := GetSubsidisedHours(input.activityLevel),
      hourlyCap := cap,
      isAboveIncomeThreshold := input.annualFamilyIncome > IncomeThresholdUpper,
      eligibilityMessage := EligibleMessage)
  }

  /** What Calculate returns, or the exception it throws, for each input. */
  function CalculateSpec(input: CcsCalculationInput): Result<ResultView, CalcError> {
    match Validate(input)
    case Fail(message) => Failure(InvalidArgument(message))
    case Pass =>
      if !IsEligible(input) then
        Success(Defaults().(eligibilityMessage := EligibilityMessage(input)))
      else if input.childCareType !in HourlyCaps then
        Failure(KeyNotFound(input.childCareType))
      else
        Success(EligibleView(input))
  }

  method Calculate(input: CcsCalculationInput) returns (outcome: Result<CcsCalculationResult, CalcError>)
    ensures outcome.Failure? ==> CalculateSpec(input) == Failure(outcome.error)
    ensures outcome.Success? ==> fresh(outcome.value) && CalculateSpec(input) == Success(outcome.value.View())
  {
    var validation := Validate(input);
    if validation.Fail? {
      return Failure(InvalidArgument(validation.error));
    }

    var result := new CcsCalculationResult();

    var eligible := CheckEligibility(input, result);
    if !eligible {
      return Success(result);
    }

    result.subsidyPercentage := CalculateSubsidyPercentage(input.annualFamilyIncome);

    if input.childCareType !in HourlyCaps {
      return Failure(KeyNotFound(input.childCareType));
    }
    result.hourlyCap := HourlyCaps[input.childCareType];

    result.subsidisedHoursPerFortnight := GetSubsidisedHours(input.activityLevel);

    DeriveMoneyFigures(input, result);

    result.isAboveIncomeThreshold := input.annualFamilyIncome > IncomeThresholdUpper;
    return Success(result);
  }

  /**
   * The money part of the eligible path (hour, week, fortnight and year
   * figures), from the percentage and cap already stored in `result`. Only
   * the nine Money fields change.
   */
  method DeriveMoneyFigures(input: CcsCalculationInput, result: CcsCalculationResult)
    requires input.childCareType in HourlyCaps
    requires result.subsidyPercentage == CalculateSubsidyPercentage(input.annualFamilyIncome)
    requires result.hourlyCap == HourlyCaps[input.childCareType]
    modifies result`subsidyPerHour, result`outOfPocketPerHour, result`totalCostPerWeek, result`subsidyPerWeek,
      result`outOfPocketPerWeek, result`subsidyPerFortnight, result`outOfPocketPerFortnight,
      result`subsidyPerYear, result`outOfPocketPerYear
    ensures var v := EligibleView(input);
      && result.subsidyPerHour == v.subsidyPerHour
      && result.outOfPocketPerHour == v.outOfPocketPerHour
      && result.totalCostPerWeek == v.totalCostPerWeek
      && result.subsidyPerWeek == v.subsidyPerWeek
      && result.outOfPocketPerWeek == v.outOfPocketPerWeek
      && result.subsidyPerFortnight == v.subsidyPerFortnight
      && result.outOfPocketPerFortnight == v.outOfPocketPerFortnight
      && result.subsidyPerYear == v.subsidyPerYear
      && result.outOfPocketPerYear == v.outOfPocketPerYear
  {
    var effectiveHourlyRate := Min(input.hourlyRate, result.hourlyCap);
    var subsidyAmountPerHour := PercentOf(effectiveHourlyRate, result.subsidyPercentage);
    result.subsidyPerHour := Money(Round2(subsidyAmountPerHour));

    result.outOfPocketPerHour := Money(Round2(input.hourlyRate - subsidyAmountPerHour));

    var hoursPerWeek := input.hoursPerWeek;
    result.totalCostPerWeek := Money(ForWeek(input.hourlyRate, hoursPerWeek));
    result.subsidyPerWeek := Money(ForWeek(subsidyAmountPerHour, hoursPerWeek));
    var outOfPocketPerWeek := Minus(result.totalCostPerWeek, result.subsidyPerWeek);
    result.outOfPocketPerWeek := outOfPocketPerWeek.value;

    result.subsidyPerFortnight := Money(result.subsidyPerWeek.amount * 2.0);
    result.outOfPocketPerFortnight := Money(result.outOfPocketPerWeek.amount * 2.0);

    result.subsidyPerYear := Money(result.subsidyPerWeek.amount * 52.0);
    result.outOfPocketPerYear := Money(result.outOfPocketPerWeek.amount * 52.0);
  }
}
