/**
 * What the calculator promises, stated over CalculateSpec (and so, through
 * the postcondition of Calculate, over every result object it returns).
 */
module CcsProperties {
  import opened Wrappers
  import opened Monetary
  import opened DecimalRounding
  import opened CcsInput
  import opened CcsResult
  import opened CcsCalculator

  // ---------------------------------------------------------------------
  // Validation and the two eligibility gates
  // ---------------------------------------------------------------------

  /** Invalid input produces the first failing guard's message and no result, whatever else it holds. */
  lemma InvalidInputFailsFirst(input: CcsCalculationInput)
    requires !IsValid(input)
    ensures Validate(input).Fail?
    ensures CalculateSpec(input) == Failure(InvalidArgument(Validate(input).error))
    ensures Validate(input).error in
              {NegativeIncomeMessage, NonPositiveRateMessage, HoursOutOfRangeMessage, NoChildrenMessage}
  {
  }

  /** An ineligible result is the freshly constructed one with only the message set. */
  lemma IneligibleKeepsDefaults(input: CcsCalculationInput)
    requires IsValid(input) && !IsEligible(input)
    ensures CalculateSpec(input).Success?
    ensures CalculateSpec(input).value == Defaults().(eligibilityMessage := EligibilityMessage(input))
    ensures NothingPayable(CalculateSpec(input).value)
  {
  }

  /** Not meeting the activity test is ineligible at every income and for every care type. */
  lemma NotActiveIsIneligible(input: CcsCalculationInput)
    requires IsValid(input) && !input.isWorkingOrStudying
    ensures CalculateSpec(input).Success?
    ensures CalculateSpec(input).value.eligibilityMessage == NotActiveMessage
    ensures NothingPayable(CalculateSpec(input).value)
  {
  }

  /** Income strictly above the upper threshold is ineligible. */
  lemma IncomeAboveUpperIsIneligible(input: CcsCalculationInput)
    requires IsValid(input) && input.isWorkingOrStudying
    requires input.annualFamilyIncome > IncomeThresholdUpper
    ensures CalculateSpec(input).Success?
    ensures CalculateSpec(input).value.eligibilityMessage == IncomeTooHighMessage
    ensures NothingPayable(CalculateSpec(input).value)
  {
  }

  /** Income of exactly the upper threshold is eligible, at 0 per cent: no subsidy, the family pays it all. */
  lemma IncomeAtUpperIsEligibleAtZero(input: CcsCalculationInput)
    requires IsValid(input) && input.isWorkingOrStudying && input.childCareType in HourlyCaps
    requires input.annualFamilyIncome == IncomeThresholdUpper
    ensures CalculateSpec(input).Success?
    ensures var v := CalculateSpec(input).value;
      && v.eligibilityMessage == EligibleMessage
      && v.subsidyPercentage == 0.0
      && v.subsidyPerHour.amount == 0.0 && v.subsidyPerWeek.amount == 0.0
      && v.subsidyPerFortnight.amount == 0.0 && v.subsidyPerYear.amount == 0.0
      && v.outOfPocketPerHour.amount == Round2(input.hourlyRate)
      && v.outOfPocketPerWeek == v.totalCostPerWeek
  {
  }

  /** A care type with no cap throws only once both gates have passed; ineligible input never reaches the lookup. */
  lemma UnknownCareTypeFailsOnlyWhenEligible(input: CcsCalculationInput)
    requires IsValid(input) && input.childCareType !in HourlyCaps
    ensures CalculateSpec(input).Failure? <==> IsEligible(input)
    ensures CalculateSpec(input).Failure? ==> CalculateSpec(input).error == KeyNotFound(input.childCareType)
  {
  }

  /** The only failures are invalid input and an unknown care type on the eligible path. */
  lemma FailureCases(input: CcsCalculationInput)
    ensures CalculateSpec(input).Failure? <==>
              !IsValid(input) || (IsEligible(input) && input.childCareType !in HourlyCaps)
  {
  }

  // ---------------------------------------------------------------------
  // The eligible path
  // ---------------------------------------------------------------------

  /** On the eligible path with a known care type, the result is EligibleView. */
  lemma EligibleResult(input: CcsCalculationInput)
    requires IsValid(input) && IsEligible(input) && input.childCareType in HourlyCaps
    ensures CalculateSpec(input) == Success(EligibleView(input))
  {
  }

  /** Each figure of an eligible result, in terms of the input and the unrounded hourly subsidy s. */
  lemma EligibleFigures(input: CcsCalculationInput)
    requires IsValid(input) && IsEligible(input) && input.childCareType in HourlyCaps
    ensures CalculateSpec(input).Success?
    ensures var v := CalculateSpec(input).value;
      var percentage := CalculateSubsidyPercentage(input.annualFamilyIncome);
      var cap := HourlyCaps[input.childCareType];
      var s := PercentOf(Min(input.hourlyRate, cap), percentage);
      && v.eligibilityMessage == EligibleMessage
      && v.subsidyPercentage == percentage
      && v.hourlyCap == cap
      && v.subsidisedHoursPerFortnight == GetSubsidisedHours(input.activityLevel)
      && v.subsidyPerHour.amount == Round2(s)
      && v.outOfPocketPerHour.amount == Round2(input.hourlyRate - s)
      && v.totalCostPerWeek.amount == ForWeek(input.hourlyRate, input.hoursPerWeek)
      && v.subsidyPerWeek.amount == ForWeek(s, input.hoursPerWeek)
      && v.outOfPocketPerWeek.amount == ForWeek(input.hourlyRate - s, input.hoursPerWeek)
  {
    EligibleResult(input);
    var s := PercentOf(Min(input.hourlyRate, HourlyCaps[input.childCareType]),
                       CalculateSubsidyPercentage(input.annualFamilyIncome));
    ForWeekDistributes(input.hourlyRate, s, input.hoursPerWeek);
  }

  /** A week of the difference is the difference of the weeks. */
  lemma ForWeekDistributes(a: real, b: real, hours: int)
    ensures ForWeek(a, hours) - ForWeek(b, hours) == ForWeek(a - b, hours)
  {
  }

  /** Every money figure of every result is in Australian dollars. */
  lemma AllFiguresInAud(input: CcsCalculationInput)
    requires CalculateSpec(input).Success?
    ensures forall i :: 0 <= i < |MoneyFields(CalculateSpec(input).value)| ==>
              MoneyFields(CalculateSpec(input).value)[i].currency == "AUD"
  {
  }

  /** Weekly subsidy plus weekly out-of-pocket is exactly the weekly cost, eligible or not. */
  lemma WeekSumsToTotal(input: CcsCalculationInput)
    requires CalculateSpec(input).Success?
    ensures var v := CalculateSpec(input).value;
      Plus(v.subsidyPerWeek, v.outOfPocketPerWeek) == Success(v.totalCostPerWeek)
  {
  }

  /** A fortnight is two weeks and a year 52 weeks, for both the subsidy and the out-of-pocket figures. */
  lemma LongerPeriodsAreWeekMultiples(input: CcsCalculationInput)
    requires CalculateSpec(input).Success?
    ensures var v := CalculateSpec(input).value;
      && v.subsidyPerFortnight.amount == 2.0 * v.subsidyPerWeek.amount
      && v.outOfPocketPerFortnight.amount == 2.0 * v.outOfPocketPerWeek.amount
      && v.subsidyPerYear.amount == 52.0 * v.subsidyPerWeek.amount
      && v.outOfPocketPerYear.amount == 52.0 * v.outOfPocketPerWeek.amount
  {
  }

  /** The above-threshold flag is false in every result: the only path that sets it has income at most the threshold. */
  lemma AboveThresholdFlagNeverSet(input: CcsCalculationInput)
    requires CalculateSpec(input).Success?
    ensures !CalculateSpec(input).value.isAboveIncomeThreshold
  {
  }

  /** The weekly subsidy is never negative and never more than 90 per cent of the weekly cost. */
  lemma SubsidyBoundedByCost(input: CcsCalculationInput)
    requires CalculateSpec(input).Success?
    ensures var v := CalculateSpec(input).value;
      && 0.0 <= v.subsidyPerWeek.amount <= 0.9 * v.totalCostPerWeek.amount
      && v.outOfPocketPerWeek.amount >= 0.1 * v.totalCostPerWeek.amount >= 0.0
  {
    if IsEligible(input) {
      EligibleFigures(input);
      var rate := input.hourlyRate;
      var effective := Min(rate, HourlyCaps[input.childCareType]);
      var s := PercentOf(effective, CalculateSubsidyPercentage(input.annualFamilyIncome));
      PercentOfAtMostNinety(effective, rate, CalculateSubsidyPercentage(input.annualFamilyIncome));
      WeekOfBoundedHourly(s, rate, input.hoursPerWeek);
      ForWeekDistributes(rate, s, input.hoursPerWeek);
    } else {
      IneligibleKeepsDefaults(input);
    }
  }

  /** At most 90 per cent of an effective rate that is at most the charged rate is at most 90 per cent of the charged rate. */
  lemma PercentOfAtMostNinety(effective: real, rate: real, percentage: real)
    requires 0.0 < effective <= rate
    requires 0.0 <= percentage <= MaxSubsidyPercentage
    ensures 0.0 <= PercentOf(effective, percentage) <= 0.9 * rate
  {
    var f := percentage / 100.0;
    assert 0.0 <= f <= 0.9;
    assert effective * f <= rate * f;
    assert rate * f <= rate * 0.9;
  }

  /** A week of an hourly amount between 0 and 90 per cent of the rate is between 0 and 90 per cent of a week at the rate. */
  lemma WeekOfBoundedHourly(s: real, rate: real, hours: int)
    requires 0.0 <= s <= 0.9 * rate
    requires hours >= 0
    ensures 0.0 <= ForWeek(s, hours) <= 0.9 * ForWeek(rate, hours)
  {
    var h := hours as real;
    assert s * h <= (0.9 * rate) * h;
    assert (0.9 * rate) * h == 0.9 * (rate * h);
  }

  /**
   * The weekly subsidy is built from the unrounded hourly amount, so it
   * differs from the displayed hourly subsidy times the hours by at most
   * half a cent per hour.
   */
  lemma WeeklySubsidyNearDisplayedHourly(input: CcsCalculationInput)
    requires CalculateSpec(input).Success?
    ensures var v := CalculateSpec(input).value;
      Abs(v.subsidyPerWeek.amount - ForWeek(v.subsidyPerHour.amount, input.hoursPerWeek))
        <= ForWeek(0.005, input.hoursPerWeek)
  {
    if IsEligible(input) {
      EligibleFigures(input);
      var s := PercentOf(Min(input.hourlyRate, HourlyCaps[input.childCareType]),
                         CalculateSubsidyPercentage(input.annualFamilyIncome));
      var v := CalculateSpec(input).value;
      ScaledRoundingError(s, v.subsidyPerHour.amount, v.subsidyPerWeek.amount, input.hoursPerWeek);
    } else {
      IneligibleKeepsDefaults(input);
      var v := CalculateSpec(input).value;
      assert v.subsidyPerWeek.amount == 0.0 && v.subsidyPerHour.amount == 0.0;
    }
  }

  /** An hourly error of at most half a cent becomes at most half a cent per hour over a week. */
  lemma ScaledRoundingError(x: real, r: real, week: real, hours: int)
    requires Abs(r - x) <= 0.005
    requires hours >= 0 && week == ForWeek(x, hours)
    ensures Abs(week - ForWeek(r, hours)) <= ForWeek(0.005, hours)
  {
    var h := hours as real;
    var d := x - r;
    assert week - ForWeek(r, hours) == d * h;
    if d >= 0.0 {
      assert d <= 0.005;
      assert 0.0 <= d * h <= 0.005 * h;
    } else {
      assert -d <= 0.005;
      assert 0.0 <= (-d) * h <= 0.005 * h;
    }
  }

  // ---------------------------------------------------------------------
  // The percentage taper and the hours table
  // ---------------------------------------------------------------------

  /** Income in [80,000 + 5,000k, 80,000 + 5,000(k+1)), at most 530,000, gives 90 - k per cent. */
  lemma PercentageInTaperBand(income: real, k: int)
    requires 0 <= k <= 90
    requires IncomeThresholdLower + TaperStep * k as real <= income < IncomeThresholdLower + TaperStep * (k + 1) as real
    requires IncomeThresholdLower < income <= IncomeThresholdUpper
    ensures CalculateSubsidyPercentage(income) == MaxSubsidyPercentage - k as real
  {
    var q := (income - IncomeThresholdLower) / TaperStep;
    assert k as real <= q < (k + 1) as real;
    assert q.Floor == k;
  }

  /** A higher income never gets a higher percentage. */
  lemma PercentageNonIncreasing(lower: real, higher: real)
    requires lower <= higher
    ensures CalculateSubsidyPercentage(higher) <= CalculateSubsidyPercentage(lower)
  {
    if IncomeThresholdLower < lower && higher <= IncomeThresholdUpper {
      var ql := (lower - IncomeThresholdLower) / TaperStep;
      var qh := (higher - IncomeThresholdLower) / TaperStep;
      assert ql <= qh;
      assert ql.Floor <= qh.Floor;
    }
  }

  /** The values the test suite pins, from 90 at the lower threshold to 0 at the upper one. */
  lemma PercentageExamples()
    ensures CalculateSubsidyPercentage(0.0) == 90.0
    ensures CalculateSubsidyPercentage(80000.0) == 90.0
    ensures CalculateSubsidyPercentage(80001.0) == 90.0
    ensures CalculateSubsidyPercentage(85000.0) == 89.0
    ensures CalculateSubsidyPercentage(100000.0) == 86.0
    ensures CalculateSubsidyPercentage(280000.0) == 50.0
    ensures CalculateSubsidyPercentage(400000.0) == 26.0
    ensures CalculateSubsidyPercentage(525000.0) == 1.0
    ensures CalculateSubsidyPercentage(530000.0) == 0.0
  {
  }

  /** More activity never means fewer subsidised hours; unknown codes get the lowest band's hours. */
  lemma SubsidisedHoursByActivity(lower: int, higher: int)
    requires EightToSixteenHours <= lower <= higher <= OverFortyEightHours
    ensures GetSubsidisedHours(lower) <= GetSubsidisedHours(higher)
    ensures GetSubsidisedHours(EightToSixteenHours) == 36
    ensures forall code :: code < EightToSixteenHours || code > OverFortyEightHours
              ==> GetSubsidisedHours(code) == GetSubsidisedHours(EightToSixteenHours)
  {
  }

  // ---------------------------------------------------------------------
  // Worked scenarios
  // ---------------------------------------------------------------------

  /** Income 100,000, long day care at 12 an hour for 40 hours, highest activity level. */
  lemma ScenarioModerateIncome()
    ensures var r := CalculateSpec(CcsCalculationInput(100000.0, LongDayCare, 12.0, 40, 1, OverFortyEightHours, true));
      && r.Success?
      && r.value.subsidyPercentage == 86.0
      && r.value.hourlyCap == 13.73
      && r.value.subsidisedHoursPerFortnight == 100
      && r.value.subsidyPerHour.amount == 10.32
      && r.value.outOfPocketPerHour.amount == 1.68
      && r.value.totalCostPerWeek.amount == 480.0
      && r.value.subsidyPerWeek.amount == 412.80
      && r.value.outOfPocketPerWeek.amount == 67.20
      && r.value.subsidyPerYear.amount == 21465.60
      && r.value.outOfPocketPerYear.amount == 3494.40
  {
  }

  /** A rate above the cap: the subsidy uses the cap, the out-of-pocket amount the full rate. */
  lemma ScenarioRateAboveCap()
    ensures var r := CalculateSpec(CcsCalculationInput(80000.0, LongDayCare, 20.0, 40, 1, OverFortyEightHours, true));
      && r.Success?
      && r.value.subsidyPerHour.amount == 12.36
      && r.value.outOfPocketPerHour.amount == 7.64
  {
  }

  /**
   * Half-cent ties round to the even cent: at 50 per cent of 0.25 the
   * unrounded subsidy is 0.125 and it shows as 0.12, and so does the
   * out-of-pocket amount 0.125; the two hourly figures then add up to 0.24,
   * not to the rate of 0.25.
   */
  lemma ScenarioHalfCentTie()
    ensures var r := CalculateSpec(CcsCalculationInput(280000.0, LongDayCare, 0.25, 10, 1, OverFortyEightHours, true));
      && r.Success?
      && r.value.subsidyPercentage == 50.0
      && r.value.subsidyPerHour.amount == 0.12
      && r.value.outOfPocketPerHour.amount == 0.12
      && r.value.subsidyPerHour.amount + r.value.outOfPocketPerHour.amount != 0.25
  {
  }

  /** An activity code outside 1..3 gets 36 hours and no error. */
  lemma ScenarioUnknownActivityLevel()
    ensures var r := CalculateSpec(CcsCalculationInput(100000.0, LongDayCare, 12.0, 40, 1, 99, true));
      r.Success? && r.value.subsidisedHoursPerFortnight == 36
  {
  }
}
