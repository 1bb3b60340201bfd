/**
 * The calculator's input record and its `Validate` guard chain. The guards
 * throw ArgumentException in the source; here the first failing guard's
 * message comes back in a `Fail`. Validate reads the record and writes no
 * field, so the record is a value.
 */
module CcsInput {
  import opened Wrappers

  const NegativeIncomeMessage: string := "Annual family income cannot be negative"
  const NonPositiveRateMessage: string := "Hourly rate must be greater than zero"
  const HoursOutOfRangeMessage: string := "Hours per week must be between 1 and 168"
  const NoChildrenMessage: string := "Number of children must be at least 1"

  /** Most hours of care in one week (24 x 7). */
  const MaxHoursPerWeek: int := 168

  /**
   * Care type and activity level are enum values in the source; they are
   * kept as their integer codes, because a cast from an integer can put any
   * code there.
   */
  datatype CcsCalculationInput = CcsCalculationInput(
    annualFamilyIncome: real,
    childCareType: int,
    hourlyRate: real,
    hoursPerWeek: int,
    numberOfChildren: int,
    activityLevel: int,
    isWorkingOrStudying: bool)

  /** The four conditions Validate enforces, all at once. */
  predicate IsValid(input: CcsCalculationInput) {
    && input.annualFamilyIncome >= 0.0
    && input.hourlyRate > 0.0
    && 1 <= input.hoursPerWeek <= MaxHoursPerWeek
    && input.numberOfChildren >= 1
  }

  /**
   * Checks income, rate, hours and children in that order; the first
   * failing check decides the message.
   */
  function Validate(input: CcsCalculationInput): (o: Outcome<string>)
    ensures o.Pass? <==> IsValid(input)
    ensures input.annualFamilyIncome < 0.0 ==> o == Fail(NegativeIncomeMessage)
    ensures input.annualFamilyIncome >= 0.0 && input.hourlyRate <= 0.0 ==> o == Fail(NonPositiveRateMessage)
    ensures (input.annualFamilyIncome >= 0.0 && input.hourlyRate > 0.0
             && !(1 <= input.hoursPerWeek <= MaxHoursPerWeek))
            ==> o == Fail(HoursOutOfRangeMessage)
    ensures (input.annualFamilyIncome >= 0.0 && input.hourlyRate > 0.0
             && 1 <= input.hoursPerWeek <= MaxHoursPerWeek && input.numberOfChildren < 1)
            ==> o == Fail(NoChildrenMessage)
  {
    if input.annualFamilyIncome < 0.0 then Fail(NegativeIncomeMessage)
    else if input.hourlyRate <= 0.0 then Fail(NonPositiveRateMessage)
    else if input.hoursPerWeek <= 0 || input.hoursPerWeek > MaxHoursPerWeek then Fail(HoursOutOfRangeMessage)
    else if input.numberOfChildren <= 0 then Fail(NoChildrenMessage)
    else Pass
  }

  /** Care type, activity level and the activity-test flag play no part in validation. */
  lemma ValidateIgnoresUncheckedFields(a: CcsCalculationInput, b: CcsCalculationInput)
    requires a.annualFamilyIncome == b.annualFamilyIncome && a.hourlyRate == b.hourlyRate
    requires a.hoursPerWeek == b.hoursPerWeek && a.numberOfChildren == b.numberOfChildren
    ensures Validate(a) == Validate(b)
  {
  }

  /** The boundary values of each range: income 0 and hours 1 and 168 pass, hours 0 and 169 fail. */
  lemma ValidateBoundaries(input: CcsCalculationInput)
    requires input.hourlyRate > 0.0 && input.numberOfChildren >= 1
    ensures input.annualFamilyIncome == 0.0 && input.hoursPerWeek in {1, 168} ==> Validate(input) == Pass
    ensures (input.annualFamilyIncome >= 0.0 && input.hoursPerWeek in {0, 169})
            ==> Validate(input) == Fail(HoursOutOfRangeMessage)
  {
  }
}
