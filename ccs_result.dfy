/**
 * The mutable result object. Its constructor sets the nine Money fields to
 * zero Australian dollars and the message to the empty string; the other
 * fields keep C#'s default values (0 and false). The calculator then
 * overwrites the fields one by one.
 */
module CcsResult {
  import opened Monetary

  /** A snapshot of every field of a result object. */
  datatype ResultView = ResultView(
    subsidyPercentage: real,
    subsidyPerHour: Money,
    subsidyPerWeek: Money,
    subsidyPerFortnight: Money,
    subsidyPerYear: Money,
    outOfPocketPerHour: Money,
    outOfPocketPerWeek: Money,
    outOfPocketPerFortnight: Money,
    outOfPocketPerYear: Money,
    totalCostPerWeek: Money,
    subsidisedHoursPerFortnight: int,
    hourlyCap: real,
    isAboveIncomeThreshold: bool,
    eligibilityMessage: string)

  /** The nine Money figures of a view. */
  function MoneyFields(v: ResultView): seq<Money> {
    [v.subsidyPerHour, v.subsidyPerWeek, v.subsidyPerFortnight, v.subsidyPerYear,
     v.outOfPocketPerHour, v.outOfPocketPerWeek, v.outOfPocketPerFortnight, v.outOfPocketPerYear,
     v.totalCostPerWeek]
  }

  /** Every money figure is zero Australian dollars. */
  predicate AllMoneyZero(v: ResultView) {
    forall i :: 0 <= i < |MoneyFields(v)| ==> MoneyFields(v)[i] == Money(0.0, "AUD")
  }

  /** The figures a result carries when no subsidy applies: no money, no percentage, cap or hours, flag off. */
  predicate NothingPayable(v: ResultView) {
    && AllMoneyZero(v)
    && v.subsidyPercentage == 0.0
    && v.hourlyCap == 0.0
    && v.subsidisedHoursPerFortnight == 0
    && !v.isAboveIncomeThreshold
  }

  /** What a freshly constructed result holds. */
  function Defaults(): (v: ResultView)
    ensures NothingPayable(v) && v.eligibilityMessage == ""
  {
    ResultView(0.0, Money(0.0), Money(0.0), Money(0.0), Money(0.0),
               Money(0.0), Money(0.0), Money(0.0), Money(0.0), Money(0.0),
               0, 0.0, false, "")
  }

  class CcsCalculationResult {
    var subsidyPercentage: real
    var subsidyPerHour: Money
    var subsidyPerWeek: Money
    var subsidyPerFortnight: Money
    var subsidyPerYear: Money
    var outOfPocketPerHour: Money
    var outOfPocketPerWeek: Money
    var outOfPocketPerFortnight: Money
    var outOfPocketPerYear: Money
    var totalCostPerWeek: Money
    var subsidisedHoursPerFortnight: int
    var hourlyCap: real
    var isAboveIncomeThreshold: bool
    var eligibilityMessage: string

    /** The current value of every field. */
    function View(): ResultView
      reads this
    {
      ResultView(subsidyPercentage, subsidyPerHour, subsidyPerWeek, subsidyPerFortnight, subsidyPerYear,
                 outOfPocketPerHour, outOfPocketPerWeek, outOfPocketPerFortnight, outOfPocketPerYear,
                 totalCostPerWeek, subsidisedHoursPerFortnight, hourlyCap, isAboveIncomeThreshold,
                 eligibilityMessage)
    }

    constructor ()
      ensures View() == Defaults()
      ensures NothingPayable(View()) && eligibilityMessage == ""
    {
      subsidyPerHour := Money(0.0);
      subsidyPerWeek := Money(0.0);
      subsidyPerFortnight := Money(0.0);
      subsidyPerYear := Money(0.0);
      outOfPocketPerHour := Money(0.0);
      outOfPocketPerWeek := Money(0.0);
      outOfPocketPerFortnight := Money(0.0);
      outOfPocketPerYear := Money(0.0);
      totalCostPerWeek := Money(0.0);
      eligibilityMessage := "";
      // C# default values of the fields the source constructor does not assign
      subsidyPercentage := 0.0;
      subsidisedHoursPerFortnight := 0;
      hourlyCap := 0.0;
      isAboveIncomeThreshold := false;
    }
  }
}
