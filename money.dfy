/**
 * The `Money` record: an exact decimal amount tagged with a currency code.
 * Adding or subtracting two amounts of different currencies throws
 * InvalidOperationException in the source; here it is a Failure carrying
 * that exception's message. Record equality compares amount and currency,
 * which is Dafny's datatype equality.
 */
module Monetary {
  import opened Wrappers

  const AddMismatchMessage: string := "Cannot add money with different currencies"
  const SubtractMismatchMessage: string := "Cannot subtract money with different currencies"

  /** `new Money(amount)` stores the amount as given and tags it "AUD"; a currency may be passed instead. */
  datatype Money = Money(amount: real, currency: string := "AUD")

  /** `a + b` */
  function Plus(a: Money, b: Money): (r: Result<Money, string>)
    ensures r.Success? <==> a.currency == b.currency
    ensures r.Success? ==> r.value.amount == a.amount + b.amount && r.value.currency == a.currency
    ensures r.Failure? ==> r.error == AddMismatchMessage
  {
    if a.currency != b.currency then Failure(AddMismatchMessage)
    else Success(Money(a.amount + b.amount, a.currency))
  }

  /** `a - b` */
  function Minus(a: Money, b: Money): (r: Result<Money, string>)
    ensures r.Success? <==> a.currency == b.currency
    ensures r.Success? ==> r.value.amount == a.amount - b.amount && r.value.currency == a.currency
    ensures r.Failure? ==> r.error == SubtractMismatchMessage
  {
    if a.currency != b.currency then Failure(SubtractMismatchMessage)
    else Success(Money(a.amount - b.amount, a.currency))
  }

  /** `a * multiplier`: never fails and keeps the currency. */
  function Times(a: Money, multiplier: real): (r: Money)
    ensures r.amount == a.amount * multiplier && r.currency == a.currency
  {
    Money(a.amount * multiplier, a.currency)
  }

  /** The one-argument constructor neither rounds nor asks for a currency: it is "AUD". */
  lemma ConstructorDefaultsToAud(amount: real)
    ensures Money(amount).amount == amount && Money(amount).currency == "AUD"
  {
  }

  /** Subtracting then adding back the same amount gives the original value. */
  lemma MinusThenPlus(a: Money, b: Money)
    requires a.currency == b.currency
    ensures Minus(a, b).Success?
    ensures Plus(Minus(a, b).value, b) == Success(a)
  {
  }

  /** Adding then subtracting the same amount gives the original value. */
  lemma PlusThenMinus(a: Money, b: Money)
    requires a.currency == b.currency
    ensures Plus(a, b).Success?
    ensures Minus(Plus(a, b).value, b) == Success(a)
  {
  }

  /** Scaling twice is scaling by the product. */
  lemma TimesComposes(a: Money, j: real, k: real)
    ensures Times(Times(a, j), k) == Times(a, j * k)
  {
  }
}
