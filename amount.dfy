/**
 * The `Amount` value object of the transactions service: a decimal that is
 * strictly positive. Its constructor is private, so `Create` is the only way
 * to obtain one; the subset type `Amount` carries that guarantee.
 */
module Amounts {
  import opened Common

  datatype AmountValue = Amount(value: real)

  /** Every `Amount` in existence has passed `Create`'s check. */
  type Amount = a: AmountValue | a.value > 0.0 witness Amount(1.0)

  const NotPositive := Exception(Argument, "Amount must be greater than zero.")

  /** `Amount.Create`: a positive value is wrapped unchanged; anything else throws. */
  function Create(value: real): (r: Result<Amount, Exception>)
    ensures r.Success? <==> value > 0.0
    ensures r.Success? ==> r.value.value == value
    ensures r.Failure? ==> r.error == NotPositive
  {
    if value <= 0.0 then Failure(NotPositive) else Success(Amount(value))
  }

  /** The implicit conversion to `decimal`. */
  function ToDecimal(a: Amount): (d: real)
    ensures d > 0.0
  {
    a.value
  }

  /**
   * `Equals(object?)`: `obj` is `None` when the argument is null or not an
   * `Amount`; two amounts are equal exactly when their values are.
   */
  function Equals(a: Amount, obj: Option<Amount>): (b: bool)
    ensures obj.None? ==> !b
    ensures obj.Some? ==> (b <==> ToDecimal(a) == ToDecimal(obj.value))
  {
    match obj
    case None => false
    case Some(other) => a.value == other.value
  }

  /** Converting an amount to a decimal and back gives the same amount. */
  lemma CreateInvertsToDecimal(a: Amount)
    ensures Create(ToDecimal(a)) == Success(a)
  {
  }

  /** Value equality is an equivalence, and it coincides with being the same amount. */
  lemma EqualsIsValueEquality(a: Amount, b: Amount, c: Amount)
    ensures Equals(a, Some(a))
    ensures Equals(a, Some(b)) == Equals(b, Some(a))
    ensures Equals(a, Some(b)) && Equals(b, Some(c)) ==> Equals(a, Some(c))
    ensures Equals(a, Some(b)) <==> a == b
  {
  }

  /** Two amounts created from the same decimal are equal; from different decimals, they are not. */
  lemma CreatedAmountsCompare(x: real, y: real)
    requires x > 0.0 && y > 0.0
    ensures Equals(Create(x).value, Some(Create(y).value)) <==> x == y
  {
  }
}
