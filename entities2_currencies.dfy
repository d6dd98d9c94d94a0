/**
 * The amount classes of src/stockwatch/entities2/currencies.py: the currency is fixed
 * by the subclass, and arithmetic starts from the operands' rounded values.
 */
module Entities2Currencies {
  import opened Decimal
  import Money

  /** `AmountInEUR` and `AmountInUSD`, the two concrete subclasses of `AmountInCurrency`. */
  datatype AmountInCurrency = AmountInEUR(valueExact: real := 0.0) | AmountInUSD(valueExact: real := 0.0)
  {
    /** The currency set by the subclass. */
    function Curr(): (c: string)
      ensures AmountInEUR? ==> c == "EUR"
      ensures AmountInUSD? ==> c == "USD"
    {
      match this
      case AmountInEUR(_) => "EUR"
      case AmountInUSD(_) => "USD"
    }

    function Value(): (v: real)
      ensures IsCents(v) && -0.005 <= v - valueExact <= 0.005
    {
      Round2(valueExact)
    }

    /** `self + other`: equal currencies asserted, rounded values added. */
    function Add(other: AmountInCurrency): (r: AmountInCurrency)
      requires Curr() == other.Curr()
      ensures r.Curr() == Curr() && r.AmountInEUR? == AmountInEUR?
      ensures r.Value() == Value() + other.Value() && r.valueExact == r.Value()
    {
      CentsAdd(Value(), other.Value());
      Round2OfCents(Value() + other.Value());
      this.(valueExact := Value() + other.Value())
    }

    /** `self - other`: equal currencies asserted, rounded values subtracted. */
    function Sub(other: AmountInCurrency): (r: AmountInCurrency)
      requires Curr() == other.Curr()
      ensures r.Curr() == Curr() && r.AmountInEUR? == AmountInEUR?
      ensures r.Value() == Value() - other.Value() && r.valueExact == r.Value()
    {
      CentsSub(Value(), other.Value());
      Round2OfCents(Value() - other.Value());
      this.(valueExact := Value() - other.Value())
    }

    /** `-self`, negating the rounded value. */
    function Neg(): (r: AmountInCurrency)
      ensures r.Curr() == Curr() && r.AmountInEUR? == AmountInEUR?
      ensures r.Value() == -Value() && r.valueExact == r.Value()
    {
      CentsNeg(Value());
      Round2OfCents(-Value());
      this.(valueExact := -Value())
    }

    /** `self * factor`, scaling the rounded value. */
    function Mul(factor: real): (r: AmountInCurrency)
      ensures r.Curr() == Curr() && r.AmountInEUR? == AmountInEUR?
      ensures r.valueExact == Value() * factor
      ensures -0.005 <= r.Value() - Value() * factor <= 0.005
    {
      this.(valueExact := Value() * factor)
    }
  }

  /**
   * Because each operation starts from rounded values, amounts add up exactly:
   * any chain of additions and subtractions is exact in cents.
   */
  lemma SumsAreExact(a: AmountInCurrency, b: AmountInCurrency, c: AmountInCurrency)
    requires a.Curr() == b.Curr() == c.Curr()
    ensures a.Add(b).Add(c).Value() == a.Add(b.Add(c)).Value()
    ensures a.Add(b).Sub(b).Value() == a.Value()
    ensures a.Add(b).Value() == b.Add(a).Value()
  {
  }

  /**
   * Scaling by a whole factor stays in cents, so it agrees with the additions:
   * by 1 it keeps the value, by 2 it is the amount added to itself, by -1 its negation.
   */
  lemma MulAgreesWithAdd(a: AmountInCurrency)
    ensures a.Mul(1.0).Value() == a.Value()
    ensures a.Mul(2.0).Value() == a.Add(a).Value()
    ensures a.Mul(-1.0).Value() == a.Neg().Value()
    ensures a.Mul(0.0).Value() == 0.0
  {
  }

  /**
   * The same sum differs between this class and `Money.Amount`, which adds exact values:
   * 0.004 + 0.004 is 0.00 here and 0.01 there.
   */
  lemma RoundedAdditionDiffersFromExact()
    ensures AmountInEUR(0.004).Add(AmountInEUR(0.004)).Value() == 0.0
    ensures Money.Amount(0.004).Add(Money.Amount(0.004)).Value() == 0.01
  {
    assert AmountInEUR(0.004).Value() == 0.0;
  }
}
