/** The Amount variant of src/stockwatch/entities/currencies.py (division by a number only). */
module Currencies {
  import opened Wrappers
  import opened Decimal

  /** An exact value tagged with a currency; `Value()` is the 2-decimal rounded value. */
  datatype Amount = Amount(valueExact: real := 0.0, curr: string := "EUR")
  {
    function Value(): (v: real)
      ensures IsCents(v) && -0.005 <= v - valueExact <= 0.005
    {
      Round2(valueExact)
    }

    /** `self < other`. */
    function Lt(other: Operand): (r: Result<bool, ComparisonError>)
      ensures r.Failure? <==> !other.SameCurrency(this)
      ensures r.Success? ==> (r.value <==> Value() < other.amount.Value())
    {
      if !other.SameCurrency(this) then Failure(NotImplemented) else Success(Value() < other.amount.Value())
    }

    /** `self <= other`. */
    function Le(other: Operand): (r: Result<bool, ComparisonError>)
      ensures r.Failure? <==> !other.SameCurrency(this)
      ensures r.Success? ==> (r.value <==> Value() <= other.amount.Value())
    {
      if !other.SameCurrency(this) then Failure(NotImplemented) else Success(Value() <= other.amount.Value())
    }

    /** `self == other`: only a non-Amount operand raises; another currency is simply unequal. */
    function Eq(other: Operand): (r: Result<bool, ComparisonError>)
      ensures r.Failure? <==> other.OfOther?
      ensures r.Success? ==> (r.value <==> curr == other.amount.curr && Value() == other.amount.Value())
    {
      if other.OfOther? then Failure(NotImplemented)
      else Success(curr == other.amount.curr && Value() == other.amount.Value())
    }

    /** `self >= other`. */
    function Ge(other: Operand): (r: Result<bool, ComparisonError>)
      ensures r.Failure? <==> !other.SameCurrency(this)
      ensures r.Success? ==> (r.value <==> Value() >= other.amount.Value())
    {
      if !other.SameCurrency(this) then Failure(NotImplemented) else Success(Value() >= other.amount.Value())
    }

    /** `self > other` as written: it evaluates `>=`, so equal amounts compare as greater. */
    function Gt(other: Operand): (r: Result<bool, ComparisonError>)
      ensures r.Failure? <==> !other.SameCurrency(this)
      ensures r.Success? ==> (r.value <==> Value() >= other.amount.Value())
    {
      if !other.SameCurrency(this) then Failure(NotImplemented) else Success(Value() >= other.amount.Value())
    }

    /** `self > other` as its documentation describes it: strictly greater. */
    function GtStrict(other: Operand): (r: Result<bool, ComparisonError>)
      ensures r.Failure? <==> !other.SameCurrency(this)
      ensures r.Success? ==> (r.value <==> other.amount.Value() < Value())
    {
      if !other.SameCurrency(this) then Failure(NotImplemented) else Success(Value() > other.amount.Value())
    }

    /** `self + other`; the source asserts equal currencies. */
    function Add(other: Amount): (r: Amount)
      requires curr == other.curr
      ensures r.curr == curr && r.valueExact == valueExact + other.valueExact
    {
      this.(valueExact := valueExact + other.valueExact)
    }

    /** `self - other`; the source asserts equal currencies. */
    function Sub(other: Amount): (r: Amount)
      requires curr == other.curr
      ensures r.curr == curr && r.valueExact == valueExact - other.valueExact
    {
      this.(valueExact := valueExact - other.valueExact)
    }

    /** `-self`. */
    function Neg(): (r: Amount)
      ensures r.curr == curr && r.valueExact == -valueExact
    {
      this.(valueExact := -valueExact)
    }

    /** `+self` is self. */
    function Pos(): (r: Amount)
      ensures r == this
    {
      this
    }

    /** `self * factor` and `factor * self`. */
    function Mul(factor: real): (r: Amount)
      ensures r.curr == curr && r.valueExact == valueExact * factor
    {
      this.(valueExact := valueExact * factor)
    }

    /** `self / divisor` multiplies by the reciprocal of a non-zero number. */
    function Div(divisor: real): (r: Amount)
      requires divisor != 0.0
      ensures r.curr == curr && r.valueExact * divisor == valueExact
    {
      this.(valueExact := valueExact * (1.0 / divisor))
    }
  }

  /** The right-hand operand of a comparison: an Amount or any other object. */
  datatype Operand = OfAmount(amount: Amount) | OfOther
  {
    predicate SameCurrency(a: Amount) {
      OfAmount? && amount.curr == a.curr
    }
  }

  datatype ComparisonError = NotImplemented

  /** As written, `>` holds between two equal amounts. */
  lemma GtAcceptsEqualAmounts()
    ensures Amount(1.0).Eq(OfAmount(Amount(1.0))) == Success(true)
    ensures Amount(1.0).Gt(OfAmount(Amount(1.0))) == Success(true)
    ensures Amount(1.0).GtStrict(OfAmount(Amount(1.0))) == Success(false)
  {
  }

  /** The strict `>` is the converse of `<` and never holds between equal amounts. */
  lemma GtStrictIsConverseOfLt(a: Amount, b: Amount)
    requires a.curr == b.curr
    ensures a.GtStrict(OfAmount(b)) == b.Lt(OfAmount(a))
    ensures a.Eq(OfAmount(b)) == Success(true) ==> a.GtStrict(OfAmount(b)) == Success(false)
  {
  }

  /** Adding and then subtracting the same amount gives the start back; division undoes multiplication. */
  lemma ArithmeticRoundTrips(a: Amount, b: Amount, f: real)
    requires a.curr == b.curr && f != 0.0
    ensures a.Add(b).Sub(b) == a
    ensures a.Sub(b) == a.Add(b.Neg())
    ensures a.Mul(f).Div(f) == a
  {
  }

  /** The comparisons of the source's tests. */
  lemma ComparisonOracles()
    ensures Amount(3.3333333333).Eq(OfAmount(Amount(3.3333333333))) == Success(true)
    ensures Amount(3.3333333333).Eq(OfAmount(Amount(6.6666666666))) == Success(false)
    ensures Amount(3.3333333333).Eq(OfAmount(Amount(3.3333333333, "USD"))) == Success(false)
    ensures Amount(3.3333333333).Lt(OfAmount(Amount(6.6666666666))) == Success(true)
    ensures Amount(3.3333333333).Le(OfAmount(Amount(6.6666666666))) == Success(true)
    ensures Amount(6.6666666666).Gt(OfAmount(Amount(3.3333333333))) == Success(true)
    ensures Amount(6.6666666666).Ge(OfAmount(Amount(3.3333333333))) == Success(true)
    ensures Amount(3.3333333333).Eq(OfOther).Failure?
    ensures Amount(3.3333333333).Lt(OfAmount(Amount(3.3333333333, "USD"))).Failure?
    ensures Amount(3.3333333333).Le(OfAmount(Amount(3.3333333333, "USD"))).Failure?
    ensures Amount(3.3333333333).Gt(OfAmount(Amount(3.3333333333, "USD"))).Failure?
    ensures Amount(3.3333333333).Ge(OfAmount(Amount(3.3333333333, "USD"))).Failure?
  {
  }

  /** The arithmetic of the source's tests, compared with `==`. */
  lemma ArithmeticOracles()
    ensures Amount(3.3333333333).Eq(OfAmount(Amount(3.3333333333).Pos())) == Success(true)
    ensures Amount(3.3333333333).Mul(2.0).Eq(OfAmount(Amount(6.6666666666))) == Success(true)
    ensures Amount(6.6666666666).Div(2.0).Eq(OfAmount(Amount(3.3333333333))) == Success(true)
    ensures Amount(3.3333333333).Add(Amount(6.6666666666)).Eq(OfAmount(Amount(10.0))) == Success(true)
    ensures Amount(3.3333333333).Sub(Amount(6.6666666666)).Eq(OfAmount(Amount(3.3333333333).Neg())) == Success(true)
  {
  }
}
