/** The currency-tagged amount and the exchange tracer of src/stockwatch/entities/money.py. */
module Money {
  import opened Wrappers
  import opened Decimal
  import opened Calendar

  const ZERO_MARGIN: real := 0.05

  /** An exact value tagged with a currency; `Value()` is the 2-decimal rounded value. */
  datatype Amount = Amount(valueExact: real := 0.0, curr: string := "EUR")
  {
    function Value(): (v: real)
      ensures IsCents(v) && -0.005 <= v - valueExact <= 0.005
    {
      Round2(valueExact)
    }

    /** `self < other`. */
    function Lt(other: Operand): (r: Result<bool, ComparisonError>)
      ensures r.Failure? <==> !other.SameCurrency(this)
      ensures r.Success? ==> (r.value <==> Value() < other.amount.Value())
    {
      if !other.SameCurrency(this) then Failure(NotImplemented) else Success(Value() < other.amount.Value())
    }

    /** `self <= other`. */
    function Le(other: Operand): (r: Result<bool, ComparisonError>)
      ensures r.Failure? <==> !other.SameCurrency(this)
      ensures r.Success? ==> (r.value <==> Value() <= other.amount.Value())
    {
      if !other.SameCurrency(this) then Failure(NotImplemented) else Success(Value() <= other.amount.Value())
    }

    /** `self == other`: only a non-Amount operand raises; another currency is simply unequal. */
    function Eq(other: Operand): (r: Result<bool, ComparisonError>)
      ensures r.Failure? <==> other.OfOther?
      ensures r.Success? ==> (r.value <==> curr == other.amount.curr && Value() == other.amount.Value())
    {
      if other.OfOther? then Failure(NotImplemented)
      else Success(curr == other.amount.curr && Value() == other.amount.Value())
    }

    /** `self >= other`. */
    function Ge(other: Operand): (r: Result<bool, ComparisonError>)
      ensures r.Failure? <==> !other.SameCurrency(this)
      ensures r.Success? ==> (r.value <==> Value() >= other.amount.Value())
    {
      if !other.SameCurrency(this) then Failure(NotImplemented) else Success(Value() >= other.amount.Value())
    }

    /** `self > other` as written: it evaluates `>=`, so equal amounts compare as greater. */
    function Gt(other: Operand): (r: Result<bool, ComparisonError>)
      ensures r.Failure? <==> !other.SameCurrency(this)
      ensures r.Success? ==> (r.value <==> Value() >= other.amount.Value())
    {
      if !other.SameCurrency(this) then Failure(NotImplemented) else Success(Value() >= other.amount.Value())
    }

    /** `self > other` as its documentation describes it: strictly greater. */
    function GtStrict(other: Operand): (r: Result<bool, ComparisonError>)
      ensures r.Failure? <==> !other.SameCurrency(this)
      ensures r.Success? ==> (r.value <==> other.amount.Value() < Value())
    {
      if !other.SameCurrency(this) then Failure(NotImplemented) else Success(Value() > other.amount.Value())
    }

    /** `self + other`; the source asserts equal currencies. */
    function Add(other: Amount): (r: Amount)
      requires curr == other.curr
      ensures r.curr == curr && r.valueExact == valueExact + other.valueExact
    {
      this.(valueExact := valueExact + other.valueExact)
    }

    /** `self - other`; the source asserts equal currencies. */
    function Sub(other: Amount): (r: Amount)
      requires curr == other.curr
      ensures r.curr == curr && r.valueExact == valueExact - other.valueExact
    {
      this.(valueExact := valueExact - other.valueExact)
    }

    /** `-self`. */
    function Neg(): (r: Amount)
      ensures r.curr == curr && r.valueExact == -valueExact
    {
      this.(valueExact := -valueExact)
    }

    /** `+self` is self. */
    function Pos(): (r: Amount)
      ensures r == this
    {
      this
    }

    /** `self * factor` and `factor * self`. */
    function Mul(factor: real): (r: Amount)
      ensures r.curr == curr && r.valueExact == valueExact * factor
    {
      this.(valueExact := valueExact * factor)
    }

    /** `self / divisor`: by a number it multiplies by the reciprocal, by an Amount it takes the ratio. */
    function Div(divisor: Divisor): (r: Amount)
      requires divisor.ByNumber? ==> divisor.number != 0.0
      requires divisor.ByAmount? ==> divisor.amount.curr == curr && divisor.amount.valueExact != 0.0
      ensures r.curr == curr
      ensures divisor.ByNumber? ==> r.valueExact * divisor.number == valueExact
      ensures divisor.ByAmount? ==> r.valueExact * divisor.amount.valueExact == valueExact
    {
      match divisor
      case ByNumber(d) => this.(valueExact := valueExact * (1.0 / d))
      case ByAmount(a) => this.(valueExact := valueExact / a.valueExact)
    }
  }

  /** The right-hand operand of a comparison: an Amount or any other object. */
  datatype Operand = OfAmount(amount: Amount) | OfOther
  {
    predicate SameCurrency(a: Amount) {
      OfAmount? && amount.curr == a.curr
    }
  }

  /** A divisor is a number (float or int) or an Amount. */
  datatype Divisor = ByNumber(number: real) | ByAmount(amount: Amount)

  datatype ComparisonError = NotImplemented

  // ---- Properties of Amount ----

  /** `==` is an equivalence on amounts: same currency and same rounded value. */
  lemma EqIsEquivalence(a: Amount, b: Amount, c: Amount)
    ensures a.Eq(OfAmount(a)) == Success(true)
    ensures a.Eq(OfAmount(b)) == b.Eq(OfAmount(a))
    ensures a.Eq(OfAmount(b)) == Success(true) && b.Eq(OfAmount(c)) == Success(true) ==> a.Eq(OfAmount(c)) == Success(true)
  {
  }

  /** Between amounts of one currency exactly one of `<`, `==` and a strict `>` holds. */
  lemma ComparisonTrichotomy(a: Amount, b: Amount)
    requires a.curr == b.curr
    ensures a.Lt(OfAmount(b)).Success? && a.Eq(OfAmount(b)).Success? && a.GtStrict(OfAmount(b)).Success?
    ensures a.Lt(OfAmount(b)).value || a.Eq(OfAmount(b)).value || a.GtStrict(OfAmount(b)).value
    ensures !(a.Lt(OfAmount(b)).value && a.Eq(OfAmount(b)).value)
    ensures !(a.Lt(OfAmount(b)).value && a.GtStrict(OfAmount(b)).value)
    ensures !(a.Eq(OfAmount(b)).value && a.GtStrict(OfAmount(b)).value)
    ensures a.Le(OfAmount(b)) == Success(a.Lt(OfAmount(b)).value || a.Eq(OfAmount(b)).value)
    ensures a.Ge(OfAmount(b)) == Success(a.GtStrict(OfAmount(b)).value || a.Eq(OfAmount(b)).value)
  {
  }

  /** As written, `>` holds between two equal amounts. */
  lemma GtAcceptsEqualAmounts()
    ensures Amount(1.0).Eq(OfAmount(Amount(1.0))) == Success(true)
    ensures Amount(1.0).Gt(OfAmount(Amount(1.0))) == Success(true)
    ensures Amount(1.0).GtStrict(OfAmount(Amount(1.0))) == Success(false)
  {
  }

  /** The strict `>` is the converse of `<` and never holds between equal amounts. */
  lemma GtStrictIsConverseOfLt(a: Amount, b: Amount)
    requires a.curr == b.curr
    ensures a.GtStrict(OfAmount(b)) == b.Lt(OfAmount(a))
    ensures a.Eq(OfAmount(b)) == Success(true) ==> a.GtStrict(OfAmount(b)) == Success(false)
  {
  }

  /** Adding and then subtracting the same amount gives the start back, exactly. */
  lemma AddSubRoundTrip(a: Amount, b: Amount)
    requires a.curr == b.curr
    ensures a.Add(b).Sub(b) == a
    ensures a.Sub(b) == a.Add(b.Neg())
    ensures a.Neg().Neg() == a
  {
  }

  /** Dividing by a non-zero number undoes multiplying by it. */
  lemma MulDivRoundTrip(a: Amount, f: real)
    requires f != 0.0
    ensures a.Mul(f).Div(ByNumber(f)) == a
    ensures a.Div(ByNumber(f)).Mul(f) == a
  {
  }

  /** The comparisons of the source's tests. */
  lemma ComparisonOracles()
    ensures Amount(3.3333333333).Eq(OfAmount(Amount(3.3333333333))) == Success(true)
    ensures Amount(3.3333333333).Eq(OfAmount(Amount(6.6666666666))) == Success(false)
    ensures Amount(3.3333333333).Eq(OfAmount(Amount(3.3333333333, "USD"))) == Success(false)
    ensures Amount(3.3333333333).Lt(OfAmount(Amount(6.6666666666))) == Success(true)
    ensures Amount(3.3333333333).Le(OfAmount(Amount(6.6666666666))) == Success(true)
    ensures Amount(6.6666666666).Gt(OfAmount(Amount(3.3333333333))) == Success(true)
    ensures Amount(6.6666666666).Ge(OfAmount(Amount(3.3333333333))) == Success(true)
    ensures Amount(3.3333333333).Eq(OfOther).Failure?
    ensures Amount(3.3333333333).Lt(OfAmount(Amount(3.3333333333, "USD"))).Failure?
    ensures Amount(3.3333333333).Le(OfAmount(Amount(3.3333333333, "USD"))).Failure?
    ensures Amount(3.3333333333).Gt(OfAmount(Amount(3.3333333333, "USD"))).Failure?
    ensures Amount(3.3333333333).Ge(OfAmount(Amount(3.3333333333, "USD"))).Failure?
  {
  }

  // The test arithmetic one operator at a time.

  lemma PosOracle()
    ensures Amount(3.3333333333).Eq(OfAmount(Amount(3.3333333333).Pos())) == Success(true)
  {
    Round2Nearest(3.3333333333, 333);
  }

  lemma MulOracle()
    ensures Amount(3.3333333333).Mul(2.0).Eq(OfAmount(Amount(6.6666666666))) == Success(true)
  {
    Round2Nearest(6.6666666666, 667);
  }

  lemma DivOracle()
    ensures Amount(6.6666666666).Div(ByNumber(2.0)).Eq(OfAmount(Amount(3.3333333333))) == Success(true)
  {
    Round2Nearest(3.3333333333, 333);
  }

  lemma AddOracle()
    ensures Amount(3.3333333333).Add(Amount(6.6666666666)).Eq(OfAmount(Amount(10.0))) == Success(true)
  {
    Round2Nearest(9.9999999999, 1000);
    Round2Nearest(10.0, 1000);
  }

  lemma SubOracle()
    ensures Amount(3.3333333333).Sub(Amount(6.6666666666)).Eq(OfAmount(Amount(3.3333333333).Neg())) == Success(true)
  {
    Round2Nearest(-3.3333333333, -333);
  }

  /** The arithmetic of the source's tests, compared with `==`. */
  lemma ArithmeticOracles()
    ensures Amount(3.3333333333).Eq(OfAmount(Amount(3.3333333333).Pos())) == Success(true)
    ensures Amount(3.3333333333).Mul(2.0).Eq(OfAmount(Amount(6.6666666666))) == Success(true)
    ensures Amount(6.6666666666).Div(ByNumber(2.0)).Eq(OfAmount(Amount(3.3333333333))) == Success(true)
    ensures Amount(3.3333333333).Add(Amount(6.6666666666)).Eq(OfAmount(Amount(10.0))) == Success(true)
    ensures Amount(3.3333333333).Sub(Amount(6.6666666666)).Eq(OfAmount(Amount(3.3333333333).Neg())) == Success(true)
  {
    PosOracle();
    MulOracle();
    DivOracle();
    AddOracle();
    SubOracle();
  }

  // ---- Currency exchange tracing ----

  /** `-amount_from - amount_trans`: the part of `-amountFrom` not yet traced to transactions. */
  function Residual(amountFrom: Amount, amountTrans: Amount): (r: Amount)
    requires amountTrans.curr == amountFrom.curr
    ensures r.curr == amountFrom.curr
    ensures r.valueExact + amountTrans.valueExact == -amountFrom.valueExact
  {
    amountFrom.Neg().Sub(amountTrans)
  }

  function Abs(x: real): real {
    if x < 0.0 then -x else x
  }

  /**
   * The rounded residual is within the margin of zero: so the exact residual is
   * at most 0.045 from zero, and any exact residual closer than that counts.
   */
  function TracedFully(amountFrom: Amount, amountTrans: Amount): (r: bool)
    requires amountTrans.curr == amountFrom.curr
    ensures r ==> -0.045 <= Residual(amountFrom, amountTrans).valueExact <= 0.045
    ensures -0.045 < Residual(amountFrom, amountTrans).valueExact < 0.045 ==> r
  {
    CentsMargin(Residual(amountFrom, amountTrans).Value());
    Abs(Residual(amountFrom, amountTrans).Value()) < ZERO_MARGIN
  }

  /**
   * Whether `amount` may still be traced to the exchange: same currency, not yet
   * fully traced, the residual's sign, and overshooting the residual by less than
   * the margin, which on exact values is at most 0.045.
   */
  function Accepts(amountFrom: Amount, amountTrans: Amount, amount: Amount): (r: bool)
    requires amountTrans.curr == amountFrom.curr
    ensures r ==> amount.curr == amountFrom.curr && !TracedFully(amountFrom, amountTrans)
    ensures r && amount.Value() >= 0.0 ==> Residual(amountFrom, amountTrans).valueExact - amount.valueExact >= -0.045
    ensures r && amount.Value() < 0.0 ==> Residual(amountFrom, amountTrans).valueExact - amount.valueExact <= 0.045
  {
    var residual := Residual(amountFrom, amountTrans);
    if amountFrom.curr != amount.curr then false
    else if TracedFully(amountFrom, amountTrans) then false
    else if amount.Value() * residual.Value() < 0.0 then false
    else
      CentsMargin(residual.Sub(amount).Value());
      if amount.Value() < 0.0 then residual.Sub(amount).Value() < ZERO_MARGIN
      else residual.Sub(amount).Value() > -ZERO_MARGIN
  }

  /** The residual keeps the sign of `-amountFrom`, up to the margin. */
  predicate WithinMargin(amountFrom: Amount, amountTrans: Amount)
    requires amountTrans.curr == amountFrom.curr
  {
    && (amountFrom.Value() < 0.0 ==> Residual(amountFrom, amountTrans).Value() > -ZERO_MARGIN)
    && (amountFrom.Value() > 0.0 ==> Residual(amountFrom, amountTrans).Value() < ZERO_MARGIN)
  }

  /** What `take_exchange` returns: the amount converted to EUR at the exact rate. */
  function ToEur(amount: Amount, rateExact: real): (r: Amount)
    requires rateExact != 0.0
    ensures r.curr == "EUR" && r.valueExact * rateExact == amount.valueExact
  {
    Amount(amount.valueExact / rateExact, "EUR")
  }

  /**
   * An exchange of `amountFrom` (a foreign currency) into EUR, and how much of it
   * has been traced back to transactions so far (`amountTrans`).
   */
  class CurrencyExchange {
    const exchangeDatetime: DateTime
    const rate: real
    const amountFrom: Amount
    const rateExact: real
    const amountTo: Amount
    var amountTrans: Amount

    predicate Valid()
      reads this
    {
      && rate > 0.0
      && amountFrom.Value() != 0.0
      && amountTo == Amount(-amountFrom.valueExact / rate, "EUR")
      && amountTo.Value() != 0.0
      && rateExact != 0.0
      && amountTrans.curr == amountFrom.curr
      && WithinMargin(amountFrom, amountTrans)
    }

    /**
     * The source asserts a positive rate and a non-zero rounded amount; it also
     * divides by the rounded EUR amount, so that must not round to zero either.
     */
    constructor (exchangeDatetime: DateTime, rate: real, amountFrom: Amount)
      requires rate > 0.0
      requires amountFrom.Value() != 0.0
      requires Round2(-amountFrom.valueExact / rate) != 0.0
      ensures this.exchangeDatetime == exchangeDatetime && this.rate == rate && this.amountFrom == amountFrom
      ensures amountTo == Amount(-amountFrom.valueExact / rate, "EUR")
      ensures rateExact == -amountFrom.Value() / amountTo.Value()
      ensures amountTrans == Amount(0.0, amountFrom.curr)
      ensures Valid()
    {
      this.exchangeDatetime := exchangeDatetime;
      this.rate := rate;
      this.amountFrom := amountFrom;
      var to := Amount(-amountFrom.valueExact / rate, "EUR");
      amountTo := to;
      rateExact := -amountFrom.Value() / to.Value();
      amountTrans := amountFrom.(valueExact := 0.0);
      new;
      assert Residual(amountFrom, amountTrans).valueExact == -amountFrom.valueExact;
      Round2Neg(amountFrom.valueExact);
    }

    function ExchangeDate(): (d: Date)
      ensures d == exchangeDatetime.date
    {
      exchangeDatetime.date
    }

    function AmountTransRemaining(): (r: Amount)
      reads this
      requires amountTrans.curr == amountFrom.curr
      ensures r.curr == amountFrom.curr
      ensures r.valueExact + amountTrans.valueExact == -amountFrom.valueExact
    {
      Residual(amountFrom, amountTrans)
    }

    /** Fully traced exactly when the exchange accepts nothing more: otherwise it accepts its own residual. */
    function HasBeenTracedFully(): (r: bool)
      reads this
      requires amountTrans.curr == amountFrom.curr
      ensures r ==> forall a :: !CanTakeExchange(a)
      ensures !r ==> CanTakeExchange(AmountTransRemaining())
    {
      ResidualAcceptsItself(amountFrom, amountTrans);
      TracedFully(amountFrom, amountTrans)
    }

    /** An accepted amount has the exchange's currency and keeps a valid exchange within its margin. */
    function CanTakeExchange(amount: Amount): (r: bool)
      reads this
      requires amountTrans.curr == amountFrom.curr
      ensures r ==> amount.curr == amountFrom.curr
      ensures r && Valid() ==> WithinMargin(amountFrom, amountTrans.Add(amount))
    {
      Accepts(amountFrom, amountTrans, amount)
    }

    /** Trace `amount` to this exchange and convert it to EUR at the exact rate. */
    method TakeExchange(amount: Amount) returns (eur: Amount)
      requires Valid()
      requires CanTakeExchange(amount)
      modifies this
      ensures Valid()
      ensures amountTrans == old(amountTrans).Add(amount)
      ensures eur == ToEur(amount, rateExact)
    {
      AcceptKeepsWithinMargin(amountFrom, amountTrans, amount);
      amountTrans := amountTrans.Add(amount);
      eur := ToEur(amount, rateExact);
    }
  }

  // ---- Properties of the exchange tracing ----

  /** Taking an accepted amount keeps the residual within the margin on the right side of zero. */
  lemma AcceptKeepsWithinMargin(amountFrom: Amount, amountTrans: Amount, amount: Amount)
    requires amountTrans.curr == amountFrom.curr
    requires WithinMargin(amountFrom, amountTrans)
    requires Accepts(amountFrom, amountTrans, amount)
    ensures WithinMargin(amountFrom, amountTrans.Add(amount))
    ensures Residual(amountFrom, amountTrans.Add(amount)) == Residual(amountFrom, amountTrans).Sub(amount)
  {
  }

  /**
   * An accepted amount has the exchange's currency and the residual's sign, and
   * leaves a residual that overshoots zero by less than the margin.
   */
  lemma AcceptedAmountFits(amountFrom: Amount, amountTrans: Amount, amount: Amount)
    requires amountTrans.curr == amountFrom.curr
    requires WithinMargin(amountFrom, amountTrans)
    requires Accepts(amountFrom, amountTrans, amount)
    ensures amount.curr == amountFrom.curr
    ensures !TracedFully(amountFrom, amountTrans)
    ensures amountFrom.Value() < 0.0 ==> amount.Value() >= 0.0
    ensures amountFrom.Value() > 0.0 ==> amount.Value() <= 0.0
  {
  }

  /** An exchange not yet fully traced accepts exactly its residual. */
  lemma ResidualAcceptsItself(amountFrom: Amount, amountTrans: Amount)
    requires amountTrans.curr == amountFrom.curr
    ensures !TracedFully(amountFrom, amountTrans) ==> Accepts(amountFrom, amountTrans, Residual(amountFrom, amountTrans))
  {
    var residual := Residual(amountFrom, amountTrans);
    Round2OfCents(0.0);
    assert residual.Sub(residual).Value() == 0.0;
    assert residual.Value() * residual.Value() >= 0.0;
  }

  /** A fully traced exchange accepts nothing more. */
  lemma TracedExchangeAcceptsNothing(amountFrom: Amount, amountTrans: Amount, amount: Amount)
    requires amountTrans.curr == amountFrom.curr
    requires TracedFully(amountFrom, amountTrans)
    ensures !Accepts(amountFrom, amountTrans, amount)
  {
  }

  /** The tracing scenario of the source's tests, -80.24 USD at rate 1.1095: before any take. */
  lemma ExchangeOracleStart()
    ensures Round2(80.24 / 1.1095) == 72.32
    ensures !TracedFully(Amount(-80.24, "USD"), Amount(0.0, "USD"))
    ensures !Accepts(Amount(-80.24, "USD"), Amount(0.0, "USD"), Amount(25.24, "EUR"))
    ensures Accepts(Amount(-80.24, "USD"), Amount(0.0, "USD"), Amount(25.24, "USD"))
  {
    assert Residual(Amount(-80.24, "USD"), Amount(0.0, "USD")) == Amount(80.24, "USD");
    assert Amount(80.24, "USD").Value() == 80.24;
    assert Amount(25.24, "USD").Value() == 25.24;
    assert Amount(80.24, "USD").Sub(Amount(25.24, "USD")) == Amount(55.0, "USD");
    assert Amount(55.0, "USD").Value() == 55.0;
  }

  /** After 25.24 USD was taken, 80.24 more overshoots the residual of 55.00. */
  lemma ExchangeOracleOvershoot()
    ensures Amount(0.0, "USD").Add(Amount(25.24, "USD")) == Amount(25.24, "USD")
    ensures !Accepts(Amount(-80.24, "USD"), Amount(25.24, "USD"), Amount(80.24, "USD"))
  {
    assert Residual(Amount(-80.24, "USD"), Amount(25.24, "USD")) == Amount(55.0, "USD");
    assert Amount(55.0, "USD").Value() == 55.0;
    assert Amount(80.24, "USD").Value() == 80.24;
    assert Amount(55.0, "USD").Sub(Amount(80.24, "USD")) == Amount(-25.24, "USD");
    assert Amount(-25.24, "USD").Value() == -25.24;
  }

  /** After 25.24 USD was taken, the remaining 55.00 fits exactly. */
  lemma ExchangeOracleExactFit()
    ensures Accepts(Amount(-80.24, "USD"), Amount(25.24, "USD"), Amount(55.0, "USD"))
  {
    assert Residual(Amount(-80.24, "USD"), Amount(25.24, "USD")) == Amount(55.0, "USD");
    assert Amount(55.0, "USD").Value() == 55.0;
    assert Amount(55.0, "USD").Sub(Amount(55.0, "USD")) == Amount(0.0, "USD");
  }

  /** After 55.00 USD more the exchange is fully traced and rejects even 0.01. */
  lemma ExchangeOracleAfterSecondTake()
    ensures Amount(25.24, "USD").Add(Amount(55.0, "USD")) == Amount(80.24, "USD")
    ensures TracedFully(Amount(-80.24, "USD"), Amount(80.24, "USD"))
    ensures !Accepts(Amount(-80.24, "USD"), Amount(80.24, "USD"), Amount(0.01, "USD"))
  {
    assert Residual(Amount(-80.24, "USD"), Amount(80.24, "USD")) == Amount(0.0, "USD");
  }

  /** The two EUR amounts returned by the takes sum to the exchange's EUR amount. */
  lemma ExchangeOracleEurTotal()
    ensures -Amount(-80.24, "USD").Value() / Amount(80.24 / 1.1095).Value() == 80.24 / 72.32
    ensures ToEur(Amount(25.24, "USD"), 80.24 / 72.32).Add(ToEur(Amount(55.0, "USD"), 80.24 / 72.32)).Value() == 72.32
  {
    assert Amount(-80.24, "USD").Value() == -80.24;
    assert Amount(80.24 / 1.1095).Value() == 72.32;
    assert ToEur(Amount(25.24, "USD"), 80.24 / 72.32).Add(ToEur(Amount(55.0, "USD"), 80.24 / 72.32)) == Amount(72.32, "EUR");
  }

  /** An exchange of +80.24 USD rejects a positive amount and accepts a negative one. */
  lemma OppositeExchangeOracle()
    ensures !Accepts(Amount(80.24, "USD"), Amount(0.0, "USD"), Amount(25.24, "USD"))
    ensures Accepts(Amount(80.24, "USD"), Amount(0.0, "USD"), Amount(-55.0, "USD"))
  {
    var from := Amount(80.24, "USD");
    assert Residual(from, Amount(0.0, "USD")) == Amount(-80.24, "USD");
    assert Amount(-80.24, "USD").Value() == -80.24;
    assert Amount(25.24, "USD").Value() == 25.24;
    assert Amount(-55.0, "USD").Value() == -55.0;
    assert Amount(-80.24, "USD").Sub(Amount(-55.0, "USD")) == Amount(-25.24, "USD");
    assert Amount(-25.24, "USD").Value() == -25.24;
  }
}
