/**
 * src/stockwatch/entities2/transactions.py: a second `CurrencyExchange` tracer,
 * whose acceptance test has no currency check, and a `ShareTransaction` record
 * with the price as a plain number.
 *
 * The file imports `Amount` from its sibling currencies module, which defines
 * only `AmountInCurrency` and its subclasses; the exact-valued
 * `Currencies.Amount` (same fields, same defaults) is used in its place.
 */
module Entities2Transactions {
  import opened Decimal
  import opened Calendar
  import opened Text
  import opened Currencies

  const ZERO_MARGIN: real := 0.05

  datatype ShareTransactionKind = BUY | SELL | DIVIDEND

  /** `-amount_from - amount_trans`. */
  function Residual(amountFrom: Amount, amountTrans: Amount): (r: Amount)
    requires amountTrans.curr == amountFrom.curr
    ensures r.curr == amountFrom.curr
    ensures r.valueExact + amountTrans.valueExact == -amountFrom.valueExact
  {
    amountFrom.Neg().Sub(amountTrans)
  }

  function Abs(x: real): real {
    if x < 0.0 then -x else x
  }

  /**
   * `has_been_traced_fully`: the rounded residual is within the margin of zero,
   * so the exact residual is at most 0.045 from zero, and any closer one counts.
   */
  function TracedFully(amountFrom: Amount, amountTrans: Amount): (r: bool)
    requires amountTrans.curr == amountFrom.curr
    ensures r ==> -0.045 <= Residual(amountFrom, amountTrans).valueExact <= 0.045
    ensures -0.045 < Residual(amountFrom, amountTrans).valueExact < 0.045 ==> r
  {
    CentsMargin(Residual(amountFrom, amountTrans).Value());
    Abs(Residual(amountFrom, amountTrans).Value()) < ZERO_MARGIN
  }

  /**
   * Whether the acceptance test gets as far as `residual - amount`, whose
   * subtraction asserts equal currencies: it does unless the exchange is traced
   * or the signs differ.
   */
  predicate ReachesSubtraction(amountFrom: Amount, amountTrans: Amount, amount: Amount)
    requires amountTrans.curr == amountFrom.curr
  {
    !TracedFully(amountFrom, amountTrans)
    && !(amount.Value() * Residual(amountFrom, amountTrans).Value() < 0.0)
  }

  /**
   * `can_take_exchange_amount`: no currency test of its own; an accepted amount
   * overshoots the exact residual by at most 0.045.
   */
  function Accepts(amountFrom: Amount, amountTrans: Amount, amount: Amount): (r: bool)
    requires amountTrans.curr == amountFrom.curr
    requires ReachesSubtraction(amountFrom, amountTrans, amount) ==> amount.curr == amountFrom.curr
    ensures r ==> amount.curr == amountFrom.curr && !TracedFully(amountFrom, amountTrans)
    ensures r && amount.Value() >= 0.0 ==> Residual(amountFrom, amountTrans).valueExact - amount.valueExact >= -0.045
    ensures r && amount.Value() < 0.0 ==> Residual(amountFrom, amountTrans).valueExact - amount.valueExact <= 0.045
  {
    var residual := Residual(amountFrom, amountTrans);
    if TracedFully(amountFrom, amountTrans) then false
    else if amount.Value() * residual.Value() < 0.0 then false
    else
      CentsMargin(residual.Sub(amount).Value());
      if amount.Value() < 0.0 then residual.Sub(amount).Value() < ZERO_MARGIN
      else residual.Sub(amount).Value() > -ZERO_MARGIN
  }

  predicate WithinMargin(amountFrom: Amount, amountTrans: Amount)
    requires amountTrans.curr == amountFrom.curr
  {
    && (amountFrom.Value() < 0.0 ==> Residual(amountFrom, amountTrans).Value() > -ZERO_MARGIN)
    && (amountFrom.Value() > 0.0 ==> Residual(amountFrom, amountTrans).Value() < ZERO_MARGIN)
  }

  function ToEur(amount: Amount, rateExact: real): (r: Amount)
    requires rateExact != 0.0
    ensures r.curr == "EUR" && r.valueExact * rateExact == amount.valueExact
  {
    Amount(amount.valueExact / rateExact, "EUR")
  }

  class CurrencyExchange {
    const exchangeDatetime: DateTime
    const exchangeRate: real
    const amountFrom: Amount
    const exchangeRateExact: real
    const amountTo: Amount
    var amountTrans: Amount

    predicate Valid()
      reads this
    {
      && exchangeRate > 0.0
      && amountFrom.Value() != 0.0
      && amountTo == Amount(-amountFrom.valueExact / exchangeRate)
      && amountTo.Value() != 0.0
      && exchangeRateExact != 0.0
      && amountTrans.curr == amountFrom.curr
      && WithinMargin(amountFrom, amountTrans)
    }

    /**
     * The source asserts a positive rate and a non-zero rounded amount, and
     * divides by the rounded EUR amount, which must therefore not be zero.
     */
    constructor (exchangeDatetime: DateTime, exchangeRate: real, amountFrom: Amount)
      requires exchangeRate > 0.0
      requires amountFrom.Value() != 0.0
      requires Round2(-amountFrom.valueExact / exchangeRate) != 0.0
      ensures this.exchangeDatetime == exchangeDatetime && this.exchangeRate == exchangeRate
      ensures this.amountFrom == amountFrom
      ensures amountTo == Amount(-amountFrom.valueExact / exchangeRate, "EUR")
      ensures exchangeRateExact == -amountFrom.Value() / amountTo.Value()
      ensures amountTrans == Amount(0.0, amountFrom.curr)
      ensures Valid()
    {
      this.exchangeDatetime := exchangeDatetime;
      this.exchangeRate := exchangeRate;
      this.amountFrom := amountFrom;
      var to := Amount(-amountFrom.valueExact / exchangeRate);
      amountTo := to;
      exchangeRateExact := -amountFrom.Value() / to.Value();
      amountTrans := amountFrom.(valueExact := 0.0);
      new;
      assert Residual(amountFrom, amountTrans).valueExact == -amountFrom.valueExact;
      Round2Neg(amountFrom.valueExact);
    }

    function ExchangeDate(): (d: Date)
      ensures d == exchangeDatetime.date
    {
      exchangeDatetime.date
    }

    function AmountTransRemaining(): (r: Amount)
      reads this
      requires amountTrans.curr == amountFrom.curr
      ensures r.curr == amountFrom.curr
      ensures r.valueExact + amountTrans.valueExact == -amountFrom.valueExact
    {
      Residual(amountFrom, amountTrans)
    }

    /** Fully traced exactly when the exchange accepts nothing more: otherwise it accepts its own residual. */
    function HasBeenTracedFully(): (r: bool)
      reads this
      requires amountTrans.curr == amountFrom.curr
      ensures r ==> forall a :: !ReachesSubtraction(amountFrom, amountTrans, a) && !CanTakeExchangeAmount(a)
      ensures !r ==> CanTakeExchangeAmount(AmountTransRemaining())
    {
      ResidualAcceptsItself(amountFrom, amountTrans);
      TracedFully(amountFrom, amountTrans)
    }

    /** An accepted amount has the exchange's currency and keeps a valid exchange within its margin. */
    function CanTakeExchangeAmount(amount: Amount): (r: bool)
      reads this
      requires amountTrans.curr == amountFrom.curr
      requires ReachesSubtraction(amountFrom, amountTrans, amount) ==> amount.curr == amountFrom.curr
      ensures r ==> amount.curr == amountFrom.curr
      ensures r && Valid() ==> WithinMargin(amountFrom, amountTrans.Add(amount))
    {
      Accepts(amountFrom, amountTrans, amount)
    }

    /** Trace `amount` to this exchange and convert it to EUR at the exact rate. */
    method TakeExchange(amount: Amount) returns (eur: Amount)
      requires Valid()
      requires ReachesSubtraction(amountFrom, amountTrans, amount) ==> amount.curr == amountFrom.curr
      requires CanTakeExchangeAmount(amount)
      modifies this
      ensures Valid()
      ensures amountTrans == old(amountTrans).Add(amount)
      ensures eur == ToEur(amount, exchangeRateExact)
    {
      AcceptKeepsWithinMargin(amountFrom, amountTrans, amount);
      amountTrans := amountTrans.Add(amount);
      eur := ToEur(amount, exchangeRateExact);
    }
  }

  /** Taking an accepted amount keeps the residual on the right side of zero, within the margin. */
  lemma AcceptKeepsWithinMargin(amountFrom: Amount, amountTrans: Amount, amount: Amount)
    requires amountTrans.curr == amountFrom.curr
    requires ReachesSubtraction(amountFrom, amountTrans, amount) ==> amount.curr == amountFrom.curr
    requires WithinMargin(amountFrom, amountTrans)
    requires Accepts(amountFrom, amountTrans, amount)
    ensures amount.curr == amountFrom.curr
    ensures WithinMargin(amountFrom, amountTrans.Add(amount))
    ensures Residual(amountFrom, amountTrans.Add(amount)) == Residual(amountFrom, amountTrans).Sub(amount)
  {
  }

  /**
   * The tolerance test: a negative amount is accepted iff the rounded residual
   * after it is below the margin, a non-negative one iff it is above minus the margin.
   */
  lemma AcceptanceTolerance(amountFrom: Amount, amountTrans: Amount, amount: Amount)
    requires amountTrans.curr == amountFrom.curr && amount.curr == amountFrom.curr
    requires ReachesSubtraction(amountFrom, amountTrans, amount)
    ensures amount.Value() < 0.0 ==>
      (Accepts(amountFrom, amountTrans, amount) <==> Residual(amountFrom, amountTrans).Sub(amount).Value() < ZERO_MARGIN)
    ensures amount.Value() >= 0.0 ==>
      (Accepts(amountFrom, amountTrans, amount) <==> Residual(amountFrom, amountTrans).Sub(amount).Value() > -ZERO_MARGIN)
  {
  }

  /**
   * Without a currency check, an amount in another currency is simply refused
   * once the exchange is traced or when its sign is opposite to the residual.
   */
  lemma NoCurrencyCheck()
    ensures !ReachesSubtraction(Amount(-80.24, "USD"), Amount(0.0, "USD"), Amount(-1.0, "EUR"))
    ensures !Accepts(Amount(-80.24, "USD"), Amount(0.0, "USD"), Amount(-1.0, "EUR"))
    ensures ReachesSubtraction(Amount(-80.24, "USD"), Amount(0.0, "USD"), Amount(1.0, "EUR"))
  {
    assert Residual(Amount(-80.24, "USD"), Amount(0.0, "USD")) == Amount(80.24, "USD");
    assert Amount(80.24, "USD").Value() == 80.24;
    assert Amount(-1.0, "EUR").Value() == -1.0;
    assert Amount(1.0, "EUR").Value() == 1.0;
  }

  /** An exchange not yet fully traced accepts exactly its residual. */
  lemma ResidualAcceptsItself(amountFrom: Amount, amountTrans: Amount)
    requires amountTrans.curr == amountFrom.curr
    ensures !TracedFully(amountFrom, amountTrans) ==> Accepts(amountFrom, amountTrans, Residual(amountFrom, amountTrans))
  {
    var residual := Residual(amountFrom, amountTrans);
    Round2OfCents(0.0);
    assert residual.Sub(residual).Value() == 0.0;
    assert residual.Value() * residual.Value() >= 0.0;
  }

  /** A fully traced exchange accepts nothing, whatever the currency. */
  lemma TracedExchangeAcceptsNothing(amountFrom: Amount, amountTrans: Amount, amount: Amount)
    requires amountTrans.curr == amountFrom.curr
    requires TracedFully(amountFrom, amountTrans)
    ensures !ReachesSubtraction(amountFrom, amountTrans, amount)
    ensures !Accepts(amountFrom, amountTrans, amount)
  {
  }

  /**
   * The tracing scenario of the exchange tests, -80.24 USD at rate 1.1095; the
   * test's probe with 25.24 EUR reaches the currency assertion here (see
   * `NoCurrencyCheck`), so only the USD steps are stated.
   */
  lemma ExchangeOracleStart()
    ensures Round2(80.24 / 1.1095) == 72.32
    ensures !TracedFully(Amount(-80.24, "USD"), Amount(0.0, "USD"))
    ensures ReachesSubtraction(Amount(-80.24, "USD"), Amount(0.0, "USD"), Amount(25.24, "EUR"))
    ensures Accepts(Amount(-80.24, "USD"), Amount(0.0, "USD"), Amount(25.24, "USD"))
  {
    assert Residual(Amount(-80.24, "USD"), Amount(0.0, "USD")) == Amount(80.24, "USD");
    assert Amount(80.24, "USD").Value() == 80.24;
    assert Amount(25.24, "USD").Value() == 25.24;
    assert Amount(25.24, "EUR").Value() == 25.24;
    assert Amount(80.24, "USD").Sub(Amount(25.24, "USD")) == Amount(55.0, "USD");
    assert Amount(55.0, "USD").Value() == 55.0;
  }

  /** After 25.24 USD was taken, 80.24 more overshoots the residual of 55.00. */
  lemma ExchangeOracleOvershoot()
    ensures Amount(0.0, "USD").Add(Amount(25.24, "USD")) == Amount(25.24, "USD")
    ensures !Accepts(Amount(-80.24, "USD"), Amount(25.24, "USD"), Amount(80.24, "USD"))
  {
    assert Residual(Amount(-80.24, "USD"), Amount(25.24, "USD")) == Amount(55.0, "USD");
    assert Amount(55.0, "USD").Value() == 55.0;
    assert Amount(80.24, "USD").Value() == 80.24;
    assert Amount(55.0, "USD").Sub(Amount(80.24, "USD")) == Amount(-25.24, "USD");
    assert Amount(-25.24, "USD").Value() == -25.24;
  }

  /** After 25.24 USD was taken, the remaining 55.00 fits exactly. */
  lemma ExchangeOracleExactFit()
    ensures Accepts(Amount(-80.24, "USD"), Amount(25.24, "USD"), Amount(55.0, "USD"))
  {
    assert Residual(Amount(-80.24, "USD"), Amount(25.24, "USD")) == Amount(55.0, "USD");
    assert Amount(55.0, "USD").Value() == 55.0;
    assert Amount(55.0, "USD").Sub(Amount(55.0, "USD")) == Amount(0.0, "USD");
  }

  /** Then the exchange is fully traced and the two EUR results sum to 72.32. */
  lemma ExchangeOracleTraced()
    ensures Amount(25.24, "USD").Add(Amount(55.0, "USD")) == Amount(80.24, "USD")
    ensures TracedFully(Amount(-80.24, "USD"), Amount(80.24, "USD"))
    ensures !Accepts(Amount(-80.24, "USD"), Amount(80.24, "USD"), Amount(0.01, "USD"))
    ensures -Amount(-80.24, "USD").Value() / Amount(80.24 / 1.1095).Value() == 80.24 / 72.32
    ensures ToEur(Amount(25.24, "USD"), 80.24 / 72.32).Add(ToEur(Amount(55.0, "USD"), 80.24 / 72.32)).Value() == 72.32
  {
    assert Residual(Amount(-80.24, "USD"), Amount(80.24, "USD")) == Amount(0.0, "USD");
    assert Amount(-80.24, "USD").Value() == -80.24;
    assert Amount(80.24 / 1.1095).Value() == 72.32;
    assert ToEur(Amount(25.24, "USD"), 80.24 / 72.32).Add(ToEur(Amount(55.0, "USD"), 80.24 / 72.32)) == Amount(72.32, "EUR");
  }

  /** An exchange of +80.24 USD refuses a positive amount and accepts a negative one. */
  lemma OppositeExchangeOracle()
    ensures !Accepts(Amount(80.24, "USD"), Amount(0.0, "USD"), Amount(25.24, "USD"))
    ensures Accepts(Amount(80.24, "USD"), Amount(0.0, "USD"), Amount(-55.0, "USD"))
  {
    assert Residual(Amount(80.24, "USD"), Amount(0.0, "USD")) == Amount(-80.24, "USD");
    assert Amount(-80.24, "USD").Value() == -80.24;
    assert Amount(25.24, "USD").Value() == 25.24;
    assert Amount(-55.0, "USD").Value() == -55.0;
    assert Amount(-80.24, "USD").Sub(Amount(-55.0, "USD")) == Amount(-25.24, "USD");
    assert Amount(-25.24, "USD").Value() == -25.24;
  }

  // ---- ShareTransaction ----

  datatype ShareTransaction = ShareTransaction(
    transactionDatetime: DateTime,
    isin: string,
    curr: string,
    nrStocks: real,
    price: real,
    kind: ShareTransactionKind,
    valueInEur: real)
  {
    function TransactionDate(): (d: Date)
      ensures d == transactionDatetime.date
    {
      transactionDatetime.date
    }
  }

  /**
   * The generated `<` up to the `kind` field, which the enumeration cannot order:
   * a tie on every earlier field makes Python raise TypeError, which `Comparable` rules out.
   */
  predicate Comparable(a: ShareTransaction, b: ShareTransaction)
  {
    !(a.transactionDatetime == b.transactionDatetime && a.isin == b.isin && a.curr == b.curr
      && a.nrStocks == b.nrStocks && a.price == b.price && a.kind != b.kind)
  }

  predicate Less(a: ShareTransaction, b: ShareTransaction)
  {
    if a.transactionDatetime != b.transactionDatetime then DateTimeLess(a.transactionDatetime, b.transactionDatetime)
    else if a.isin != b.isin then StrLess(a.isin, b.isin)
    else if a.curr != b.curr then StrLess(a.curr, b.curr)
    else if a.nrStocks != b.nrStocks then a.nrStocks < b.nrStocks
    else if a.price != b.price then a.price < b.price
    else if a.kind != b.kind then false
    else a.valueInEur < b.valueInEur
  }

  /** The ordering starts with the datetime: an earlier transaction sorts first, hence on or before by date. */
  lemma EarlierDatetimeSortsFirst(a: ShareTransaction, b: ShareTransaction)
    ensures DateTimeLess(a.transactionDatetime, b.transactionDatetime) ==> Less(a, b) && !Less(b, a)
    ensures Less(a, b) ==> a.TransactionDate() <= b.TransactionDate()
  {
  }

  /** Between comparable transactions the order is a strict total order. */
  lemma LessIsStrictTotal(a: ShareTransaction, b: ShareTransaction)
    requires Comparable(a, b)
    ensures !Less(a, a)
    ensures Less(a, b) ==> !Less(b, a)
    ensures a != b ==> Less(a, b) || Less(b, a)
  {
    StrLessIrreflexive(a.isin);
    StrLessIrreflexive(a.curr);
    if a.isin != b.isin {
      StrLessTotal(a.isin, b.isin);
      if StrLess(a.isin, b.isin) { StrLessAsymmetric(a.isin, b.isin); }
    }
    if a.curr != b.curr {
      StrLessTotal(a.curr, b.curr);
      if StrLess(a.curr, b.curr) { StrLessAsymmetric(a.curr, b.curr); }
    }
  }
}
