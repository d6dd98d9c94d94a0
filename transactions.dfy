/**
 * The share transactions of src/stockwatch/entities/transactions.py: a frozen
 * record ordered field by field, and the sort the reconciliation engine applies.
 */
module Transactions {
  import opened Wrappers
  import opened Calendar
  import opened Text
  import opened Money
  import opened Sorting

  /**
   * The three kinds of the enumeration, plus `EXPENSES`, which the engine names
   * and treats like `DIVIDEND` although the enumeration does not declare it.
   */
  datatype ShareTransactionKind = BUY | SELL | DIVIDEND | EXPENSES

  datatype ShareTransaction = ShareTransaction(
    transactionDatetime: DateTime,
    isin: string,
    nrStocks: real,
    price: Amount,
    kind: ShareTransactionKind,
    amount: Amount)
  {
    /** The date part of the datetime. */
    function TransactionDate(): (d: Date)
      ensures d == transactionDatetime.date
    {
      transactionDatetime.date
    }
  }

  /** Why a comparison raises: TypeError for enumeration members, Amount's NotImplementedError (`Unordered`) for two currencies. */
  datatype OrderError = TypeError | Unordered

  /** The generated `<` or `>`. */
  datatype Op = LT | GT

  function AmountOrder(x: Amount, y: Amount, op: Op): (r: Result<bool, OrderError>)
    ensures r.Failure? <==> x.curr != y.curr
  {
    var c := if op == LT then x.Lt(OfAmount(y)) else x.Gt(OfAmount(y));
    if c.Failure? then Failure(Unordered) else Success(c.value)
  }

  /**
   * The comparison the dataclass generates: the field tuples are compared at
   * the first field where `==` fails, with that field's own operator; equal
   * tuples are not less and not greater.
   */
  function Compare(a: ShareTransaction, b: ShareTransaction, op: Op): (r: Result<bool, OrderError>)
    ensures a.transactionDatetime != b.transactionDatetime ==> r.Success?
    ensures r.Failure? ==> a.transactionDatetime == b.transactionDatetime && a.isin == b.isin && a.nrStocks == b.nrStocks
    ensures op == LT && r == Success(true) ==> !DateTimeLess(b.transactionDatetime, a.transactionDatetime)
    ensures op == GT && r == Success(true) ==> !DateTimeLess(a.transactionDatetime, b.transactionDatetime)
  {
    if a.transactionDatetime != b.transactionDatetime then
      Success(if op == LT then DateTimeLess(a.transactionDatetime, b.transactionDatetime)
              else DateTimeLess(b.transactionDatetime, a.transactionDatetime))
    else if a.isin != b.isin then
      Success(if op == LT then StrLess(a.isin, b.isin) else StrLess(b.isin, a.isin))
    else if a.nrStocks != b.nrStocks then
      Success(if op == LT then a.nrStocks < b.nrStocks else b.nrStocks < a.nrStocks)
    else if a.price.Eq(OfAmount(b.price)) == Success(false) then
      AmountOrder(a.price, b.price, op)
    else if a.kind != b.kind then
      Failure(TypeError)
    else if a.amount.Eq(OfAmount(b.amount)) == Success(false) then
      AmountOrder(a.amount, b.amount, op)
    else
      Success(false)
  }

  /** `<`: an earlier datetime sorts first, a later one never does. */
  function Less(a: ShareTransaction, b: ShareTransaction): (r: bool)
    ensures DateTimeLess(a.transactionDatetime, b.transactionDatetime) ==> r
    ensures r ==> !DateTimeLess(b.transactionDatetime, a.transactionDatetime)
  {
    Compare(a, b, LT) == Success(true)
  }

  predicate Comparable(a: ShareTransaction, b: ShareTransaction)
  {
    Compare(a, b, LT).Success?
  }

  /** An earlier datetime always sorts first. */
  lemma EarlierDatetimeSortsFirst(a: ShareTransaction, b: ShareTransaction)
    requires DateTimeLess(a.transactionDatetime, b.transactionDatetime)
    ensures Compare(a, b, LT) == Success(true)
    ensures Compare(b, a, LT) == Success(false)
    ensures Compare(b, a, GT) == Success(true)
  {
  }

  /** When every leading field ties, the larger amount sorts later. */
  lemma LargerAmountSortsLater(a: ShareTransaction, b: ShareTransaction)
    requires a.transactionDatetime == b.transactionDatetime && a.isin == b.isin && a.nrStocks == b.nrStocks
    requires a.price.Eq(OfAmount(b.price)) == Success(true) && a.kind == b.kind
    requires a.amount.curr == b.amount.curr && a.amount.Value() < b.amount.Value()
    ensures Compare(a, b, LT) == Success(true)
    ensures Compare(b, a, GT) == Success(true)
    ensures Compare(b, a, LT) == Success(false)
  {
  }

  /**
   * The generated `>` is the converse of `<`: a field's operator is only
   * applied to unequal values, where `Amount.__gt__`'s `>=` is a strict `>`.
   */
  lemma GtIsConverseOfLt(a: ShareTransaction, b: ShareTransaction)
    ensures Compare(a, b, GT) == Compare(b, a, LT)
  {
    StrLessIrreflexive(a.isin);
  }

  /** Equal transactions are not less than each other. */
  lemma LessIrreflexive(a: ShareTransaction)
    ensures Compare(a, a, LT) == Success(false)
  {
  }

  lemma LessAsymmetric(a: ShareTransaction, b: ShareTransaction)
    requires Less(a, b)
    ensures Compare(b, a, LT) == Success(false)
  {
    if a.transactionDatetime == b.transactionDatetime && a.isin != b.isin {
      StrLessAsymmetric(a.isin, b.isin);
    }
  }

  /** Comparability does not depend on the order of the operands. */
  lemma ComparableSymmetric(a: ShareTransaction, b: ShareTransaction)
    ensures Comparable(a, b) <==> Comparable(b, a)
  {
  }

  /** The sorting test: a buy 7 days back sorts after a sell 9 days back, and the bigger of two sells after the smaller. */
  lemma SortingOracle(today: Date)
    ensures
      var buy := ShareTransaction(DateTime(today - 7, 0), "IE00B441G979", 16.0, Amount(64.375), BUY, Amount(16.0 * 64.375));
      var sell1 := ShareTransaction(DateTime(today - 9, 0), "NL0010408704", 36.0, Amount(28.79), SELL, Amount(36.0 * 28.79));
      var sell2 := ShareTransaction(DateTime(today - 9, 0), "NL0010408704", 36.0, Amount(28.79), SELL, Amount(31.0 * 28.79));
      Compare(buy, sell1, GT) == Success(true) && Compare(sell1, sell2, GT) == Success(true)
        && sell1.TransactionDate() == today - 9
  {
    assert Amount(36.0 * 28.79).Value() == 1036.44;
    assert Amount(31.0 * 28.79).Value() == 892.49;
  }

  // ---- sorted() ----

  /** Every two transactions compare without raising, so `sorted` does not raise. */
  predicate AllComparable(ts: seq<ShareTransaction>)
  {
    forall a, b :: a in ts && b in ts ==> Comparable(a, b)
  }

  lemma LessIsAsymmetric()
    ensures Asymmetric((a: ShareTransaction, b: ShareTransaction) => Less(a, b))
  {
    forall a: ShareTransaction, b: ShareTransaction | Less(a, b) ensures !Less(b, a) {
      LessAsymmetric(a, b);
    }
  }

  /** No transaction sorts before its predecessor. */
  predicate Sorted(s: seq<ShareTransaction>)
  {
    SortedBy(s, (a: ShareTransaction, b: ShareTransaction) => Less(a, b))
  }

  /**
   * `sorted(transactions)`: a stable sort, sorted and a permutation of its
   * input; pairwise comparable transactions keep Python from raising.
   */
  function SortTransactions(ts: seq<ShareTransaction>): (r: seq<ShareTransaction>)
    requires AllComparable(ts)
    ensures multiset(r) == multiset(ts)
    ensures Sorted(r)
  {
    LessIsAsymmetric();
    SortBy(ts, (a: ShareTransaction, b: ShareTransaction) => Less(a, b))
  }

  /** In a sorted sequence the dates never decrease. */
  lemma {:induction false} SortedDatesNonDecreasing(s: seq<ShareTransaction>, i: nat, j: nat)
    requires Sorted(s)
    requires i <= j < |s|
    ensures s[i].TransactionDate() <= s[j].TransactionDate()
    decreases j - i
  {
    if i < j {
      SortedDatesNonDecreasing(s, i, j - 1);
    }
  }
}
