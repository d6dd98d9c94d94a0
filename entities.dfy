/**
 * The older reconciliation engine, src/stockwatch/entities.py: positions and
 * portfolios on plain floats in EUR, and transactions that OVERWRITE the
 * investment and realized return of every later portfolio with a value
 * computed from one portfolio they read.
 */
module Entities {
  import opened Wrappers
  import opened Decimal
  import opened Calendar

  const EMPTY_POSITION_NAME: string := "Empty position"

  /** Exactly the three kinds the older engine knows. */
  datatype ShareTransactionKind = BUY | SELL | DIVIDEND

  datatype ShareTransaction = ShareTransaction(
    kind: ShareTransactionKind,
    isin: string,
    curr: string,
    nrStocks: real,
    price: real,
    transactionDate: Date)
  {
    /** `nr_stocks * price`: what a purchase costs or a dividend pays. */
    function Value(): real
    {
      nrStocks * price
    }

    /** The gain of a sale over the given buy price per share. */
    function SaleRealization(buyPrice: real): real
    {
      nrStocks * (price - buyPrice)
    }

    /** The investment a sale takes out, at the given buy price per share. */
    function SaleInvestment(buyPrice: real): real
    {
      -nrStocks * buyPrice
    }
  }

  /**
   * A position. `unrealized` and `total_return` are computed by `__post_init__`,
   * also on every `replace`, so they are the functions `Unrealized` and `TotalReturn`.
   */
  datatype SharePosition = SharePosition(
    positionDate: Date,
    value: real,
    name: string,
    isin: string,
    curr: string,
    investment: real,
    nrStocks: real,
    price: real,
    realized: real)
  {
    function Unrealized(): real
    {
      Round2(value - investment)
    }

    function TotalReturn(): real
    {
      realized + Unrealized()
    }

    /** The average price paid per share still held. */
    function BuyPrice(): real
      requires nrStocks != 0.0
    {
      investment / nrStocks
    }
  }

  /** `SharePosition.empty_position`. */
  function EmptyPosition(positionDate: Date, isin: string): (p: SharePosition)
    ensures p.positionDate == positionDate && p.isin == isin && p.name == EMPTY_POSITION_NAME && p.curr == "EUR"
    ensures p.value == 0.0 && p.investment == 0.0 && p.nrStocks == 0.0 && p.price == 1.0 && p.realized == 0.0
  {
    SharePosition(positionDate, 0.0, EMPTY_POSITION_NAME, isin, "EUR", 0.0, 0.0, 1.0, 0.0)
  }

  /** The derived fields: unrealized is value - investment to the cent, total return adds the realized part. */
  lemma PositionReturns(p: SharePosition)
    ensures IsCents(p.Unrealized()) && -0.005 <= p.Unrealized() - (p.value - p.investment) <= 0.005
    ensures p.TotalReturn() - p.realized == p.Unrealized()
    ensures IsCents(p.value) && IsCents(p.investment) ==> p.Unrealized() == p.value - p.investment
  {
    if IsCents(p.value) && IsCents(p.investment) {
      CentsSub(p.value, p.investment);
      Round2OfCents(p.value - p.investment);
    }
  }

  /** An empty position has no return at all. */
  lemma EmptyPositionReturns(d: Date, isin: string)
    ensures EmptyPosition(d, isin).Unrealized() == 0.0 && EmptyPosition(d, isin).TotalReturn() == 0.0
  {
    RoundHalfEvenOfInt(0);
  }

  // ---- sums over the positions of a dictionary ----

  datatype Attribute = ValueAttr | InvestmentAttr | RealizedAttr | UnrealizedAttr | TotalReturnAttr

  function AttributeOf(p: SharePosition, a: Attribute): real
  {
    match a
    case ValueAttr => p.value
    case InvestmentAttr => p.investment
    case RealizedAttr => p.realized
    case UnrealizedAttr => p.Unrealized()
    case TotalReturnAttr => p.TotalReturn()
  }

  /** `sum(getattr(p, a) for p in positions.values())`, on exact reals, so in any order. */
  ghost function SumMap(m: map<string, SharePosition>, a: Attribute): real
    decreases |m|
  {
    if m == map[] then 0.0
    else
      EmptyWithoutElements(m.Keys);
      var k :| k in m;
      AttributeOf(m[k], a) + SumMap(m - {k}, a)
  }

  /** The sum does not depend on the order of the dictionary: any key can be taken out first. */
  lemma {:induction false} SumMapRemove(m: map<string, SharePosition>, k: string, a: Attribute)
    requires k in m
    ensures SumMap(m, a) == AttributeOf(m[k], a) + SumMap(m - {k}, a)
    decreases |m|
  {
    EmptyWithoutElements(m.Keys);
    var j :| j in m && SumMap(m, a) == AttributeOf(m[j], a) + SumMap(m - {j}, a);
    if j != k {
      var rest := m - {j};
      assert k in rest;
      SumMapRemove(rest, k, a);
      assert j in m - {k};
      SumMapRemove(m - {k}, j, a);
      assert rest - {k} == (m - {k}) - {j};
    }
  }

  /** Putting a new key in adds its attribute to the sum. */
  lemma SumMapInsert(m: map<string, SharePosition>, k: string, p: SharePosition, a: Attribute)
    requires k !in m
    ensures SumMap(m[k := p], a) == AttributeOf(p, a) + SumMap(m, a)
  {
    SumMapRemove(m[k := p], k, a);
    assert m[k := p] - {k} == m;
  }

  /** The loop that `sum` runs over the dictionary's values. */
  method SumOf(m: map<string, SharePosition>, a: Attribute) returns (s: real)
    ensures s == SumMap(m, a)
  {
    s := 0.0;
    var rest := m;
    while rest != map[]
      invariant s + SumMap(rest, a) == SumMap(m, a)
      decreases |rest|
    {
      EmptyWithoutElements(rest.Keys);
      var k :| k in rest;
      SumMapRemove(rest, k, a);
      s := s + AttributeOf(rest[k], a);
      rest := rest - {k};
    }
  }

  // ---- the portfolio ----

  /** The position stored under the ISIN, or an empty one dated the portfolio's date. */
  function PositionAt(m: map<string, SharePosition>, portfolioDate: Date, isin: string): (p: SharePosition)
    ensures isin in m ==> p == m[isin]
    ensures isin !in m ==> p == EmptyPosition(portfolioDate, isin)
  {
    if isin in m then m[isin] else EmptyPosition(portfolioDate, isin)
  }

  /**
   * `update_investment_realization` on the dictionary: `get_position` always
   * returns a position, so the ISIN always gets `replace(pos, investment=..,
   * realized=..)`, an empty position when it was missing.
   */
  function Overwritten(m: map<string, SharePosition>, portfolioDate: Date, isin: string,
                       newInvestment: real, newRealization: real): (r: map<string, SharePosition>)
    ensures r.Keys == m.Keys + {isin}
    ensures r[isin].investment == newInvestment && r[isin].realized == newRealization
    ensures forall i :: i in m && i != isin ==> r[i] == m[i]
  {
    m[isin := PositionAt(m, portfolioDate, isin).(investment := newInvestment, realized := newRealization)]
  }

  /** The update keeps every other field of the position, and a missing ISIN becomes an empty position. */
  lemma OverwrittenKeepsPosition(m: map<string, SharePosition>, portfolioDate: Date, isin: string,
                                 newInvestment: real, newRealization: real)
    ensures
      var p, q := PositionAt(m, portfolioDate, isin), Overwritten(m, portfolioDate, isin, newInvestment, newRealization)[isin];
      && q.positionDate == p.positionDate && q.value == p.value && q.name == p.name && q.isin == p.isin
      && q.curr == p.curr && q.nrStocks == p.nrStocks && q.price == p.price
    ensures isin !in m ==>
      Overwritten(m, portfolioDate, isin, newInvestment, newRealization)[isin]
        == EmptyPosition(portfolioDate, isin).(investment := newInvestment, realized := newRealization)
  {
  }

  /** Overwriting twice with the same values is overwriting once. */
  lemma OverwrittenIdempotent(m: map<string, SharePosition>, portfolioDate: Date, isin: string,
                              newInvestment: real, newRealization: real)
    ensures
      var once := Overwritten(m, portfolioDate, isin, newInvestment, newRealization);
      Overwritten(once, portfolioDate, isin, newInvestment, newRealization) == once
  {
    var once := Overwritten(m, portfolioDate, isin, newInvestment, newRealization);
    assert once[isin := once[isin]] == once;
  }

  /**
   * A portfolio: a date and a dictionary of positions by ISIN, which
   * `update_investment_realization` changes in place. `total_value` and
   * `total_unrealized_return` are computed once, at construction.
   */
  class SharePortfolio {
    const portfolioDate: Date
    var sharePositions: map<string, SharePosition>
    const totalValue: real
    const totalUnrealizedReturn: real

    constructor (portfolioDate: Date, sharePositions: map<string, SharePosition>)
      ensures this.portfolioDate == portfolioDate && this.sharePositions == sharePositions
      ensures totalValue == Round2(SumMap(sharePositions, ValueAttr))
      ensures totalUnrealizedReturn == Round2(SumMap(sharePositions, UnrealizedAttr))
    {
      var value := SumOf(sharePositions, ValueAttr);
      var unrealized := SumOf(sharePositions, UnrealizedAttr);
      this.portfolioDate := portfolioDate;
      this.sharePositions := sharePositions;
      this.totalValue := Round2(value);
      this.totalUnrealizedReturn := Round2(unrealized);
    }

    ghost function TotalInvestment(): real
      reads this
    {
      Round2(SumMap(sharePositions, InvestmentAttr))
    }

    ghost function TotalRealizedReturn(): real
      reads this
    {
      Round2(SumMap(sharePositions, RealizedAttr))
    }

    ghost function TotalReturn(): real
      reads this
    {
      Round2(SumMap(sharePositions, TotalReturnAttr))
    }

    /**
     * `contains`: the ISIN is a key of the dictionary; then `get_position`
     * finds its position, otherwise it makes an empty one.
     */
    function Contains(isin: string): (r: bool)
      reads this
      ensures r ==> isin in sharePositions && PositionAt(sharePositions, portfolioDate, isin) == sharePositions[isin]
      ensures !r ==> PositionAt(sharePositions, portfolioDate, isin).name == EMPTY_POSITION_NAME
    {
      isin in sharePositions
    }

    /** `get_position`. */
    function GetPosition(isin: string): (p: SharePosition)
      reads this
      ensures Contains(isin) ==> p == sharePositions[isin]
      ensures !Contains(isin) ==> p.name == EMPTY_POSITION_NAME && p.isin == isin && p.positionDate == portfolioDate
    {
      PositionAt(sharePositions, portfolioDate, isin)
    }

    /** `all_isins`: the keys, in the model as a set. */
    function AllIsins(): (r: set<string>)
      reads this
      ensures forall i :: i in r <==> Contains(i)
    {
      sharePositions.Keys
    }

    /** `is_date_consistent`; on a consistent portfolio `get_position` answers with the portfolio's date. */
    function IsDateConsistent(): (r: bool)
      reads this
      ensures r ==> forall isin :: PositionAt(sharePositions, portfolioDate, isin).positionDate == portfolioDate
    {
      forall i :: i in sharePositions ==> sharePositions[i].positionDate == portfolioDate
    }

    /**
     * `update_investment_realization`: the ISIN ends with exactly the given
     * investment and realized return; `name` and `curr` are never used,
     * because the branch that would use them cannot be reached.
     */
    method UpdateInvestmentRealization(newInvestment: real, newRealization: real, name: string, isin: string, curr: string)
      modifies this
      ensures sharePositions == Overwritten(old(sharePositions), portfolioDate, isin, newInvestment, newRealization)
    {
      var pos := GetPosition(isin);
      sharePositions := sharePositions[isin := pos.(investment := newInvestment, realized := newRealization)];
    }
  }

  /** The totals of the source's tests, for the portfolio of today with two positions. */
  lemma PortfolioTotalsOracle(d: Date)
    ensures
      var p1 := SharePosition(d, 1190.72, "iShares MSCI World EUR Hedged UCITS ETF", "IE00B441G979", "EUR",
                              1030.00, 16.0, 74.42, -10.50);
      var p2 := SharePosition(d, 1060.00, "Vanguard FTSE All-World UCITS ETF USD Dis", "IE00B3RBWM25", "EUR",
                              970.00, 10.0, 106.00, 23.66);
      var m := map["IE00B441G979" := p1, "IE00B3RBWM25" := p2];
      && p1.Unrealized() == 160.72 && p1.TotalReturn() == 160.72 - 10.50
      && Round2(SumMap(m, InvestmentAttr)) == 2000.00
      && Round2(SumMap(m, RealizedAttr)) == 13.16
      && Round2(SumMap(m, UnrealizedAttr)) == 250.72
      && Round2(SumMap(m, TotalReturnAttr)) == 250.72 + 13.16
  {
    var p1 := SharePosition(d, 1190.72, "iShares MSCI World EUR Hedged UCITS ETF", "IE00B441G979", "EUR",
                            1030.00, 16.0, 74.42, -10.50);
    var p2 := SharePosition(d, 1060.00, "Vanguard FTSE All-World UCITS ETF USD Dis", "IE00B3RBWM25", "EUR",
                            970.00, 10.0, 106.00, 23.66);
    var m := map["IE00B441G979" := p1, "IE00B3RBWM25" := p2];
    Round2Nearest(1190.72 - 1030.00, 16072);
    Round2Nearest(1060.00 - 970.00, 9000);
    forall a: Attribute ensures SumMap(m, a) == AttributeOf(p1, a) + AttributeOf(p2, a) {
      assert m == map["IE00B3RBWM25" := p2]["IE00B441G979" := p1];
      SumMapInsert(map["IE00B3RBWM25" := p2], "IE00B441G979", p1, a);
      assert map["IE00B3RBWM25" := p2] == map[]["IE00B3RBWM25" := p2];
      SumMapInsert(map[], "IE00B3RBWM25", p2, a);
    }
    Round2Nearest(2000.00, 200000);
    Round2Nearest(13.16, 1316);
    Round2Nearest(250.72, 25072);
    Round2Nearest(250.72 + 13.16, 26388);
  }

  // ---- earliest, latest and closest portfolios ----

  /** The portfolio dates, in the order of the tuple. */
  function Dates(ps: seq<SharePortfolio>): (r: seq<Date>)
    ensures |r| == |ps| && forall k :: 0 <= k < |ps| ==> r[k] == ps[k].portfolioDate
  {
    seq(|ps|, k requires 0 <= k < |ps| => ps[k].portfolioDate)
  }

  /**
   * `sorted` on portfolios compares their dictionaries when two dates are
   * equal, which raises; the dates are therefore distinct.
   */
  predicate DistinctDates(dates: seq<Date>)
  {
    forall i, j :: 0 <= i < j < |dates| ==> dates[i] != dates[j]
  }

  /** `earliest_portfolio_date`; `min` of nothing raises, which is `None` here. */
  function EarliestPortfolioDate(dates: seq<Date>): (r: Option<Date>)
    ensures r.None? <==> dates == []
    ensures r.Some? ==> r.value in dates && forall k :: 0 <= k < |dates| ==> r.value <= dates[k]
  {
    if dates == [] then None
    else match EarliestPortfolioDate(dates[1..])
      case None => Some(dates[0])
      case Some(d) =>
        assert forall k :: 1 <= k < |dates| ==> dates[k] == dates[1..][k - 1];
        Some(if dates[0] <= d then dates[0] else d)
  }

  /** `latest_portfolio_date`; `max` of nothing raises, which is `None` here. */
  function LatestPortfolioDate(dates: seq<Date>): (r: Option<Date>)
    ensures r.None? <==> dates == []
    ensures r.Some? ==> r.value in dates && forall k :: 0 <= k < |dates| ==> dates[k] <= r.value
  {
    if dates == [] then None
    else match LatestPortfolioDate(dates[1..])
      case None => Some(dates[0])
      case Some(d) =>
        assert forall k :: 1 <= k < |dates| ==> dates[k] == dates[1..][k - 1];
        Some(if d <= dates[0] then dates[0] else d)
  }

  /**
   * `closest_portfolio_after_date`, as the index of the portfolio it returns:
   * the earliest one dated on or after the start date.
   */
  function ClosestPortfolioAfterDate(dates: seq<Date>, startDate: Date): (r: Option<nat>)
    ensures r.None? <==> forall k :: 0 <= k < |dates| ==> dates[k] < startDate
    ensures r.Some? ==> r.value < |dates| && dates[r.value] >= startDate
    ensures r.Some? ==> forall k :: 0 <= k < |dates| && dates[k] >= startDate ==> dates[r.value] <= dates[k]
  {
    if dates == [] then None
    else
      var rest := ClosestPortfolioAfterDate(dates[1..], startDate);
      assert forall k :: 1 <= k < |dates| ==> dates[k] == dates[1..][k - 1];
      if dates[0] < startDate then
        (if rest.None? then None else Some(rest.value + 1))
      else if rest.Some? && dates[rest.value + 1] < dates[0] then Some(rest.value + 1)
      else Some(0)
  }

  /**
   * `closest_portfolio_before_date`, as the index of the portfolio it returns:
   * the latest one dated strictly before the end date.
   */
  function ClosestPortfolioBeforeDate(dates: seq<Date>, endDate: Date): (r: Option<nat>)
    ensures r.None? <==> forall k :: 0 <= k < |dates| ==> dates[k] >= endDate
    ensures r.Some? ==> r.value < |dates| && dates[r.value] < endDate
    ensures r.Some? ==> forall k :: 0 <= k < |dates| && dates[k] < endDate ==> dates[k] <= dates[r.value]
  {
    if dates == [] then None
    else
      var rest := ClosestPortfolioBeforeDate(dates[1..], endDate);
      assert forall k :: 1 <= k < |dates| ==> dates[k] == dates[1..][k - 1];
      if dates[0] >= endDate then
        (if rest.None? then None else Some(rest.value + 1))
      else if rest.Some? && dates[0] < dates[rest.value + 1] then Some(rest.value + 1)
      else Some(0)
  }

  /** With distinct dates the closest portfolio is the only one with its date: the choice is determined. */
  lemma ClosestIsUnique(dates: seq<Date>, d: Date, k: nat)
    requires DistinctDates(dates) && k < |dates|
    ensures ClosestPortfolioAfterDate(dates, d) == Some(k) <==>
      dates[k] >= d && forall j :: 0 <= j < |dates| && dates[j] >= d ==> dates[k] <= dates[j]
    ensures ClosestPortfolioBeforeDate(dates, d) == Some(k) <==>
      dates[k] < d && forall j :: 0 <= j < |dates| && dates[j] < d ==> dates[j] <= dates[k]
  {
  }

  /** The date lookups of the source's tests, for the portfolios of three weeks back and of today. */
  lemma ClosestPortfolioOracle(today: Date)
    ensures EarliestPortfolioDate([today - 21, today]) == Some(today - 21)
    ensures LatestPortfolioDate([today - 21, today]) == Some(today)
    ensures ClosestPortfolioAfterDate([today - 21, today], today + 1) == None
    ensures ClosestPortfolioAfterDate([today - 21, today], today - 1) == Some(1)
    ensures ClosestPortfolioBeforeDate([today - 21, today], today + 1) == Some(1)
    ensures ClosestPortfolioBeforeDate([today - 21, today], today - 20) == Some(0)
    ensures ClosestPortfolioBeforeDate([today - 21, today], today - 22) == None
  {
    assert [today - 21, today][1..] == [today];
    assert [today][1..] == [];
  }

  // ---- the transactions, as functions of the positions of each portfolio ----

  /**
   * `_update_investment_realization` on the positions: every portfolio dated
   * on or after the date gets the ISIN overwritten; the others stay.
   */
  function OverwriteFrom(dates: seq<Date>, pos: seq<map<string, SharePosition>>, date: Date, isin: string,
                         newInvestment: real, newRealization: real): (r: seq<map<string, SharePosition>>)
    requires |dates| == |pos|
    ensures |r| == |pos|
  {
    seq(|pos|, k requires 0 <= k < |pos| =>
      if dates[k] >= date then Overwritten(pos[k], dates[k], isin, newInvestment, newRealization) else pos[k])
  }

  /**
   * `_process_buy_transaction`: the position in the first portfolio on or
   * after the date plus `nr_stocks * price`, rounded, written from the date
   * on under the ISIN that position carries.
   */
  function BuyResult(t: ShareTransaction, dates: seq<Date>, pos: seq<map<string, SharePosition>>): (r: seq<map<string, SharePosition>>)
    requires |dates| == |pos|
    ensures |r| == |pos|
  {
    match ClosestPortfolioAfterDate(dates, t.transactionDate)
    case None => pos
    case Some(n) => PurchaseOverwrite(t, dates, pos, PositionAt(pos[n], dates[n], t.isin))
  }

  /** What a purchase writes, given the position it reads. */
  function PurchaseOverwrite(t: ShareTransaction, dates: seq<Date>, pos: seq<map<string, SharePosition>>, next: SharePosition)
    : (r: seq<map<string, SharePosition>>)
    requires |dates| == |pos|
    ensures |r| == |pos|
  {
    OverwriteFrom(dates, pos, t.transactionDate, next.isin, Round2(next.investment + t.Value()), Round2(next.realized + 0.0))
  }

  /**
   * `_process_sell_transaction`: from the last portfolio before the date, at
   * its buy price `investment / nr_stocks`; nothing without stocks there.
   */
  function SellResult(t: ShareTransaction, dates: seq<Date>, pos: seq<map<string, SharePosition>>): (r: seq<map<string, SharePosition>>)
    requires |dates| == |pos|
    ensures |r| == |pos|
  {
    match ClosestPortfolioBeforeDate(dates, t.transactionDate)
    case None => pos
    case Some(n) =>
      var current := PositionAt(pos[n], dates[n], t.isin);
      if !(current.nrStocks > 0.0) then pos
      else SaleOverwrite(t, dates, pos, current)
  }

  /** What a sale writes, given the position it reads: both sale values at that position's buy price. */
  function SaleOverwrite(t: ShareTransaction, dates: seq<Date>, pos: seq<map<string, SharePosition>>, current: SharePosition)
    : (r: seq<map<string, SharePosition>>)
    requires |dates| == |pos| && current.nrStocks > 0.0
    ensures |r| == |pos|
  {
    var buyPrice := current.BuyPrice();
    var realization := Round2(t.SaleRealization(buyPrice));
    var investment := Round2(t.SaleInvestment(buyPrice));
    OverwriteFrom(dates, pos, t.transactionDate, current.isin,
                  Round2(current.investment + investment), Round2(current.realized + realization))
  }

  /**
   * `_process_dividend_transaction`: from the last portfolio before the date,
   * the realized return plus `nr_stocks * price`, and that portfolio's investment.
   */
  function DividendResult(t: ShareTransaction, dates: seq<Date>, pos: seq<map<string, SharePosition>>): (r: seq<map<string, SharePosition>>)
    requires |dates| == |pos|
    ensures |r| == |pos|
  {
    match ClosestPortfolioBeforeDate(dates, t.transactionDate)
    case None => pos
    case Some(n) =>
      DividendOverwrite(t, dates, pos, PositionAt(pos[n], dates[n], t.isin))
  }

  /** What a dividend writes, given the position it reads. */
  function DividendOverwrite(t: ShareTransaction, dates: seq<Date>, pos: seq<map<string, SharePosition>>, current: SharePosition)
    : (r: seq<map<string, SharePosition>>)
    requires |dates| == |pos|
    ensures |r| == |pos|
  {
    OverwriteFrom(dates, pos, t.transactionDate, current.isin, current.investment, Round2(current.realized + Round2(t.Value())))
  }

  // Each transaction writes what its helper computes from the position it reads.

  lemma PurchaseReads(t: ShareTransaction, dates: seq<Date>, pos: seq<map<string, SharePosition>>, n: nat, next: SharePosition)
    requires |dates| == |pos| && ClosestPortfolioAfterDate(dates, t.transactionDate) == Some(n)
    requires next == PositionAt(pos[n], dates[n], t.isin)
    ensures BuyResult(t, dates, pos) == PurchaseOverwrite(t, dates, pos, next)
  {
  }

  lemma SaleReads(t: ShareTransaction, dates: seq<Date>, pos: seq<map<string, SharePosition>>, n: nat, current: SharePosition)
    requires |dates| == |pos| && ClosestPortfolioBeforeDate(dates, t.transactionDate) == Some(n)
    requires current == PositionAt(pos[n], dates[n], t.isin) && current.nrStocks > 0.0
    ensures SellResult(t, dates, pos) == SaleOverwrite(t, dates, pos, current)
  {
  }

  lemma DividendReads(t: ShareTransaction, dates: seq<Date>, pos: seq<map<string, SharePosition>>, n: nat, current: SharePosition)
    requires |dates| == |pos| && ClosestPortfolioBeforeDate(dates, t.transactionDate) == Some(n)
    requires current == PositionAt(pos[n], dates[n], t.isin)
    ensures DividendResult(t, dates, pos) == DividendOverwrite(t, dates, pos, current)
  {
  }

  // What UpdateAll writes, with the values each method computes, is the transaction's result.

  /** Equal amounts added to the same value round alike: the step from a method's locals to its result function. */
  lemma RoundedSumOfEqual(a: real, b: real, c: real)
    requires b == c
    ensures Round2(a + b) == Round2(a + c)
  {
  }

  // Each helper writes its position's values plus the amounts a method computes.

  lemma PurchaseOverwriteOfValues(t: ShareTransaction, dates: seq<Date>, pos: seq<map<string, SharePosition>>,
                                  next: SharePosition, investment: real, realization: real)
    requires |dates| == |pos| && investment == t.Value() && realization == 0.0
    ensures PurchaseOverwrite(t, dates, pos, next) == OverwriteFrom(dates, pos, t.transactionDate, next.isin,
      Round2(next.investment + investment), Round2(next.realized + realization))
  {
    RoundedSumOfEqual(next.investment, investment, t.Value());
    RoundedSumOfEqual(next.realized, realization, 0.0);
  }

  lemma SaleOverwriteOfValues(t: ShareTransaction, dates: seq<Date>, pos: seq<map<string, SharePosition>>,
                              current: SharePosition, investment: real, realization: real)
    requires |dates| == |pos| && current.nrStocks > 0.0
    requires investment == Round2(t.SaleInvestment(current.BuyPrice()))
    requires realization == Round2(t.SaleRealization(current.BuyPrice()))
    ensures SaleOverwrite(t, dates, pos, current) == OverwriteFrom(dates, pos, t.transactionDate, current.isin,
      Round2(current.investment + investment), Round2(current.realized + realization))
  {
  }

  lemma DividendOverwriteOfValues(t: ShareTransaction, dates: seq<Date>, pos: seq<map<string, SharePosition>>,
                                  current: SharePosition, realization: real)
    requires |dates| == |pos| && realization == Round2(t.Value())
    ensures DividendOverwrite(t, dates, pos, current) == OverwriteFrom(dates, pos, t.transactionDate, current.isin,
      current.investment, Round2(current.realized + realization))
  {
  }

  // The result functions at the amounts the methods compute.

  lemma PurchaseResultOfValues(t: ShareTransaction, dates: seq<Date>, pos: seq<map<string, SharePosition>>, n: nat,
                               next: SharePosition, investment: real, realization: real)
    requires |dates| == |pos| && ClosestPortfolioAfterDate(dates, t.transactionDate) == Some(n)
    requires next == PositionAt(pos[n], dates[n], t.isin)
    requires investment == t.Value() && realization == 0.0
    ensures BuyResult(t, dates, pos) == OverwriteFrom(dates, pos, t.transactionDate, next.isin,
      Round2(next.investment + investment), Round2(next.realized + realization))
  {
    PurchaseReads(t, dates, pos, n, next);
    PurchaseOverwriteOfValues(t, dates, pos, next, investment, realization);
  }

  lemma SaleResultOfValues(t: ShareTransaction, dates: seq<Date>, pos: seq<map<string, SharePosition>>, n: nat,
                           current: SharePosition, investment: real, realization: real)
    requires |dates| == |pos| && ClosestPortfolioBeforeDate(dates, t.transactionDate) == Some(n)
    requires current == PositionAt(pos[n], dates[n], t.isin) && current.nrStocks > 0.0
    requires investment == Round2(t.SaleInvestment(current.BuyPrice()))
    requires realization == Round2(t.SaleRealization(current.BuyPrice()))
    ensures SellResult(t, dates, pos) == OverwriteFrom(dates, pos, t.transactionDate, current.isin,
      Round2(current.investment + investment), Round2(current.realized + realization))
  {
    SaleReads(t, dates, pos, n, current);
    SaleOverwriteOfValues(t, dates, pos, current, investment, realization);
  }

  lemma DividendResultOfValues(t: ShareTransaction, dates: seq<Date>, pos: seq<map<string, SharePosition>>, n: nat,
                               current: SharePosition, realization: real)
    requires |dates| == |pos| && ClosestPortfolioBeforeDate(dates, t.transactionDate) == Some(n)
    requires current == PositionAt(pos[n], dates[n], t.isin) && realization == Round2(t.Value())
    ensures DividendResult(t, dates, pos) == OverwriteFrom(dates, pos, t.transactionDate, current.isin,
      current.investment, Round2(current.realized + realization))
  {
    DividendReads(t, dates, pos, n, current);
    DividendOverwriteOfValues(t, dates, pos, current, realization);
  }

  function TransactionResult(t: ShareTransaction, dates: seq<Date>, pos: seq<map<string, SharePosition>>): (r: seq<map<string, SharePosition>>)
    requires |dates| == |pos|
    ensures |r| == |pos|
  {
    match t.kind
    case BUY => BuyResult(t, dates, pos)
    case SELL => SellResult(t, dates, pos)
    case DIVIDEND => DividendResult(t, dates, pos)
  }

  /** `apply_transactions`: the transactions in the order given. */
  function ApplyAll(ts: seq<ShareTransaction>, dates: seq<Date>, pos: seq<map<string, SharePosition>>): (r: seq<map<string, SharePosition>>)
    requires |dates| == |pos|
    ensures |r| == |pos|
    decreases |ts|
  {
    if ts == [] then pos else ApplyAll(ts[1..], dates, TransactionResult(ts[0], dates, pos))
  }

  /** The positions of each portfolio, in the order of the tuple. */
  ghost function Positions(ps: seq<SharePortfolio>): (r: seq<map<string, SharePosition>>)
    reads set p | p in ps
    ensures |r| == |ps| && forall k :: 0 <= k < |ps| ==> r[k] == ps[k].sharePositions
  {
    seq(|ps|, k requires 0 <= k < |ps| reads ps => ps[k].sharePositions)
  }

  // ---- the methods ----

  /** `_update_investment_realization`: each portfolio dated on or after the date is updated in place. */
  method UpdateAll(newInvestment: real, newRealization: real, transactionDate: Date, name: string, isin: string,
                   curr: string, portfolios: seq<SharePortfolio>)
    modifies set p | p in portfolios
    ensures Positions(portfolios) ==
      OverwriteFrom(Dates(portfolios), old(Positions(portfolios)), transactionDate, isin, newInvestment, newRealization)
  {
    var k := 0;
    while k < |portfolios|
      invariant 0 <= k <= |portfolios|
      invariant forall i :: 0 <= i < |portfolios| ==>
        portfolios[i].sharePositions ==
          if portfolios[i].portfolioDate >= transactionDate && portfolios[i] in portfolios[..k]
          then Overwritten(old(portfolios[i].sharePositions), portfolios[i].portfolioDate, isin, newInvestment, newRealization)
          else old(portfolios[i].sharePositions)
    {
      var p := portfolios[k];
      if p.portfolioDate >= transactionDate {
        ghost var before := p.sharePositions;
        OverwrittenIdempotent(old(p.sharePositions), p.portfolioDate, isin, newInvestment, newRealization);
        p.UpdateInvestmentRealization(newInvestment, newRealization, name, isin, curr);
        assert p.sharePositions == Overwritten(before, p.portfolioDate, isin, newInvestment, newRealization);
      }
      assert portfolios[..k + 1] == portfolios[..k] + [p];
      k := k + 1;
    }
    assert portfolios[..k] == portfolios;
  }

  method ProcessBuy(t: ShareTransaction, portfolios: seq<SharePortfolio>)
    requires t.kind == BUY && DistinctDates(Dates(portfolios))
    modifies set p | p in portfolios
    ensures Positions(portfolios) == BuyResult(t, Dates(portfolios), old(Positions(portfolios)))
  {
    ghost var pos := Positions(portfolios);
    var n := ClosestPortfolioAfterDate(Dates(portfolios), t.transactionDate);
    if n.None? {
      return;
    }
    assert pos[n.value] == portfolios[n.value].sharePositions;
    var nextPos := portfolios[n.value].GetPosition(t.isin);
    var investment := t.Value();
    var realization := 0.0;
    UpdateAll(Round2(nextPos.investment + investment), Round2(nextPos.realized + realization), t.transactionDate,
              nextPos.name, nextPos.isin, nextPos.curr, portfolios);
    PurchaseResultOfValues(t, Dates(portfolios), pos, n.value, nextPos, investment, realization);
  }

  method ProcessSell(t: ShareTransaction, portfolios: seq<SharePortfolio>)
    requires t.kind == SELL && DistinctDates(Dates(portfolios))
    modifies set p | p in portfolios
    ensures Positions(portfolios) == SellResult(t, Dates(portfolios), old(Positions(portfolios)))
  {
    ghost var pos := Positions(portfolios);
    var n := ClosestPortfolioBeforeDate(Dates(portfolios), t.transactionDate);
    if n.None? {
      return;
    }
    assert pos[n.value] == portfolios[n.value].sharePositions;
    var currentPos := portfolios[n.value].GetPosition(t.isin);
    if !(currentPos.nrStocks > 0.0) {
      return;
    }
    var buyPrice := currentPos.BuyPrice();
    var realization := Round2(t.SaleRealization(buyPrice));
    var investment := Round2(t.SaleInvestment(buyPrice));
    UpdateAll(Round2(currentPos.investment + investment), Round2(currentPos.realized + realization), t.transactionDate,
              currentPos.name, currentPos.isin, currentPos.curr, portfolios);
    SaleResultOfValues(t, Dates(portfolios), pos, n.value, currentPos, investment, realization);
  }

  method ProcessDividend(t: ShareTransaction, portfolios: seq<SharePortfolio>)
    requires t.kind == DIVIDEND && DistinctDates(Dates(portfolios))
    modifies set p | p in portfolios
    ensures Positions(portfolios) == DividendResult(t, Dates(portfolios), old(Positions(portfolios)))
  {
    ghost var pos := Positions(portfolios);
    var n := ClosestPortfolioBeforeDate(Dates(portfolios), t.transactionDate);
    if n.None? {
      return;
    }
    assert pos[n.value] == portfolios[n.value].sharePositions;
    var currentPos := portfolios[n.value].GetPosition(t.isin);
    var realization := Round2(t.Value());
    UpdateAll(currentPos.investment, Round2(currentPos.realized + realization), t.transactionDate,
              currentPos.name, currentPos.isin, currentPos.curr, portfolios);
    DividendResultOfValues(t, Dates(portfolios), pos, n.value, currentPos, realization);
  }

  /** `apply_transactions`: each transaction in the given order, dispatched on its kind. */
  method ApplyTransactions(transactions: seq<ShareTransaction>, portfolios: seq<SharePortfolio>)
    requires DistinctDates(Dates(portfolios))
    modifies set p | p in portfolios
    ensures Positions(portfolios) == ApplyAll(transactions, Dates(portfolios), old(Positions(portfolios)))
  {
    var k := 0;
    while k < |transactions|
      invariant 0 <= k <= |transactions|
      decreases |transactions| - k
      invariant ApplyAll(transactions, Dates(portfolios), old(Positions(portfolios)))
        == ApplyAll(transactions[k..], Dates(portfolios), Positions(portfolios))
    {
      var t := transactions[k];
      assert transactions[k..][0] == t && transactions[k..][1..] == transactions[k + 1..];
      match t.kind {
        case BUY => ProcessBuy(t, portfolios);
        case SELL => ProcessSell(t, portfolios);
        case DIVIDEND => ProcessDividend(t, portfolios);
      }
      k := k + 1;
    }
  }

  /** `get_all_isins`: the union of the portfolios' keys. */
  method GetAllIsins(portfolios: seq<SharePortfolio>) returns (r: set<string>)
    ensures forall i :: i in r <==> exists k :: 0 <= k < |portfolios| && portfolios[k].Contains(i)
  {
    r := {};
    var k := 0;
    while k < |portfolios|
      invariant 0 <= k <= |portfolios|
      invariant forall i :: i in r <==> exists j :: 0 <= j < k && portfolios[j].Contains(i)
    {
      r := r + portfolios[k].AllIsins();
      k := k + 1;
    }
  }

  // ---- properties of the engine ----

  /** Every position is dated with its portfolio's date (`is_date_consistent` for all of them). */
  predicate Consistent(dates: seq<Date>, pos: seq<map<string, SharePosition>>)
    requires |dates| == |pos|
  {
    forall k, i :: 0 <= k < |pos| && i in pos[k] ==> pos[k][i].positionDate == dates[k]
  }

  /** Every position is stored under its own ISIN. */
  predicate Keyed(pos: seq<map<string, SharePosition>>)
  {
    forall k, i :: 0 <= k < |pos| && i in pos[k] ==> pos[k][i].isin == i
  }

  lemma OverwriteFromFrame(dates: seq<Date>, pos: seq<map<string, SharePosition>>, date: Date, isin: string,
                           newInvestment: real, newRealization: real)
    requires |dates| == |pos|
    ensures var r := OverwriteFrom(dates, pos, date, isin, newInvestment, newRealization);
      forall k, i :: 0 <= k < |pos| && (dates[k] < date || i != isin) ==>
        (i in r[k] <==> i in pos[k]) && (i in pos[k] ==> r[k][i] == pos[k][i])
  {
  }

  /**
   * On positions stored under their own ISIN, a transaction changes nothing
   * before its date, and from its date on nothing but its own ISIN.
   */
  lemma TransactionFrame(t: ShareTransaction, dates: seq<Date>, pos: seq<map<string, SharePosition>>)
    requires |dates| == |pos| && Keyed(pos)
    ensures var r := TransactionResult(t, dates, pos);
      forall k, i :: 0 <= k < |pos| && (dates[k] < t.transactionDate || i != t.isin) ==>
        (i in r[k] <==> i in pos[k]) && (i in pos[k] ==> r[k][i] == pos[k][i])
  {
    match t.kind
    case BUY =>
      var n := ClosestPortfolioAfterDate(dates, t.transactionDate);
      if n.Some? {
        var c := PositionAt(pos[n.value], dates[n.value], t.isin);
        OverwriteFromFrame(dates, pos, t.transactionDate, c.isin, Round2(c.investment + t.Value()), Round2(c.realized + 0.0));
      }
    case SELL =>
      var n := ClosestPortfolioBeforeDate(dates, t.transactionDate);
      if n.Some? {
        var c := PositionAt(pos[n.value], dates[n.value], t.isin);
        if c.nrStocks > 0.0 {
          var bp := c.BuyPrice();
          OverwriteFromFrame(dates, pos, t.transactionDate, c.isin, Round2(c.investment + Round2(t.SaleInvestment(bp))),
                             Round2(c.realized + Round2(t.SaleRealization(bp))));
        }
      }
    case DIVIDEND =>
      var n := ClosestPortfolioBeforeDate(dates, t.transactionDate);
      if n.Some? {
        var c := PositionAt(pos[n.value], dates[n.value], t.isin);
        OverwriteFromFrame(dates, pos, t.transactionDate, c.isin, c.investment, Round2(c.realized + Round2(t.Value())));
      }
  }

  /** Portfolios that were date consistent stay so, since a missing ISIN is added dated with its portfolio. */
  lemma {:induction false} ConsistencyPreserved(ts: seq<ShareTransaction>, dates: seq<Date>, pos: seq<map<string, SharePosition>>)
    requires |dates| == |pos| && Consistent(dates, pos)
    ensures Consistent(dates, ApplyAll(ts, dates, pos))
    decreases |ts|
  {
    if ts != [] {
      var next := TransactionResult(ts[0], dates, pos);
      assert Consistent(dates, next);
      ConsistencyPreserved(ts[1..], dates, next);
    }
  }

  /** Applying two lists of transactions one after the other is applying their concatenation. */
  lemma {:induction false} ApplyAllAppend(ts: seq<ShareTransaction>, us: seq<ShareTransaction>, dates: seq<Date>,
                                          pos: seq<map<string, SharePosition>>)
    requires |dates| == |pos|
    ensures ApplyAll(ts + us, dates, pos) == ApplyAll(us, dates, ApplyAll(ts, dates, pos))
    decreases |ts|
  {
    if ts == [] {
      assert ts + us == us;
    } else {
      assert (ts + us)[0] == ts[0] && (ts + us)[1..] == ts[1..] + us;
      ApplyAllAppend(ts[1..], us, dates, TransactionResult(ts[0], dates, pos));
    }
  }

  /** After a transaction every portfolio from its date on holds the same investment and realized return for the written ISIN. */
  lemma OverwriteIsUniform(dates: seq<Date>, pos: seq<map<string, SharePosition>>, date: Date, isin: string,
                           newInvestment: real, newRealization: real, j: nat, k: nat)
    requires |dates| == |pos| && j < |pos| && k < |pos| && dates[j] >= date && dates[k] >= date
    ensures var r := OverwriteFrom(dates, pos, date, isin, newInvestment, newRealization);
      isin in r[j] && isin in r[k] && r[j][isin].investment == r[k][isin].investment == newInvestment
      && r[j][isin].realized == r[k][isin].realized == newRealization
  {
  }

  /** A sale dated on or before every portfolio, or of an ISIN without stocks in the last portfolio before it, changes nothing. */
  lemma SellNoOps(t: ShareTransaction, dates: seq<Date>, pos: seq<map<string, SharePosition>>)
    requires |dates| == |pos|
    ensures (forall k :: 0 <= k < |dates| ==> dates[k] >= t.transactionDate) ==> SellResult(t, dates, pos) == pos
    ensures forall n :: ClosestPortfolioBeforeDate(dates, t.transactionDate) == Some(n) && t.isin !in pos[n] ==>
      SellResult(t, dates, pos) == pos
  {
  }

  /** A purchase dated after every portfolio changes nothing. */
  lemma LateBuyIsNoOp(t: ShareTransaction, dates: seq<Date>, pos: seq<map<string, SharePosition>>)
    requires |dates| == |pos| && forall k :: 0 <= k < |dates| ==> dates[k] < t.transactionDate
    ensures BuyResult(t, dates, pos) == pos
  {
  }

  lemma SaleOfAllInvestment(t: ShareTransaction, c: SharePosition)
    requires c.nrStocks > 0.0 && t.nrStocks == c.nrStocks && IsCents(c.investment)
    ensures Round2(c.investment + Round2(t.SaleInvestment(c.BuyPrice()))) == 0.0
  {
    SaleAtBuyPrice(t, c);
    CentsNeg(c.investment);
    Round2OfCents(-c.investment);
    assert c.investment + Round2(t.SaleInvestment(c.BuyPrice())) == 0.0;
    Round2OfCents(0.0);
  }

  /** Selling every share at the buy price takes out exactly the investment. */
  lemma SaleAtBuyPrice(t: ShareTransaction, c: SharePosition)
    requires c.nrStocks > 0.0 && t.nrStocks == c.nrStocks
    ensures t.SaleInvestment(c.BuyPrice()) == -c.investment
  {
    var bp := c.BuyPrice();
    assert bp * c.nrStocks == c.investment;
  }

  /** A sale with stocks in the last portfolio before it writes that position's ISIN at the rounded sale values. */
  lemma SellWrites(t: ShareTransaction, dates: seq<Date>, pos: seq<map<string, SharePosition>>)
    requires |dates| == |pos|
    requires ClosestPortfolioBeforeDate(dates, t.transactionDate).Some?
    requires var n := ClosestPortfolioBeforeDate(dates, t.transactionDate).value;
      PositionAt(pos[n], dates[n], t.isin).nrStocks > 0.0
    ensures var n := ClosestPortfolioBeforeDate(dates, t.transactionDate).value;
      var c := PositionAt(pos[n], dates[n], t.isin);
      SellResult(t, dates, pos) == OverwriteFrom(dates, pos, t.transactionDate, c.isin,
        Round2(c.investment + Round2(t.SaleInvestment(c.BuyPrice()))), Round2(c.realized + Round2(t.SaleRealization(c.BuyPrice()))))
  {
    var n := ClosestPortfolioBeforeDate(dates, t.transactionDate).value;
    var c := PositionAt(pos[n], dates[n], t.isin);
    var investment := Round2(t.SaleInvestment(c.BuyPrice()));
    var realization := Round2(t.SaleRealization(c.BuyPrice()));
    SaleResultOfValues(t, dates, pos, n, c, investment, realization);
    assert SellResult(t, dates, pos) == OverwriteFrom(dates, pos, t.transactionDate, c.isin,
      Round2(c.investment + investment), Round2(c.realized + realization));
  }

  /** A sale of every share held in the last portfolio before it leaves no investment from its date on. */
  lemma SellingEverythingClearsInvestment(t: ShareTransaction, dates: seq<Date>, pos: seq<map<string, SharePosition>>, n: nat)
    requires |dates| == |pos|
    requires ClosestPortfolioBeforeDate(dates, t.transactionDate) == Some(n)
    requires t.isin in pos[n] && pos[n][t.isin].isin == t.isin
    requires pos[n][t.isin].nrStocks > 0.0 && t.nrStocks == pos[n][t.isin].nrStocks && IsCents(pos[n][t.isin].investment)
    ensures forall k :: 0 <= k < |pos| && dates[k] >= t.transactionDate ==>
      t.isin in SellResult(t, dates, pos)[k] && SellResult(t, dates, pos)[k][t.isin].investment == 0.0
  {
    var c := PositionAt(pos[n], dates[n], t.isin);
    assert c == pos[n][t.isin] && c.isin == t.isin;
    SaleOfAllInvestment(t, c);
    SaleReads(t, dates, pos, n, c);
    SaleOfAllInvestment(t, c);
    SaleOverwriteInvestmentFrom(t, dates, pos, c);
  }

  /** From the sale's date on, every portfolio holds the position's ISIN at the investment the sale leaves. */
  lemma SaleOverwriteInvestmentFrom(t: ShareTransaction, dates: seq<Date>, pos: seq<map<string, SharePosition>>, c: SharePosition)
    requires |dates| == |pos| && c.nrStocks > 0.0
    ensures forall k :: 0 <= k < |pos| && dates[k] >= t.transactionDate ==>
      c.isin in SaleOverwrite(t, dates, pos, c)[k] &&
      SaleOverwrite(t, dates, pos, c)[k][c.isin].investment == Round2(c.investment + Round2(t.SaleInvestment(c.BuyPrice())))
  {
    var investment := Round2(t.SaleInvestment(c.BuyPrice()));
    var realization := Round2(t.SaleRealization(c.BuyPrice()));
    SaleOverwriteOfValues(t, dates, pos, c, investment, realization);
    OverwrittenFromDate(SaleOverwrite(t, dates, pos, c), dates, pos, t.transactionDate, c.isin,
                        Round2(c.investment + investment), Round2(c.realized + realization));
  }

  /** Every portfolio from the date on holds the overwritten ISIN with the new investment. */
  lemma OverwrittenFromDate(r: seq<map<string, SharePosition>>, dates: seq<Date>, pos: seq<map<string, SharePosition>>,
                            date: Date, isin: string, newInvestment: real, newRealization: real)
    requires |dates| == |pos| && r == OverwriteFrom(dates, pos, date, isin, newInvestment, newRealization)
    ensures forall k :: 0 <= k < |pos| && dates[k] >= date ==> isin in r[k] && r[k][isin].investment == newInvestment
  {
  }

  // ---- the source's transaction tests, on the portfolios of three weeks back and of today ----

  function Position1(d: Date): SharePosition
  {
    SharePosition(d, 1190.72, "iShares MSCI World EUR Hedged UCITS ETF", "IE00B441G979", "EUR", 1030.00, 16.0, 74.42, -10.50)
  }

  function Position2(d: Date): SharePosition
  {
    SharePosition(d, 1060.00, "Vanguard FTSE All-World UCITS ETF USD Dis", "IE00B3RBWM25", "EUR", 970.00, 10.0, 106.00, 23.66)
  }

  function Position3(d: Date): SharePosition
  {
    SharePosition(d, 1035.0, "VanEck Sustainable World Equal Weight UCITS ETF", "NL0010408704", "EUR", 1000.08, 36.0, 28.75, 86.50)
  }

  function Position4(d: Date): SharePosition
  {
    SharePosition(d, 1250.76, "Vanguard FTSE All-World UCITS ETF USD Dis", "IE00B3RBWM25", "EUR", 970.00, 12.0, 104.23, 23.66)
  }

  /** `(example_portfolio_2, example_portfolio_1)`: their dates and their positions. */
  function FixtureDates(today: Date): seq<Date>
  {
    [today - 21, today]
  }

  function FixturePositions(today: Date): seq<map<string, SharePosition>>
  {
    [map["NL0010408704" := Position3(today - 21), "IE00B3RBWM25" := Position4(today - 21)],
     map["IE00B441G979" := Position1(today), "IE00B3RBWM25" := Position2(today)]]
  }

  /** The test's transactions, in the older engine's own record. */
  function FixtureSale1(today: Date): ShareTransaction
  {
    ShareTransaction(SELL, "NL0010408704", "EUR", 36.0, 28.79, today - 9)
  }

  function FixtureSale2(today: Date): ShareTransaction
  {
    ShareTransaction(SELL, "IE00B3RBWM25", "EUR", 2.0, 105.25, today - 12)
  }

  function FixturePurchase(today: Date): ShareTransaction
  {
    ShareTransaction(BUY, "IE00B441G979", "EUR", 16.0, 64.375, today - 7)
  }

  /** Two portfolios whose older one is still the fixture's: what each step of the test leaves. */
  ghost predicate LikeFixture(today: Date, pos: seq<map<string, SharePosition>>)
  {
    |pos| == 2 && pos[0] == FixturePositions(today)[0]
  }

  /** Nothing but the given ISIN of today's portfolio changed. */
  ghost predicate TodayOnlyChanged(pos: seq<map<string, SharePosition>>, r: seq<map<string, SharePosition>>, isin: string)
    requires |pos| == 2 && |r| == 2
  {
    forall i :: i != isin ==> (i in r[1] <==> i in pos[1]) && (i in pos[1] ==> r[1][i] == pos[1][i])
  }

  /** The first sale: all 36 NL0010408704 shares at 28.79, nine days back, priced from the older portfolio. */
  lemma SellAllStep(today: Date, pos: seq<map<string, SharePosition>>)
    requires LikeFixture(today, pos)
    ensures var r := TransactionResult(FixtureSale1(today), FixtureDates(today), pos);
      && LikeFixture(today, r) && TodayOnlyChanged(pos, r, "NL0010408704")
      && "NL0010408704" in r[1] && r[1]["NL0010408704"].investment == 0.0 && r[1]["NL0010408704"].realized == 122.86
  {
    var t := FixtureSale1(today);
    var dates := FixtureDates(today);
    assert dates[1..] == [today] && dates[1..][1..] == [];
    assert ClosestPortfolioBeforeDate(dates, t.transactionDate) == Some(0);
    var c := PositionAt(pos[0], dates[0], t.isin);
    assert c == Position3(today - 21);
    assert c.BuyPrice() == 27.78;
    assert t.SaleRealization(27.78) == 36.36;
    Round2Nearest(36.36, 3636);
    Round2Nearest(-1000.08, -100008);
    Round2Nearest(0.0, 0);
    Round2Nearest(86.50 + 36.36, 12286);
    OverwriteFromFrame(dates, pos, t.transactionDate, c.isin, 0.0, 122.86);
  }

  /** The second sale: 2 of the 12 IE00B3RBWM25 shares at 105.25, twelve days back. */
  lemma SellPartStep(today: Date, pos: seq<map<string, SharePosition>>)
    requires LikeFixture(today, pos)
    ensures var r := TransactionResult(FixtureSale2(today), FixtureDates(today), pos);
      && LikeFixture(today, r) && TodayOnlyChanged(pos, r, "IE00B3RBWM25")
      && "IE00B3RBWM25" in r[1] && r[1]["IE00B3RBWM25"].investment == 808.33 && r[1]["IE00B3RBWM25"].realized == 72.49
  {
    var t := FixtureSale2(today);
    var dates := FixtureDates(today);
    assert dates[1..] == [today] && dates[1..][1..] == [];
    assert ClosestPortfolioBeforeDate(dates, t.transactionDate) == Some(0);
    var c := PositionAt(pos[0], dates[0], t.isin);
    assert c == Position4(today - 21);
    assert c.BuyPrice() == 970.00 / 12.0;
    Round2Nearest(t.SaleRealization(970.00 / 12.0), 4883);
    Round2Nearest(t.SaleInvestment(970.00 / 12.0), -16167);
    Round2Nearest(970.00 - 1.6167 * 100.0, 80833);
    Round2Nearest(23.66 + 48.83, 7249);
    OverwriteFromFrame(dates, pos, t.transactionDate, c.isin, 808.33, 72.49);
  }

  /** The purchase: 16 IE00B441G979 shares at 64.375, a week back, added to today's position. */
  lemma PurchaseStep(today: Date, pos: seq<map<string, SharePosition>>)
    requires LikeFixture(today, pos) && "IE00B441G979" in pos[1] && pos[1]["IE00B441G979"] == Position1(today)
    ensures var r := TransactionResult(FixturePurchase(today), FixtureDates(today), pos);
      && LikeFixture(today, r) && TodayOnlyChanged(pos, r, "IE00B441G979")
      && "IE00B441G979" in r[1] && r[1]["IE00B441G979"].investment == 2060.0 && r[1]["IE00B441G979"].realized == -10.50
  {
    var t := FixturePurchase(today);
    var dates := FixtureDates(today);
    assert dates[1..] == [today] && dates[1..][1..] == [];
    assert ClosestPortfolioAfterDate(dates, t.transactionDate) == Some(1);
    assert t.Value() == 1030.0;
    Round2Nearest(1030.00 + 1030.0, 206000);
    Round2Nearest(-10.50 + 0.0, -1050);
    OverwriteFromFrame(dates, pos, t.transactionDate, "IE00B441G979", 2060.0, -10.50);
  }

  /** Three transactions applied in order are the three results taken one after the other. */
  lemma ApplyThree(a: ShareTransaction, b: ShareTransaction, c: ShareTransaction, dates: seq<Date>,
                   pos: seq<map<string, SharePosition>>)
    requires |dates| == |pos|
    ensures ApplyAll([a, b, c], dates, pos)
      == TransactionResult(c, dates, TransactionResult(b, dates, TransactionResult(a, dates, pos)))
  {
    var p1 := TransactionResult(a, dates, pos);
    var p2 := TransactionResult(b, dates, p1);
    assert [a, b, c][1..] == [b, c] && [b, c][1..] == [c] && [c][1..] == [];
    calc {
      ApplyAll([a, b, c], dates, pos);
      ApplyAll([b, c], dates, p1);
      ApplyAll([c], dates, p2);
      ApplyAll([], dates, TransactionResult(c, dates, p2));
    }
  }

  /** The three steps of the sale-and-purchase test, from any portfolios that start like the fixture's. */
  lemma SellAndBuySteps(today: Date, pos: seq<map<string, SharePosition>>)
    requires LikeFixture(today, pos) && "IE00B441G979" in pos[1] && pos[1]["IE00B441G979"] == Position1(today)
    ensures
      var r := ApplyAll([FixtureSale1(today), FixtureSale2(today), FixturePurchase(today)], FixtureDates(today), pos);
      && "NL0010408704" in r[1] && r[1]["NL0010408704"].investment == 0.0 && r[1]["NL0010408704"].realized == 122.86
      && "IE00B441G979" in r[1] && r[1]["IE00B441G979"].investment == 2060.0
      && "IE00B3RBWM25" in r[1] && r[1]["IE00B3RBWM25"].investment == 808.33 && r[1]["IE00B3RBWM25"].realized == 72.49
  {
    var s1, s2, b := FixtureSale1(today), FixtureSale2(today), FixturePurchase(today);
    var dates := FixtureDates(today);
    var p1 := TransactionResult(s1, dates, pos);
    SellAllStep(today, pos);
    var p2 := TransactionResult(s2, dates, p1);
    SellPartStep(today, p1);
    PurchaseStep(today, p2);
    ApplyThree(s1, s2, b, dates, pos);
  }

  /**
   * The sale-and-purchase test: both sales and the purchase applied in the
   * order of the tuple to `(example_portfolio_2, example_portfolio_1)`, read
   * back from the newer portfolio.
   */
  lemma SellAndBuyOracle(today: Date)
    ensures
      var r := ApplyAll([FixtureSale1(today), FixtureSale2(today), FixturePurchase(today)], FixtureDates(today), FixturePositions(today));
      && PositionAt(r[1], today, "NL0010408704").investment == 0.0
      && PositionAt(r[1], today, "NL0010408704").realized == 122.86
      && PositionAt(r[1], today, "IE00B441G979").investment == 2060.0
      && PositionAt(r[1], today, "IE00B3RBWM25").investment == 808.33
      && PositionAt(r[1], today, "IE00B3RBWM25").realized == 72.49
  {
    SellAndBuySteps(today, FixturePositions(today));
  }

  /** The dividend: 13.13 on IE00B3RBWM25 a week back, on top of the older portfolio's realized return. */
  lemma DividendOracle(today: Date)
    ensures var t := ShareTransaction(DIVIDEND, "IE00B3RBWM25", "EUR", 1.0, 13.13, today - 7);
      var r := DividendResult(t, FixtureDates(today), FixturePositions(today));
      "IE00B3RBWM25" in r[1] && r[1]["IE00B3RBWM25"].investment == 970.0 && r[1]["IE00B3RBWM25"].realized == 36.79
  {
    var t := ShareTransaction(DIVIDEND, "IE00B3RBWM25", "EUR", 1.0, 13.13, today - 7);
    var dates, pos := FixtureDates(today), FixturePositions(today);
    assert dates[1..] == [today] && dates[1..][1..] == [];
    assert ClosestPortfolioBeforeDate(dates, t.transactionDate) == Some(0);
    assert t.Value() == 13.13;
    Round2Nearest(13.13, 1313);
    Round2Nearest(23.66 + 13.13, 3679);
  }

  /**
   * A purchase followed, in the same gap between two portfolios, by a dividend
   * on the same ISIN: the dividend starts again from the older portfolio,
   * which does not hold the ISIN, and today's investment ends at zero.
   */
  lemma SameGapOverwriteLosesPurchase(today: Date)
    ensures
      var buy := ShareTransaction(BUY, "IE00B441G979", "EUR", 16.0, 64.375, today - 7);
      var dividend := ShareTransaction(DIVIDEND, "IE00B441G979", "EUR", 1.0, 5.0, today - 5);
      var r := ApplyAll([buy, dividend], FixtureDates(today), FixturePositions(today));
      "IE00B441G979" in r[1] && r[1]["IE00B441G979"].investment == 0.0 && r[1]["IE00B441G979"].realized == 5.0
  {
    var buy := ShareTransaction(BUY, "IE00B441G979", "EUR", 16.0, 64.375, today - 7);
    var dividend := ShareTransaction(DIVIDEND, "IE00B441G979", "EUR", 1.0, 5.0, today - 5);
    var dates, pos := FixtureDates(today), FixturePositions(today);
    assert dates[1..] == [today] && dates[1..][1..] == [];
    var afterBuy := TransactionResult(buy, dates, pos);
    assert afterBuy[0] == pos[0];
    assert ClosestPortfolioBeforeDate(dates, dividend.transactionDate) == Some(0);
    assert "IE00B441G979" !in afterBuy[0];
    assert PositionAt(afterBuy[0], dates[0], dividend.isin) == EmptyPosition(today - 21, "IE00B441G979");
    assert dividend.Value() == 5.0;
    Round2Nearest(5.0, 500);
    Round2Nearest(0.0 + 5.0, 500);
    var afterDividend := OverwriteFrom(dates, afterBuy, dividend.transactionDate, "IE00B441G979", 0.0, 5.0);
    assert TransactionResult(dividend, dates, afterBuy) == afterDividend;
    assert [buy, dividend][1..] == [dividend] && [dividend][1..] == [];
    assert ApplyAll([buy, dividend], dates, pos) == ApplyAll([dividend], dates, afterBuy);
    assert ApplyAll([dividend], dates, afterBuy) == afterDividend;
  }
}
