/**
 * The current reconciliation engine, src/stockwatch/entities/shares.py: dated
 * share positions, portfolios that aggregate them, and the application of
 * share transactions to every later snapshot of the positions.
 */
module Shares {
  import opened Wrappers
  import opened Decimal
  import opened Calendar
  import opened Text
  import opened Sorting
  import opened Money
  import opened Transactions

  const UNKNOWN_POSITION_NAME: string := "Name Unknown"

  /**
   * A position at a date. `unrealized` and `total_return`, which the source
   * stores once at construction, are the functions `Unrealized` and `TotalReturn`.
   */
  datatype SharePosition = SharePosition(
    positionDate: Date,
    value: Amount,
    isin: string,
    name: string,
    investment: Amount,
    nrStocks: real,
    price: Amount,
    realized: Amount)
  {
    /** Construction subtracts and adds these amounts, which asserts one currency. */
    predicate Valid()
    {
      value.curr == investment.curr && realized.curr == value.curr
    }

    function Unrealized(): (r: Amount)
      requires Valid()
      ensures r.curr == value.curr && r.valueExact == value.valueExact - investment.valueExact
    {
      value.Sub(investment)
    }

    function TotalReturn(): (r: Amount)
      requires Valid()
      ensures r.curr == value.curr && r.valueExact == realized.valueExact + Unrealized().valueExact
    {
      realized.Add(Unrealized())
    }

    /** `replace(self, investment=..., realized=...)`, which recomputes the derived fields. */
    function WithInvestmentRealized(newInvestment: Amount, newRealized: Amount): (r: SharePosition)
      ensures r.investment == newInvestment && r.realized == newRealized
      ensures r.positionDate == positionDate && r.value == value && r.isin == isin && r.name == name
      ensures r.nrStocks == nrStocks && r.price == price
    {
      this.(investment := newInvestment, realized := newRealized)
    }
  }

  /** `SharePosition.empty_position`. */
  function EmptyPosition(positionDate: Date, isin: string, name: string := UNKNOWN_POSITION_NAME,
                         realized: Amount := Amount(0.0)): (p: SharePosition)
    ensures p.positionDate == positionDate && p.isin == isin && p.name == name && p.realized == realized
    ensures p.value.valueExact == 0.0 && p.investment.valueExact == 0.0
    ensures p.value.curr == "EUR" && p.investment.curr == "EUR"
    ensures p.nrStocks == 0.0 && p.price == Amount(1.0)
  {
    SharePosition(positionDate, Amount(0.0), isin, name, Amount(0.0), 0.0, Amount(1.0), realized)
  }

  /** Every position satisfies unrealized == value - investment and total_return == realized + unrealized. */
  lemma PositionReturns(p: SharePosition)
    requires p.Valid()
    ensures p.Unrealized().valueExact == p.value.valueExact - p.investment.valueExact
    ensures p.TotalReturn().valueExact == p.realized.valueExact + p.value.valueExact - p.investment.valueExact
    ensures p.TotalReturn().curr == p.value.curr
  {
  }

  /** An empty position is valid with no return but what it realized. */
  lemma EmptyPositionReturns(d: Date, isin: string, name: string, realized: Amount)
    requires realized.curr == "EUR"
    ensures EmptyPosition(d, isin, name, realized).Valid()
    ensures EmptyPosition(d, isin, name, realized).Unrealized().Value() == 0.0
    ensures EmptyPosition(d, isin, name, realized).TotalReturn().valueExact == realized.valueExact
    ensures EmptyPosition(d, isin).name == UNKNOWN_POSITION_NAME && EmptyPosition(d, isin).realized == Amount(0.0)
  {
    assert EmptyPosition(d, isin, name, realized).Unrealized().valueExact == 0.0;
    RoundHalfEvenOfInt(0);
  }

  /** The position returns of the source's tests. */
  lemma PositionReturnsOracle(d: Date)
    ensures
      var p := SharePosition(d, Amount(1250.76), "IE00B3RBWM25", "Vanguard FTSE All-World UCITS ETF USD Dis",
                             Amount(970.00), 12.0, Amount(106.00), Amount(23.66));
      p.Unrealized().Value() == 280.76 && p.TotalReturn().Value() == 304.42
  {
  }

  // ---- SharePortfolio ----

  /** Positions whose amounts are all in EUR, so that summing from `Amount(0.0)` does not assert. */
  predicate AllEur(ps: seq<SharePosition>)
  {
    forall k :: 0 <= k < |ps| ==> PositionEur(ps[k])
  }

  predicate PositionEur(p: SharePosition)
  {
    p.value.curr == "EUR" && p.investment.curr == "EUR" && p.realized.curr == "EUR"
  }

  /** The aggregated attributes of a portfolio. */
  datatype Attribute = ValueAttr | InvestmentAttr | RealizedAttr | UnrealizedAttr | TotalReturnAttr

  function AttributeOf(p: SharePosition, a: Attribute): Amount
    requires p.Valid()
  {
    match a
    case ValueAttr => p.value
    case InvestmentAttr => p.investment
    case RealizedAttr => p.realized
    case UnrealizedAttr => p.Unrealized()
    case TotalReturnAttr => p.TotalReturn()
  }

  /** `sum(getattr(p, a) for p in ps, Amount(0.0))`, added from left to right. */
  function Sum(ps: seq<SharePosition>, a: Attribute): (r: Amount)
    requires AllEur(ps)
    ensures r.curr == "EUR"
  {
    if ps == [] then Amount(0.0)
    else
      assert AllEur(ps[..|ps| - 1]);
      Sum(ps[..|ps| - 1], a).Add(AttributeOf(ps[|ps| - 1], a))
  }

  /**
   * A portfolio: its positions and its date, which is the first position's
   * date, or today's for a portfolio without positions.
   */
  datatype SharePortfolio = SharePortfolio(portfolioDate: Date, sharePositions: seq<SharePosition>)
  {
    /** `is_date_consistent`; on a consistent portfolio `get_position` answers with the portfolio's date. */
    function IsDateConsistent(): (r: bool)
      ensures r ==> forall isin :: GetPosition(isin).positionDate == portfolioDate
    {
      forall k :: 0 <= k < |sharePositions| ==> sharePositions[k].positionDate == portfolioDate
    }

    function Value(): Amount requires AllEur(sharePositions) { Sum(sharePositions, ValueAttr) }
    function Investment(): Amount requires AllEur(sharePositions) { Sum(sharePositions, InvestmentAttr) }
    function Realized(): Amount requires AllEur(sharePositions) { Sum(sharePositions, RealizedAttr) }
    function Unrealized(): Amount requires AllEur(sharePositions) { Sum(sharePositions, UnrealizedAttr) }
    function TotalReturn(): Amount requires AllEur(sharePositions) { Sum(sharePositions, TotalReturnAttr) }

    /** `contains`: some position has the ISIN. */
    function Contains(isin: string): (r: bool)
      ensures r <==> exists k :: 0 <= k < |sharePositions| && sharePositions[k].isin == isin
    {
      isin in AllIsins()
    }

    /** `all_isins`: the ISINs of the positions, in order. */
    function AllIsins(): (r: seq<string>)
      ensures |r| == |sharePositions|
      ensures forall k :: 0 <= k < |r| ==> r[k] == sharePositions[k].isin
    {
      seq(|sharePositions|, k requires 0 <= k < |sharePositions| => sharePositions[k].isin)
    }

    /** `get_position`: the first position with the ISIN, else an empty one dated the portfolio's date. */
    function GetPosition(isin: string): (p: SharePosition)
      ensures Contains(isin) ==> p.isin == isin && p in sharePositions
      ensures Contains(isin) ==>
        exists k :: 0 <= k < |sharePositions| && sharePositions[k] == p && (forall j :: 0 <= j < k ==> sharePositions[j].isin != isin)
      ensures !Contains(isin) ==> p == EmptyPosition(portfolioDate, isin)
    {
      match FirstWithIsin(sharePositions, isin)
      case Some(k) => sharePositions[k]
      case None => EmptyPosition(portfolioDate, isin)
    }
  }

  function FirstWithIsin(ps: seq<SharePosition>, isin: string): (r: Option<nat>)
    ensures r.None? <==> forall k :: 0 <= k < |ps| ==> ps[k].isin != isin
    ensures r.Some? ==> r.value < |ps| && ps[r.value].isin == isin
                        && forall j :: 0 <= j < r.value ==> ps[j].isin != isin
  {
    if ps == [] then None
    else if ps[0].isin == isin then Some(0)
    else match FirstWithIsin(ps[1..], isin)
      case None => None
      case Some(k) => Some(k + 1)
  }

  /**
   * The constructor: the date is taken from the first position, today's without
   * one; the source asserts that every position has that date, and its sums
   * start from `Amount(0.0)`, which asserts EUR amounts.
   */
  function NewSharePortfolio(positions: seq<SharePosition>, today: Date): (p: SharePortfolio)
    requires AllEur(positions)
    requires forall k :: 0 <= k < |positions| ==> positions[k].positionDate == positions[0].positionDate
    ensures p.sharePositions == positions && p.IsDateConsistent()
    ensures positions != [] ==> p.portfolioDate == positions[0].positionDate
    ensures positions == [] ==> p.portfolioDate == today
  {
    SharePortfolio(if positions == [] then today else positions[0].positionDate, positions)
  }

  /** Each aggregate sum keeps the position identities: unrealized == value - investment, total == realized + unrealized. */
  lemma {:induction false} AggregateInvariant(ps: seq<SharePosition>)
    requires AllEur(ps)
    ensures Sum(ps, UnrealizedAttr).valueExact == Sum(ps, ValueAttr).valueExact - Sum(ps, InvestmentAttr).valueExact
    ensures Sum(ps, TotalReturnAttr).valueExact == Sum(ps, RealizedAttr).valueExact + Sum(ps, UnrealizedAttr).valueExact
  {
    if ps != [] {
      assert AllEur(ps[..|ps| - 1]);
      AggregateInvariant(ps[..|ps| - 1]);
    }
  }

  /** Each aggregate is the sum of that attribute over the positions: appending a position adds it. */
  lemma SumAppend(ps: seq<SharePosition>, p: SharePosition, a: Attribute)
    requires AllEur(ps + [p])
    ensures AllEur(ps)
    ensures Sum(ps + [p], a).valueExact == Sum(ps, a).valueExact + AttributeOf(p, a).valueExact
  {
    assert (ps + [p])[..|ps|] == ps;
    assert AllEur(ps) by {
      forall k | 0 <= k < |ps| ensures ps[k] == (ps + [p])[k] {}
    }
  }

  /** The portfolio totals of the source's tests, for the snapshot of three weeks back. */
  lemma PortfolioTotalsOracle(d: Date)
    ensures
      var ps := [SharePosition(d, Amount(0.0), "IE00B441G979", "iShares MSCI World EUR Hedged UCITS ETF",
                               Amount(0.0), 0.0, Amount(1.0), Amount(-10.50)),
                 SharePosition(d, Amount(1035.0), "NL0010408704", "VanEck Sustainable World Equal Weight UCITS ETF",
                               Amount(1000.08), 36.0, Amount(28.75), Amount(86.50)),
                 SharePosition(d, Amount(1250.76), "IE00B3RBWM25", "Vanguard FTSE All-World UCITS ETF USD Dis",
                               Amount(970.00), 12.0, Amount(106.00), Amount(23.66))];
      && Sum(ps, ValueAttr).Value() == 2285.76
      && Sum(ps, InvestmentAttr).Value() == 1970.08
      && Sum(ps, RealizedAttr).Value() == 99.66
      && Sum(ps, UnrealizedAttr).Value() == 315.68
      && Sum(ps, TotalReturnAttr).Value() == 415.34
  {
    var ps := [SharePosition(d, Amount(0.0), "IE00B441G979", "iShares MSCI World EUR Hedged UCITS ETF",
                             Amount(0.0), 0.0, Amount(1.0), Amount(-10.50)),
               SharePosition(d, Amount(1035.0), "NL0010408704", "VanEck Sustainable World Equal Weight UCITS ETF",
                             Amount(1000.08), 36.0, Amount(28.75), Amount(86.50)),
               SharePosition(d, Amount(1250.76), "IE00B3RBWM25", "Vanguard FTSE All-World UCITS ETF USD Dis",
                             Amount(970.00), 12.0, Amount(106.00), Amount(23.66))];
    Sum3(ps[0], ps[1], ps[2], ValueAttr);
    Sum3(ps[0], ps[1], ps[2], InvestmentAttr);
    Sum3(ps[0], ps[1], ps[2], RealizedAttr);
    Sum3(ps[0], ps[1], ps[2], UnrealizedAttr);
    Sum3(ps[0], ps[1], ps[2], TotalReturnAttr);
  }

  lemma Sum3(p0: SharePosition, p1: SharePosition, p2: SharePosition, a: Attribute)
    requires PositionEur(p0) && PositionEur(p1) && PositionEur(p2)
    ensures AllEur([p0, p1, p2])
    ensures Sum([p0, p1, p2], a).valueExact == AttributeOf(p0, a).valueExact + AttributeOf(p1, a).valueExact + AttributeOf(p2, a).valueExact
  {
    assert [p0, p1, p2][..2] == [p0, p1];
    assert [p0, p1][..1] == [p0];
    assert [p0][..0] == [];
    assert Sum([p0], a).valueExact == AttributeOf(p0, a).valueExact;
    assert Sum([p0, p1], a).valueExact == AttributeOf(p0, a).valueExact + AttributeOf(p1, a).valueExact;
  }

  /** The lookups of the source's tests: a missing ISIN gives an empty, unnamed position. */
  lemma LookupOracle(p: SharePortfolio)
    requires p.sharePositions != [] && p.sharePositions[0].isin == "IE00B441G979"
    requires forall k :: 0 <= k < |p.sharePositions| ==> p.sharePositions[k].isin != "IE00B02KXL92"
    ensures !p.Contains("IE00B02KXL92")
    ensures p.GetPosition("IE00B02KXL92").name == UNKNOWN_POSITION_NAME
    ensures p.GetPosition("IE00B02KXL92").realized.Value() == 0.0
    ensures p.GetPosition("IE00B441G979").isin == "IE00B441G979"
  {
    assert p.AllIsins()[0] == "IE00B441G979";
    RoundHalfEvenOfInt(0);
  }

  // ---- to_portfolios ----

  /** The snapshots: for each date, the positions by ISIN (`PortfoliosDictionary`). */
  type Snapshots = map<Date, map<string, SharePosition>>

  predicate EurSnapshots(m: Snapshots)
  {
    forall d, i :: d in m && i in m[d] ==> PositionEur(m[d][i])
  }

  /** Positions carrying their map date and ISIN, amounts in EUR: what the portfolio constructor asserts. */
  predicate Positioned(m: Snapshots)
  {
    forall d :: d in m ==>
      forall i :: i in m[d] ==> m[d][i].positionDate == d && m[d][i].isin == i && PositionEur(m[d][i])
  }

  /**
   * What `to_portfolios` is modelled on: positioned snapshots and no empty
   * date, which would be dated today and sorted by that date.
   */
  predicate WellFormed(m: Snapshots)
  {
    Positioned(m) && forall d :: d in m ==> m[d] != map[]
  }

  lemma {:induction false} MinExists(s: set<Date>)
    requires s != {}
    ensures exists m :: m in s && forall e :: e in s ==> m <= e
    decreases |s|
  {
    NoDatesMeansEmpty(s);
    var x :| x in s;
    var rest := s - {x};
    if rest == {} {
      forall e | e in s ensures x <= e {
        assert e == x || e in rest;
      }
    } else {
      MinExists(rest);
      var m :| m in rest && forall e :: e in rest ==> m <= e;
      var lo := if x < m then x else m;
      forall e | e in s ensures lo <= e {
        assert e == x || e in rest;
      }
      assert lo in s;
    }
  }

  lemma {:induction false} MaxExists(s: set<Date>)
    requires s != {}
    ensures exists m :: m in s && forall e :: e in s ==> e <= m
    decreases |s|
  {
    NoDatesMeansEmpty(s);
    var x :| x in s;
    var rest := s - {x};
    if rest == {} {
      forall e | e in s ensures e <= x {
        assert e == x || e in rest;
      }
    } else {
      MaxExists(rest);
      var m :| m in rest && forall e :: e in rest ==> e <= m;
      var hi := if m < x then x else m;
      forall e | e in s ensures e <= hi {
        assert e == x || e in rest;
      }
      assert hi in s;
    }
  }

  /** The earliest of a non-empty set of dates. */
  function MinOf(s: set<Date>): (m: Date)
    requires s != {}
    ensures m in s && forall e :: e in s ==> m <= e
  {
    MinExists(s);
    var m :| m in s && forall e :: e in s ==> m <= e;
    m
  }

  /** `sorted(portfolios.keys())`: the dates, strictly increasing. */
  function SortedDates(s: set<Date>): (r: seq<Date>)
    ensures |r| == |s|
    ensures forall d :: d in s <==> d in r
    ensures forall k :: 0 <= k < |r| ==> r[k] in s
    ensures forall i, j :: 0 <= i < j < |r| ==> r[i] < r[j]
    decreases |s|
  {
    if s == {} then []
    else
      var m := MinOf(s);
      var rest := SortedDates(s - {m});
      SortedDatesCons(s, m, rest);
      [m] + rest
  }

  /** Putting the least date in front of the sorted others sorts them all. */
  lemma SortedDatesCons(s: set<Date>, m: Date, rest: seq<Date>)
    requires m in s && forall e :: e in s ==> m <= e
    requires |rest| == |s - {m}|
    requires forall d :: d in s - {m} <==> d in rest
    requires forall k :: 0 <= k < |rest| ==> rest[k] in s - {m}
    requires forall i, j :: 0 <= i < j < |rest| ==> rest[i] < rest[j]
    ensures |[m] + rest| == |s|
    ensures forall d :: d in s <==> d in [m] + rest
    ensures forall k :: 0 <= k < |[m] + rest| ==> ([m] + rest)[k] in s
    ensures forall i, j :: 0 <= i < j < |[m] + rest| ==> ([m] + rest)[i] < ([m] + rest)[j]
  {
    var r := [m] + rest;
    assert forall i :: 1 <= i < |r| ==> r[i] == rest[i - 1];
  }

  /** The values of a snapshot in some order, as `dict.values()` gives them. */
  ghost function SetToSeq(s: set<SharePosition>): (r: seq<SharePosition>)
    ensures |r| == |s|
    ensures forall p :: p in s <==> p in r
    decreases |s|
  {
    if s == {} then []
    else
      EmptyWithoutElements(s);
      var p :| p in s;
      [p] + SetToSeq(s - {p})
  }

  /**
   * The dataclass order of positions as far as a snapshot needs it: by date,
   * then rounded value, then ISIN, which differ between positions of one snapshot.
   */
  predicate PositionLess(a: SharePosition, b: SharePosition)
  {
    || a.positionDate < b.positionDate
    || (a.positionDate == b.positionDate && a.value.Value() < b.value.Value())
    || (a.positionDate == b.positionDate && a.value.Value() == b.value.Value() && StrLess(a.isin, b.isin))
  }

  lemma PositionLessIsAsymmetric()
    ensures Asymmetric((a: SharePosition, b: SharePosition) => PositionLess(a, b))
  {
    forall a: SharePosition, b: SharePosition | PositionLess(a, b) ensures !PositionLess(b, a) {
      if a.positionDate == b.positionDate && a.value.Value() == b.value.Value() {
        StrLessAsymmetric(a.isin, b.isin);
      }
    }
  }

  /** `tuple(sorted(sps_dict.values()))`. */
  ghost function SortedPositions(snapshot: map<string, SharePosition>): (r: seq<SharePosition>)
    requires forall i :: i in snapshot ==> snapshot[i].isin == i
    ensures |r| == |snapshot|
    ensures forall p :: p in r <==> p in snapshot.Values
    ensures SortedBy(r, (a: SharePosition, b: SharePosition) => PositionLess(a, b))
  {
    PositionLessIsAsymmetric();
    var vs := SetToSeq(snapshot.Values);
    var r := SortBy(vs, (a: SharePosition, b: SharePosition) => PositionLess(a, b));
    assert |snapshot.Values| == |snapshot| by {
      ValuesOfSnapshot(snapshot);
    }
    forall p ensures p in r <==> p in snapshot.Values {
      assert p in r <==> p in multiset(r);
      assert p in vs <==> p in multiset(vs);
    }
    r
  }

  /** In a well-formed snapshot the position is determined by its ISIN, so there are as many values as keys. */
  lemma {:induction false} ValuesOfSnapshot(snapshot: map<string, SharePosition>)
    requires forall i :: i in snapshot ==> snapshot[i].isin == i
    ensures |snapshot.Values| == |snapshot|
    decreases |snapshot|
  {
    if snapshot != map[] {
      EmptyWithoutElements(snapshot.Keys);
      var i :| i in snapshot;
      var rest := snapshot - {i};
      ValuesOfSnapshot(rest);
      forall v ensures v in snapshot.Values <==> v in rest.Values + {snapshot[i]} {
        if v in snapshot.Values {
          var k :| k in snapshot && snapshot[k] == v;
          assert k == i || (k in rest && rest[k] == v);
        }
        if v in rest.Values {
          var k :| k in rest && rest[k] == v;
          assert snapshot[k] == v;
        }
      }
      assert snapshot.Values == rest.Values + {snapshot[i]};
      forall k | k in rest ensures rest[k] != snapshot[i] {
        assert rest[k].isin == k && k != i;
      }
      assert snapshot.Keys == rest.Keys + {i};
    }
  }

  /**
   * The portfolio one snapshot date becomes; an empty snapshot becomes a
   * portfolio without positions dated today.
   */
  ghost function PortfolioAt(m: Snapshots, d: Date, today: Date): (p: SharePortfolio)
    requires Positioned(m) && d in m
    ensures p.portfolioDate == (if m[d] == map[] then today else d)
    ensures p.IsDateConsistent() && AllEur(p.sharePositions)
    ensures |p.sharePositions| == |m[d]|
    ensures forall q :: q in p.sharePositions <==> q in m[d].Values
    ensures SortedBy(p.sharePositions, (a: SharePosition, b: SharePosition) => PositionLess(a, b))
  {
    var ps := SortedPositions(m[d]);
    assert forall k :: 0 <= k < |ps| ==> ps[k] in m[d].Values;
    assert m[d] != map[] ==> |ps| > 0 by {
      if m[d] != map[] {
        EmptyWithoutElements(m[d].Keys);
        var i :| i in m[d];
        assert m[d][i] in m[d].Values;
      }
    }
    NewSharePortfolio(ps, today)
  }

  /**
   * `to_portfolios`: one portfolio per date of the map, in increasing date
   * order, each holding that date's positions sorted by value.
   */
  ghost function ToPortfolios(m: Snapshots, today: Date): (r: seq<SharePortfolio>)
    requires WellFormed(m)
    ensures |r| == |m|
    ensures forall i, j :: 0 <= i < j < |r| ==> r[i].portfolioDate < r[j].portfolioDate
    ensures forall i :: 0 <= i < |r| ==> r[i].portfolioDate in m && r[i] == PortfolioAt(m, r[i].portfolioDate, today)
  {
    var ds := SortedDates(m.Keys);
    PortfoliosAtSortedDates(m, ds, today);
    PortfoliosAtDates(m, ds, today)
  }

  /** On increasing dates of the map the portfolios come in increasing date order, each that of its own date. */
  lemma PortfoliosAtSortedDates(m: Snapshots, ds: seq<Date>, today: Date)
    requires WellFormed(m)
    requires |ds| == |m| && forall k :: 0 <= k < |ds| ==> ds[k] in m
    requires forall i, j :: 0 <= i < j < |ds| ==> ds[i] < ds[j]
    ensures |PortfoliosAtDates(m, ds, today)| == |m|
    ensures forall i, j :: 0 <= i < j < |ds| ==>
      PortfoliosAtDates(m, ds, today)[i].portfolioDate < PortfoliosAtDates(m, ds, today)[j].portfolioDate
    ensures forall i :: 0 <= i < |ds| ==>
      && PortfoliosAtDates(m, ds, today)[i].portfolioDate in m
      && PortfoliosAtDates(m, ds, today)[i] == PortfolioAt(m, PortfoliosAtDates(m, ds, today)[i].portfolioDate, today)
  {
    var r := PortfoliosAtDates(m, ds, today);
    forall i | 0 <= i < |r| ensures r[i].portfolioDate == ds[i] {
      assert r[i] == PortfolioAt(m, ds[i], today);
    }
  }

  /** The portfolios of the given dates of the map, in the order of the dates. */
  ghost function PortfoliosAtDates(m: Snapshots, ds: seq<Date>, today: Date): (r: seq<SharePortfolio>)
    requires Positioned(m) && forall k :: 0 <= k < |ds| ==> ds[k] in m
    ensures |r| == |ds|
    ensures forall i :: 0 <= i < |r| ==> r[i] == PortfolioAt(m, ds[i], today)
  {
    seq(|ds|, k requires 0 <= k < |ds| => PortfolioAt(m, ds[k], today))
  }

  /** Every date of the map occurs in `to_portfolios`. */
  lemma ToPortfoliosCoversDates(m: Snapshots, d: Date, today: Date)
    requires WellFormed(m) && d in m
    ensures exists i :: 0 <= i < |ToPortfolios(m, today)| && ToPortfolios(m, today)[i].portfolioDate == d
  {
    var ds := SortedDates(m.Keys);
    assert d in ds;
    var i :| 0 <= i < |ds| && ds[i] == d;
    var r := ToPortfolios(m, today);
    assert r == PortfoliosAtDates(m, ds, today);
    assert r[i] == PortfolioAt(m, ds[i], today);
    assert r[i].portfolioDate == d;
  }

  /** An empty snapshot is a portfolio without positions, dated today and worth nothing. */
  lemma EmptySnapshotIsDatedToday(m: Snapshots, d: Date, today: Date)
    requires Positioned(m) && d in m && m[d] == map[]
    ensures PortfolioAt(m, d, today).portfolioDate == today
    ensures PortfolioAt(m, d, today).sharePositions == []
    ensures PortfolioAt(m, d, today).Value().valueExact == 0.0
  {
  }

  // ---- earliest, latest and closest portfolios ----

  /** `earliest_portfolio_date`: the minimum date; `min` of no portfolios raises, which is `None` here. */
  function EarliestPortfolioDate(ps: seq<SharePortfolio>): (r: Option<Date>)
    ensures r.None? <==> ps == []
    ensures r.Some? ==> exists k :: 0 <= k < |ps| && ps[k].portfolioDate == r.value
    ensures r.Some? ==> forall k :: 0 <= k < |ps| ==> r.value <= ps[k].portfolioDate
  {
    if ps == [] then None
    else match EarliestPortfolioDate(ps[1..])
      case None => Some(ps[0].portfolioDate)
      case Some(d) =>
        assert forall k :: 1 <= k < |ps| ==> ps[k] == ps[1..][k - 1];
        Some(if ps[0].portfolioDate <= d then ps[0].portfolioDate else d)
  }

  /** `latest_portfolio_date`: the maximum date; `max` of no portfolios raises, which is `None` here. */
  function LatestPortfolioDate(ps: seq<SharePortfolio>): (r: Option<Date>)
    ensures r.None? <==> ps == []
    ensures r.Some? ==> exists k :: 0 <= k < |ps| && ps[k].portfolioDate == r.value
    ensures r.Some? ==> forall k :: 0 <= k < |ps| ==> ps[k].portfolioDate <= r.value
  {
    if ps == [] then None
    else match LatestPortfolioDate(ps[1..])
      case None => Some(ps[0].portfolioDate)
      case Some(d) =>
        assert forall k :: 1 <= k < |ps| ==> ps[k] == ps[1..][k - 1];
        Some(if d <= ps[0].portfolioDate then ps[0].portfolioDate else d)
  }

  /**
   * `closest_portfolio_after_date`: a portfolio dated on or after the start
   * date with the earliest such date, or `None` when there is none.
   */
  function ClosestPortfolioAfterDate(ps: seq<SharePortfolio>, startDate: Date): (r: Option<SharePortfolio>)
    ensures r.None? <==> forall k :: 0 <= k < |ps| ==> ps[k].portfolioDate < startDate
    ensures r.Some? ==> r.value in ps && r.value.portfolioDate >= startDate
    ensures r.Some? ==> forall k :: 0 <= k < |ps| && ps[k].portfolioDate >= startDate ==> r.value.portfolioDate <= ps[k].portfolioDate
  {
    if ps == [] then None
    else
      var rest := ClosestPortfolioAfterDate(ps[1..], startDate);
      assert forall k :: 1 <= k < |ps| ==> ps[k] == ps[1..][k - 1];
      if ps[0].portfolioDate < startDate then rest
      else if rest.Some? && rest.value.portfolioDate < ps[0].portfolioDate then rest
      else Some(ps[0])
  }

  /**
   * `closest_portfolio_before_date`: a portfolio dated strictly before the end
   * date with the latest such date, or `None` when there is none.
   */
  function ClosestPortfolioBeforeDate(ps: seq<SharePortfolio>, endDate: Date): (r: Option<SharePortfolio>)
    ensures r.None? <==> forall k :: 0 <= k < |ps| ==> ps[k].portfolioDate >= endDate
    ensures r.Some? ==> r.value in ps && r.value.portfolioDate < endDate
    ensures r.Some? ==> forall k :: 0 <= k < |ps| && ps[k].portfolioDate < endDate ==> ps[k].portfolioDate <= r.value.portfolioDate
  {
    if ps == [] then None
    else
      var rest := ClosestPortfolioBeforeDate(ps[1..], endDate);
      assert forall k :: 1 <= k < |ps| ==> ps[k] == ps[1..][k - 1];
      if ps[0].portfolioDate >= endDate then rest
      else if rest.Some? && ps[0].portfolioDate < rest.value.portfolioDate then rest
      else Some(ps[0])
  }

  /** No two portfolios share a date, as in the output of `to_portfolios`. */
  predicate DistinctDates(ps: seq<SharePortfolio>)
  {
    forall i, j :: 0 <= i < j < |ps| ==> ps[i].portfolioDate != ps[j].portfolioDate
  }

  /**
   * With distinct dates the closest portfolio on or after the date is
   * determined: it is the one portfolio whose date is the least such date,
   * whatever order the sequence has.
   */
  lemma ClosestAfterIsUnique(ps: seq<SharePortfolio>, startDate: Date, p: SharePortfolio)
    requires DistinctDates(ps) && p in ps && p.portfolioDate >= startDate
    requires forall k :: 0 <= k < |ps| && ps[k].portfolioDate >= startDate ==> p.portfolioDate <= ps[k].portfolioDate
    ensures ClosestPortfolioAfterDate(ps, startDate) == Some(p)
  {
    var r := ClosestPortfolioAfterDate(ps, startDate);
    var i :| 0 <= i < |ps| && ps[i] == p;
    var j :| 0 <= j < |ps| && ps[j] == r.value;
    assert ps[i].portfolioDate == ps[j].portfolioDate;
    assert i == j;
  }

  /** With distinct dates the closest portfolio before the date is the one with the latest such date. */
  lemma ClosestBeforeIsUnique(ps: seq<SharePortfolio>, endDate: Date, p: SharePortfolio)
    requires DistinctDates(ps) && p in ps && p.portfolioDate < endDate
    requires forall k :: 0 <= k < |ps| && ps[k].portfolioDate < endDate ==> ps[k].portfolioDate <= p.portfolioDate
    ensures ClosestPortfolioBeforeDate(ps, endDate) == Some(p)
  {
    var r := ClosestPortfolioBeforeDate(ps, endDate);
    var i :| 0 <= i < |ps| && ps[i] == p;
    var j :| 0 <= j < |ps| && ps[j] == r.value;
    assert ps[i].portfolioDate == ps[j].portfolioDate;
    assert i == j;
  }

  /** The portfolios `to_portfolios` builds have distinct dates, so the closest lookups on them are determined. */
  lemma ToPortfoliosDistinctDates(m: Snapshots, today: Date)
    requires WellFormed(m)
    ensures DistinctDates(ToPortfolios(m, today))
  {
  }

  /** The date lookups of the source's tests, for a portfolio of three weeks back and one of today. */
  lemma ClosestPortfolioOracle(p0: SharePortfolio, p1: SharePortfolio)
    requires p0.portfolioDate + 21 == p1.portfolioDate
    ensures EarliestPortfolioDate([p0, p1]) == Some(p0.portfolioDate)
    ensures LatestPortfolioDate([p0, p1]) == Some(p1.portfolioDate)
    ensures ClosestPortfolioAfterDate([p0, p1], p1.portfolioDate + 1) == None
    ensures ClosestPortfolioAfterDate([p0, p1], p1.portfolioDate - 1) == Some(p1)
    ensures ClosestPortfolioBeforeDate([p0, p1], p1.portfolioDate + 1) == Some(p1)
    ensures ClosestPortfolioBeforeDate([p0, p1], p0.portfolioDate + 1) == Some(p0)
    ensures ClosestPortfolioBeforeDate([p0, p1], p0.portfolioDate - 1) == None
  {
    assert [p0, p1][1..] == [p1];
    assert [p1][1..] == [];
  }

  // ---- the result of one transaction ----

  /**
   * What `_get_transaction_result` demands when it prices a sale: `amount /
   * nr_stocks` does not divide by zero, and the subtraction of the buy price
   * from the sell price asserts one currency.
   */
  predicate SellPriced(t: ShareTransaction, prev: Option<SharePosition>)
  {
    t.kind == SELL && prev.Some? && prev.value.nrStocks != 0.0 ==>
      t.nrStocks != 0.0 && t.amount.curr == prev.value.investment.curr
  }

  /**
   * `_get_transaction_result`: the (investment, realization) a transaction adds
   * to its ISIN's positions; `prev` is the position a sale takes its buy price
   * from. A sale without a position or without stocks only prints, and adds nothing.
   */
  function TransactionResult(t: ShareTransaction, prev: Option<SharePosition>): (r: (Amount, Amount))
    requires SellPriced(t, prev)
    ensures t.kind == BUY ==> r == (t.amount, Amount(0.0))
    ensures t.kind == DIVIDEND || t.kind == EXPENSES ==> r == (Amount(0.0), t.amount)
    ensures t.kind == SELL && (prev.None? || prev.value.nrStocks == 0.0) ==> r == (Amount(0.0), Amount(0.0))
    ensures t.kind == SELL && prev.Some? && prev.value.nrStocks != 0.0 ==>
      && r.0.curr == prev.value.investment.curr && r.1.curr == t.amount.curr
      && r.0.valueExact * prev.value.nrStocks == -t.nrStocks * prev.value.investment.valueExact
      && r.1.valueExact == t.amount.valueExact + r.0.valueExact
  {
    match t.kind
    case BUY => (t.amount, Amount(0.0))
    case SELL =>
      if prev.None? || prev.value.nrStocks == 0.0 then (Amount(0.0), Amount(0.0))
      else
        var buyPrice := prev.value.investment.Div(ByNumber(prev.value.nrStocks));
        var investment := buyPrice.Mul(-t.nrStocks);
        var sellPrice := t.amount.Div(ByNumber(t.nrStocks));
        var realization := sellPrice.Sub(buyPrice).Mul(t.nrStocks);
        SaleArithmetic(t.amount.valueExact, t.nrStocks, prev.value.investment.valueExact, prev.value.nrStocks,
                       buyPrice.valueExact, sellPrice.valueExact);
        (investment, realization)
    case _ => (Amount(0.0), t.amount)
  }

  /** The cost basis `-q * (inv / n)` and the realization `q * (amount / q - inv / n)` of a sale. */
  lemma SaleArithmetic(amount: real, q: real, inv: real, n: real, buyPrice: real, sellPrice: real)
    requires n != 0.0 && q != 0.0
    requires buyPrice * n == inv && sellPrice * q == amount
    ensures buyPrice * -q * n == -q * inv
    ensures (sellPrice - buyPrice) * q == amount + buyPrice * -q
  {
    assert buyPrice * -q * n == -q * (buyPrice * n);
  }

  /** Selling every stock of the previous position takes out exactly its investment. */
  lemma {:induction false} SellingEverythingClearsInvestment(t: ShareTransaction, prev: SharePosition)
    requires t.kind == SELL && prev.nrStocks != 0.0 && t.nrStocks == prev.nrStocks
    requires t.amount.curr == prev.investment.curr
    ensures TransactionResult(t, Some(prev)).0.valueExact == -prev.investment.valueExact
    ensures TransactionResult(t, Some(prev)).1.valueExact == t.amount.valueExact - prev.investment.valueExact
  {
    var r := TransactionResult(t, Some(prev));
    assert r.0.valueExact * prev.nrStocks == -prev.investment.valueExact * prev.nrStocks;
    CancelFactor(r.0.valueExact, -prev.investment.valueExact, prev.nrStocks);
  }

  lemma CancelFactor(x: real, y: real, n: real)
    requires n != 0.0 && x * n == y * n
    ensures x == y
  {
    assert (x - y) * n == 0.0;
  }

  // ---- apply_transactions ----

  /** `replace(share_pos, investment=... + investment, realized=... + realization)`. */
  function Bump(p: SharePosition, investment: Amount, realization: Amount): (r: SharePosition)
    requires p.investment.curr == investment.curr && p.realized.curr == realization.curr
    ensures r.investment.valueExact == p.investment.valueExact + investment.valueExact
    ensures r.realized.valueExact == p.realized.valueExact + realization.valueExact
    ensures r.investment.curr == p.investment.curr && r.realized.curr == p.realized.curr
    ensures r.positionDate == p.positionDate && r.isin == p.isin && r.name == p.name
    ensures r.value == p.value && r.nrStocks == p.nrStocks && r.price == p.price
  {
    p.WithInvestmentRealized(p.investment.Add(investment), p.realized.Add(realization))
  }

  /** The snapshot with the ISIN's position bumped, where it holds one. */
  function BumpIn(snapshot: map<string, SharePosition>, isin: string, investment: Amount, realization: Amount): (r: map<string, SharePosition>)
    requires forall i :: i in snapshot ==> PositionEur(snapshot[i])
    requires investment.curr == "EUR" && realization.curr == "EUR"
    ensures r.Keys == snapshot.Keys && forall i :: i in r ==> PositionEur(r[i])
  {
    if isin in snapshot then
      var p := snapshot[isin];
      assert PositionEur(p);
      snapshot[isin := Bump(p, investment, realization)]
    else snapshot
  }

  ghost predicate HasOnOrAfter(data: Snapshots, d: Date)
  {
    exists k :: k in data && k >= d
  }

  ghost predicate HasBefore(data: Snapshots, d: Date)
  {
    exists k :: k in data && k < d
  }

  /** The last snapshot date before `d`. */
  ghost function LastBefore(data: Snapshots, d: Date): (r: Date)
    requires HasBefore(data, d)
    ensures r in data && r < d
    ensures forall k :: k in data && k < d ==> k <= r
  {
    var k0 :| k0 in data && k0 < d;
    var below := set k | k in data && k < d;
    assert k0 in below;
    assert forall k :: k in data && k < d ==> k in below;
    MaxExists(below);
    var m :| m in below && forall e :: e in below ==> e <= m;
    m
  }

  /**
   * The position a SELL takes its buy price from: the transaction's ISIN in the
   * last snapshot before the transaction date. Other kinds take none.
   */
  ghost function PrevPosition(data: Snapshots, t: ShareTransaction): (r: Option<SharePosition>)
    requires EurSnapshots(data)
    ensures r.Some? ==> PositionEur(r.value)
  {
    if t.kind == SELL && HasBefore(data, t.TransactionDate()) then
      var s := data[LastBefore(data, t.TransactionDate())];
      if t.isin in s then Some(s[t.isin]) else None
    else None
  }

  ghost predicate StepSafe(t: ShareTransaction, data: Snapshots)
    requires EurSnapshots(data)
  {
    SellPriced(t, PrevPosition(data, t))
  }

  /**
   * The result added to the ISIN's position in every snapshot dated on or
   * after the date that holds the ISIN; nothing else changes.
   */
  function AddResult(data: Snapshots, isin: string, date: Date, investment: Amount, realization: Amount): (r: Snapshots)
    requires EurSnapshots(data) && investment.curr == "EUR" && realization.curr == "EUR"
    ensures r.Keys == data.Keys && EurSnapshots(r)
    ensures forall d :: d in r ==> r[d].Keys == data[d].Keys
  {
    map d | d in data ::
      if d >= date then BumpIn(data[d], isin, investment, realization) else data[d]
  }

  /** One transaction: its result is added from its date on. */
  ghost function ApplyOne(t: ShareTransaction, data: Snapshots): (r: Snapshots)
    requires EurSnapshots(data) && t.amount.curr == "EUR" && StepSafe(t, data)
    ensures r.Keys == data.Keys && EurSnapshots(r)
  {
    var res := TransactionResult(t, PrevPosition(data, t));
    AddResult(data, t.isin, t.TransactionDate(), res.0, res.1)
  }

  /** The transactions can be applied one after the other without a sale dividing by zero. */
  ghost predicate Safe(ts: seq<ShareTransaction>, data: Snapshots)
    requires EurSnapshots(data)
    decreases |ts|
  {
    || ts == []
    || !HasOnOrAfter(data, ts[0].TransactionDate())
    || (ts[0].amount.curr == "EUR" && StepSafe(ts[0], data) && Safe(ts[1..], ApplyOne(ts[0], data)))
  }

  /**
   * The transactions applied in order; the first one dated after the last
   * snapshot ends the processing, later ones included.
   */
  ghost function ApplyAll(ts: seq<ShareTransaction>, data: Snapshots): (r: Snapshots)
    requires EurSnapshots(data) && Safe(ts, data)
    ensures r.Keys == data.Keys && EurSnapshots(r)
    ensures forall d :: d in r ==> r[d].Keys == data[d].Keys
    decreases |ts|
  {
    if ts == [] || !HasOnOrAfter(data, ts[0].TransactionDate()) then data
    else ApplyAll(ts[1..], ApplyOne(ts[0], data))
  }

  /** `PortfoliosDictionary`, the nested dictionary the transactions update in place. */
  class PortfoliosDictionary {
    var data: Snapshots

    constructor (data: Snapshots)
      ensures this.data == data
    {
      this.data := data;
    }
  }

  /** The dates are the snapshot dates, strictly increasing. */
  ghost predicate SortedKeys(data: Snapshots, dates: seq<Date>)
  {
    && (forall d :: d in data <==> d in dates)
    && forall i, j :: 0 <= i < j < |dates| ==> dates[i] < dates[j]
  }

  /**
   * Where the date falls among the sorted snapshot dates: `idx` is the first
   * index dated on or after it.
   */
  lemma SplitPoint(data: Snapshots, dates: seq<Date>, date: Date, idx: nat)
    requires SortedKeys(data, dates)
    requires idx <= |dates| && forall j :: 0 <= j < idx ==> dates[j] < date
    requires idx < |dates| ==> dates[idx] >= date
    ensures HasOnOrAfter(data, date) <==> idx < |dates|
    ensures HasBefore(data, date) <==> idx > 0
    ensures idx > 0 ==> LastBefore(data, date) == dates[idx - 1]
    ensures forall d :: d in data ==> (d >= date <==> (idx < |dates| && dates[idx] <= d))
  {
    forall d | d in data ensures d >= date <==> (idx < |dates| && dates[idx] <= d) {
      assert d in dates;
      var l :| 0 <= l < |dates| && dates[l] == d;
      if l < idx {
        assert d < date;
        if idx < |dates| {
          assert dates[l] < dates[idx];
        }
      } else {
        assert idx < |dates| && dates[idx] <= d;
      }
    }
    if idx < |dates| {
      assert dates[idx] in data;
    }
    if idx > 0 {
      assert dates[idx - 1] in data;
      var r := LastBefore(data, date);
      assert r in dates;
      var l :| 0 <= l < |dates| && dates[l] == r;
      if idx < |dates| {
        IncreasingIndex(dates, idx, l);
      }
      IncreasingIndex(dates, l, idx - 1);
    }
  }

  lemma IncreasingIndex(s: seq<Date>, a: nat, b: nat)
    requires forall i, j :: 0 <= i < j < |s| ==> s[i] < s[j]
    requires a < |s| && b < |s|
    ensures s[a] <= s[b] <==> a <= b
  {
  }

  /** No snapshot date lies strictly between two neighbouring sorted dates. */
  lemma Neighbours(data: Snapshots, dates: seq<Date>, j: nat)
    requires SortedKeys(data, dates)
    requires j + 1 < |dates|
    ensures forall d :: d in data ==> (d < dates[j + 1] <==> d <= dates[j])
  {
    forall d | d in data ensures d < dates[j + 1] <==> d <= dates[j] {
      assert d in dates;
      var l :| 0 <= l < |dates| && dates[l] == d;
      if l <= j {
        if l < j {
          assert dates[l] < dates[j];
        }
      } else if l > j + 1 {
        assert dates[j + 1] < dates[l];
      }
    }
  }

  /** The first index from `first` on whose date is on or after `date`, or `|dates|`. */
  method FirstOnOrAfter(dates: seq<Date>, first: nat, date: Date) returns (idx: nat)
    requires first <= |dates| && forall j :: 0 <= j < first ==> dates[j] < date
    ensures first <= idx <= |dates|
    ensures forall j :: 0 <= j < idx ==> dates[j] < date
    ensures idx < |dates| ==> dates[idx] >= date
  {
    idx := first;
    while idx < |dates| && dates[idx] < date
      invariant first <= idx <= |dates|
      invariant forall j :: 0 <= j < idx ==> dates[j] < date
    {
      idx := idx + 1;
    }
  }

  /** `AddResult` restricted to the snapshots dated before `bound`, when there is one. */
  function AddBelow(data: Snapshots, isin: string, date: Date, bound: Option<Date>,
                    investment: Amount, realization: Amount): (r: Snapshots)
    requires EurSnapshots(data) && investment.curr == "EUR" && realization.curr == "EUR"
    ensures r.Keys == data.Keys && EurSnapshots(r)
    ensures bound.None? ==> r == AddResult(data, isin, date, investment, realization)
  {
    map d | d in data ::
      if d >= date && (bound.None? || d < bound.value) then BumpIn(data[d], isin, investment, realization) else data[d]
  }

  /** One more snapshot date `dates[j]` brought under the bound. */
  lemma AddBelowStep(data: Snapshots, dates: seq<Date>, isin: string, date: Date, j: nat,
                     investment: Amount, realization: Amount)
    requires EurSnapshots(data) && investment.curr == "EUR" && realization.curr == "EUR"
    requires SortedKeys(data, dates) && j < |dates| && dates[j] >= date
    ensures
      var cur := AddBelow(data, isin, date, Some(dates[j]), investment, realization);
      var next := AddBelow(data, isin, date, if j + 1 < |dates| then Some(dates[j + 1]) else None, investment, realization);
      && cur[dates[j]] == data[dates[j]]
      && next == cur[dates[j] := BumpIn(data[dates[j]], isin, investment, realization)]
  {
    var dj := dates[j];
    assert dj in data;
    var cur := AddBelow(data, isin, date, Some(dj), investment, realization);
    var nextBound := if j + 1 < |dates| then Some(dates[j + 1]) else None;
    var next := AddBelow(data, isin, date, nextBound, investment, realization);
    var expected := cur[dj := BumpIn(data[dj], isin, investment, realization)];
    if j + 1 < |dates| {
      Neighbours(data, dates, j);
    }
    forall d | d in data ensures next[d] == expected[d] {
      if d != dj {
        assert d in dates;
        var l :| 0 <= l < |dates| && dates[l] == d;
        IncreasingIndex(dates, l, j);
        assert (nextBound.None? || d < nextBound.value) <==> d < dj;
      }
    }
    assert next.Keys == expected.Keys;
  }

  /**
   * The loop over `sorted_portfolios[idx:]`: the result is added in place to
   * the ISIN's position of every snapshot from index `idx` on.
   */
  /** Bumping a snapshot in place: the position is replaced where the ISIN is held, nothing changes where it is not. */
  lemma BumpInPlace(data: Snapshots, d: Date, isin: string, investment: Amount, realization: Amount)
    requires EurSnapshots(data) && d in data && investment.curr == "EUR" && realization.curr == "EUR"
    ensures isin in data[d] ==>
      data[d := BumpIn(data[d], isin, investment, realization)]
      == data[d := data[d][isin := Bump(data[d][isin], investment, realization)]]
    ensures isin !in data[d] ==> data[d := BumpIn(data[d], isin, investment, realization)] == data
  {
    if isin !in data[d] {
      assert BumpIn(data[d], isin, investment, realization) == data[d];
    }
  }

  method AddFrom(portfolios: PortfoliosDictionary, dates: seq<Date>, idx: nat, isin: string, date: Date,
                 investment: Amount, realization: Amount)
    requires EurSnapshots(portfolios.data) && investment.curr == "EUR" && realization.curr == "EUR"
    requires SortedKeys(portfolios.data, dates)
    requires idx < |dates| && dates[idx] >= date && forall j :: 0 <= j < idx ==> dates[j] < date
    modifies portfolios
    ensures portfolios.data == AddResult(old(portfolios.data), isin, date, investment, realization)
  {
    ghost var before := portfolios.data;
    assert AddBelow(before, isin, date, Some(dates[idx]), investment, realization) == before by {
      SplitPoint(before, dates, date, idx);
    }
    var j := idx;
    while j < |dates|
      invariant idx <= j <= |dates|
      invariant portfolios.data == AddBelow(before, isin, date, if j < |dates| then Some(dates[j]) else None, investment, realization)
    {
      IncreasingIndex(dates, idx, j);
      AddBelowStep(before, dates, isin, date, j, investment, realization);
      BumpInPlace(portfolios.data, dates[j], isin, investment, realization);
      var snapshot := portfolios.data[dates[j]];
      if isin in snapshot {
        portfolios.data := portfolios.data[dates[j] := snapshot[isin := Bump(snapshot[isin], investment, realization)]];
      }
      j := j + 1;
    }
  }

  /**
   * One round of the loop of `apply_transactions`: the search for the first
   * snapshot on or after the transaction date from index `first` on, the
   * previous position of a sale, and the update. `idx == |dates|` is the `break`.
   */
  method ApplyStep(t: ShareTransaction, portfolios: PortfoliosDictionary, dates: seq<Date>, first: nat)
    returns (idx: nat)
    requires EurSnapshots(portfolios.data) && SortedKeys(portfolios.data, dates)
    requires first <= |dates| && forall j :: 0 <= j < first ==> dates[j] < t.TransactionDate()
    requires HasOnOrAfter(portfolios.data, t.TransactionDate()) ==> t.amount.curr == "EUR" && StepSafe(t, portfolios.data)
    modifies portfolios
    ensures first <= idx <= |dates|
    ensures idx == |dates| <==> !HasOnOrAfter(old(portfolios.data), t.TransactionDate())
    ensures idx == |dates| ==> portfolios.data == old(portfolios.data)
    ensures idx < |dates| ==> portfolios.data == ApplyOne(t, old(portfolios.data))
    ensures forall j :: 0 <= j < idx ==> dates[j] < t.TransactionDate()
  {
    var date := t.TransactionDate();
    idx := FirstOnOrAfter(dates, first, date);
    SplitPoint(portfolios.data, dates, date, idx);
    if idx == |dates| {
      return;
    }
    var prev: Option<SharePosition> := None;
    if t.kind == SELL && idx > 0 {
      var snapshot := portfolios.data[dates[idx - 1]];
      if t.isin in snapshot {
        prev := Some(snapshot[t.isin]);
      }
    }
    assert prev == PrevPosition(portfolios.data, t);
    var res := TransactionResult(t, prev);
    AddFrom(portfolios, dates, idx, t.isin, date, res.0, res.1);
  }

  /**
   * `apply_transactions`: the transactions, sorted, are applied in place one
   * after the other, each to its ISIN's positions on or after its date; a
   * transaction after the last snapshot ends the processing.
   */
  method ApplyTransactions(transactions: seq<ShareTransaction>, portfolios: PortfoliosDictionary)
    requires AllComparable(transactions) && EurSnapshots(portfolios.data)
    requires Safe(SortTransactions(transactions), portfolios.data)
    modifies portfolios
    ensures portfolios.data == ApplyAll(SortTransactions(transactions), old(portfolios.data))
  {
    var dates := SortedDates(portfolios.data.Keys);
    var sorted := SortTransactions(transactions);
    ApplySorted(sorted, portfolios, dates);
  }

  /** The loop of `apply_transactions` over the sorted transactions and the sorted snapshot dates. */
  method ApplySorted(sorted: seq<ShareTransaction>, portfolios: PortfoliosDictionary, dates: seq<Date>)
    requires Sorted(sorted) && EurSnapshots(portfolios.data) && SortedKeys(portfolios.data, dates)
    requires Safe(sorted, portfolios.data)
    modifies portfolios
    ensures portfolios.data == ApplyAll(sorted, old(portfolios.data))
  {
    var first := 0;
    var k := 0;
    while k < |sorted|
      invariant 0 <= k <= |sorted| && 0 <= first <= |dates|
      invariant k == 0 ==> first == 0
      invariant SortedKeys(portfolios.data, dates)
      invariant EurSnapshots(portfolios.data)
      invariant Safe(sorted[k..], portfolios.data)
      invariant ApplyAll(sorted, old(portfolios.data)) == ApplyAll(sorted[k..], portfolios.data)
      invariant k > 0 ==> forall j :: 0 <= j < first ==> dates[j] < sorted[k - 1].TransactionDate()
    {
      var t := sorted[k];
      assert sorted[k..][0] == t && sorted[k..][1..] == sorted[k + 1..];
      if k > 0 {
        SortedDatesNonDecreasing(sorted, k - 1, k);
      }
      var idx := ApplyStep(t, portfolios, dates, first);
      if idx == |dates| {
        break;
      }
      first := idx;
      k := k + 1;
    }
  }

  // ---- properties of the engine ----

  /**
   * The frame of one transaction: every snapshot and key stays, only the
   * positions of its ISIN dated on or after it change, and of those only
   * `investment` and `realized`, which grow by the transaction's result.
   */
  lemma ApplyOneFrame(t: ShareTransaction, data: Snapshots, d: Date, i: string)
    requires EurSnapshots(data) && t.amount.curr == "EUR" && StepSafe(t, data)
    requires d in data && i in data[d]
    ensures d in ApplyOne(t, data) && i in ApplyOne(t, data)[d]
    ensures d < t.TransactionDate() || i != t.isin ==> ApplyOne(t, data)[d][i] == data[d][i]
    ensures
      var p, q := data[d][i], ApplyOne(t, data)[d][i];
      && q.positionDate == p.positionDate && q.value == p.value && q.isin == p.isin
      && q.name == p.name && q.nrStocks == p.nrStocks && q.price == p.price
    ensures
      var p, q := data[d][i], ApplyOne(t, data)[d][i];
      var res := TransactionResult(t, PrevPosition(data, t));
      d >= t.TransactionDate() && i == t.isin ==>
        && q.investment.valueExact == p.investment.valueExact + res.0.valueExact
        && q.realized.valueExact == p.realized.valueExact + res.1.valueExact
  {
  }

  /**
   * A sale whose first snapshot on or after it is the earliest snapshot has no
   * position to take a buy price from, and changes nothing.
   */
  lemma {:induction false} SellBeforeAllSnapshotsIsNoOp(t: ShareTransaction, data: Snapshots)
    requires EurSnapshots(data) && t.amount.curr == "EUR" && t.kind == SELL
    requires forall d :: d in data ==> d >= t.TransactionDate()
    ensures StepSafe(t, data)
    ensures ApplyOne(t, data) == data
  {
    assert !HasBefore(data, t.TransactionDate());
    var r := ApplyOne(t, data);
    forall d | d in data ensures r[d] == data[d] {
      if t.isin in data[d] {
        var p := data[d][t.isin];
        assert Bump(p, Amount(0.0), Amount(0.0)) == p;
        assert data[d][t.isin := p] == data[d];
      }
    }
  }

  /**
   * A purchase, dividend or expense needs no earlier snapshot: dated before
   * all snapshots, it is added to the ISIN's position in every one of them.
   */
  lemma EarlyNonSaleAppliesEverywhere(t: ShareTransaction, data: Snapshots, d: Date)
    requires EurSnapshots(data) && t.amount.curr == "EUR" && t.kind != SELL
    requires forall k :: k in data ==> k >= t.TransactionDate()
    requires d in data && t.isin in data[d]
    ensures StepSafe(t, data)
    ensures t.kind == BUY ==>
      && ApplyOne(t, data)[d][t.isin].investment.valueExact == data[d][t.isin].investment.valueExact + t.amount.valueExact
      && ApplyOne(t, data)[d][t.isin].realized.valueExact == data[d][t.isin].realized.valueExact
    ensures t.kind != BUY ==>
      && ApplyOne(t, data)[d][t.isin].investment.valueExact == data[d][t.isin].investment.valueExact
      && ApplyOne(t, data)[d][t.isin].realized.valueExact == data[d][t.isin].realized.valueExact + t.amount.valueExact
  {
  }

  /**
   * Two sales with no snapshot dated between them (on or after the first, before
   * the second) take their buy price from the same snapshot: the first sale
   * does not change what the second reads.
   */
  lemma {:induction false} SalesInOneGapShareBuyPrice(t1: ShareTransaction, t2: ShareTransaction, data: Snapshots)
    requires EurSnapshots(data) && t1.amount.curr == "EUR" && StepSafe(t1, data)
    requires t1.kind == SELL && t2.kind == SELL && t1.isin == t2.isin
    requires t1.TransactionDate() <= t2.TransactionDate()
    requires forall k :: k in data ==> !(t1.TransactionDate() <= k < t2.TransactionDate())
    ensures PrevPosition(ApplyOne(t1, data), t2) == PrevPosition(data, t1)
  {
    var next := ApplyOne(t1, data);
    var d1, d2 := t1.TransactionDate(), t2.TransactionDate();
    assert HasBefore(data, d1) <==> HasBefore(next, d2) by {
      if HasBefore(next, d2) {
        var k :| k in next && k < d2;
        assert k < d1;
      }
    }
    if HasBefore(data, d1) {
      var l1, l2 := LastBefore(data, d1), LastBefore(next, d2);
      assert l2 < d1;
      assert l1 <= l2;
      assert l2 <= l1;
      assert next[l1] == data[l1];
    }
  }

  /**
   * A transaction dated after every snapshot ends the processing: it and all
   * transactions after it change nothing.
   */
  lemma {:induction false} LateTransactionEndsProcessing(ts: seq<ShareTransaction>, data: Snapshots, k: nat)
    requires EurSnapshots(data) && Safe(ts, data)
    requires k < |ts| && forall d :: d in data ==> d < ts[k].TransactionDate()
    ensures Safe(ts[..k], data)
    ensures ApplyAll(ts, data) == ApplyAll(ts[..k], data)
    decreases k
  {
    if k == 0 {
      assert !HasOnOrAfter(data, ts[0].TransactionDate());
    } else {
      assert ts[..k][0] == ts[0];
      if HasOnOrAfter(data, ts[0].TransactionDate()) {
        var next := ApplyOne(ts[0], data);
        assert ts[1..][k - 1] == ts[k];
        LateTransactionEndsProcessing(ts[1..], next, k - 1);
        assert ts[1..][..k - 1] == ts[..k][1..];
      }
    }
  }

  /** The snapshot a sale reads is the latest one before its date. */
  lemma PrevPositionAt(t: ShareTransaction, data: Snapshots, prevDate: Date)
    requires EurSnapshots(data) && t.kind == SELL
    requires prevDate in data && prevDate < t.TransactionDate()
    requires forall k :: k in data && k < t.TransactionDate() ==> k <= prevDate
    ensures PrevPosition(data, t) == if t.isin in data[prevDate] then Some(data[prevDate][t.isin]) else None
  {
    assert HasBefore(data, t.TransactionDate());
    assert LastBefore(data, t.TransactionDate()) == prevDate;
  }

  /**
   * A transaction dated in the gap after snapshot `before` and up to snapshot
   * `after`: a sale is priced from `before`, `before` stays as it was, and
   * `after` has the ISIN's position bumped by the result.
   */
  lemma StepBetween(t: ShareTransaction, data: Snapshots, before: Date, after: Date)
    requires EurSnapshots(data) && t.amount.curr == "EUR"
    requires before in data && after in data && before < t.TransactionDate() <= after
    requires forall k :: k in data ==> k <= before || k >= after
    requires t.kind == SELL && t.isin in data[before] && data[before][t.isin].nrStocks != 0.0 ==> t.nrStocks != 0.0
    ensures HasOnOrAfter(data, t.TransactionDate()) && StepSafe(t, data)
    ensures PrevPosition(data, t) == if t.kind == SELL && t.isin in data[before] then Some(data[before][t.isin]) else None
    ensures
      var res := TransactionResult(t, PrevPosition(data, t));
      var r := ApplyOne(t, data);
      && r[before] == data[before]
      && r[after] == BumpIn(data[after], t.isin, res.0, res.1)
  {
    if t.kind == SELL {
      PrevPositionAt(t, data, before);
    }
  }

  /** A transaction that is processed and prices safely: the step `Safe` asks of each transaction. */
  ghost predicate StepOk(t: ShareTransaction, data: Snapshots)
    requires EurSnapshots(data)
  {
    t.amount.curr == "EUR" && HasOnOrAfter(data, t.TransactionDate()) && StepSafe(t, data)
  }

  /** A first transaction that steps safely is applied, then the rest from what it leaves. */
  lemma ApplyCons(t: ShareTransaction, ts: seq<ShareTransaction>, data: Snapshots)
    requires EurSnapshots(data) && StepOk(t, data) && Safe(ts, ApplyOne(t, data))
    ensures Safe([t] + ts, data) && ApplyAll([t] + ts, data) == ApplyAll(ts, ApplyOne(t, data))
  {
    assert ([t] + ts)[0] == t && ([t] + ts)[1..] == ts;
  }

  /** Two transactions that each find a snapshot on or after them are applied one after the other. */
  lemma ApplyTwo(t1: ShareTransaction, t2: ShareTransaction, data: Snapshots)
    requires EurSnapshots(data) && StepOk(t1, data) && StepOk(t2, ApplyOne(t1, data))
    ensures Safe([t1, t2], data) && ApplyAll([t1, t2], data) == ApplyOne(t2, ApplyOne(t1, data))
  {
    var d1 := ApplyOne(t1, data);
    ApplyCons(t2, [], d1);
    assert [t2] + [] == [t2];
    ApplyCons(t1, [t2], data);
    assert [t1] + [t2] == [t1, t2];
  }

  /** Three transactions that each find a snapshot on or after them are applied one after the other. */
  lemma ApplyThree(t1: ShareTransaction, t2: ShareTransaction, t3: ShareTransaction, data: Snapshots, d1: Snapshots, d2: Snapshots)
    requires EurSnapshots(data) && StepOk(t1, data) && d1 == ApplyOne(t1, data)
    requires EurSnapshots(d1) && StepOk(t2, d1) && d2 == ApplyOne(t2, d1)
    requires EurSnapshots(d2) && StepOk(t3, d2)
    ensures Safe([t1, t2, t3], data) && ApplyAll([t1, t2, t3], data) == ApplyOne(t3, d2)
  {
    ApplyTwo(t2, t3, d1);
    ApplyCons(t1, [t2, t3], data);
    assert [t1] + [t2, t3] == [t1, t2, t3];
  }

  /** A sorted arrangement of three transactions on three increasing dates is their date order. */
  lemma SortedThree(r: seq<ShareTransaction>, a: ShareTransaction, b: ShareTransaction, c: ShareTransaction)
    requires a.TransactionDate() < b.TransactionDate() < c.TransactionDate()
    requires Sorted(r) && multiset(r) == multiset{a, b, c}
    ensures r == [a, b, c]
  {
    assert |r| == |multiset(r)| == 3;
    assert a in multiset(r) && c in multiset(r);
    var ja :| 0 <= ja < 3 && r[ja] == a;
    var jc :| 0 <= jc < 3 && r[jc] == c;
    SortedDatesNonDecreasing(r, 0, ja);
    SortedDatesNonDecreasing(r, jc, 2);
    assert r[0] in multiset(r) && r[2] in multiset(r);
    assert r[0] == a && r[2] == c;
    assert multiset{r[1]} == multiset(r) - multiset{a, c};
  }

  /** Three transactions on three increasing dates, given middle first, sort by date. */
  lemma SortByDate3(a: ShareTransaction, b: ShareTransaction, c: ShareTransaction)
    requires a.TransactionDate() < b.TransactionDate() < c.TransactionDate()
    ensures AllComparable([b, a, c]) && SortTransactions([b, a, c]) == [a, b, c]
  {
    EarlierDatetimeSortsFirst(a, b);
    EarlierDatetimeSortsFirst(a, c);
    EarlierDatetimeSortsFirst(b, c);
    LessIrreflexive(a);
    LessIrreflexive(b);
    LessIrreflexive(c);
    assert AllComparable([b, a, c]);
    assert multiset([b, a, c]) == multiset{a, b, c};
    SortedThree(SortTransactions([b, a, c]), a, b, c);
  }

  /** Sorting `n` copies of one transaction leaves them as they are (`n` is 1 or 2 in the tests). */
  lemma SortCopies(t: ShareTransaction, ts: seq<ShareTransaction>)
    requires forall i :: 0 <= i < |ts| ==> ts[i] == t
    ensures AllComparable(ts) && SortTransactions(ts) == ts
  {
    LessIrreflexive(t);
    var r := SortTransactions(ts);
    assert |r| == |multiset(r)| == |multiset(ts)| == |ts|;
    forall i | 0 <= i < |r| ensures r[i] == ts[i] {
      assert r[i] in multiset(ts);
    }
  }

  // ---- get_all_isins ----

  /** `get_all_isins`: the union of the portfolios' ISINs. */
  method GetAllIsins(portfolios: seq<SharePortfolio>) returns (r: set<string>)
    ensures forall i :: i in r <==> exists k :: 0 <= k < |portfolios| && portfolios[k].Contains(i)
  {
    r := {};
    var k := 0;
    while k < |portfolios|
      invariant 0 <= k <= |portfolios|
      invariant forall i :: i in r <==> exists j :: 0 <= j < k && portfolios[j].Contains(i)
    {
      r := r + set i | i in portfolios[k].AllIsins();
      k := k + 1;
    }
  }
}
