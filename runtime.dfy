/**
 * The date window of src/stockwatch/app/runtime.py over the loaded portfolios
 * of the current engine. The module-level tuple of loaded portfolios is a
 * parameter; loading it is left out.
 */
module Runtime {
  import opened Wrappers
  import opened Calendar
  import opened Shares

  /** 2020-01-01 as an ordinal: the start date when nothing is loaded. */
  const DEFAULT_START_DATE: Date := 737425

  /** Python's `s[start:end]` for a start that is not negative and an end that is -1 or more. */
  function Slice<T>(s: seq<T>, start: nat, end: int): seq<T>
    requires end >= -1
  {
    var e := if end < 0 then (if |s| > 0 then |s| - 1 else 0) else if end <= |s| then end else |s|;
    if start < e then s[start..e] else []
  }

  /** The first index whose portfolio is dated on or after `d`. */
  function FirstOnOrAfter(portos: seq<SharePortfolio>, d: Date): (r: Option<nat>)
    ensures r.None? <==> forall k :: 0 <= k < |portos| ==> portos[k].portfolioDate < d
    ensures r.Some? ==> r.value < |portos| && portos[r.value].portfolioDate >= d
    ensures r.Some? ==> forall k :: 0 <= k < r.value ==> portos[k].portfolioDate < d
  {
    if portos == [] then None
    else if portos[0].portfolioDate >= d then Some(0)
    else match FirstOnOrAfter(portos[1..], d)
      case None =>
        assert forall k :: 1 <= k < |portos| ==> portos[k] == portos[1..][k - 1];
        None
      case Some(k) =>
        assert forall j :: 1 <= j < |portos| ==> portos[j] == portos[1..][j - 1];
        Some(k + 1)
  }

  /** `start_idx`: 0 without a start date or when no portfolio qualifies. */
  function StartIndex(portos: seq<SharePortfolio>, startDate: Option<Date>): nat
  {
    if startDate.None? then 0
    else match FirstOnOrAfter(portos, startDate.value)
      case None => 0
      case Some(k) => k
  }

  /** `end_idx`: -1 without an end date or when no portfolio qualifies. */
  function EndIndex(portos: seq<SharePortfolio>, endDate: Option<Date>): int
  {
    if endDate.None? then -1
    else match FirstOnOrAfter(portos, endDate.value)
      case None => -1
      case Some(k) => k
  }

  /** `get_portfolios` as written. */
  function Window(portos: seq<SharePortfolio>, startDate: Option<Date>, endDate: Option<Date>): (r: seq<SharePortfolio>)
    ensures r != [] ==> StartIndex(portos, startDate) + |r| <= |portos|
    ensures r != [] ==> r == portos[StartIndex(portos, startDate)..StartIndex(portos, startDate) + |r|]
    ensures endDate.None? && portos != [] ==> StartIndex(portos, startDate) + |r| < |portos|
  {
    Slice(portos, StartIndex(portos, startDate), EndIndex(portos, endDate))
  }

  /** `get_portfolios`: two searches that stop at the first portfolio dated on or after the bound. */
  method GetPortfolios(portos: seq<SharePortfolio>, startDate: Option<Date>, endDate: Option<Date>)
    returns (r: seq<SharePortfolio>)
    ensures r == Window(portos, startDate, endDate)
  {
    var startIdx: nat := 0;
    var endIdx := -1;
    if startDate.Some? {
      var idx := 0;
      while idx < |portos|
        invariant 0 <= idx <= |portos|
        invariant forall k :: 0 <= k < idx ==> portos[k].portfolioDate < startDate.value
      {
        if portos[idx].portfolioDate >= startDate.value {
          startIdx := idx;
          break;
        }
        idx := idx + 1;
      }
    }
    assert startIdx == StartIndex(portos, startDate);
    if endDate.Some? {
      var idx := 0;
      while idx < |portos|
        invariant 0 <= idx <= |portos|
        invariant forall k :: 0 <= k < idx ==> portos[k].portfolioDate < endDate.value
      {
        if portos[idx].portfolioDate >= endDate.value {
          endIdx := idx;
          break;
        }
        idx := idx + 1;
      }
    }
    assert endIdx == EndIndex(portos, endDate);
    r := Slice(portos, startIdx, endIdx);
  }

  /** The result is a contiguous run of the loaded portfolios, in their order. */
  lemma WindowIsContiguous(portos: seq<SharePortfolio>, startDate: Option<Date>, endDate: Option<Date>)
    ensures exists lo, hi :: 0 <= lo <= hi <= |portos| && Window(portos, startDate, endDate) == portos[lo..hi]
  {
    var s := StartIndex(portos, startDate);
    var end := EndIndex(portos, endDate);
    var e := if end < 0 then (if |portos| > 0 then |portos| - 1 else 0) else if end <= |portos| then end else |portos|;
    if s < e {
      assert Window(portos, startDate, endDate) == portos[s..e];
    } else {
      assert Window(portos, startDate, endDate) == portos[0..0];
    }
  }

  /** Without an end date the last loaded portfolio never shows. */
  lemma WindowDropsLast(portos: seq<SharePortfolio>, startDate: Option<Date>)
    requires portos != []
    ensures |Window(portos, startDate, None)| < |portos|
    ensures Window(portos, startDate, None) == Slice(portos[..|portos| - 1], StartIndex(portos, startDate), |portos| - 1)
  {
  }

  /** One loaded portfolio and no dates: as written the window is empty, though nothing filters it out. */
  lemma WindowOfOnePortfolio(p: SharePortfolio)
    ensures Window([p], None, None) == []
    ensures WindowIntended([p], None, None) == [p]
  {
  }

  /** A start date after every portfolio: as written the window still holds all but the last. */
  lemma WindowAfterAllPortfolios(p0: SharePortfolio, p1: SharePortfolio)
    requires p0.portfolioDate < p1.portfolioDate
    ensures Window([p0, p1], Some(p1.portfolioDate + 1), None) == [p0]
    ensures WindowIntended([p0, p1], Some(p1.portfolioDate + 1), None) == []
  {
    assert FirstOnOrAfter([p0, p1], p1.portfolioDate + 1).None?;
  }

  // ---- the window as evidently intended ----

  /** A date lies in the window: on or after the start date and before the end date, where given. */
  predicate InWindow(d: Date, startDate: Option<Date>, endDate: Option<Date>)
  {
    (startDate.None? || startDate.value <= d) && (endDate.None? || d < endDate.value)
  }

  /** The loaded portfolios are in increasing date order, as `to_portfolios` leaves them. */
  predicate Ascending(portos: seq<SharePortfolio>)
  {
    forall i, j :: 0 <= i < j < |portos| ==> portos[i].portfolioDate < portos[j].portfolioDate
  }

  /** The intended first index: 0 without a start date, the end of the tuple when no portfolio is dated on or after it. */
  function IntendedStart(portos: seq<SharePortfolio>, startDate: Option<Date>): (lo: nat)
    ensures lo <= |portos|
  {
    if startDate.None? then 0 else match FirstOnOrAfter(portos, startDate.value) case None => |portos| case Some(k) => k
  }

  /** The intended end index: the end of the tuple without an end date or when no portfolio is dated on or after it. */
  function IntendedEnd(portos: seq<SharePortfolio>, endDate: Option<Date>): (hi: nat)
    ensures hi <= |portos|
  {
    if endDate.None? then |portos| else match FirstOnOrAfter(portos, endDate.value) case None => |portos| case Some(k) => k
  }

  /** Indices that default to the end of the tuple, so that a missing bound filters nothing and an unmet start date everything. */
  function WindowIntended(portos: seq<SharePortfolio>, startDate: Option<Date>, endDate: Option<Date>): seq<SharePortfolio>
  {
    var lo := IntendedStart(portos, startDate);
    var hi := IntendedEnd(portos, endDate);
    if lo < hi then portos[lo..hi] else []
  }

  /** On ascending portfolios the first one dated on or after `d` splits them into those before `d` and the rest. */
  lemma FirstOnOrAfterSplits(portos: seq<SharePortfolio>, d: Date, k: nat)
    requires Ascending(portos) && k < |portos|
    ensures d <= portos[k].portfolioDate <==> (FirstOnOrAfter(portos, d).Some? && FirstOnOrAfter(portos, d).value <= k)
  {
    var f := FirstOnOrAfter(portos, d);
    if f.Some? && f.value < k {
      assert portos[f.value].portfolioDate < portos[k].portfolioDate;
    }
  }

  /** On ascending portfolios the intended start index is where the portfolios on or after the start date begin. */
  lemma IntendedStartSelects(portos: seq<SharePortfolio>, startDate: Option<Date>, k: nat)
    requires Ascending(portos) && k < |portos|
    ensures (startDate.None? || startDate.value <= portos[k].portfolioDate) <==> IntendedStart(portos, startDate) <= k
  {
    if startDate.Some? {
      FirstOnOrAfterSplits(portos, startDate.value, k);
    }
  }

  /** On ascending portfolios the intended end index is where the portfolios before the end date stop. */
  lemma IntendedEndSelects(portos: seq<SharePortfolio>, endDate: Option<Date>, k: nat)
    requires Ascending(portos) && k < |portos|
    ensures (endDate.None? || portos[k].portfolioDate < endDate.value) <==> k < IntendedEnd(portos, endDate)
  {
    if endDate.Some? {
      FirstOnOrAfterSplits(portos, endDate.value, k);
    }
  }

  /** On ascending portfolios the intended window holds exactly the portfolios dated inside it, in order. */
  lemma WindowIntendedSelects(portos: seq<SharePortfolio>, startDate: Option<Date>, endDate: Option<Date>)
    requires Ascending(portos)
    ensures exists lo, hi :: (0 <= lo <= hi <= |portos| && WindowIntended(portos, startDate, endDate) == portos[lo..hi]
      && forall k :: 0 <= k < |portos| ==> (lo <= k < hi <==> InWindow(portos[k].portfolioDate, startDate, endDate)))
  {
    var lo := IntendedStart(portos, startDate);
    var hi := IntendedEnd(portos, endDate);
    forall k | 0 <= k < |portos|
      ensures lo <= k < hi <==> InWindow(portos[k].portfolioDate, startDate, endDate)
    {
      IntendedStartSelects(portos, startDate, k);
      IntendedEndSelects(portos, endDate, k);
    }
    if lo < hi {
      assert WindowIntended(portos, startDate, endDate) == portos[lo..hi];
    } else {
      assert WindowIntended(portos, startDate, endDate) == portos[lo..lo];
    }
  }

  // ---- the dates the page opens with ----

  /** `get_startdate`: the first loaded portfolio's date, or 2020-01-01. */
  function StartDate(portos: seq<SharePortfolio>): (d: Date)
    ensures portos == [] ==> d == DEFAULT_START_DATE
  {
    if portos != [] then portos[0].portfolioDate else DEFAULT_START_DATE
  }

  /** `get_enddate`: the last loaded portfolio's date, or today, which the caller supplies. */
  function EndDate(portos: seq<SharePortfolio>, today: Date): (d: Date)
    ensures portos == [] ==> d == today
  {
    if portos != [] then portos[|portos| - 1].portfolioDate else today
  }

  /** On ascending portfolios the start and end dates are the earliest and the latest portfolio dates. */
  lemma StartAndEndBracketPortfolios(portos: seq<SharePortfolio>, today: Date)
    requires Ascending(portos) && portos != []
    ensures Some(StartDate(portos)) == EarliestPortfolioDate(portos)
    ensures Some(EndDate(portos, today)) == LatestPortfolioDate(portos)
  {
    var n := |portos| - 1;
    assert forall k :: 0 <= k < |portos| ==> portos[0].portfolioDate <= portos[k].portfolioDate <= portos[n].portfolioDate;
  }

  /** On ascending portfolios every portfolio but the last is dated before the end date. */
  lemma EndDateBeyondFront(portos: seq<SharePortfolio>, today: Date)
    requires Ascending(portos) && portos != []
    ensures IntendedEnd(portos, Some(EndDate(portos, today))) == |portos| - 1
  {
    var n := |portos| - 1;
    assert forall k :: 0 <= k < n ==> portos[k].portfolioDate < portos[n].portfolioDate;
  }

  /** With the start and end dates of the loaded portfolios the intended window holds all but the last. */
  lemma DefaultDatesWindow(portos: seq<SharePortfolio>, today: Date)
    requires Ascending(portos) && portos != []
    ensures WindowIntended(portos, Some(StartDate(portos)), Some(EndDate(portos, today))) == portos[..|portos| - 1]
  {
    var n := |portos| - 1;
    IntendedStartSelects(portos, Some(StartDate(portos)), 0);
    IntendedEndSelects(portos, Some(EndDate(portos, today)), n);
    EndDateBeyondFront(portos, today);
  }
}
