/**
 * The reconciliation tests of tests/test_entities_shares.py, on the snapshot
 * data and transactions their fixtures build, run through the engine of the
 * Shares module.
 */
module SharesTests {
  import opened Wrappers
  import opened Calendar
  import opened Decimal
  import opened Money
  import opened Transactions
  import opened Shares

  /** The snapshot data of the source's tests: three weeks back and today. */
  function FixturePositions3w(today: Date): map<string, SharePosition>
  {
    var d := today - 21;
    map["NL0010408704" := SharePosition(d, Amount(1035.0), "NL0010408704", "VanEck Sustainable World Equal Weight UCITS ETF",
                                        Amount(1000.08), 36.0, Amount(28.75), Amount(86.50)),
        "IE00B441G979" := SharePosition(d, Amount(0.0), "IE00B441G979", "iShares MSCI World EUR Hedged UCITS ETF",
                                        Amount(0.0), 0.0, Amount(1.0), Amount(-10.50)),
        "IE00B3RBWM25" := SharePosition(d, Amount(1250.76), "IE00B3RBWM25", "Vanguard FTSE All-World UCITS ETF USD Dis",
                                        Amount(970.00), 12.0, Amount(106.00), Amount(23.66))]
  }

  function FixturePositionsToday(today: Date): map<string, SharePosition>
  {
    map["NL0010408704" := SharePosition(today, Amount(0.0), "NL0010408704", "VanEck Sustainable World Equal Weight UCITS ETF",
                                        Amount(1000.08), 0.0, Amount(1.0), Amount(86.50)),
        "IE00B441G979" := SharePosition(today, Amount(1190.72), "IE00B441G979", "iShares MSCI World EUR Hedged UCITS ETF",
                                        Amount(1030.00), 16.0, Amount(74.42), Amount(-10.50)),
        "IE00B3RBWM25" := SharePosition(today, Amount(1060.00), "IE00B3RBWM25", "Vanguard FTSE All-World UCITS ETF USD Dis",
                                        Amount(970.00), 10.0, Amount(106.00), Amount(23.66))]
  }

  function FixtureTransaction(today: Date, daysBack: int, isin: string, nrStocks: real, price: real,
                              kind: ShareTransactionKind): ShareTransaction
  {
    ShareTransaction(DateTime(today - daysBack, 0), isin, nrStocks, Amount(price), kind, Amount(nrStocks * price))
  }

  /** A sale nine days back takes its buy price from the snapshot of three weeks back. */
  lemma FixturePrevPosition(today: Date)
    ensures
      var data := map[today - 21 := FixturePositions3w(today), today := FixturePositionsToday(today)];
      var sell1 := FixtureTransaction(today, 9, "NL0010408704", 36.0, 28.79, SELL);
      && EurSnapshots(data)
      && PrevPosition(data, sell1) == Some(FixturePositions3w(today)["NL0010408704"])
  {
    var data := map[today - 21 := FixturePositions3w(today), today := FixturePositionsToday(today)];
    var sell1 := FixtureTransaction(today, 9, "NL0010408704", 36.0, 28.79, SELL);
    assert today - 21 in data;
    assert LastBefore(data, sell1.TransactionDate()) == today - 21;
  }

  /** The two snapshots of the source's tests, keyed by their dates. */
  function FixtureData(today: Date): Snapshots
  {
    map[today - 21 := FixturePositions3w(today), today := FixturePositionsToday(today)]
  }

  /** The result of one 18-stock half of the first sale, priced from the snapshot of three weeks back. */
  lemma HalfSaleResult(today: Date)
    ensures
      var half := FixtureTransaction(today, 9, "NL0010408704", 36.0, 28.79, SELL).(nrStocks := 18.0);
      var res := TransactionResult(half, Some(FixturePositions3w(today)["NL0010408704"]));
      res.0 == Amount(-500.04) && res.1.valueExact == 536.40 && res.1.curr == "EUR"
  {
    var half := FixtureTransaction(today, 9, "NL0010408704", 36.0, 28.79, SELL).(nrStocks := 18.0);
    var res := TransactionResult(half, Some(FixturePositions3w(today)["NL0010408704"]));
    assert res.0.valueExact * 36.0 == -18.0 * 1000.08;
  }

  /** The result of the second sale, 2 of 12 stocks priced from the snapshot of three weeks back. */
  lemma PartSaleResult(today: Date)
    ensures
      var sell2 := FixtureTransaction(today, 12, "IE00B3RBWM25", 2.0, 105.25, SELL);
      var res := TransactionResult(sell2, Some(FixturePositions3w(today)["IE00B3RBWM25"]));
      res.0 == Amount(-970.0 / 6.0) && res.1.valueExact == 210.5 - 970.0 / 6.0 && res.1.curr == "EUR"
  {
    var sell2 := FixtureTransaction(today, 12, "IE00B3RBWM25", 2.0, 105.25, SELL);
    var res := TransactionResult(sell2, Some(FixturePositions3w(today)["IE00B3RBWM25"]));
    assert res.0.valueExact * 12.0 == -2.0 * 970.0;
  }

  /** Snapshots dated like the fixtures, the older one untouched, today's holding the three ISINs. */
  ghost predicate LikeFixture(today: Date, d: Snapshots)
  {
    && EurSnapshots(d) && d.Keys == {today - 21, today} && d[today - 21] == FixturePositions3w(today)
    && "NL0010408704" in d[today] && "IE00B3RBWM25" in d[today] && "IE00B441G979" in d[today]
  }

  /** The second sale, twelve days back, priced from the snapshot of three weeks back. */
  lemma PartSaleStep(today: Date, d: Snapshots)
    requires LikeFixture(today, d)
    ensures
      var sell2 := FixtureTransaction(today, 12, "IE00B3RBWM25", 2.0, 105.25, SELL);
      && HasOnOrAfter(d, sell2.TransactionDate()) && StepSafe(sell2, d)
      && var r := ApplyOne(sell2, d);
      && LikeFixture(today, r)
      && r[today]["NL0010408704"] == d[today]["NL0010408704"] && r[today]["IE00B441G979"] == d[today]["IE00B441G979"]
      && r[today]["IE00B3RBWM25"].investment.valueExact == d[today]["IE00B3RBWM25"].investment.valueExact - 970.0 / 6.0
      && r[today]["IE00B3RBWM25"].realized.valueExact == d[today]["IE00B3RBWM25"].realized.valueExact + 210.5 - 970.0 / 6.0
  {
    var sell2 := FixtureTransaction(today, 12, "IE00B3RBWM25", 2.0, 105.25, SELL);
    StepBetween(sell2, d, today - 21, today);
    PartSaleResult(today);
  }

  /** The first sale, nine days back, of every stock in the snapshot of three weeks back. */
  lemma SellAllStep(today: Date, d: Snapshots)
    requires LikeFixture(today, d)
    ensures
      var sell1 := FixtureTransaction(today, 9, "NL0010408704", 36.0, 28.79, SELL);
      && HasOnOrAfter(d, sell1.TransactionDate()) && StepSafe(sell1, d)
      && var r := ApplyOne(sell1, d);
      && LikeFixture(today, r)
      && r[today]["IE00B3RBWM25"] == d[today]["IE00B3RBWM25"] && r[today]["IE00B441G979"] == d[today]["IE00B441G979"]
      && r[today]["NL0010408704"].investment.valueExact == d[today]["NL0010408704"].investment.valueExact - 1000.08
      && r[today]["NL0010408704"].realized.valueExact == d[today]["NL0010408704"].realized.valueExact + 36.36
  {
    var sell1 := FixtureTransaction(today, 9, "NL0010408704", 36.0, 28.79, SELL);
    StepBetween(sell1, d, today - 21, today);
    SellingEverythingClearsInvestment(sell1, FixturePositions3w(today)["NL0010408704"]);
  }

  /** The purchase, a week back, of 16 stocks for 1030.00. */
  lemma BuyStep(today: Date, d: Snapshots)
    requires LikeFixture(today, d)
    ensures
      var buy := FixtureTransaction(today, 7, "IE00B441G979", 16.0, 64.375, BUY);
      && HasOnOrAfter(d, buy.TransactionDate()) && StepSafe(buy, d)
      && var r := ApplyOne(buy, d);
      && LikeFixture(today, r)
      && r[today]["IE00B3RBWM25"] == d[today]["IE00B3RBWM25"] && r[today]["NL0010408704"] == d[today]["NL0010408704"]
      && r[today]["IE00B441G979"].investment.valueExact == d[today]["IE00B441G979"].investment.valueExact + 1030.0
  {
    var buy := FixtureTransaction(today, 7, "IE00B441G979", 16.0, 64.375, BUY);
    StepBetween(buy, d, today - 21, today);
  }

  /** The three transactions of the sale-and-purchase test in sorted order, one after the other: the exact values today. */
  lemma SellAndBuySteps(today: Date)
    ensures
      var data := FixtureData(today);
      var sell1 := FixtureTransaction(today, 9, "NL0010408704", 36.0, 28.79, SELL);
      var sell2 := FixtureTransaction(today, 12, "IE00B3RBWM25", 2.0, 105.25, SELL);
      var buy := FixtureTransaction(today, 7, "IE00B441G979", 16.0, 64.375, BUY);
      && EurSnapshots(data)
      && HasOnOrAfter(data, sell2.TransactionDate()) && StepSafe(sell2, data)
      && var d1 := ApplyOne(sell2, data);
      && HasOnOrAfter(d1, sell1.TransactionDate()) && StepSafe(sell1, d1)
      && var d2 := ApplyOne(sell1, d1);
      && HasOnOrAfter(d2, buy.TransactionDate()) && StepSafe(buy, d2)
      && var r := ApplyOne(buy, d2)[today];
      && r["NL0010408704"].investment.valueExact == 0.0 && r["NL0010408704"].realized.valueExact == 122.86
      && r["IE00B441G979"].investment.valueExact == 2060.0
      && r["IE00B3RBWM25"].investment.valueExact == 970.0 - 970.0 / 6.0
      && r["IE00B3RBWM25"].realized.valueExact == 23.66 + 210.5 - 970.0 / 6.0
  {
    var data := FixtureData(today);
    var sell1 := FixtureTransaction(today, 9, "NL0010408704", 36.0, 28.79, SELL);
    var sell2 := FixtureTransaction(today, 12, "IE00B3RBWM25", 2.0, 105.25, SELL);
    assert LikeFixture(today, data);
    PartSaleStep(today, data);
    var d1 := ApplyOne(sell2, data);
    SellAllStep(today, d1);
    var d2 := ApplyOne(sell1, d1);
    BuyStep(today, d2);
  }

  /**
   * `test_sell_and_buy_transaction`: `apply_transactions((sell1, sell2, buy),
   * portfolios)` sorts the transactions and leaves today's NL0010408704 at
   * investment 0.00 and realized 122.86, IE00B441G979 at investment 2060.00,
   * and IE00B3RBWM25 at investment 808.33 and realized 72.49.
   */
  lemma SellAndBuyOracle(today: Date)
    ensures
      var data := FixtureData(today);
      var sell1 := FixtureTransaction(today, 9, "NL0010408704", 36.0, 28.79, SELL);
      var sell2 := FixtureTransaction(today, 12, "IE00B3RBWM25", 2.0, 105.25, SELL);
      var buy := FixtureTransaction(today, 7, "IE00B441G979", 16.0, 64.375, BUY);
      && EurSnapshots(data) && AllComparable([sell1, sell2, buy])
      && Safe(SortTransactions([sell1, sell2, buy]), data)
      && var r := ApplyAll(SortTransactions([sell1, sell2, buy]), data)[today];
      && r["NL0010408704"].investment.Value() == 0.0 && r["NL0010408704"].realized.Value() == 122.86
      && r["IE00B441G979"].investment.Value() == 2060.0
      && r["IE00B3RBWM25"].investment.Value() == 808.33 && r["IE00B3RBWM25"].realized.Value() == 72.49
  {
    var sell1 := FixtureTransaction(today, 9, "NL0010408704", 36.0, 28.79, SELL);
    var sell2 := FixtureTransaction(today, 12, "IE00B3RBWM25", 2.0, 105.25, SELL);
    var buy := FixtureTransaction(today, 7, "IE00B441G979", 16.0, 64.375, BUY);
    SortByDate3(sell2, sell1, buy);
    SellAndBuySteps(today);
    var d1 := ApplyOne(sell2, FixtureData(today));
    ApplyThree(sell2, sell1, buy, FixtureData(today), d1, ApplyOne(sell1, d1));
    Round2Nearest(0.0, 0);
    Round2Nearest(122.86, 12286);
    Round2Nearest(2060.0, 206000);
    Round2Nearest(970.0 - 970.0 / 6.0, 80833);
    Round2Nearest(23.66 + 210.5 - 970.0 / 6.0, 7249);
  }

  /**
   * `test_dividend_transaction`: the dividend of 13.13 a week back leaves
   * today's IE00B3RBWM25 at investment 970.00 and realized 36.79.
   */
  lemma DividendOracle(today: Date)
    ensures
      var data := FixtureData(today);
      var dividend := FixtureTransaction(today, 7, "IE00B3RBWM25", 1.0, 13.13, DIVIDEND);
      && EurSnapshots(data) && AllComparable([dividend])
      && Safe(SortTransactions([dividend]), data)
      && var q := ApplyAll(SortTransactions([dividend]), data)[today]["IE00B3RBWM25"];
      && q.investment.Value() == 970.0 && q.realized.Value() == 36.79
  {
    var data := FixtureData(today);
    var dividend := FixtureTransaction(today, 7, "IE00B3RBWM25", 1.0, 13.13, DIVIDEND);
    SortCopies(dividend, [dividend]);
    assert EurSnapshots(data);
    assert today in data && HasOnOrAfter(data, dividend.TransactionDate());
    var d1: Snapshots := ApplyOne(dividend, data);
    ApplyOneFrame(dividend, data, today, "IE00B3RBWM25");
    assert [dividend][1..] == [];
    assert Safe([], d1);
    assert ApplyAll([dividend], data) == d1;
    Round2Nearest(970.0, 97000);
    Round2Nearest(36.79, 3679);
  }

  /**
   * `test_double_buy_transaction`: two purchases of 8 stocks built with
   * `replace(buy, nr_stocks=8.0)` keep the full amount of 1030.00 each, so
   * today's IE00B441G979 ends at investment 3090.00 (the test asserts 2060.0).
   */
  lemma DoubleBuyOracle(today: Date)
    ensures
      var data := FixtureData(today);
      var half := FixtureTransaction(today, 7, "IE00B441G979", 16.0, 64.375, BUY).(nrStocks := 8.0);
      && EurSnapshots(data) && AllComparable([half, half])
      && Safe(SortTransactions([half, half]), data)
      && ApplyAll(SortTransactions([half, half]), data)[today]["IE00B441G979"].investment.Value() == 3090.0
  {
    var data := FixtureData(today);
    var half := FixtureTransaction(today, 7, "IE00B441G979", 16.0, 64.375, BUY).(nrStocks := 8.0);
    var ie4 := "IE00B441G979";
    SortCopies(half, [half, half]);
    assert today in data && HasOnOrAfter(data, half.TransactionDate());
    var d1: Snapshots := ApplyOne(half, data);
    ApplyOneFrame(half, data, today, ie4);
    assert today in d1 && HasOnOrAfter(d1, half.TransactionDate());
    var d2: Snapshots := ApplyOne(half, d1);
    ApplyOneFrame(half, d1, today, ie4);
    ApplyTwo(half, half, data);
    Round2Nearest(3090.0, 309000);
  }

  /** The two halves of the first sale, one after the other: the exact values today. */
  lemma DoubleSellSteps(today: Date)
    ensures
      var data := FixtureData(today);
      var half := FixtureTransaction(today, 9, "NL0010408704", 36.0, 28.79, SELL).(nrStocks := 18.0);
      && EurSnapshots(data)
      && HasOnOrAfter(data, half.TransactionDate()) && StepSafe(half, data)
      && var d1 := ApplyOne(half, data);
      && HasOnOrAfter(d1, half.TransactionDate()) && StepSafe(half, d1)
      && var q := ApplyOne(half, d1)[today]["NL0010408704"];
      && q.investment.valueExact == 0.0 && q.realized.valueExact == 1159.30
  {
    var data := FixtureData(today);
    var half := FixtureTransaction(today, 9, "NL0010408704", 36.0, 28.79, SELL).(nrStocks := 18.0);
    StepBetween(half, data, today - 21, today);
    HalfSaleResult(today);
    // the second half finds the snapshot of three weeks back untouched
    StepBetween(half, ApplyOne(half, data), today - 21, today);
  }

  /**
   * `test_double_sell_transaction`: two sales of 18 stocks built with
   * `replace(sell1, nr_stocks=18.0)` keep the full amount of 1036.44 each. Both
   * lie in one gap and take the buy price of the snapshot of three weeks back,
   * so today's NL0010408704 ends at investment 0.00 and realized 1159.30 (the
   * test asserts 122.86).
   */
  lemma DoubleSellOracle(today: Date)
    ensures
      var data := FixtureData(today);
      var half := FixtureTransaction(today, 9, "NL0010408704", 36.0, 28.79, SELL).(nrStocks := 18.0);
      && EurSnapshots(data) && AllComparable([half, half])
      && Safe(SortTransactions([half, half]), data)
      && var q := ApplyAll(SortTransactions([half, half]), data)[today]["NL0010408704"];
      && q.investment.Value() == 0.0 && q.realized.Value() == 1159.30
  {
    var half := FixtureTransaction(today, 9, "NL0010408704", 36.0, 28.79, SELL).(nrStocks := 18.0);
    SortCopies(half, [half, half]);
    DoubleSellSteps(today);
    ApplyTwo(half, half, FixtureData(today));
    Round2Nearest(0.0, 0);
    Round2Nearest(1159.30, 115930);
  }
}
