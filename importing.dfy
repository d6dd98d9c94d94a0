/**
 * The import use cases of src/stockwatch/use_cases/importing.py, over rows
 * already read from the exported files: classifying account-ledger rows into
 * transactions, and building the dated position dictionaries in which every
 * date holds every ISIN ever seen.
 */
module Importing {
  import opened Wrappers
  import opened Decimal
  import opened Calendar
  import opened Text
  import opened Entities

  /** The exceptions the row parsing can raise: a missing token or a malformed number, and a missing key. */
  datatype RowError = IndexError | ValueError | KeyError

  /** `float(s.replace(",", "."))`. */
  function ParseNumber(s: string): (r: Result<real, RowError>)
    ensures r.Success? <==> ParseDecimal(ReplaceChar(s, ',', '.')).Some?
    ensures r.Success? ==> r.value == ParseDecimal(ReplaceChar(s, ',', '.')).value
    ensures r.Failure? ==> r.error == ValueError
  {
    match ParseDecimal(ReplaceChar(s, ',', '.'))
    case None => Failure(ValueError)
    case Some(v) => Success(v)
  }

  // ---- the account ledger ----

  /** A ledger row: its `ISIN`, its `Datum` as a date, `Omschrijving`, `Mutatie` and `Bedrag`. */
  datatype LedgerRow = LedgerRow(isin: string, date: Date, description: string, mutation: string, amount: string)

  /**
   * `_process_buy_transaction_row` and `_process_sell_transaction_row`: the
   * count is the token after the keyword and the price the third token after it.
   */
  function TradeRow(transactionDate: Date, isin: string, row: LedgerRow, keyword: string,
                    kind: ShareTransactionKind): (r: Result<ShareTransaction, RowError>)
    ensures keyword !in Split(row.description) ==> r == Failure(ValueError)
    ensures r.Success? ==> r.value == ShareTransaction(kind, isin, row.mutation, r.value.nrStocks, r.value.price, transactionDate)
  {
    var descr := Split(row.description);
    match IndexOf(descr, keyword)
    case None => Failure(ValueError)
    case Some(k) =>
      if k + 1 >= |descr| then Failure(IndexError)
      else match ParseNumber(descr[k + 1])
        case Failure(e) => Failure(e)
        case Success(nrStocks) =>
          if k + 3 >= |descr| then Failure(IndexError)
          else match ParseNumber(descr[k + 3])
            case Failure(e) => Failure(e)
            case Success(price) => Success(ShareTransaction(kind, isin, row.mutation, nrStocks, price, transactionDate))
  }

  /**
   * A trade row reads its count and price at the first occurrence of the
   * keyword, one and three tokens on, and fails when either is missing or malformed.
   */
  lemma TradeRowTokens(transactionDate: Date, isin: string, row: LedgerRow, keyword: string, kind: ShareTransactionKind,
                       k: nat)
    requires var descr := Split(row.description); k < |descr| && descr[k] == keyword && keyword !in descr[..k]
    ensures var r, descr := TradeRow(transactionDate, isin, row, keyword, kind), Split(row.description);
      r.Success? <==> (k + 3 < |descr| && ParseNumber(descr[k + 1]).Success? && ParseNumber(descr[k + 3]).Success?)
    ensures var r, descr := TradeRow(transactionDate, isin, row, keyword, kind), Split(row.description);
      r.Success? ==> r.value.nrStocks == ParseNumber(descr[k + 1]).value && r.value.price == ParseNumber(descr[k + 3]).value
    ensures var r, descr := TradeRow(transactionDate, isin, row, keyword, kind), Split(row.description);
      k + 1 == |descr| ==> r == Failure(IndexError)
  {
    IndexOfFirst(Split(row.description), keyword, k);
  }

  /** `_process_dividend_transaction_row`: one "stock" priced at the `Bedrag` amount. */
  function DividendRow(transactionDate: Date, isin: string, row: LedgerRow): (r: Result<ShareTransaction, RowError>)
    ensures r.Success? <==> ParseNumber(row.amount).Success?
    ensures r.Success? ==> r.value == ShareTransaction(DIVIDEND, isin, row.mutation, 1.0, ParseNumber(row.amount).value, transactionDate)
  {
    match ParseNumber(row.amount)
    case Failure(e) => Failure(e)
    case Success(amount) => Success(ShareTransaction(DIVIDEND, isin, row.mutation, 1.0, amount, transactionDate))
  }

  /**
   * `_process_transaction_row`: "Koop" before "Verkoop" before "Dividend"
   * among the whitespace tokens of the description; None for anything else.
   */
  function TransactionRow(transactionDate: Date, isin: string, row: LedgerRow): (r: Result<Option<ShareTransaction>, RowError>)
    ensures var descr := Split(row.description);
      r == Success(None) <==> "Koop" !in descr && "Verkoop" !in descr && "Dividend" !in descr
    ensures var descr := Split(row.description);
      r.Success? && r.value.Some? ==>
        r.value.value.kind == (if "Koop" in descr then BUY else if "Verkoop" in descr then SELL else DIVIDEND)
    ensures r.Success? && r.value.Some? ==>
      r.value.value.isin == isin && r.value.value.transactionDate == transactionDate && r.value.value.curr == row.mutation
  {
    var descr := Split(row.description);
    if "Koop" in descr then
      match TradeRow(transactionDate, isin, row, "Koop", BUY)
      case Failure(e) => Failure(e)
      case Success(t) => Success(Some(t))
    else if "Verkoop" in descr then
      match TradeRow(transactionDate, isin, row, "Verkoop", SELL)
      case Failure(e) => Failure(e)
      case Success(t) => Success(Some(t))
    else if "Dividend" in descr then
      match DividendRow(transactionDate, isin, row)
      case Failure(e) => Failure(e)
      case Success(t) => Success(Some(t))
    else Success(None)
  }

  /** Amounts as the exporter writes them, with a decimal comma. */
  lemma ParseCountOracle()
    ensures ParseNumber("16") == Success(16.0)
  {
    assert ReplaceChar("16", ',', '.') == "16";
    assert "16" == ['1', '6'];
    DigitsValueOfTwo('1', '6');
  }

  lemma ParsePriceOracle()
    ensures ParseNumber("64,375") == Success(64.375)
  {
    assert "64,375" == ['6', '4'] + [','] + ['3', '7', '5'];
    ReplaceCommaOfParts(['6', '4'], ['3', '7', '5']);
    ParseDecimalOfParts(['6', '4'], ['3', '7', '5']);
    DecimalValueOfPrice();
  }

  lemma DecimalValueOfPrice()
    ensures DecimalValue(['6', '4'], ['3', '7', '5']) == 64.375
  {
    DigitsValueOfTwo('6', '4');
    DigitsValueOfThree('3', '7', '5');
    assert Pow10(3) == 1000;
  }

  lemma ParseAmountOracle()
    ensures ParseNumber("13,13") == Success(13.13)
  {
    assert "13,13" == ['1', '3'] + [','] + ['1', '3'];
    ReplaceCommaOfParts(['1', '3'], ['1', '3']);
    ParseDecimalOfParts(['1', '3'], ['1', '3']);
    DecimalValueOfAmount();
  }

  lemma DecimalValueOfAmount()
    ensures DecimalValue(['1', '3'], ['1', '3']) == 13.13
  {
    DigitsValueOfTwo('1', '3');
    assert Pow10(2) == 100;
  }

  /** A purchase row of the ledger: "Koop 16 @ 64,375 EUR". */
  lemma BuyRowOracle(d: Date)
    ensures TransactionRow(d, "IE00B441G979", LedgerRow("IE00B441G979", d, Join(["Koop", "16", "@", "64,375", "EUR"]), "EUR", ""))
      == Success(Some(ShareTransaction(BUY, "IE00B441G979", "EUR", 16.0, 64.375, d)))
  {
    var row := LedgerRow("IE00B441G979", d, Join(["Koop", "16", "@", "64,375", "EUR"]), "EUR", "");
    BuyRowWords();
    ParseCountOracle();
    ParsePriceOracle();
    TradeOfWords(d, "IE00B441G979", row, "Koop", BUY, "16", "64,375", "@", "EUR", 16.0, 64.375);
    assert "Koop" in Split(row.description);
  }

  /** The words of the purchase row come back from its description. */
  lemma BuyRowWords()
    ensures Split(Join(["Koop", "16", "@", "64,375", "EUR"])) == ["Koop", "16", "@", "64,375", "EUR"]
  {
    var buy := ["Koop", "16", "@", "64,375", "EUR"];
    assert IsWord("Koop") && IsWord("16") && IsWord("@") && IsWord("64,375") && IsWord("EUR");
    SplitJoinRoundTrip(buy);
  }

  /** A row "<keyword> <count> <at> <price> <currency>" trades the count at the price. */
  lemma TradeOfWords(d: Date, isin: string, row: LedgerRow, keyword: string, kind: ShareTransactionKind,
                     count: string, price: string, at: string, currency: string, nrStocks: real, unitPrice: real)
    requires Split(row.description) == [keyword, count, at, price, currency]
    requires ParseNumber(count) == Success(nrStocks) && ParseNumber(price) == Success(unitPrice)
    ensures TradeRow(d, isin, row, keyword, kind) == Success(ShareTransaction(kind, isin, row.mutation, nrStocks, unitPrice, d))
  {
    var descr := Split(row.description);
    FiveWords(descr, keyword, count, at, price, currency);
    KeywordFirst(descr, keyword);
  }

  /** The positions of a five-word description, as plain equalities. */
  lemma FiveWords(ws: seq<string>, a: string, b: string, c: string, d: string, e: string)
    requires ws == [a, b, c, d, e]
    ensures |ws| == 5 && ws[0] == a && ws[1] == b && ws[3] == d
  {
  }

  lemma KeywordFirst(words: seq<string>, keyword: string)
    requires words != [] && words[0] == keyword
    ensures IndexOf(words, keyword) == Some(0)
  {
  }

  /** A purchase row without its count raises IndexError. */
  lemma TruncatedBuyRowOracle(d: Date)
    ensures TransactionRow(d, "IE00B441G979", LedgerRow("IE00B441G979", d, "Koop", "EUR", "")) == Failure(IndexError)
  {
    var w := "Koop";
    assert IsWord(w);
    SplitJoinRoundTrip([w]);
    assert Join([w]) == w;
    var descr := Split(w);
    assert descr == [w];
    assert IndexOf(descr, w) == Some(0);
  }

  /** A dividend row takes its amount from `Bedrag`: "13,13" is 13.13. */
  lemma DividendRowOracle(d: Date)
    ensures TransactionRow(d, "IE00B3RBWM25", LedgerRow("IE00B3RBWM25", d, "Dividend", "EUR", "13,13"))
      == Success(Some(ShareTransaction(DIVIDEND, "IE00B3RBWM25", "EUR", 1.0, 13.13, d)))
  {
    var w := "Dividend";
    assert IsWord(w);
    SplitJoinRoundTrip([w]);
    assert Join([w]) == w;
    var descr := Split(w);
    assert descr == [w];
    assert "Koop" !in descr && "Verkoop" !in descr && "Dividend" in descr;
    ParseAmountOracle();
  }

  /** The dividend tax row is a token of its own, not "Dividend", and is skipped. */
  lemma DividendTaxRowOracle(d: Date)
    ensures TransactionRow(d, "IE00B3RBWM25", LedgerRow("IE00B3RBWM25", d, "Dividendbelasting", "EUR", "-1,97")) == Success(None)
  {
    var w := "Dividendbelasting";
    assert IsWord(w);
    SplitJoinRoundTrip([w]);
    assert Join([w]) == w;
    var descr := Split(w);
    assert descr == [w];
    assert "Koop" !in descr && "Verkoop" !in descr && "Dividend" !in descr;
  }

  /** What one row of the account file gives: a transaction or nothing for a known ISIN, nothing for any other. */
  function RowOutcome(row: LedgerRow, isins: set<string>): Result<Option<ShareTransaction>, RowError>
  {
    if row.isin in isins then TransactionRow(row.date, row.isin, row) else Success(None)
  }

  /**
   * The rows `process_transactions` keeps, walking the file from its last
   * row to its first: rows of a known ISIN that classify as a transaction.
   */
  function KeptTransactions(rows: seq<LedgerRow>, isins: set<string>): (r: Result<seq<ShareTransaction>, RowError>)
    ensures r.Success? ==> |r.value| <= |rows|
    decreases |rows|
  {
    if rows == [] then Success([])
    else
      var row := rows[|rows| - 1];
      var first := RowOutcome(row, isins);
      match first
      case Failure(e) => Failure(e)
      case Success(t) =>
        match KeptTransactions(rows[..|rows| - 1], isins)
        case Failure(e) => Failure(e)
        case Success(ts) => Success((if t.Some? then [t.value] else []) + ts)
  }

  /** The transaction is what some row of a known ISIN classifies as. */
  ghost predicate FromRow(rows: seq<LedgerRow>, isins: set<string>, t: ShareTransaction)
  {
    exists j :: 0 <= j < |rows| && rows[j].isin == t.isin && rows[j].isin in isins
      && TransactionRow(rows[j].date, rows[j].isin, rows[j]) == Success(Some(t))
  }

  /** The last row is one of the rows. */
  lemma FromLastRow(rows: seq<LedgerRow>, isins: set<string>, t: ShareTransaction)
    requires rows != [] && rows[|rows| - 1].isin in isins && rows[|rows| - 1].isin == t.isin
    requires var row := rows[|rows| - 1]; TransactionRow(row.date, row.isin, row) == Success(Some(t))
    ensures FromRow(rows, isins, t)
  {
    var j := |rows| - 1;
    assert 0 <= j < |rows| && rows[j].isin == t.isin && rows[j].isin in isins
      && TransactionRow(rows[j].date, rows[j].isin, rows[j]) == Success(Some(t));
  }

  /** A row of the front is one of the rows. */
  lemma FromFrontRow(rows: seq<LedgerRow>, isins: set<string>, t: ShareTransaction)
    requires rows != [] && FromRow(rows[..|rows| - 1], isins, t)
    ensures FromRow(rows, isins, t)
  {
    var front := rows[..|rows| - 1];
    var j :| 0 <= j < |front| && front[j].isin == t.isin && front[j].isin in isins
      && TransactionRow(front[j].date, front[j].isin, front[j]) == Success(Some(t));
    assert rows[j] == front[j];
  }

  /** Every kept transaction is of a known ISIN and comes from a row of it. */
  lemma {:induction false} KeptTransactionsAreKnown(rows: seq<LedgerRow>, isins: set<string>)
    requires KeptTransactions(rows, isins).Success?
    ensures var ts := KeptTransactions(rows, isins).value;
      |ts| <= |rows| && forall t :: t in ts ==> t.isin in isins && FromRow(rows, isins, t)
    decreases |rows|
  {
    if rows != [] {
      var row := rows[|rows| - 1];
      var front := rows[..|rows| - 1];
      KeptTransactionsAreKnown(front, isins);
      var first := RowOutcome(row, isins);
      var rest := KeptTransactions(front, isins).value;
      var head: seq<ShareTransaction> := if first.value.Some? then [first.value.value] else [];
      assert KeptTransactions(rows, isins).value == head + rest;
      if head != [] {
        FromLastRow(rows, isins, head[0]);
      }
      forall t | t in rest
        ensures FromRow(rows, isins, t)
      {
        FromFrontRow(rows, isins, t);
      }
    }
  }

  /** Rows of ISINs outside the set are skipped: they give no transaction and no error. */
  lemma {:induction false} UnknownRowsAreSkipped(rows: seq<LedgerRow>, isins: set<string>)
    requires forall j :: 0 <= j < |rows| ==> rows[j].isin !in isins
    ensures KeptTransactions(rows, isins) == Success([])
    decreases |rows|
  {
    if rows != [] {
      var front := rows[..|rows| - 1];
      assert forall j :: 0 <= j < |front| ==> front[j] == rows[j];
      UnknownRowsAreSkipped(front, isins);
    }
  }

  /** Later rows come first: the transactions of a file split in two are those of the second part, then those of the first. */
  lemma {:induction false} KeptTransactionsReversed(a: seq<LedgerRow>, b: seq<LedgerRow>, isins: set<string>)
    ensures KeptTransactions(a + b, isins) ==
      match KeptTransactions(b, isins)
      case Failure(e) => Failure(e)
      case Success(tb) =>
        match KeptTransactions(a, isins)
        case Failure(e) => Failure(e)
        case Success(ta) => Success(tb + ta)
    decreases |b|
  {
    if b == [] {
      assert a + b == a;
      if KeptTransactions(a, isins).Success? {
        assert [] + KeptTransactions(a, isins).value == KeptTransactions(a, isins).value;
      }
    } else {
      var row := b[|b| - 1];
      var front := b[..|b| - 1];
      assert (a + b)[|a + b| - 1] == row;
      assert (a + b)[..|a + b| - 1] == a + front;
      KeptTransactionsReversed(a, front, isins);
      var first := RowOutcome(row, isins);
      if first.Success? && KeptTransactions(front, isins).Success? && KeptTransactions(a, isins).Success? {
        var t := first.value;
        var head: seq<ShareTransaction> := if t.Some? then [t.value] else [];
        assert head + (KeptTransactions(front, isins).value + KeptTransactions(a, isins).value)
          == (head + KeptTransactions(front, isins).value) + KeptTransactions(a, isins).value;
      }
    }
  }

  /** The transactions found so far, in front of those still to come; a failure stays a failure. */
  function Prepended(done: seq<ShareTransaction>, rest: Result<seq<ShareTransaction>, RowError>): (r: Result<seq<ShareTransaction>, RowError>)
    ensures r.Failure? <==> rest.Failure?
    ensures r.Success? ==> |r.value| == |done| + |rest.value| && r.value[..|done|] == done && r.value[|done|..] == rest.value
  {
    match rest
    case Failure(e) => Failure(e)
    case Success(ts) => Success(done + ts)
  }

  /** One row of the backward loop: a failure ends it, a kept transaction joins those found. */
  lemma KeptTransactionsStep(rows: seq<LedgerRow>, isins: set<string>, i: nat, done: seq<ShareTransaction>)
    requires 0 < i <= |rows|
    requires KeptTransactions(rows, isins) == Prepended(done, KeptTransactions(rows[..i], isins))
    ensures var row := rows[i - 1];
      var t := RowOutcome(row, isins);
      && (t.Failure? ==> KeptTransactions(rows, isins) == Failure(t.error))
      && (t.Success? ==>
            KeptTransactions(rows, isins)
            == Prepended(done + (if t.value.Some? then [t.value.value] else []), KeptTransactions(rows[..i - 1], isins)))
  {
    var row := rows[i - 1];
    var t := RowOutcome(row, isins);
    KeptPrefixLast(rows, isins, i);
    PrependedStep(done, t, KeptTransactions(rows[..i - 1], isins), KeptTransactions(rows[..i], isins));
  }

  /** The transactions of the first `i` rows: those of row `i - 1`, then those of the rows before. */
  lemma KeptPrefixLast(rows: seq<LedgerRow>, isins: set<string>, i: nat)
    requires 0 < i <= |rows|
    ensures var row := rows[i - 1];
      var t := RowOutcome(row, isins);
      KeptTransactions(rows[..i], isins) ==
        (match t
         case Failure(e) => Failure(e)
         case Success(x) => Prepended(if x.Some? then [x.value] else [], KeptTransactions(rows[..i - 1], isins)))
  {
    assert rows[..i][i - 1] == rows[i - 1];
    assert rows[..i][..i - 1] == rows[..i - 1];
  }

  /** Prepending in two steps is prepending once; a failing row fails the whole. */
  lemma PrependedStep(done: seq<ShareTransaction>, t: Result<Option<ShareTransaction>, RowError>,
                      rest: Result<seq<ShareTransaction>, RowError>, prefix: Result<seq<ShareTransaction>, RowError>)
    requires prefix == (match t
      case Failure(e) => Failure(e)
      case Success(x) => Prepended(if x.Some? then [x.value] else [], rest))
    ensures t.Failure? ==> Prepended(done, prefix) == Failure(t.error)
    ensures t.Success? ==> Prepended(done, prefix) == Prepended(done + (if t.value.Some? then [t.value.value] else []), rest)
  {
    if t.Success? && rest.Success? {
      var head: seq<ShareTransaction> := if t.value.Some? then [t.value.value] else [];
      assert done + (head + rest.value) == (done + head) + rest.value;
    }
  }

  /** `process_transactions` on the rows of the account file. */
  method ProcessTransactions(rows: seq<LedgerRow>, isins: set<string>) returns (r: Result<seq<ShareTransaction>, RowError>)
    ensures r == KeptTransactions(rows, isins)
  {
    var transactions: seq<ShareTransaction> := [];
    var i := |rows|;
    assert rows[..i] == rows;
    var all := KeptTransactions(rows, isins);
    if all.Success? {
      assert transactions + all.value == all.value;
    }
    while i > 0
      invariant 0 <= i <= |rows|
      invariant KeptTransactions(rows, isins) == Prepended(transactions, KeptTransactions(rows[..i], isins))
    {
      var row := rows[i - 1];
      KeptTransactionsStep(rows, isins, i, transactions);
      var t := RowOutcome(row, isins);
      if t.Failure? {
        return Failure(t.error);
      }
      if t.value.Some? {
        transactions := transactions + [t.value.value];
      } else {
        assert transactions + [] == transactions;
      }
      i := i - 1;
    }
    assert KeptTransactions(rows[..0], isins) == Success([]);
    assert transactions + [] == transactions;
    return Success(transactions);
  }

  // ---- the portfolio files ----

  /** A portfolio row: `Symbool/ISIN`, `Product`, `Lokale waarde`, `Aantal`, `Slotkoers`, `Waarde in EUR`. */
  datatype PortfolioRow = PortfolioRow(isin: string, product: string, localValue: string, count: string,
                                       closingPrice: string, valueInEur: string)

  /** A portfolio file: the date in its name and its rows. */
  datatype PortfolioFile = PortfolioFile(fileDate: Date, rows: seq<PortfolioRow>)

  /** `s.replace(from, to, count)`: only the first `count` occurrences. */
  function ReplaceFirst(s: string, from: char, to: char, count: nat): (r: string)
    ensures |r| == |s|
    ensures count >= |s| ==> r == ReplaceChar(s, from, to)
  {
    if s == [] then []
    else if s[0] == from && count > 0 then [to] + ReplaceFirst(s[1..], from, to, count - 1)
    else [s[0]] + ReplaceFirst(s[1..], from, to, count)
  }

  /** A position read from a row: valued to the cent, with no investment and no realized return yet. */
  function RowPosition(fileDate: Date, row: PortfolioRow): (r: Result<SharePosition, RowError>)
    ensures r.Success? ==> r.value.positionDate == fileDate && r.value.isin == row.isin && r.value.name == row.product
    ensures r.Success? ==> r.value.investment == 0.0 && r.value.realized == 0.0 && IsCents(r.value.price) && IsCents(r.value.value)
    ensures Split(row.localValue) == [] ==> r == Failure(IndexError)
    ensures r.Failure? ==> r.error != KeyError
  {
    var words := Split(row.localValue);
    if words == [] then Failure(IndexError)
    else match ParseDecimal(ReplaceFirst(row.count, ',', '.', 2))
      case None => Failure(ValueError)
      case Some(nrStocks) =>
        match ParseNumber(row.closingPrice)
        case Failure(e) => Failure(e)
        case Success(price) =>
          match ParseNumber(row.valueInEur)
          case Failure(e) => Failure(e)
          case Success(value) =>
            Success(SharePosition(fileDate, Round2(value), row.product, row.isin, words[0], 0.0, nrStocks, Round2(price), 0.0))
  }

  /** `SharePosition.empty_position(position_date=.., isin=.., name=..)`. */
  function Placeholder(positionDate: Date, isin: string, name: string): (p: SharePosition)
    ensures p == EmptyPosition(positionDate, isin).(name := name)
  {
    EmptyPosition(positionDate, isin).(name := name)
  }

  type Snapshots = map<Date, map<string, SharePosition>>

  /** The back-fill: a placeholder for the new ISIN in every portfolio built so far. */
  function BackFilled(data: Snapshots, isin: string, name: string): (r: Snapshots)
    ensures r.Keys == data.Keys
    ensures forall d :: d in data ==> r[d] == data[d][isin := Placeholder(d, isin, name)]
  {
    map d | d in data :: data[d][isin := Placeholder(d, isin, name)]
  }

  /** The state while reading the rows of one file. */
  datatype RowState = RowState(allIsins: set<string>, data: Snapshots, isinsInFile: set<string>, positions: map<string, SharePosition>)

  function RowStep(st: RowState, fileDate: Date, row: PortfolioRow): Result<RowState, RowError>
  {
    if row.isin == "" then Success(st)
    else
      var data := if row.isin in st.allIsins then st.data else BackFilled(st.data, row.isin, row.product);
      match RowPosition(fileDate, row)
      case Failure(e) => Failure(e)
      case Success(p) => Success(RowState(st.allIsins + {row.isin}, data, st.isinsInFile + {row.isin}, st.positions[row.isin := p]))
  }

  /** The rows of one file, in order. */
  function ReadRows(st: RowState, fileDate: Date, rows: seq<PortfolioRow>): Result<RowState, RowError>
    decreases |rows|
  {
    if rows == [] then Success(st)
    else match ReadRows(st, fileDate, rows[..|rows| - 1])
      case Failure(e) => Failure(e)
      case Success(s) => RowStep(s, fileDate, rows[|rows| - 1])
  }

  /** The positions with a placeholder for each sold ISIN, named as on the previous date. */
  function SoldFilled(positions: map<string, SharePosition>, sold: set<string>, previous: map<string, SharePosition>,
                      fileDate: Date): map<string, SharePosition>
    requires sold <= previous.Keys
  {
    map i | i in positions.Keys + sold :: if i in sold then Placeholder(fileDate, i, previous[i].name) else positions[i]
  }

  /** The forward fill keeps the file's own positions and adds exactly the sold ISINs. */
  lemma SoldFilledContents(positions: map<string, SharePosition>, sold: set<string>, previous: map<string, SharePosition>,
                           fileDate: Date)
    requires sold <= previous.Keys
    ensures var r := SoldFilled(positions, sold, previous, fileDate);
      && r.Keys == positions.Keys + sold
      && (forall i :: i in sold ==> r[i] == Placeholder(fileDate, i, previous[i].name))
      && (forall i :: i in positions && i !in sold ==> r[i] == positions[i])
  {
  }

  /** A map that agrees with the forward fill key by key is the forward fill. */
  lemma SoldFilledPointwise(filled: map<string, SharePosition>, positions: map<string, SharePosition>, sold: set<string>,
                            previous: map<string, SharePosition>, fileDate: Date)
    requires forall j :: j in sold ==> j in previous
    requires forall j :: j in filled <==> j in positions || j in sold
    requires forall j :: j in sold ==> filled[j] == Placeholder(fileDate, j, previous[j].name)
    requires forall j :: j in positions && j !in sold ==> filled[j] == positions[j]
    ensures sold <= previous.Keys && filled == SoldFilled(positions, sold, previous, fileDate)
  {
    SoldFilledContents(positions, sold, previous, fileDate);
  }

  /** The forward fill, which raises KeyError for a sold ISIN the previous date lacks. */
  function ForwardFilled(positions: map<string, SharePosition>, sold: set<string>, previous: map<string, SharePosition>,
                         fileDate: Date): Result<map<string, SharePosition>, RowError>
  {
    if sold <= previous.Keys then Success(SoldFilled(positions, sold, previous, fileDate)) else Failure(KeyError)
  }

  /** The state between two files. */
  datatype BuildState = BuildState(allIsins: set<string>, data: Snapshots, previousDate: Option<Date>)

  /** One file: its date becomes the latest, holding the file's positions and the placeholders of the sold ISINs. */
  function FileStep(st: BuildState, file: PortfolioFile): (r: Result<BuildState, RowError>)
    ensures r.Success? ==> r.value.previousDate == Some(file.fileDate) && file.fileDate in r.value.data
  {
    match ReadRows(RowState(st.allIsins, st.data, {}, map[]), file.fileDate, file.rows)
    case Failure(e) => Failure(e)
    case Success(rs) =>
      var filled :=
        if st.previousDate.None? then Success(rs.positions)
        else if st.previousDate.value !in rs.data then Failure(KeyError)
        else ForwardFilled(rs.positions, rs.allIsins - rs.isinsInFile, rs.data[st.previousDate.value], file.fileDate);
      match filled
      case Failure(e) => Failure(e)
      case Success(positions) => Success(BuildState(rs.allIsins, rs.data[file.fileDate := positions], Some(file.fileDate)))
  }

  /** `process_portfolios` on the files, oldest first. */
  function Build(files: seq<PortfolioFile>): (r: Result<BuildState, RowError>)
    ensures files == [] ==> r == Success(BuildState({}, map[], None))
    ensures files != [] && r.Success? ==>
      r.value.previousDate == Some(files[|files| - 1].fileDate) && files[|files| - 1].fileDate in r.value.data
    decreases |files|
  {
    if files == [] then Success(BuildState({}, map[], None))
    else match Build(files[..|files| - 1])
      case Failure(e) => Failure(e)
      case Success(st) => FileStep(st, files[|files| - 1])
  }

  // ---- the invariants of the build ----

  /** The non-empty ISINs of some rows. */
  function RowIsins(rows: seq<PortfolioRow>): (r: set<string>)
    ensures forall i :: i in r <==> i != "" && exists j :: 0 <= j < |rows| && rows[j].isin == i
  {
    set j | 0 <= j < |rows| && rows[j].isin != "" :: rows[j].isin
  }

  function FileIsins(files: seq<PortfolioFile>): (r: set<string>)
    ensures forall i :: i in r <==> exists k :: 0 <= k < |files| && i in RowIsins(files[k].rows)
    decreases |files|
  {
    if files == [] then {} else FileIsins(files[..|files| - 1]) + RowIsins(files[|files| - 1].rows)
  }

  function FileDates(files: seq<PortfolioFile>): (r: set<Date>)
    ensures forall d :: d in r <==> exists k :: 0 <= k < |files| && files[k].fileDate == d
  {
    set k | 0 <= k < |files| :: files[k].fileDate
  }

  /** A position as the build leaves it: dated with its portfolio, under its own ISIN, with no investment or realized return. */
  predicate Fresh(d: Date, i: string, p: SharePosition)
  {
    p.positionDate == d && p.isin == i && p.investment == 0.0 && p.realized == 0.0
  }

  /** Every date holds exactly the ISINs seen, each as a fresh position. */
  predicate Filled(allIsins: set<string>, data: Snapshots)
  {
    forall d :: d in data ==> data[d].Keys == allIsins && forall i :: i in data[d] ==> Fresh(d, i, data[d][i])
  }

  lemma FilledKeys(allIsins: set<string>, data: Snapshots, d: Date)
    requires Filled(allIsins, data) && d in data
    ensures data[d].Keys == allIsins
  {
  }

  lemma BackFilledKeepsFilled(allIsins: set<string>, data: Snapshots, isin: string, name: string)
    requires Filled(allIsins, data) && isin != ""
    ensures Filled(allIsins + {isin}, BackFilled(data, isin, name))
  {
    var r := BackFilled(data, isin, name);
    forall d | d in r
      ensures r[d].Keys == allIsins + {isin} && forall i :: i in r[d] ==> Fresh(d, i, r[d][i])
    {
      FilledKeys(allIsins, data, d);
      PlaceholderAdded(d, data[d], isin, name, r[d]);
    }
  }

  /** A placeholder added to a portfolio of fresh positions leaves it fresh. */
  lemma PlaceholderAdded(d: Date, ps: map<string, SharePosition>, isin: string, name: string, r: map<string, SharePosition>)
    requires forall i :: i in ps ==> Fresh(d, i, ps[i])
    requires r == ps[isin := Placeholder(d, isin, name)]
    ensures r.Keys == ps.Keys + {isin} && forall i :: i in r ==> Fresh(d, i, r[i])
  {
  }

  /** The ISIN a row contributes, none for a cash row. */
  function RowIsin(row: PortfolioRow): set<string>
  {
    if row.isin != "" then {row.isin} else {}
  }

  lemma RowIsinsLast(rows: seq<PortfolioRow>)
    requires rows != []
    ensures RowIsins(rows) == RowIsins(rows[..|rows| - 1]) + RowIsin(rows[|rows| - 1])
  {
    var front := rows[..|rows| - 1];
    forall i | i in RowIsins(rows)
      ensures i in RowIsins(front) + RowIsin(rows[|rows| - 1])
    {
      var j :| 0 <= j < |rows| && rows[j].isin == i;
      if j < |front| {
        assert front[j].isin == i;
      }
    }
    forall i | i in RowIsins(front)
      ensures i in RowIsins(rows)
    {
      var j :| 0 <= j < |front| && front[j].isin == i;
      assert rows[j].isin == i;
    }
  }

  lemma FileDatesLast(files: seq<PortfolioFile>)
    requires files != []
    ensures FileDates(files) == FileDates(files[..|files| - 1]) + {files[|files| - 1].fileDate}
  {
    var front := files[..|files| - 1];
    forall d | d in FileDates(files)
      ensures d in FileDates(front) + {files[|files| - 1].fileDate}
    {
      var k :| 0 <= k < |files| && files[k].fileDate == d;
      if k < |front| {
        assert front[k].fileDate == d;
      }
    }
    forall d | d in FileDates(front)
      ensures d in FileDates(files)
    {
      var k :| 0 <= k < |front| && front[k].fileDate == d;
      assert files[k].fileDate == d;
    }
  }

  /** While a file is read: the portfolios built so far stay filled and the file's positions are fresh and already known. */
  predicate Reading(fileDate: Date, st: RowState)
  {
    && Filled(st.allIsins, st.data) && st.isinsInFile == st.positions.Keys && st.isinsInFile <= st.allIsins
    && forall i :: i in st.positions ==> Fresh(fileDate, i, st.positions[i])
  }

  /**
   * One row: its ISIN joins the known ones and the file's, placeholders are
   * added to the earlier portfolios, and nothing already there changes.
   */
  lemma RowStepInvariant(st: RowState, fileDate: Date, row: PortfolioRow)
    requires Reading(fileDate, st)
    requires RowStep(st, fileDate, row).Success?
    ensures var s := RowStep(st, fileDate, row).value;
      && Reading(fileDate, s) && s.data.Keys == st.data.Keys
      && s.allIsins == st.allIsins + RowIsin(row) && s.isinsInFile == st.isinsInFile + RowIsin(row)
      && (forall d, i :: d in st.data && i in st.data[d] ==> s.data[d][i] == st.data[d][i])
  {
    if row.isin != "" {
      RowAdded(st, fileDate, row.isin, row.product, RowPosition(fileDate, row).value);
    }
  }

  /** A fresh position under a non-empty ISIN, added as `RowStep` adds it, keeps the reading state. */
  lemma RowAdded(st: RowState, fileDate: Date, isin: string, name: string, p: SharePosition)
    requires Reading(fileDate, st) && isin != "" && Fresh(fileDate, isin, p)
    ensures var data := if isin in st.allIsins then st.data else BackFilled(st.data, isin, name);
      var s := RowState(st.allIsins + {isin}, data, st.isinsInFile + {isin}, st.positions[isin := p]);
      && Reading(fileDate, s) && s.data.Keys == st.data.Keys
      && (forall d, i :: d in st.data && i in st.data[d] ==> s.data[d][i] == st.data[d][i])
  {
    var data := if isin in st.allIsins then st.data else BackFilled(st.data, isin, name);
    if isin in st.allIsins {
      assert st.allIsins + {isin} == st.allIsins;
    } else {
      BackFilledKeepsFilled(st.allIsins, st.data, isin, name);
      BackFilledKeepsEntries(st.allIsins, st.data, isin, name);
    }
    ReadingAfterRow(fileDate, st, isin, data, p);
  }

  /** A back-fill touches only the new ISIN, which no earlier portfolio holds. */
  lemma BackFilledKeepsEntries(allIsins: set<string>, data: Snapshots, isin: string, name: string)
    requires Filled(allIsins, data) && isin !in allIsins
    ensures forall d, i :: d in data && i in data[d] ==> BackFilled(data, isin, name)[d][i] == data[d][i]
  {
    forall d, i | d in data && i in data[d]
      ensures BackFilled(data, isin, name)[d][i] == data[d][i]
    {
      FilledKeys(allIsins, data, d);
    }
  }

  /** A row's fresh position keeps the reading state. */
  lemma ReadingAfterRow(fileDate: Date, st: RowState, isin: string, data: Snapshots, p: SharePosition)
    requires Reading(fileDate, st) && Filled(st.allIsins + {isin}, data) && Fresh(fileDate, isin, p)
    ensures Reading(fileDate, RowState(st.allIsins + {isin}, data, st.isinsInFile + {isin}, st.positions[isin := p]))
  {
  }

  /** The first row of a new ISIN gives every earlier portfolio a placeholder named after the row's product. */
  lemma RowStepBackFills(st: RowState, fileDate: Date, row: PortfolioRow)
    requires RowStep(st, fileDate, row).Success? && row.isin != "" && row.isin !in st.allIsins
    ensures var s := RowStep(st, fileDate, row).value;
      forall d :: d in st.data ==> d in s.data && s.data[d][row.isin] == Placeholder(d, row.isin, row.product)
  {
    assert RowStep(st, fileDate, row).value.data == BackFilled(st.data, row.isin, row.product);
  }

  /** Parsing a row never raises KeyError. */
  lemma {:induction false} ReadRowsNoKeyError(st: RowState, fileDate: Date, rows: seq<PortfolioRow>)
    ensures ReadRows(st, fileDate, rows) != Failure(KeyError)
    decreases |rows|
  {
    if rows != [] {
      ReadRowsNoKeyError(st, fileDate, rows[..|rows| - 1]);
    }
  }

  /** Reading rows keeps the state filled, adds the rows' ISINs and leaves earlier positions alone. */
  lemma {:induction false} ReadRowsInvariant(st: RowState, fileDate: Date, rows: seq<PortfolioRow>)
    requires Reading(fileDate, st)
    requires ReadRows(st, fileDate, rows).Success?
    ensures var rs := ReadRows(st, fileDate, rows).value;
      && Reading(fileDate, rs) && rs.data.Keys == st.data.Keys
      && rs.allIsins == st.allIsins + RowIsins(rows) && rs.isinsInFile == st.isinsInFile + RowIsins(rows)
      && (forall d, i :: d in st.data && i in st.data[d] ==> rs.data[d][i] == st.data[d][i])
    decreases |rows|
  {
    if rows != [] {
      var front := rows[..|rows| - 1];
      ReadRowsInvariant(st, fileDate, front);
      RowStepInvariant(ReadRows(st, fileDate, front).value, fileDate, rows[|rows| - 1]);
      RowIsinsLast(rows);
    }
  }

  /** Between files: the portfolios are filled, and they are empty exactly before the first file. */
  predicate Built(st: BuildState)
  {
    && Filled(st.allIsins, st.data)
    && (st.previousDate.Some? ==> st.previousDate.value in st.data)
    && (st.previousDate.None? ==> st.allIsins == {} && st.data == map[])
  }

  /** One file adds its date, holding every ISIN known, and the forward fill finds every sold ISIN. */
  lemma FileStepInvariant(st: BuildState, file: PortfolioFile)
    requires Built(st)
    ensures FileStep(st, file) != Failure(KeyError)
    ensures FileStep(st, file).Success? ==>
      var s := FileStep(st, file).value;
      && Built(s) && s.allIsins == st.allIsins + RowIsins(file.rows)
      && s.data.Keys == st.data.Keys + {file.fileDate} && s.previousDate == Some(file.fileDate)
  {
    var init := RowState(st.allIsins, st.data, {}, map[]);
    ReadRowsNoKeyError(init, file.fileDate, file.rows);
    if ReadRows(init, file.fileDate, file.rows).Success? {
      ReadRowsInvariant(init, file.fileDate, file.rows);
      var rs := ReadRows(init, file.fileDate, file.rows).value;
      var sold := rs.allIsins - rs.isinsInFile;
      if st.previousDate.Some? {
        assert st.previousDate.value in rs.data;
        FilledKeys(rs.allIsins, rs.data, st.previousDate.value);
        var previous := rs.data[st.previousDate.value];
        assert ForwardFilled(rs.positions, sold, previous, file.fileDate).Success?;
        SoldFilledContents(rs.positions, sold, previous, file.fileDate);
      }
    }
  }

  /** After any build every date holds every ISIN ever seen, each a fresh position, and the back-fill lookups never fail. */
  lemma {:induction false} BuildInvariant(files: seq<PortfolioFile>)
    ensures Build(files) != Failure(KeyError)
    ensures Build(files).Success? ==>
      var st := Build(files).value;
      && st.allIsins == FileIsins(files) && st.data.Keys == FileDates(files) && Built(st)
      && (st.previousDate.None? <==> files == [])
      && (files != [] ==> st.previousDate == Some(files[|files| - 1].fileDate))
    decreases |files|
  {
    if files != [] {
      var front := files[..|files| - 1];
      BuildInvariant(front);
      FileDatesLast(files);
      if Build(front).Success? {
        FileStepInvariant(Build(front).value, files[|files| - 1]);
      }
    }
  }

  // ---- process_portfolios, step by step ----

  /** A failure while reading some rows is the failure of reading all of them. */
  lemma {:induction false} ReadRowsFailureSticks(st: RowState, fileDate: Date, rows: seq<PortfolioRow>, k: nat)
    requires k <= |rows| && ReadRows(st, fileDate, rows[..k]).Failure?
    ensures ReadRows(st, fileDate, rows) == ReadRows(st, fileDate, rows[..k])
    decreases |rows|
  {
    if k == |rows| {
      assert rows[..k] == rows;
    } else {
      var front := rows[..|rows| - 1];
      assert front[..k] == rows[..k];
      ReadRowsFailureSticks(st, fileDate, front, k);
    }
  }

  /** A failure on some file is the failure of the whole build. */
  lemma {:induction false} BuildFailureSticks(files: seq<PortfolioFile>, k: nat)
    requires k <= |files| && Build(files[..k]).Failure?
    ensures Build(files) == Build(files[..k])
    decreases |files|
  {
    if k == |files| {
      assert files[..k] == files;
    } else {
      var front := files[..|files| - 1];
      assert front[..k] == files[..k];
      BuildFailureSticks(front, k);
    }
  }

  /** The loop that adds a placeholder for a new ISIN to every portfolio built so far. */
  method BackFill(data: Snapshots, isin: string, name: string) returns (r: Snapshots)
    ensures r == BackFilled(data, isin, name)
  {
    r := data;
    var todo := data.Keys;
    while todo != {}
      invariant todo <= data.Keys && r.Keys == data.Keys
      invariant forall d :: d in data ==> r[d] == if d in todo then data[d] else data[d][isin := Placeholder(d, isin, name)]
      decreases |todo|
    {
      NoDatesMeansEmpty(todo);
      var d :| d in todo;
      r := r[d := data[d][isin := Placeholder(d, isin, name)]];
      todo := todo - {d};
    }
  }

  /** Reading one more row is one more row step. */
  lemma ReadRowsExtend(st: RowState, fileDate: Date, rows: seq<PortfolioRow>, k: nat, s: RowState)
    requires k < |rows| && ReadRows(st, fileDate, rows[..k]) == Success(s)
    ensures ReadRows(st, fileDate, rows[..k + 1]) == RowStep(s, fileDate, rows[k])
  {
    assert rows[..k + 1][..k] == rows[..k];
  }

  /** The loop over the rows of one file. */
  method ReadFile(allIsins0: set<string>, data0: Snapshots, file: PortfolioFile) returns (r: Result<RowState, RowError>)
    ensures r == ReadRows(RowState(allIsins0, data0, {}, map[]), file.fileDate, file.rows)
  {
    var init := RowState(allIsins0, data0, {}, map[]);
    var allIsins, data := allIsins0, data0;
    var isinsInFile: set<string> := {};
    var positions: map<string, SharePosition> := map[];
    var k := 0;
    assert file.rows[..0] == [];
    while k < |file.rows|
      invariant 0 <= k <= |file.rows|
      invariant ReadRows(init, file.fileDate, file.rows[..k]) == Success(RowState(allIsins, data, isinsInFile, positions))
    {
      var row := file.rows[k];
      ReadRowsExtend(init, file.fileDate, file.rows, k, RowState(allIsins, data, isinsInFile, positions));
      if row.isin != "" {
        if row.isin !in allIsins {
          data := BackFill(data, row.isin, row.product);
        }
        var p := RowPosition(file.fileDate, row);
        if p.Failure? {
          ReadRowsFailureSticks(init, file.fileDate, file.rows, k + 1);
          return Failure(p.error);
        }
        allIsins := allIsins + {row.isin};
        isinsInFile := isinsInFile + {row.isin};
        positions := positions[row.isin := p.value];
      }
      k := k + 1;
    }
    assert file.rows[..k] == file.rows;
    return Success(RowState(allIsins, data, isinsInFile, positions));
  }

  /** The loop that adds a placeholder for every sold ISIN, named as on the previous date. */
  method ForwardFill(positions: map<string, SharePosition>, sold: set<string>, previous: map<string, SharePosition>,
                     fileDate: Date) returns (r: Result<map<string, SharePosition>, RowError>)
    ensures r == ForwardFilled(positions, sold, previous, fileDate)
  {
    var filled := positions;
    var todo, done := sold, {};
    while todo != {}
      invariant forall j :: j in done <==> j in sold && j !in todo
      invariant forall j :: j in todo ==> j in sold
      invariant forall j :: j in done ==> j in previous
      invariant forall j :: j in filled <==> j in positions || j in done
      invariant forall j :: j in done ==> filled[j] == Placeholder(fileDate, j, previous[j].name)
      invariant forall j :: j in positions && j !in done ==> filled[j] == positions[j]
      decreases |todo|
    {
      EmptyWithoutElements(todo);
      var i :| i in todo;
      if i !in previous {
        return Failure(KeyError);
      }
      filled := filled[i := Placeholder(fileDate, i, previous[i].name)];
      todo, done := todo - {i}, done + {i};
    }
    SoldFilledPointwise(filled, positions, sold, previous, fileDate);
    return Success(filled);
  }

  /** One file of `process_portfolios`: read its rows, forward-fill the sold ISINs and store the portfolio under its date. */
  method ProcessFile(st: BuildState, file: PortfolioFile) returns (r: Result<BuildState, RowError>)
    ensures r == FileStep(st, file)
  {
    var rs := ReadFile(st.allIsins, st.data, file);
    if rs.Failure? {
      return Failure(rs.error);
    }
    var positions := rs.value.positions;
    if st.previousDate.Some? {
      if st.previousDate.value !in rs.value.data {
        return Failure(KeyError);
      }
      var filled := ForwardFill(positions, rs.value.allIsins - rs.value.isinsInFile, rs.value.data[st.previousDate.value], file.fileDate);
      if filled.Failure? {
        return Failure(filled.error);
      }
      positions := filled.value;
    }
    return Success(BuildState(rs.value.allIsins, rs.value.data[file.fileDate := positions], Some(file.fileDate)));
  }

  /** `process_portfolios` on the files, oldest first: the ISINs seen and the dated portfolios. */
  method ProcessPortfolios(files: seq<PortfolioFile>) returns (r: Result<(set<string>, Snapshots), RowError>)
    ensures r.Success? <==> Build(files).Success?
    ensures r.Success? ==> r.value == (Build(files).value.allIsins, Build(files).value.data)
    ensures r.Failure? ==> r.error == Build(files).error
  {
    var st := BuildState({}, map[], None);
    var k := 0;
    assert files[..0] == [];
    while k < |files|
      invariant 0 <= k <= |files|
      invariant Build(files[..k]) == Success(st)
    {
      assert files[..k + 1][..k] == files[..k];
      assert files[..k + 1][k] == files[k];
      var next := ProcessFile(st, files[k]);
      if next.Failure? {
        BuildFailureSticks(files, k + 1);
        return Failure(next.error);
      }
      st := next.value;
      k := k + 1;
    }
    assert files[..k] == files;
    return Success((st.allIsins, st.data));
  }

  // ---- _get_first_valid_price ----

  /** A price that is recorded and non-zero, so truthy in Python. */
  predicate ValidPrice(prices: map<Date, real>, d: Date)
  {
    d in prices && prices[d] != 0.0
  }

  predicate NoValidPrice(prices: map<Date, real>, from: Date, to: Date)
  {
    forall e :: from <= e < to ==> !ValidPrice(prices, e)
  }

  /** `_get_first_valid_price`: the price of the first of the `limit` days from `priceDate` that has a valid one. */
  method FirstValidPrice(prices: map<Date, real>, priceDate: Date, limit: int) returns (r: Option<real>)
    ensures r.None? <==> NoValidPrice(prices, priceDate, priceDate + limit)
    ensures r.Some? ==>
      exists e :: (priceDate <= e < priceDate + limit && ValidPrice(prices, e) && prices[e] == r.value
        && NoValidPrice(prices, priceDate, e))
  {
    var i := 0;
    while i < limit
      invariant 0 <= i && (limit >= 0 ==> i <= limit)
      invariant NoValidPrice(prices, priceDate, priceDate + i)
    {
      if priceDate + i in prices && prices[priceDate + i] != 0.0 {
        assert ValidPrice(prices, priceDate + i);
        return Some(prices[priceDate + i]);
      }
      i := i + 1;
    }
    return None;
  }
}
