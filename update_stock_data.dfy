/** The stock-profile job: classify each ticker's risk from its market metadata
    and merge one profile row per ticker into the `stocks` table. */
module StockProfiles {
  import opened Common

  datatype Risk = Low | Medium | High

  /** The classifier's inputs: four metadata fields (None when the provider
      leaves them out) and two figures derived from a year of closing prices. */
  datatype Metrics = Metrics(
    beta: Option<real>,
    peRatio: Option<real>,
    marketCap: Option<real>,
    dividendYield: Option<real>,
    volatility: real,
    priceChange1Y: real)

  /** Python truthiness of an optional number: neither None nor zero. */
  predicate TruthyNumber(x: Option<real>)
  {
    x.Some? && x.value != 0.0
  }

  /** The guarded comparison `x and x > bound`. */
  predicate GuardedAbove(x: Option<real>, bound: real)
  {
    TruthyNumber(x) && x.value > bound
  }

  /** The guarded comparison `x and x < bound`. */
  predicate GuardedBelow(x: Option<real>, bound: real)
  {
    TruthyNumber(x) && x.value < bound
  }

  /** Rule 1: the conditions that mark a stock "High". */
  predicate HighCondition(m: Metrics)
  {
    || GuardedAbove(m.beta, 1.5)
    || GuardedAbove(m.peRatio, 30.0)
    || GuardedBelow(m.marketCap, 5000000000.0)
    || m.volatility > 0.03
  }

  /** Rule 2: the conditions that mark a stock "Low", applied after rule 1. */
  predicate LowCondition(m: Metrics)
  {
    || GuardedBelow(m.beta, 1.0)
    || GuardedAbove(m.marketCap, 200000000000.0)
    || GuardedAbove(m.dividendYield, 3.0)
    || m.priceChange1Y > 20.0
  }

  /** Two guarded passes over a label that starts at "Medium"; the later pass
      wins. */
  function CategorizeStockRisk(m: Metrics): (r: Risk)
    ensures r == Low <==> LowCondition(m)
    ensures r == High <==> HighCondition(m) && !LowCondition(m)
    ensures r == Medium <==> !HighCondition(m) && !LowCondition(m)
  {
    var afterRule1 := if HighCondition(m) then High else Medium;
    if LowCondition(m) then Low else afterRule1
  }

  function RiskLabel(r: Risk): string
  {
    match r
    case Low => "Low"
    case Medium => "Medium"
    case High => "High"
  }

  /** The label the classifier returns is always one of the three names. */
  lemma LabelIsOneOfThree(m: Metrics)
    ensures RiskLabel(CategorizeStockRisk(m)) in {"Low", "Medium", "High"}
  {
  }

  // An independent reading of the classifier: an ordered list of
  // (condition, label) rules evaluated in sequence, last match wins.

  datatype Rule = Rule(fires: bool, verdict: Risk)

  function ApplyRules(rules: seq<Rule>, current: Risk): Risk
    decreases |rules|
  {
    if rules == [] then current
    else ApplyRules(rules[1..], if rules[0].fires then rules[0].verdict else current)
  }

  function RiskRules(m: Metrics): seq<Rule>
  {
    [Rule(HighCondition(m), High), Rule(LowCondition(m), Low)]
  }

  /** The label of the last rule that fires is the result, whatever came before. */
  lemma {:induction false} LastFiringRuleWins(rules: seq<Rule>, current: Risk, k: nat)
    requires k < |rules| && rules[k].fires
    requires forall j :: k < j < |rules| ==> !rules[j].fires
    ensures ApplyRules(rules, current) == rules[k].verdict
    decreases |rules|
  {
    var next := if rules[0].fires then rules[0].verdict else current;
    if k == 0 {
      NoFiringRuleKeepsCurrent(rules[1..], next);
    } else {
      LastFiringRuleWins(rules[1..], next, k - 1);
    }
  }

  /** When no rule fires the starting label is kept. */
  lemma {:induction false} NoFiringRuleKeepsCurrent(rules: seq<Rule>, current: Risk)
    requires forall j :: 0 <= j < |rules| ==> !rules[j].fires
    ensures ApplyRules(rules, current) == current
    decreases |rules|
  {
    if rules != [] {
      NoFiringRuleKeepsCurrent(rules[1..], current);
    }
  }

  /** The classifier is the last-match-wins evaluation of its two rules with
      "Medium" as the default. */
  lemma CategorizeIsLastMatch(m: Metrics)
    ensures CategorizeStockRisk(m) == ApplyRules(RiskRules(m), Medium)
  {
    var rules := RiskRules(m);
    if LowCondition(m) {
      LastFiringRuleWins(rules, Medium, 1);
    } else if HighCondition(m) {
      LastFiringRuleWins(rules, Medium, 0);
    } else {
      NoFiringRuleKeepsCurrent(rules, Medium);
    }
  }

  /** A beta, P/E, market cap or dividend yield of zero acts exactly like a
      missing one: the truthiness guard keeps it out of every clause. */
  lemma ZeroActsAsMissing(m: Metrics)
    ensures CategorizeStockRisk(m.(beta := Some(0.0))) == CategorizeStockRisk(m.(beta := None))
    ensures CategorizeStockRisk(m.(peRatio := Some(0.0))) == CategorizeStockRisk(m.(peRatio := None))
    ensures CategorizeStockRisk(m.(marketCap := Some(0.0))) == CategorizeStockRisk(m.(marketCap := None))
    ensures CategorizeStockRisk(m.(dividendYield := Some(0.0))) == CategorizeStockRisk(m.(dividendYield := None))
  {
  }

  /** A beta of zero does not make a stock "Low" although 0 < 1, while a beta
      of 0.5 does; volatility and price change take part unguarded, so a
      volatility above 0.03 alone makes a stock "High". */
  lemma GuardExamples()
    ensures CategorizeStockRisk(Metrics(Some(0.0), None, None, None, 0.0, 0.0)) == Medium
    ensures CategorizeStockRisk(Metrics(Some(0.5), None, None, None, 0.0, 0.0)) == Low
    ensures CategorizeStockRisk(Metrics(None, None, None, None, 0.04, 0.0)) == High
    ensures CategorizeStockRisk(Metrics(None, None, None, None, 0.04, 25.0)) == Low
  {
  }

  /** Beta 2.0, P/E 10, market cap 1e9 and volatility 0.01 make a stock "High";
      a dividend yield of 4 on top of that overrides it to "Low". */
  lemma PrecedenceExample()
    ensures CategorizeStockRisk(Metrics(Some(2.0), Some(10.0), Some(1000000000.0), Some(0.0), 0.01, 0.0)) == High
    ensures CategorizeStockRisk(Metrics(Some(2.0), Some(10.0), Some(1000000000.0), Some(4.0), 0.01, 0.0)) == Low
  {
  }

  // ---------------------------------------------------------------------
  // Building one profile row per ticker

  /** The provider's metadata for a ticker; a field is None when absent. */
  datatype Info = Info(
    beta: Option<real>,
    trailingPE: Option<real>,
    marketCap: Option<real>,
    dividendYield: Option<real>,
    sector: Option<string>)

  /** What the provider yields for one ticker: metadata, the latest close and
      the volatility and one-year change computed from a year of history. */
  datatype MarketData = MarketData(info: Info, currentPrice: real, volatility: real, priceChange1Y: real)

  /** A row of the `stocks` table, keyed by ticker. */
  datatype Profile = Profile(
    ticker: string,
    currentPrice: real,
    peRatio: Option<real>,
    dividendYield: real,
    marketCap: Option<real>,
    sector: string,
    beta: Option<real>,
    volatility: real,
    priceChange1Y: real,
    riskLevel: Risk)

  /** `info.get("dividendYield", 0)` */
  function DividendOrZero(info: Info): real
  {
    if info.dividendYield.Some? then info.dividendYield.value else 0.0
  }

  /** The classifier's view of a stored profile row. */
  function StoredMetrics(p: Profile): Metrics
  {
    Metrics(p.beta, p.peRatio, p.marketCap, Some(p.dividendYield), p.volatility, p.priceChange1Y)
  }

  /** The record built for one ticker; its risk level is the classifier's
      verdict on the very values the row stores. */
  function GetStockData(ticker: string, d: MarketData): (p: Profile)
    ensures p.ticker == ticker && p.currentPrice == d.currentPrice
    ensures p.peRatio == d.info.trailingPE && p.marketCap == d.info.marketCap && p.beta == d.info.beta
    ensures p.dividendYield == if d.info.dividendYield.Some? then d.info.dividendYield.value else 0.0
    ensures p.volatility == d.volatility && p.priceChange1Y == d.priceChange1Y
    ensures p.sector == if d.info.sector.Some? then d.info.sector.value else "Unknown"
    ensures p.riskLevel == CategorizeStockRisk(Metrics(d.info.beta, d.info.trailingPE, d.info.marketCap,
                                                       d.info.dividendYield, d.volatility, d.priceChange1Y))
    ensures p.riskLevel == CategorizeStockRisk(StoredMetrics(p))
  {
    var info := d.info;
    var metrics := Metrics(info.beta, info.trailingPE, info.marketCap, Some(DividendOrZero(info)),
                           d.volatility, d.priceChange1Y);
    Profile(ticker, d.currentPrice, info.trailingPE, DividendOrZero(info), info.marketCap,
            if info.sector.Some? then info.sector.value else "Unknown",
            info.beta, d.volatility, d.priceChange1Y, CategorizeStockRisk(metrics))
  }

  /** The list comprehension that fetches every ticker before any row is
      merged; a ticker whose data cannot be fetched (None) raises and aborts. */
  function CollectStockData(tickers: seq<string>, market: seq<Option<MarketData>>): (r: Result<seq<Profile>, string>)
    requires |market| == |tickers|
    ensures r.Ok? <==> forall i :: 0 <= i < |market| ==> market[i].Some?
    ensures r.Ok? ==> |r.value| == |tickers|
    ensures r.Ok? ==> forall i :: 0 <= i < |tickers| ==> r.value[i] == GetStockData(tickers[i], market[i].value)
    ensures r.Err? ==> exists i :: 0 <= i < |tickers| && market[i].None? && r.error == tickers[i]
                                  && forall j :: 0 <= j < i ==> market[j].Some?
  {
    if tickers == [] then Ok([])
    else if market[0].None? then Err(tickers[0])
    else
      match CollectStockData(tickers[1..], market[1..])
      case Err(t) => Err(t)
      case Ok(rest) => Ok([GetStockData(tickers[0], market[0].value)] + rest)
  }

  // ---------------------------------------------------------------------
  // The MERGE on ticker

  predicate HasTicker(rows: seq<Profile>, t: string)
  {
    exists i :: 0 <= i < |rows| && rows[i].ticker == t
  }

  /** At most one row per ticker. */
  predicate UniqueTickers(rows: seq<Profile>)
  {
    forall i, j :: 0 <= i < j < |rows| ==> rows[i].ticker != rows[j].ticker
  }

  /** WHEN MATCHED: every row with the record's ticker gets all nine value
      columns of the record (its ticker is already equal). */
  function Overwrite(rows: seq<Profile>, p: Profile): seq<Profile>
  {
    seq(|rows|, i requires 0 <= i < |rows| => if rows[i].ticker == p.ticker then p else rows[i])
  }

  /** One MERGE statement: update the matching rows, or insert the record when
      none matches. */
  function MergeByTicker(rows: seq<Profile>, p: Profile): seq<Profile>
  {
    if HasTicker(rows, p.ticker) then Overwrite(rows, p) else rows + [p]
  }

  /** After a MERGE the ticker has a row, and each of its rows equals the new
      record; an existing row is updated in place rather than duplicated, rows
      of other tickers keep their place and value, and the only row that can be
      added is the record itself. */
  lemma MergeStoresRecord(rows: seq<Profile>, p: Profile)
    ensures var r := MergeByTicker(rows, p);
      && HasTicker(r, p.ticker)
      && (forall i :: 0 <= i < |r| && r[i].ticker == p.ticker ==> r[i] == p)
      && (|r| == |rows| <==> HasTicker(rows, p.ticker))
      && |r| <= |rows| + 1
      && (forall i :: 0 <= i < |rows| && rows[i].ticker != p.ticker ==> r[i] == rows[i])
      && (forall i :: |rows| <= i < |r| ==> r[i] == p)
  {
    var r := MergeByTicker(rows, p);
    if HasTicker(rows, p.ticker) {
      var k :| 0 <= k < |rows| && rows[k].ticker == p.ticker;
      assert r[k] == p;
    } else {
      assert r[|rows|] == p;
    }
  }

  /** A MERGE keeps the table at one row per ticker. */
  lemma MergeKeepsUnique(rows: seq<Profile>, p: Profile)
    requires UniqueTickers(rows)
    ensures UniqueTickers(MergeByTicker(rows, p))
  {
    var r := MergeByTicker(rows, p);
    if !HasTicker(rows, p.ticker) {
      forall i, j | 0 <= i < j < |r| ensures r[i].ticker != r[j].ticker {
        if j == |rows| {
          assert r[i] == rows[i];
        }
      }
    }
  }

  /** The per-ticker loop: one MERGE per record, in list order. */
  function UpdateAll(rows: seq<Profile>, stocks: seq<Profile>): seq<Profile>
    decreases |stocks|
  {
    if stocks == [] then rows
    else MergeByTicker(UpdateAll(rows, stocks[..|stocks| - 1]), stocks[|stocks| - 1])
  }

  /** The record at index k is the last one for its ticker. */
  predicate IsLatest(stocks: seq<Profile>, k: nat)
    requires k < |stocks|
  {
    forall j :: k < j < |stocks| ==> stocks[j].ticker != stocks[k].ticker
  }

  predicate Processed(stocks: seq<Profile>, t: string)
  {
    exists k :: 0 <= k < |stocks| && stocks[k].ticker == t
  }

  /** A table with one row per ticker keeps that property through the whole
      loop, even when a ticker is listed twice. */
  lemma {:induction false} UpdateAllKeepsUnique(rows: seq<Profile>, stocks: seq<Profile>)
    requires UniqueTickers(rows)
    ensures UniqueTickers(UpdateAll(rows, stocks))
    decreases |stocks|
  {
    if stocks != [] {
      UpdateAllKeepsUnique(rows, stocks[..|stocks| - 1]);
      MergeKeepsUnique(UpdateAll(rows, stocks[..|stocks| - 1]), stocks[|stocks| - 1]);
    }
  }

  /** After the loop every processed ticker has a row, and each of its rows
      holds the last record listed for it (the only record, when no ticker is
      listed twice). */
  lemma {:induction false} UpdateAllStoresLatest(rows: seq<Profile>, stocks: seq<Profile>, k: nat)
    requires k < |stocks| && IsLatest(stocks, k)
    ensures var r := UpdateAll(rows, stocks);
      && HasTicker(r, stocks[k].ticker)
      && forall i :: 0 <= i < |r| && r[i].ticker == stocks[k].ticker ==> r[i] == stocks[k]
    decreases |stocks|
  {
    var n := |stocks| - 1;
    var init := stocks[..n];
    var before := UpdateAll(rows, init);
    var r := UpdateAll(rows, stocks);
    assert r == MergeByTicker(before, stocks[n]);
    MergeStoresRecord(before, stocks[n]);
    if k < n {
      var t := stocks[k].ticker;
      assert stocks[n].ticker != t;
      assert init[k] == stocks[k];
      assert IsLatest(init, k) by {
        forall j | k < j < |init| ensures init[j].ticker != init[k].ticker {
          assert init[j] == stocks[j];
        }
      }
      UpdateAllStoresLatest(rows, init, k);
      var w :| 0 <= w < |before| && before[w].ticker == t;
      assert r[w] == before[w];
      forall i | 0 <= i < |r| && r[i].ticker == t ensures r[i] == stocks[k] {
        if i < |before| {
          assert r[i] == before[i];
        }
      }
    }
  }

  /** Rows of tickers that were not processed keep their position and value,
      and every row added belongs to a processed ticker. */
  lemma {:induction false} UpdateAllKeepsOthers(rows: seq<Profile>, stocks: seq<Profile>)
    ensures var r := UpdateAll(rows, stocks);
      && |rows| <= |r|
      && (forall i :: 0 <= i < |rows| && !Processed(stocks, rows[i].ticker) ==> r[i] == rows[i])
      && (forall i :: |rows| <= i < |r| ==> Processed(stocks, r[i].ticker))
    decreases |stocks|
  {
    if stocks != [] {
      var n := |stocks| - 1;
      var init := stocks[..n];
      var before := UpdateAll(rows, init);
      var r := UpdateAll(rows, stocks);
      UpdateAllKeepsOthers(rows, init);
      MergeStoresRecord(before, stocks[n]);
      forall i | 0 <= i < |rows| && !Processed(stocks, rows[i].ticker) ensures r[i] == rows[i] {
        assert forall k :: 0 <= k < |init| ==> init[k] == stocks[k];
        assert !Processed(init, rows[i].ticker);
        assert stocks[n].ticker != rows[i].ticker;
      }
      forall i | |rows| <= i < |r| ensures Processed(stocks, r[i].ticker) {
        if i < |before| {
          assert Processed(init, before[i].ticker);
          var k :| 0 <= k < |init| && init[k].ticker == before[i].ticker;
          if before[i].ticker == stocks[n].ticker {
            assert stocks[n].ticker == r[i].ticker;
          } else {
            assert stocks[k].ticker == r[i].ticker;
          }
        } else {
          assert stocks[n].ticker == r[i].ticker;
        }
      }
    }
  }

  /** The hard-coded tickers of the job. */
  const UpdateTickers: seq<string> := ["AAPL", "MSFT", "NVDA", "TSLA"]

  /** The `stocks` table, one profile row per ticker. */
  class ProfileTable {
    var rows: seq<Profile>

    constructor (initial: seq<Profile>)
      ensures rows == initial
    {
      rows := initial;
    }

    /** One parameterised MERGE statement, awaited before the next. */
    method Merge(p: Profile)
      modifies this
      ensures rows == MergeByTicker(old(rows), p)
    {
      rows := MergeByTicker(rows, p);
    }

    /** The per-record loop: one MERGE per record, in list order. */
    method MergeAll(stocks: seq<Profile>)
      modifies this
      ensures rows == UpdateAll(old(rows), stocks)
      ensures UniqueTickers(old(rows)) ==> UniqueTickers(rows)
    {
      var i := 0;
      while i < |stocks|
        invariant 0 <= i <= |stocks|
        invariant rows == UpdateAll(old(rows), stocks[..i])
      {
        Merge(stocks[i]);
        assert stocks[..i + 1][..i] == stocks[..i];
        i := i + 1;
      }
      assert stocks[..i] == stocks;
      if UniqueTickers(old(rows)) {
        UpdateAllKeepsUnique(old(rows), stocks);
      }
    }

    /** The job on its fixed ticker list, with each ticker's market data (None
        when it cannot be fetched): fetch every ticker's data (an unfetchable
        ticker raises before any row is written), then MERGE the records one by
        one. */
    method UpdateStockData(market: seq<Option<MarketData>>)
      returns (reply: Result<Reply<string>, string>)
      requires |market| == |UpdateTickers|
      modifies this
      ensures CollectStockData(UpdateTickers, market).Err? ==>
                reply == Err(CollectStockData(UpdateTickers, market).error) && rows == old(rows)
      ensures CollectStockData(UpdateTickers, market).Ok? ==>
                && reply == Ok(Reply("Stock data updated successfully", 200))
                && rows == UpdateAll(old(rows), CollectStockData(UpdateTickers, market).value)
      ensures UniqueTickers(old(rows)) ==> UniqueTickers(rows)
    {
      var collected := CollectStockData(UpdateTickers, market);
      if collected.Err? {
        return Err(collected.error);
      }
      MergeAll(collected.value);
      reply := Ok(Reply("Stock data updated successfully", 200));
    }
  }
}
