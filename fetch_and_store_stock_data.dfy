/** The daily-price job: for each ticker with a latest bar, count the rows of
    `daily_stock_prices` at (symbol, today); queue the record for one deferred
    batch insert when there are none, or update the prices of the existing rows
    in place. */
module DailyPrices {
  import opened Common

  /** The latest bar of a ticker's one-day history, already rounded. */
  datatype Bar = Bar(open: real, close: real, high: real, low: real, volume: int)

  /** A row of the price table; its natural key is (symbol, date). */
  datatype PriceRow = PriceRow(symbol: string, date: string, open: real, close: real, high: real, low: real, volume: int)

  function RecordFor(ticker: string, today: string, b: Bar): PriceRow
  {
    PriceRow(ticker, today, b.open, b.close, b.high, b.low, b.volume)
  }

  /** The five value columns of a row. */
  function Prices(row: PriceRow): Bar
  {
    Bar(row.open, row.close, row.high, row.low, row.volume)
  }

  function Key(row: PriceRow): (string, string)
  {
    (row.symbol, row.date)
  }

  predicate AtKey(row: PriceRow, symbol: string, date: string)
  {
    row.symbol == symbol && row.date == date
  }

  /** At most one row per (symbol, date). */
  predicate UniqueKeys(rows: seq<PriceRow>)
  {
    forall i, j :: 0 <= i < j < |rows| ==> Key(rows[i]) != Key(rows[j])
  }

  /** `SELECT COUNT(*) ... WHERE symbol = s AND date = d` */
  function CountAt(rows: seq<PriceRow>, symbol: string, date: string): (c: nat)
    ensures c <= |rows|
    ensures c == 0 <==> forall j :: 0 <= j < |rows| ==> !AtKey(rows[j], symbol, date)
  {
    if rows == [] then 0
    else (if AtKey(rows[0], symbol, date) then 1 else 0) + CountAt(rows[1..], symbol, date)
  }

  /** The row at index j is counted at its own key. */
  lemma {:induction false} CountPositive(rows: seq<PriceRow>, j: nat)
    requires j < |rows|
    ensures CountAt(rows, rows[j].symbol, rows[j].date) > 0
  {
    if j > 0 {
      CountPositive(rows[1..], j - 1);
    }
  }

  /** A key that no row carries is counted zero. */
  lemma {:induction false} CountZero(rows: seq<PriceRow>, symbol: string, date: string)
    requires CountAt(rows, symbol, date) == 0
    ensures forall j :: 0 <= j < |rows| ==> !AtKey(rows[j], symbol, date)
  {
    if rows != [] {
      CountZero(rows[1..], symbol, date);
      forall j | 1 <= j < |rows| ensures !AtKey(rows[j], symbol, date) {
        assert rows[j] == rows[1..][j - 1];
      }
    }
  }

  /** Counts depend on the keys alone. */
  lemma {:induction false} SameKeysSameCount(a: seq<PriceRow>, b: seq<PriceRow>, symbol: string, date: string)
    requires |a| == |b| && forall j :: 0 <= j < |a| ==> Key(a[j]) == Key(b[j])
    ensures CountAt(a, symbol, date) == CountAt(b, symbol, date)
  {
    if a != [] {
      assert Key(a[0]) == Key(b[0]);
      SameKeysSameCount(a[1..], b[1..], symbol, date);
    }
  }

  /** The MERGE ... WHEN MATCHED THEN UPDATE: every row at the record's key
      gets its five prices; symbol, date and every other row are untouched. */
  function SetPrices(rows: seq<PriceRow>, rec: PriceRow): (r: seq<PriceRow>)
    ensures |r| == |rows|
    ensures forall j :: 0 <= j < |r| ==> Key(r[j]) == Key(rows[j])
    ensures forall j :: 0 <= j < |r| && AtKey(rows[j], rec.symbol, rec.date) ==> Prices(r[j]) == Prices(rec)
    ensures forall j :: 0 <= j < |r| && !AtKey(rows[j], rec.symbol, rec.date) ==> r[j] == rows[j]
  {
    seq(|rows|, j requires 0 <= j < |rows| =>
      if AtKey(rows[j], rec.symbol, rec.date)
      then rows[j].(open := rec.open, close := rec.close, high := rec.high, low := rec.low, volume := rec.volume)
      else rows[j])
  }

  /** The table and the insert queue while the ticker loop runs. */
  datatype Pass = Pass(rows: seq<PriceRow>, queue: seq<PriceRow>)

  /** One ticker: an empty history does nothing; otherwise the record is queued
      when the count at its key is zero and applied as an update when not. */
  function Step(p: Pass, ticker: string, bar: Option<Bar>, today: string): (r: Pass)
    ensures |r.rows| == |p.rows| && forall j :: 0 <= j < |p.rows| ==> Key(r.rows[j]) == Key(p.rows[j])
    ensures r.queue != p.queue <==> bar.Some? && CountAt(p.rows, ticker, today) == 0
    ensures r.queue != p.queue ==> r.rows == p.rows && r.queue == p.queue + [RecordFor(ticker, today, bar.value)]
    ensures bar.None? ==> r == p
    ensures forall j :: 0 <= j < |r.rows| && !AtKey(p.rows[j], ticker, today) ==> r.rows[j] == p.rows[j]
    ensures bar.Some? && CountAt(p.rows, ticker, today) > 0 ==>
              forall j :: 0 <= j < |r.rows| && AtKey(p.rows[j], ticker, today) ==> Prices(r.rows[j]) == bar.value
  {
    match bar
    case None => p
    case Some(b) =>
      var rec := RecordFor(ticker, today, b);
      if CountAt(p.rows, ticker, today) == 0 then Pass(p.rows, p.queue + [rec])
      else Pass(SetPrices(p.rows, rec), p.queue)
  }

  /** The ticker loop over the whole list, in list order. */
  function Run(rows: seq<PriceRow>, tickers: seq<string>, bars: seq<Option<Bar>>, today: string): Pass
    requires |bars| == |tickers|
    decreases |tickers|
  {
    if tickers == [] then Pass(rows, [])
    else
      var n := |tickers| - 1;
      Step(Run(rows, tickers[..n], bars[..n], today), tickers[n], bars[n], today)
  }

  /** During the loop no row is inserted and no key changes. */
  lemma {:induction false} RunKeepsKeys(rows: seq<PriceRow>, tickers: seq<string>, bars: seq<Option<Bar>>, today: string)
    requires |bars| == |tickers|
    ensures var p := Run(rows, tickers, bars, today);
      |p.rows| == |rows| && forall j :: 0 <= j < |rows| ==> Key(p.rows[j]) == Key(rows[j])
    decreases |tickers|
  {
    if tickers != [] {
      var n := |tickers| - 1;
      RunKeepsKeys(rows, tickers[..n], bars[..n], today);
    }
  }

  /** The counts seen during the loop are those of the table as it started. */
  lemma RunKeepsCounts(rows: seq<PriceRow>, tickers: seq<string>, bars: seq<Option<Bar>>, today: string, symbol: string)
    requires |bars| == |tickers|
    ensures CountAt(Run(rows, tickers, bars, today).rows, symbol, today) == CountAt(rows, symbol, today)
  {
    RunKeepsKeys(rows, tickers, bars, today);
    SameKeysSameCount(Run(rows, tickers, bars, today).rows, rows, symbol, today);
  }

  /** `rec` is the record of some listed ticker with a bar whose key had no row
      in the table. */
  predicate FromUnseenKey(rows: seq<PriceRow>, tickers: seq<string>, bars: seq<Option<Bar>>, today: string, rec: PriceRow)
    requires |bars| == |tickers|
  {
    exists i :: 0 <= i < |tickers| && bars[i].Some? && CountAt(rows, tickers[i], today) == 0
                && rec == RecordFor(tickers[i], today, bars[i].value)
  }

  /** Every queued record is the record of a ticker with a bar whose key had no
      row in the table. */
  lemma {:induction false} QueuedHadNoRow(rows: seq<PriceRow>, tickers: seq<string>, bars: seq<Option<Bar>>, today: string)
    requires |bars| == |tickers|
    ensures forall rec :: rec in Run(rows, tickers, bars, today).queue ==>
              FromUnseenKey(rows, tickers, bars, today, rec)
    decreases |tickers|
  {
    if tickers != [] {
      var n := |tickers| - 1;
      var p := Run(rows, tickers[..n], bars[..n], today);
      var q := Run(rows, tickers, bars, today).queue;
      QueuedHadNoRow(rows, tickers[..n], bars[..n], today);
      RunKeepsCounts(rows, tickers[..n], bars[..n], today, tickers[n]);
      forall rec | rec in q ensures FromUnseenKey(rows, tickers, bars, today, rec) {
        if rec in p.queue {
          assert FromUnseenKey(rows, tickers[..n], bars[..n], today, rec);
          var i :| 0 <= i < n && bars[..n][i].Some? && CountAt(rows, tickers[..n][i], today) == 0
                   && rec == RecordFor(tickers[..n][i], today, bars[..n][i].value);
          assert tickers[..n][i] == tickers[i] && bars[..n][i] == bars[i];
        } else {
          assert rec == RecordFor(tickers[n], today, bars[n].value);
        }
      }
    }
  }

  /** Conversely, every ticker with a bar and no row at its key is queued, even
      when it is listed twice: the queued inserts are not seen by later
      counts. */
  lemma {:induction false} NoRowIsQueued(rows: seq<PriceRow>, tickers: seq<string>, bars: seq<Option<Bar>>, today: string, i: nat)
    requires |bars| == |tickers| && i < |tickers|
    requires bars[i].Some? && CountAt(rows, tickers[i], today) == 0
    ensures RecordFor(tickers[i], today, bars[i].value) in Run(rows, tickers, bars, today).queue
    decreases |tickers|
  {
    var n := |tickers| - 1;
    var p := Run(rows, tickers[..n], bars[..n], today);
    if i < n {
      assert tickers[..n][i] == tickers[i] && bars[..n][i] == bars[i];
      NoRowIsQueued(rows, tickers[..n], bars[..n], today, i);
    } else {
      RunKeepsCounts(rows, tickers[..n], bars[..n], today, tickers[n]);
    }
  }

  /** Every row at (symbol, date) carries the prices `v`. */
  predicate PricesAt(rows: seq<PriceRow>, symbol: string, date: string, v: Bar)
  {
    forall j :: 0 <= j < |rows| && AtKey(rows[j], symbol, date) ==> Prices(rows[j]) == v
  }

  /** A ticker with a bar whose key has rows, and that is not listed again
      later, leaves every row at its key carrying its bar's prices. */
  lemma {:induction false} ExistingRowsUpdated(rows: seq<PriceRow>, tickers: seq<string>, bars: seq<Option<Bar>>, today: string, i: nat)
    requires |bars| == |tickers| && i < |tickers|
    requires bars[i].Some? && CountAt(rows, tickers[i], today) > 0
    requires forall j :: i < j < |tickers| ==> tickers[j] != tickers[i]
    ensures PricesAt(Run(rows, tickers, bars, today).rows, tickers[i], today, bars[i].value)
    decreases |tickers|
  {
    var n := |tickers| - 1;
    var tn, bn := tickers[..n], bars[..n];
    var p := Run(rows, tn, bn, today);
    assert Run(rows, tickers, bars, today) == Step(p, tickers[n], bars[n], today);
    if i < n {
      assert tn[i] == tickers[i] && bn[i] == bars[i];
      forall j | i < j < n ensures tn[j] != tn[i] {
        assert tn[j] == tickers[j];
      }
      ExistingRowsUpdated(rows, tn, bn, today, i);
      StepKeepsOtherPrices(p, tickers[n], bars[n], today, tickers[i], bars[i].value);
    } else {
      RunKeepsCounts(rows, tn, bn, today, tickers[n]);
      StepSetsOwnPrices(p, tickers[n], bars[n].value, today);
    }
  }

  /** A step for another ticker keeps the prices at this key. */
  lemma StepKeepsOtherPrices(p: Pass, ticker: string, bar: Option<Bar>, today: string, other: string, v: Bar)
    requires other != ticker
    requires PricesAt(p.rows, other, today, v)
    ensures PricesAt(Step(p, ticker, bar, today).rows, other, today, v)
  {
    var r := Step(p, ticker, bar, today).rows;
    forall j | 0 <= j < |r| && AtKey(r[j], other, today) ensures Prices(r[j]) == v {
      assert Key(r[j]) == Key(p.rows[j]);
    }
  }

  /** A step for a ticker whose key has rows sets their prices. */
  lemma StepSetsOwnPrices(p: Pass, ticker: string, b: Bar, today: string)
    requires CountAt(p.rows, ticker, today) > 0
    ensures PricesAt(Step(p, ticker, Some(b), today).rows, ticker, today, b)
  {
    var r := Step(p, ticker, Some(b), today).rows;
    forall j | 0 <= j < |r| && AtKey(r[j], ticker, today) ensures Prices(r[j]) == b {
      assert Key(r[j]) == Key(p.rows[j]);
    }
  }

  /** A row at a key that no ticker with a bar asks about is left as it was. */
  lemma {:induction false} UnaskedRowsUnchanged(rows: seq<PriceRow>, tickers: seq<string>, bars: seq<Option<Bar>>, today: string, j: nat)
    requires |bars| == |tickers| && j < |rows|
    requires forall i :: 0 <= i < |tickers| && bars[i].Some? ==> !AtKey(rows[j], tickers[i], today)
    ensures |Run(rows, tickers, bars, today).rows| == |rows|
    ensures Run(rows, tickers, bars, today).rows[j] == rows[j]
    decreases |tickers|
  {
    RunKeepsKeys(rows, tickers, bars, today);
    if tickers != [] {
      var n := |tickers| - 1;
      forall i | 0 <= i < n && bars[..n][i].Some? ensures !AtKey(rows[j], tickers[..n][i], today) {
        assert tickers[..n][i] == tickers[i] && bars[..n][i] == bars[i];
      }
      UnaskedRowsUnchanged(rows, tickers[..n], bars[..n], today, j);
    }
  }

  /** With no ticker listed twice, the queue holds at most one record per key. */
  lemma {:induction false} QueueUnique(rows: seq<PriceRow>, tickers: seq<string>, bars: seq<Option<Bar>>, today: string)
    requires |bars| == |tickers| && NoDuplicates(tickers)
    ensures UniqueKeys(Run(rows, tickers, bars, today).queue)
    decreases |tickers|
  {
    if tickers != [] {
      var n := |tickers| - 1;
      var p := Run(rows, tickers[..n], bars[..n], today);
      var q := Run(rows, tickers, bars, today).queue;
      QueueUnique(rows, tickers[..n], bars[..n], today);
      QueuedHadNoRow(rows, tickers[..n], bars[..n], today);
      if q != p.queue {
        forall a, b | 0 <= a < b < |q| ensures Key(q[a]) != Key(q[b]) {
          if b == |p.queue| {
            assert q[a] == p.queue[a];
            assert FromUnseenKey(rows, tickers[..n], bars[..n], today, p.queue[a]);
            var i :| 0 <= i < n && bars[..n][i].Some? && CountAt(rows, tickers[..n][i], today) == 0
                     && p.queue[a] == RecordFor(tickers[..n][i], today, bars[..n][i].value);
            assert tickers[..n][i] == tickers[i];
            assert q[a].symbol == tickers[i] && q[b].symbol == tickers[n];
          } else {
            assert q[a] == p.queue[a] && q[b] == p.queue[b];
          }
        }
      }
    }
  }

  /** The central invariant: a table with at most one row per (symbol, date),
      given a ticker list without duplicates, still has at most one row per key
      once the queue is inserted. */
  lemma RunKeepsUnique(rows: seq<PriceRow>, tickers: seq<string>, bars: seq<Option<Bar>>, today: string)
    requires |bars| == |tickers|
    requires UniqueKeys(rows) && NoDuplicates(tickers)
    ensures var p := Run(rows, tickers, bars, today); UniqueKeys(p.rows) && UniqueKeys(p.rows + p.queue)
  {
    var p := Run(rows, tickers, bars, today);
    var all := p.rows + p.queue;
    RunKeepsKeys(rows, tickers, bars, today);
    QueuedHadNoRow(rows, tickers, bars, today);
    QueueUnique(rows, tickers, bars, today);
    forall a, b | 0 <= a < b < |all| ensures Key(all[a]) != Key(all[b]) {
      if b < |p.rows| {
        assert Key(all[a]) == Key(rows[a]) && Key(all[b]) == Key(rows[b]);
      } else if a >= |p.rows| {
        assert all[a] == p.queue[a - |p.rows|] && all[b] == p.queue[b - |p.rows|];
      } else {
        var k := b - |p.rows|;
        assert all[b] == p.queue[k];
        assert FromUnseenKey(rows, tickers, bars, today, p.queue[k]);
        var i :| 0 <= i < |tickers| && bars[i].Some? && CountAt(rows, tickers[i], today) == 0
                 && p.queue[k] == RecordFor(tickers[i], today, bars[i].value);
        CountZero(rows, tickers[i], today);
        assert Key(all[a]) == Key(rows[a]);
      }
    }
    assert forall a, b :: 0 <= a < b < |p.rows| ==> p.rows[a] == all[a] && p.rows[b] == all[b];
  }

  /** Because inserts are deferred past the checks, a ticker listed twice is
      queued twice and the table ends with two rows at one key. */
  lemma DuplicateTickerQueuedTwice(b: Bar, today: string)
    ensures var p := Run([], ["AAPL", "AAPL"], [Some(b), Some(b)], today);
      && p.queue == [RecordFor("AAPL", today, b), RecordFor("AAPL", today, b)]
      && !UniqueKeys(p.rows + p.queue)
  {
    var tickers := ["AAPL", "AAPL"];
    var bars := [Some(b), Some(b)];
    var rec := RecordFor("AAPL", today, b);
    assert tickers[..1] == ["AAPL"] && bars[..1] == [Some(b)];
    assert Run([], [], [], today) == Pass([], []);
    assert Run([], ["AAPL"], [Some(b)], today) == Step(Pass([], []), "AAPL", Some(b), today) == Pass([], [rec]);
    var p := Run([], tickers, bars, today);
    assert p == Step(Pass([], [rec]), "AAPL", Some(b), today) == Pass([], [rec, rec]);
    var all := p.rows + p.queue;
    assert all == [rec, rec];
    assert Key(all[0]) == Key(all[1]);
  }

  // ---------------------------------------------------------------------
  // The deferred batch insert and the reply

  datatype PriceMessage = Updated | InsertFailed(errors: seq<string>)

  /** The table after the batch insert: it is attempted only for a non-empty
      queue and, reporting errors, writes none of its rows. */
  function Flushed(p: Pass, insertErrors: seq<string>): (r: seq<PriceRow>)
    ensures |p.rows| <= |r| && r[..|p.rows|] == p.rows
    ensures |r| > |p.rows| <==> p.queue != [] && insertErrors == []
    ensures |r| > |p.rows| ==> r[|p.rows|..] == p.queue
  {
    if p.queue != [] && insertErrors == [] then p.rows + p.queue else p.rows
  }

  /** 500 exactly when a non-empty batch reported errors, 200 otherwise. */
  function FinalReply(p: Pass, insertErrors: seq<string>): (r: Reply<PriceMessage>)
    ensures r.status == 500 <==> p.queue != [] && insertErrors != []
    ensures r.status == 200 <==> r.message == Updated
    ensures r.status == 500 ==> r.message == InsertFailed(insertErrors)
    ensures !(p.queue != [] && insertErrors != []) ==> r == Reply(Updated, 200)
  {
    if p.queue != [] && insertErrors != [] then Reply(InsertFailed(insertErrors), 500)
    else Reply(Updated, 200)
  }

  /** The job run on the fixed list keeps the table at one row per key when
      the batch insert succeeds or fails. */
  lemma JobKeepsUnique(rows: seq<PriceRow>, bars: seq<Option<Bar>>, today: string, insertErrors: seq<string>)
    requires |bars| == |SP500Tickers|
    requires UniqueKeys(rows)
    ensures UniqueKeys(Flushed(Run(rows, SP500Tickers, bars, today), insertErrors))
  {
    SP500TickersDistinct();
    RunKeepsUnique(rows, SP500Tickers, bars, today);
  }

  const SP500Tickers: seq<string> := [
    "AAPL", "MSFT", "GOOGL", "AMZN", "NVDA", "TSLA", "META", "BRK.B",
    "JNJ", "XOM", "JPM", "V", "PG", "UNH", "HD", "MA", "ABBV", "PFE", "AVGO", "KO"]

  lemma SP500TickersDistinct()
    ensures NoDuplicates(SP500Tickers)
  {
  }

  /** The `daily_stock_prices` table. */
  class PriceTable {
    var rows: seq<PriceRow>

    constructor (initial: seq<PriceRow>)
      ensures rows == initial
    {
      rows := initial;
    }

    /** The point update for one record, applied before the next ticker. */
    method UpdatePrices(rec: PriceRow)
      modifies this
      ensures rows == SetPrices(old(rows), rec)
    {
      rows := SetPrices(rows, rec);
    }

    /** The job over `tickers` (in the deployed function, SP500Tickers) with
        each ticker's latest bar (None for an empty history), the run date and
        the errors the batch insert would report. */
    method FetchAndStoreStockData(tickers: seq<string>, bars: seq<Option<Bar>>, today: string, insertErrors: seq<string>)
      returns (reply: Reply<PriceMessage>)
      requires |bars| == |tickers|
      modifies this
      ensures reply == FinalReply(Run(old(rows), tickers, bars, today), insertErrors)
      ensures rows == Flushed(Run(old(rows), tickers, bars, today), insertErrors)
    {
      var queue: seq<PriceRow> := [];
      var i := 0;
      while i < |tickers|
        invariant 0 <= i <= |tickers|
        invariant Pass(rows, queue) == Run(old(rows), tickers[..i], bars[..i], today)
      {
        if bars[i].Some? {
          var rec := RecordFor(tickers[i], today, bars[i].value);
          if CountAt(rows, tickers[i], today) == 0 {
            queue := queue + [rec];
          } else {
            UpdatePrices(rec);
          }
        }
        assert tickers[..i + 1][..i] == tickers[..i];
        assert bars[..i + 1][..i] == bars[..i];
        i := i + 1;
      }
      assert tickers[..i] == tickers && bars[..i] == bars;
      if queue != [] {
        if insertErrors != [] {
          return Reply(InsertFailed(insertErrors), 500);
        }
        rows := rows + queue;
      }
      reply := Reply(Updated, 200);
    }
  }
}
