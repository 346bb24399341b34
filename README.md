# GreenBull batch jobs — a Dafny model

GreenBull is five HTTP-triggered batch jobs that fill a warehouse of stock data:

- `update_stock_data` classifies each stock's risk and upserts one profile row per ticker.
- `fetch_and_store_stock_data` upserts the latest daily bar per (symbol, date).
- `fetch_and_store_financial_news` gathers news articles per ticker, scores their sentiment and appends one row per article.
- `fetch_and_store_earnings_report` gathers quarterly earnings and income statements, joins them on (symbol, fiscalDateEnding), converts the date and numeric columns and loads the result.
- `generate_financial_news_embeddings` selects the news rows that have content and no embedding yet, and loads one embedding record per selected row.

This project models the rules that sit between the external calls. Each job is one module:

| file | module | what it holds |
|---|---|---|
| `common.dfy` | `Common` | `Option`, `Result` (an `Err` stands for the exception that aborts a job), API replies, `(message, status)` pairs, truthiness, `s[:n]` |
| `update_stock_data.dfy` | `StockProfiles` | the risk classifier as a function; the `stocks` table as a class whose job MERGEs by ticker |
| `fetch_and_store_stock_data.dfy` | `DailyPrices` | the `daily_stock_prices` table as a class; the count / queue-or-update loop and the deferred batch insert |
| `fetch_and_store_financial_news.dfy` | `FinancialNews` | the skip-on-error fetch loop, the article-to-row mapping, the `financial_news` table |
| `fetch_and_store_earnings_report.dfy` | `EarningsReport` | the abort-on-error fetch loops, dataframes, the inner join, the date and numeric conversion, the earnings table |
| `generate_financial_news_embeddings.dfy` | `NewsEmbeddings` | the selection query, the record loop, the embeddings table |

Every call the jobs make to something outside themselves is a parameter of the model:

- the HTTP replies, as a status and the list fields of the JSON body;
- yfinance metadata and bars;
- the VADER compound score, as `score: string -> real`;
- the sentence-embedding model, as `encode: string -> seq<real>`;
- the pandas string parsers;
- the run date;
- whether a warehouse insert or load succeeds.

Each loop that changes state is a method. Its `ensures` ties the new table to a specification function: a left fold such as `UpdateAll`, `Run`, `Gathered` or `Collected`. The lemmas state what the source promises about those functions.

## Model

| member | source | states |
|---|---|---|
| Common.Prefix | GreenBull/fetch_and_store_financial_news/main.py:62 | `s[:n]` has length min(len(s), n) and is a prefix of `s` |
| StockProfiles.CategorizeStockRisk | GreenBull/update_stock_data/main.py:34-49 | "Low" exactly when a rule-2 clause holds; "High" exactly when a rule-1 clause holds and no rule-2 clause does; "Medium" exactly when neither holds |
| StockProfiles.LabelIsOneOfThree | GreenBull/update_stock_data/main.py:41-49 | the returned label is always "Low", "Medium" or "High" |
| StockProfiles.LastFiringRuleWins | GreenBull/update_stock_data/main.py:41-47 | in a sequence of guarded assignments, the last assignment whose guard holds decides the label |
| StockProfiles.NoFiringRuleKeepsCurrent | GreenBull/update_stock_data/main.py:41-47 | when no guard holds, the default label is kept |
| StockProfiles.CategorizeIsLastMatch | GreenBull/update_stock_data/main.py:41-49 | the classifier equals last-match-wins evaluation of (rule 1 → High, rule 2 → Low) starting from "Medium" |
| StockProfiles.ZeroActsAsMissing | GreenBull/update_stock_data/main.py:36-46 | a zero beta, P/E, market cap or dividend yield classifies exactly like a missing one (truthiness guard) |
| StockProfiles.GuardExamples | GreenBull/update_stock_data/main.py:43-47 | beta 0 does not make a stock "Low" but beta 0.5 does; volatility > 0.03 alone gives "High"; a one-year change > 20 overrides it to "Low" |
| StockProfiles.PrecedenceExample | GreenBull/update_stock_data/main.py:43-47 | a stock that rule 1 marks "High" becomes "Low" when its dividend yield exceeds 3 |
| StockProfiles.GetStockData | GreenBull/update_stock_data/main.py:10-31 | the record carries its ticker, the current price, trailing P/E, market cap and beta as given, the dividend yield or 0, volatility and one-year change, and the sector or "Unknown"; its risk level is the classifier's verdict on the raw metadata, which equals the verdict on the values the row stores |
| StockProfiles.CollectStockData | GreenBull/update_stock_data/main.py:54 | fails exactly when some ticker's data is missing, naming the first such ticker; otherwise holds one record per ticker, in order |
| StockProfiles.MergeStoresRecord | GreenBull/update_stock_data/main.py:59-83 | after one MERGE the ticker has a row and every row of it equals the record; an existing row is updated and not duplicated; other rows keep place and value; at most the record itself is added |
| StockProfiles.MergeKeepsUnique | GreenBull/update_stock_data/main.py:59-83 | a MERGE keeps the table at one row per ticker |
| StockProfiles.UpdateAllKeepsUnique | GreenBull/update_stock_data/main.py:58-102 | the whole MERGE loop keeps one row per ticker, even when a ticker is listed twice |
| StockProfiles.UpdateAllStoresLatest | GreenBull/update_stock_data/main.py:58-102 | after the loop every processed ticker has a row, and each of its rows holds the last record listed for it |
| StockProfiles.UpdateAllKeepsOthers | GreenBull/update_stock_data/main.py:67-83 | rows of tickers not processed keep position and value; every added row belongs to a processed ticker |
| StockProfiles.ProfileTable.Merge | GreenBull/update_stock_data/main.py:101-102 | one MERGE statement turns the table into `MergeByTicker` of it |
| StockProfiles.ProfileTable.MergeAll | GreenBull/update_stock_data/main.py:58-102 | the MERGE loop turns the table into `UpdateAll` of it over the records, in order, and keeps one row per ticker |
| StockProfiles.ProfileTable.UpdateStockData | GreenBull/update_stock_data/main.py:51-105 | over the fixed ticker list: a failed fetch writes nothing; otherwise the table is the per-record MERGE fold and the reply is ("Stock data updated successfully", 200); one row per ticker is preserved |
| DailyPrices.CountAt | GreenBull/fetch_and_store_stock_data/main.py:49-54 | the COUNT is at most the number of rows, and is zero exactly when no row has that symbol and date |
| DailyPrices.Step | GreenBull/fetch_and_store_stock_data/main.py:36-69 | one ticker: an empty history changes nothing; the queue grows exactly when there is a bar and the count is zero, and then by that ticker's record with the table untouched; otherwise the rows at the key get the bar's prices; keys and rows at other keys never change |
| DailyPrices.Flushed | GreenBull/fetch_and_store_stock_data/main.py:71-75 | the table keeps its rows as a prefix, and grows exactly when the queue is non-empty and the insert reports no errors, then by the queue in order |
| DailyPrices.CountPositive | GreenBull/fetch_and_store_stock_data/main.py:49-56 | the COUNT at the key of any stored row is positive |
| DailyPrices.CountZero | GreenBull/fetch_and_store_stock_data/main.py:49-56 | a COUNT of zero means no row has that (symbol, date) |
| DailyPrices.SetPrices | GreenBull/fetch_and_store_stock_data/main.py:60-67 | the UPDATE sets open, close, high, low and volume on every row matching both symbol and date; keys and all other rows are untouched |
| DailyPrices.RunKeepsKeys | GreenBull/fetch_and_store_stock_data/main.py:32-69 | during the ticker loop no row is added and no key changes |
| DailyPrices.RunKeepsCounts | GreenBull/fetch_and_store_stock_data/main.py:49-69 | the counts the loop sees are those of the table as it started |
| DailyPrices.QueuedHadNoRow | GreenBull/fetch_and_store_stock_data/main.py:36-57 | every queued record belongs to a ticker that had a bar and no row at its key |
| DailyPrices.NoRowIsQueued | GreenBull/fetch_and_store_stock_data/main.py:56-57 | every ticker with a bar and no row at its key has its record queued |
| DailyPrices.ExistingRowsUpdated | GreenBull/fetch_and_store_stock_data/main.py:58-69 | a ticker with a bar and existing rows, not listed again later, leaves all its rows carrying its bar's prices |
| DailyPrices.UnaskedRowsUnchanged | GreenBull/fetch_and_store_stock_data/main.py:36-67 | a row whose key no ticker with a bar asks about is unchanged (an empty history does nothing) |
| DailyPrices.QueueUnique | GreenBull/fetch_and_store_stock_data/main.py:32-57 | with no ticker listed twice, the queue holds at most one record per key |
| DailyPrices.RunKeepsUnique | GreenBull/fetch_and_store_stock_data/main.py:32-73 | a table with one row per (symbol, date) and a duplicate-free ticker list keep one row per key, also after the queue is inserted |
| DailyPrices.DuplicateTickerQueuedTwice | GreenBull/fetch_and_store_stock_data/main.py:32-73 | a ticker listed twice is queued twice and would give two rows at one key |
| DailyPrices.FinalReply | GreenBull/fetch_and_store_stock_data/main.py:72-77 | status 500 exactly when a non-empty batch insert reports errors, carrying the errors; in every other case ("Stock data updated successfully", 200) |
| DailyPrices.JobKeepsUnique | GreenBull/fetch_and_store_stock_data/main.py:19-77 | the job on its fixed ticker list keeps one row per (symbol, date) |
| DailyPrices.SP500TickersDistinct | GreenBull/fetch_and_store_stock_data/main.py:19-21 | the fixed ticker list has no duplicates |
| DailyPrices.PriceTable.UpdatePrices | GreenBull/fetch_and_store_stock_data/main.py:59-69 | the update statement turns the table into `SetPrices` of it |
| DailyPrices.PriceTable.FetchAndStoreStockData | GreenBull/fetch_and_store_stock_data/main.py:24-77 | the reply is `FinalReply` and the table is `Flushed` of the ticker loop's result: queued rows are appended only when the batch reports no errors |
| FinancialNews.Contribution | GreenBull/fetch_and_store_financial_news/main.py:21-28 | a non-200 reply contributes nothing; a 200 reply contributes its articles in order, each tagged with the ticker |
| FinancialNews.GatheredSplits | GreenBull/fetch_and_store_financial_news/main.py:14-26 | gathering over two runs of tickers concatenates their results (ticker by ticker, in list order) |
| FinancialNews.FailedTickerSkipped | GreenBull/fetch_and_store_financial_news/main.py:21-28 | a failing ticker is skipped and the rest are gathered as if it were not listed |
| FinancialNews.GatheredAreTagged | GreenBull/fetch_and_store_financial_news/main.py:14-26 | every gathered article carries the ticker it was fetched under and comes from that ticker's successful reply |
| FinancialNews.FetchFinancialNews | GreenBull/fetch_and_store_financial_news/main.py:7-29 | the loop returns exactly `Gathered` of the tickers and replies |
| FinancialNews.ContentOf | GreenBull/fetch_and_store_financial_news/main.py:57 | content if truthy, else description if truthy, else "" |
| FinancialNews.BuildRow | GreenBull/fetch_and_store_financial_news/main.py:56-68 | fails exactly when publishedAt is missing or source is null; otherwise: ticker tag, title as headline, sentiment on the stored content, date the first 10 characters of publishedAt, summary "", source name or None |
| FinancialNews.BuildRows | GreenBull/fetch_and_store_financial_news/main.py:54-69 | one row per article in article order when all succeed; otherwise the error of the first failing article |
| FinancialNews.NewsTable.FetchAndStoreFinancialNews | GreenBull/fetch_and_store_financial_news/main.py:46-75 | the reported count is the number of gathered articles; the appended rows are their rows in order; a batch with insert errors writes nothing and still reports the count |
| EarningsReport.TagAll | GreenBull/fetch_and_store_earnings_report/main.py:30-32 | every report of a reply gets `symbol` set to the ticker |
| EarningsReport.FirstFailure | GreenBull/fetch_and_store_earnings_report/main.py:24-26 | the index of the first non-200 reply: all before it are 200 |
| EarningsReport.CollectedFailsOnFirstError | GreenBull/fetch_and_store_earnings_report/main.py:24-26 | the fetch fails exactly when some reply is not 200, with the status of the first one; no partial list is returned |
| EarningsReport.CollectedErrSticks | GreenBull/fetch_and_store_earnings_report/main.py:24-26 | once a prefix of the tickers fails, the whole fetch fails with that error |
| EarningsReport.MissingListContributesNothing | GreenBull/fetch_and_store_earnings_report/main.py:29 | a successful reply without the list field adds no reports |
| EarningsReport.CollectedAreTagged | GreenBull/fetch_and_store_earnings_report/main.py:18-34 | every collected report is a report from the list field of some listed ticker's 200 reply, with `symbol` set to that ticker |
| EarningsReport.FetchReports | GreenBull/fetch_and_store_earnings_report/main.py:18-34 | the loop returns exactly `Collected`; it issues one request per ticker up to and including the first failure |
| EarningsReport.FetchEarnings | GreenBull/fetch_and_store_earnings_report/main.py:36-63 | `Collected` over `quarterlyEarnings` for AAPL, GOOGL, MSFT, with the number of requests issued |
| EarningsReport.FetchIncomeStatement | GreenBull/fetch_and_store_earnings_report/main.py:7-34 | `Collected` over `quarterlyReports` for AAPL, GOOGL, MSFT, with the number of requests issued |
| EarningsReport.FromRecords | GreenBull/fetch_and_store_earnings_report/main.py:102-103 | a dataframe with one row per record; its columns are exactly the keys that occur in some record; each row keeps its record's values and holds missing cells in the other columns |
| EarningsReport.RenamingKeepsValues | GreenBull/fetch_and_store_earnings_report/main.py:106 | without a suffix clash, suffixing keeps every value of a row under its new name |
| EarningsReport.Merge | GreenBull/fetch_and_store_earnings_report/main.py:106 | raises exactly when a key column is missing from either frame, or a suffix would give one side two columns of one name |
| EarningsReport.MatchesOfMembership | GreenBull/fetch_and_store_earnings_report/main.py:106 | one earnings row yields exactly its combinations with matching income rows |
| EarningsReport.JoinMembership | GreenBull/fetch_and_store_earnings_report/main.py:106 | a row is in the join iff it combines some earnings row with an income row of equal symbol and fiscalDateEnding; unmatched rows are dropped |
| EarningsReport.MatchesOfCount | GreenBull/fetch_and_store_earnings_report/main.py:106 | an earnings row yields exactly as many rows as there are income rows with its symbol and fiscalDateEnding |
| EarningsReport.JoinCount | GreenBull/fetch_and_store_earnings_report/main.py:106 | the join has one row per matching (earnings, income) pair, so keys repeated on both sides multiply |
| EarningsReport.MatchesOfUnique | GreenBull/fetch_and_store_earnings_report/main.py:106 | with unique income keys an earnings row yields one row if it has a partner and none otherwise |
| EarningsReport.JoinOnePerLeft | GreenBull/fetch_and_store_earnings_report/main.py:106 | with unique income keys and a partner for each earnings row, the join has one row per earnings row |
| EarningsReport.ToNumeric | GreenBull/fetch_and_store_earnings_report/main.py:83 | the result is numeric or missing; a number or missing cell is kept; a string becomes missing exactly when it does not parse and becomes the parsed number when it does; a timestamp becomes its number; nothing raises |
| EarningsReport.ToNumericIdempotent | GreenBull/fetch_and_store_earnings_report/main.py:81-83 | converting a converted cell changes nothing |
| EarningsReport.CoercionScope | GreenBull/fetch_and_store_earnings_report/main.py:70-83 | only listed numeric columns the frame has are converted; every other cell and every row's set of columns is unchanged |
| EarningsReport.CoercionIdempotent | GreenBull/fetch_and_store_earnings_report/main.py:81-83 | converting the frame twice equals converting it once |
| EarningsReport.CoerceStep | GreenBull/fetch_and_store_earnings_report/main.py:81-83 | converting one more present column extends the conversion to that column |
| EarningsReport.CoerceListedColumns | GreenBull/fetch_and_store_earnings_report/main.py:81-83 | the loop over a list of column names yields exactly `CoercedFrame`: each listed column the frame has is converted, in list order, and a name the frame lacks is skipped |
| EarningsReport.CoerceNumericColumns | GreenBull/fetch_and_store_earnings_report/main.py:81-83 | the column loop yields exactly `CoercedFrame` over the numeric column list |
| EarningsReport.ToDatetime | GreenBull/fetch_and_store_earnings_report/main.py:67-68 | raises exactly on a string the parser rejects; otherwise yields a timestamp or missing: the parsed time of a string, missing for a not-a-time string such as "" or "NaT", a timestamp or missing cell unchanged |
| EarningsReport.ConvertDates | GreenBull/fetch_and_store_earnings_report/main.py:67-68 | raises exactly when the column is missing or a cell does not parse; otherwise every cell of the column is its converted value (a timestamp or missing), every other cell is unchanged, and no row gains or loses a column |
| EarningsReport.EmptyDateBecomesMissing | GreenBull/fetch_and_store_earnings_report/main.py:67 | a row whose fiscalDateEnding the parser reads as not-a-time is kept with a missing date, and the conversion does not raise |
| EarningsReport.PreProcessedTyped | GreenBull/fetch_and_store_earnings_report/main.py:65-85 | after a successful pre-processing both date columns hold timestamps or missing cells and every listed numeric column the frame has holds numbers or missing cells |
| EarningsReport.PreProcessDataFrame | GreenBull/fetch_and_store_earnings_report/main.py:65-85 | the two date conversions, then the numeric loop, exactly as `PreProcessed` |
| EarningsReport.Report | GreenBull/fetch_and_store_earnings_report/main.py:100-107 | an earnings fetch error is the job's error; with earnings fetched, an income fetch error is; a result exists only when both fetches succeeded, and then its date and numeric columns are typed |
| EarningsReport.EarningsFailureHidesIncome | GreenBull/fetch_and_store_earnings_report/main.py:100-101 | when an earnings reply fails, the job fails with that error, whatever the income replies are |
| EarningsReport.EarningsTable.FetchAndStoreEarningsReport | GreenBull/fetch_and_store_earnings_report/main.py:94-114 | an earnings failure issues no income request; any error writes nothing; on success the processed rows are appended and the reply is ("Earnings report data fetched and stored successfully.", 200) |
| NewsEmbeddings.Select | GreenBull/generate_financial_news_embeddings/main.py:18-28 | selects exactly the source rows with non-null, non-empty content and no destination row of equal (non-null) headline and date, each as many times as it occurs in the source |
| NewsEmbeddings.SelectSplits | GreenBull/generate_financial_news_embeddings/main.py:18-28 | the selection keeps source order: selecting from two consecutive parts of the source is selecting from each and concatenating |
| NewsEmbeddings.DuplicatesInBatchBothSelected | GreenBull/generate_financial_news_embeddings/main.py:23-27 | two equal rows in one batch are both selected |
| NewsEmbeddings.BuildRecords | GreenBull/generate_financial_news_embeddings/main.py:35-46 | one record per selected row, in order, copying ticker, date and headline and embedding "headline. content"; a null headline raises |
| NewsEmbeddings.EmbeddedStaysEmbedded | GreenBull/generate_financial_news_embeddings/main.py:23-27 | loading more records never makes an embedded row eligible again |
| NewsEmbeddings.NothingEligibleSelectsNothing | GreenBull/generate_financial_news_embeddings/main.py:18-28 | with no eligible row the selection is empty |
| NewsEmbeddings.RerunSelectsOnlyNullDates | GreenBull/generate_financial_news_embeddings/main.py:23-27 | after a load, a rerun selects only rows selected before whose date is null |
| NewsEmbeddings.RerunSelectsNothing | GreenBull/generate_financial_news_embeddings/main.py:23-27 | after a load of rows that all have dates, a rerun on the same source selects nothing |
| NewsEmbeddings.EmbeddingTable.GenerateFreeEmbeddings | GreenBull/generate_financial_news_embeddings/main.py:17-55 | an empty selection replies ("No articles found", 200) and writes nothing; otherwise the records are appended in order and the count equals the selection's size; a failed load or a null headline writes nothing |

## Left out

- HTTP, yfinance and the warehouse client are not modelled. Their replies and outcomes are parameters: a status and list fields, a `MarketData` or `Bar` (None when absent), insert errors, and whether a load completes.
- Floating point is not modelled. Volatility, the one-year price change, rounding to 2 places and `int(volume)` are taken as real and int inputs.
- The VADER score and the sentence-embedding model are uninterpreted functions.
- The exact parsing rules of `pd.to_numeric` and `pd.to_datetime` are left out. They are abstract parsers. The date parser has three outcomes: rejected (the conversion raises), not-a-time (the cell becomes missing) or a time. Which strings fall in each class is the parser's choice. A numeric cell given to `pd.to_datetime` is read as whole nanoseconds.
- Dataframe dtypes and the column order of a dataframe are left out. A row is a map from column name to cell.
- EarningsReport.Merge: when, after suffixing, a name from the earnings side equals a name from the income side, pandas keeps two columns of that name. The model keeps the income value only.
- The run date is a fixed input, although the daily-price job re-reads the clock per ticker.
- The SQL text is not modelled, and neither is the risk of interpolating tickers into it. Only the queries' meaning is modelled. Query results come back in table order.
- Concurrency is not modelled. The MERGE at fetch_and_store_stock_data/main.py:69 is not awaited by the source; the model applies it before the next ticker is checked. Overlapping invocations are not modelled either.
- A warehouse insert that reports errors is modelled as writing none of its rows.
- StockProfiles.ProfileTable.UpdateStockData: the market-cap parameter is INT64 in the warehouse, but the model keeps it as a real. JSON null in the provider's metadata is treated like an absent field.
- FinancialNews.NewsTable.FetchAndStoreFinancialNews: the source returns a bare message string. The model gives it status 200, the HTTP framework's default.
- `print` logging is not modelled. Module-level clients and environment variables are configuration.
