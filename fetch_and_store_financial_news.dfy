/** The news job: gather articles per ticker (a failing ticker is skipped),
    turn each article into one row with a sentiment score and append the rows
    to the `financial_news` table. */
module FinancialNews {
  import opened Common

  /** The `source` field of an article: absent, JSON null, or an object whose
      `name` may itself be missing. */
  datatype SourceField = NoSource | NullSource | SourceObject(name: Option<string>)

  /** An article as the news API returns it; fields not used are left out. */
  datatype Article = Article(
    title: Option<string>,
    description: Option<string>,
    content: Option<string>,
    publishedAt: Option<string>,
    source: SourceField)

  /** An article after `article['ticker'] = ticker`. */
  datatype TaggedArticle = TaggedArticle(ticker: string, article: Article)

  /** A row of the `financial_news` table; every column is nullable there. */
  datatype NewsRow = NewsRow(
    ticker: Option<string>,
    date: Option<string>,
    headline: Option<string>,
    content: Option<string>,
    source: Option<string>,
    sentimentScore: real,
    summary: string)

  const NewsTickers: seq<string> := ["AAPL", "GOOGL", "MSFT"]

  // ---------------------------------------------------------------------
  // Fetching, skip-on-error

  /** What one ticker adds: its articles, each tagged with the ticker, when
      the status is 200; nothing otherwise. */
  function Contribution(ticker: string, r: Response<Article>): (c: seq<TaggedArticle>)
    ensures r.status != 200 ==> c == []
    ensures r.status == 200 ==> |c| == |ListField(r, "articles")|
    ensures forall k :: 0 <= k < |c| ==> c[k] == TaggedArticle(ticker, ListField(r, "articles")[k])
  {
    if r.status == 200 then
      var items := ListField(r, "articles");
      seq(|items|, k requires 0 <= k < |items| => TaggedArticle(ticker, items[k]))
    else []
  }

  /** All articles, ticker by ticker in list order. */
  function Gathered(tickers: seq<string>, responses: seq<Response<Article>>): seq<TaggedArticle>
    requires |responses| == |tickers|
    decreases |tickers|
  {
    if tickers == [] then []
    else
      var n := |tickers| - 1;
      Gathered(tickers[..n], responses[..n]) + Contribution(tickers[n], responses[n])
  }

  /** Gathering over two consecutive runs of tickers concatenates their
      results. */
  lemma {:induction false} GatheredSplits(t1: seq<string>, r1: seq<Response<Article>>, t2: seq<string>, r2: seq<Response<Article>>)
    requires |r1| == |t1| && |r2| == |t2|
    ensures Gathered(t1 + t2, r1 + r2) == Gathered(t1, r1) + Gathered(t2, r2)
    decreases |t2|
  {
    if t2 != [] {
      var n := |t2| - 1;
      var t, r := t1 + t2, r1 + r2;
      var m := |t| - 1;
      assert t[..m] == t1 + t2[..n];
      assert r[..m] == r1 + r2[..n];
      assert t[m] == t2[n] && r[m] == r2[n];
      GatheredSplits(t1, r1, t2[..n], r2[..n]);
      assert Gathered(t, r) == Gathered(t[..m], r[..m]) + Contribution(t[m], r[m]);
      assert Gathered(t2, r2) == Gathered(t2[..n], r2[..n]) + Contribution(t2[n], r2[n]);
    } else {
      assert t1 + t2 == t1 && r1 + r2 == r1;
    }
  }

  /** A ticker whose response is not 200 contributes nothing and the others
      are gathered as if it were not listed. */
  lemma FailedTickerSkipped(tickers: seq<string>, responses: seq<Response<Article>>, i: nat)
    requires |responses| == |tickers| && i < |tickers|
    requires responses[i].status != 200
    ensures Gathered(tickers, responses)
         == Gathered(tickers[..i] + tickers[i + 1..], responses[..i] + responses[i + 1..])
  {
    var ta, tb, ra, rb := tickers[..i], tickers[i + 1..], responses[..i], responses[i + 1..];
    var tx, rx := [tickers[i]], [responses[i]];
    var head, rhead := ta + tx, ra + rx;
    assert tickers == head + tb;
    assert responses == rhead + rb;
    FailedAloneGathersNothing(tickers[i], responses[i]);
    GatheredSplits(ta, ra, tx, rx);
    assert Gathered(head, rhead) == Gathered(ta, ra);
    GatheredSplits(head, rhead, tb, rb);
    GatheredSplits(ta, ra, tb, rb);
  }

  /** A single failing ticker gathers nothing. */
  lemma FailedAloneGathersNothing(t: string, r: Response<Article>)
    requires r.status != 200
    ensures Gathered([t], [r]) == []
  {
    assert [t][..0] == [] && [r][..0] == [];
  }

  /** Every gathered article carries the ticker it was fetched under and came
      from that ticker's successful response. */
  lemma {:induction false} GatheredAreTagged(tickers: seq<string>, responses: seq<Response<Article>>, a: TaggedArticle)
    requires |responses| == |tickers|
    requires a in Gathered(tickers, responses)
    ensures exists i :: 0 <= i < |tickers| && responses[i].status == 200 && a.ticker == tickers[i]
                        && a.article in ListField(responses[i], "articles")
    decreases |tickers|
  {
    var n := |tickers| - 1;
    var c := Contribution(tickers[n], responses[n]);
    if a in c {
      var k :| 0 <= k < |c| && c[k] == a;
      assert a.article == ListField(responses[n], "articles")[k];
    } else {
      GatheredAreTagged(tickers[..n], responses[..n], a);
      var i :| 0 <= i < n && responses[..n][i].status == 200 && a.ticker == tickers[..n][i]
               && a.article in ListField(responses[..n][i], "articles");
      assert responses[..n][i] == responses[i] && tickers[..n][i] == tickers[i];
    }
  }

  /** `fetch_financial_news`: one request per ticker in order; a non-200 reply
      is logged and skipped. */
  method FetchFinancialNews(tickers: seq<string>, responses: seq<Response<Article>>)
    returns (all: seq<TaggedArticle>)
    requires |responses| == |tickers|
    ensures all == Gathered(tickers, responses)
  {
    all := [];
    var i := 0;
    while i < |tickers|
      invariant 0 <= i <= |tickers|
      invariant all == Gathered(tickers[..i], responses[..i])
    {
      var response := responses[i];
      if response.status == 200 {
        var items := ListField(response, "articles");
        var j := 0;
        while j < |items|
          invariant 0 <= j <= |items|
          invariant all == Gathered(tickers[..i], responses[..i]) + Contribution(tickers[i], response)[..j]
        {
          all := all + [TaggedArticle(tickers[i], items[j])];
          assert Contribution(tickers[i], response)[..j + 1]
              == Contribution(tickers[i], response)[..j] + [TaggedArticle(tickers[i], items[j])];
          j := j + 1;
        }
        assert Contribution(tickers[i], response)[..j] == Contribution(tickers[i], response);
      }
      assert tickers[..i + 1][..i] == tickers[..i] && responses[..i + 1][..i] == responses[..i];
      i := i + 1;
    }
    assert tickers[..i] == tickers && responses[..i] == responses;
  }

  // ---------------------------------------------------------------------
  // One row per article

  /** `article.get('content') or article.get('description') or ""` */
  function ContentOf(a: Article): (c: string)
    ensures c == "" <==> !Truthy(a.content) && !Truthy(a.description)
    ensures Truthy(a.content) ==> Some(c) == a.content
    ensures !Truthy(a.content) && Truthy(a.description) ==> Some(c) == a.description
  {
    if Truthy(a.content) then a.content.value
    else if Truthy(a.description) then a.description.value
    else ""
  }

  /** Why building a row raises: `None[:10]` for a missing publication time,
      or `None.get('name')` for a null source. */
  datatype RowError = MissingPublishedAt | NullSourceField

  /** The row of one tagged article, scored by the sentiment analyser `score`
      (its compound value). */
  function BuildRow(t: TaggedArticle, score: string -> real): (r: Result<NewsRow, RowError>)
    ensures r.Ok? <==> t.article.publishedAt.Some? && t.article.source != NullSource
    ensures r.Ok? ==>
      && r.value.ticker == Some(t.ticker)
      && r.value.headline == t.article.title
      && r.value.content == Some(ContentOf(t.article))
      && r.value.sentimentScore == score(r.value.content.value)
      && r.value.summary == ""
      && r.value.date.Some? && r.value.date.value <= t.article.publishedAt.value
      && |r.value.date.value| == (if |t.article.publishedAt.value| < 10 then |t.article.publishedAt.value| else 10)
      && r.value.source == (if t.article.source.SourceObject? then t.article.source.name else None)
    ensures r.Err? && t.article.publishedAt.None? ==> r.error == MissingPublishedAt
  {
    var a := t.article;
    var content := ContentOf(a);
    var sentiment := score(content);
    if a.publishedAt.None? then Err(MissingPublishedAt)
    else if a.source.NullSource? then Err(NullSourceField)
    else
      Ok(NewsRow(Some(t.ticker), Some(Prefix(a.publishedAt.value, 10)), a.title, Some(content),
                 if a.source.SourceObject? then a.source.name else None, sentiment, ""))
  }

  /** The row-building loop: one row per article, in article order; the first
      article whose row raises aborts the job. */
  method BuildRows(articles: seq<TaggedArticle>, score: string -> real)
    returns (res: Result<seq<NewsRow>, RowError>)
    ensures res.Ok? <==> forall i :: 0 <= i < |articles| ==> BuildRow(articles[i], score).Ok?
    ensures res.Ok? ==> |res.value| == |articles|
    ensures res.Ok? ==> forall i :: 0 <= i < |articles| ==> BuildRow(articles[i], score) == Ok(res.value[i])
    ensures res.Err? ==> exists i :: 0 <= i < |articles| && BuildRow(articles[i], score) == Err(res.error)
                                    && forall j :: 0 <= j < i ==> BuildRow(articles[j], score).Ok?
  {
    var rows: seq<NewsRow> := [];
    var i := 0;
    while i < |articles|
      invariant 0 <= i <= |articles| && |rows| == i
      invariant forall k :: 0 <= k < i ==> BuildRow(articles[k], score) == Ok(rows[k])
    {
      var row := BuildRow(articles[i], score);
      if row.Err? {
        return Err(row.error);
      }
      rows := rows + [row.value];
      i := i + 1;
    }
    return Ok(rows);
  }

  // ---------------------------------------------------------------------
  // The job

  /** The reply: the number of rows and the table they were sent to. */
  datatype NewsMessage = Inserted(count: nat)

  /** The `financial_news` table; the job only appends to it. */
  class NewsTable {
    var rows: seq<NewsRow>

    constructor (initial: seq<NewsRow>)
      ensures rows == initial
    {
      rows := initial;
    }

    /** The job on the fixed ticker list: gather, build rows, stream them in.
        Insert errors are only logged, so they change neither the reply nor
        its count; a batch that reports errors writes none of its rows. */
    method FetchAndStoreFinancialNews(responses: seq<Response<Article>>, score: string -> real, insertErrors: seq<string>)
      returns (reply: Result<Reply<NewsMessage>, RowError>)
      requires |responses| == |NewsTickers|
      modifies this
      ensures reply.Ok? ==> reply.value == Reply(Inserted(|Gathered(NewsTickers, responses)|), 200)
      ensures reply.Ok? <==> forall a :: a in Gathered(NewsTickers, responses) ==> BuildRow(a, score).Ok?
      ensures reply.Err? ==> rows == old(rows)
      ensures reply.Ok? ==> |rows| == |old(rows)| + (if insertErrors == [] then |Gathered(NewsTickers, responses)| else 0)
      ensures reply.Ok? ==> rows[..|old(rows)|] == old(rows)
      ensures reply.Ok? && insertErrors == [] ==>
                forall k :: 0 <= k < |Gathered(NewsTickers, responses)| ==>
                  BuildRow(Gathered(NewsTickers, responses)[k], score) == Ok(rows[|old(rows)| + k])
    {
      var articles := FetchFinancialNews(NewsTickers, responses);
      var built := BuildRows(articles, score);
      if built.Err? {
        assert exists i :: 0 <= i < |articles| && BuildRow(articles[i], score).Err?;
        return Err(built.error);
      }
      var newRows := built.value;
      if insertErrors == [] {
        rows := rows + newRows;
      }
      reply := Ok(Reply(Inserted(|newRows|), 200));
    }
  }
}
