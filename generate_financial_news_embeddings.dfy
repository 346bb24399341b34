/** The embedding job: select the news rows with content that have no
    embedding yet (matched on headline and date), embed "headline. content"
    for each and load the records into `financial_news_embeddings`. */
module NewsEmbeddings {
  import opened Common
  import opened FinancialNews

  /** A row of the embeddings table. */
  datatype EmbeddingRow = EmbeddingRow(ticker: Option<string>, date: Option<string>, headline: Option<string>, embedding: seq<real>)

  /** SQL `=`: true only when both sides are non-null and equal. */
  predicate SqlEquals(a: Option<string>, b: Option<string>)
  {
    a.Some? && b.Some? && a.value == b.value
  }

  /** The NOT EXISTS sub-query finds a destination row with the same headline
      and date. */
  predicate AlreadyEmbedded(r: NewsRow, dest: seq<EmbeddingRow>)
  {
    exists e :: e in dest && SqlEquals(e.headline, r.headline) && SqlEquals(e.date, r.date)
  }

  /** The WHERE clause: non-null, non-empty content and no embedding yet. */
  predicate Eligible(r: NewsRow, dest: seq<EmbeddingRow>)
  {
    Truthy(r.content) && !AlreadyEmbedded(r, dest)
  }

  /** The query's result, in source order. */
  function Select(source: seq<NewsRow>, dest: seq<EmbeddingRow>): (sel: seq<NewsRow>)
    ensures |sel| <= |source|
    ensures forall r :: r in sel ==> r in source && Eligible(r, dest)
    ensures forall r :: r in source && Eligible(r, dest) ==> r in sel
    ensures forall k :: 0 <= k < |sel| ==> Eligible(sel[k], dest)
    ensures forall r :: multiset(sel)[r] == if Eligible(r, dest) then multiset(source)[r] else 0
  {
    if source == [] then []
    else
      assert source == [source[0]] + source[1..];
      (if Eligible(source[0], dest) then [source[0]] else []) + Select(source[1..], dest)
  }

  /** The selection keeps source order: selecting from two consecutive parts
      of the source is selecting from each and concatenating. */
  lemma {:induction false} SelectSplits(a: seq<NewsRow>, b: seq<NewsRow>, dest: seq<EmbeddingRow>)
    ensures Select(a + b, dest) == Select(a, dest) + Select(b, dest)
  {
    if a == [] {
      assert a + b == b;
    } else {
      var ab := a + b;
      var tail := a[1..];
      assert ab[0] == a[0] && ab[1..] == tail + b;
      var head := if Eligible(a[0], dest) then [a[0]] else [];
      SelectFirst(ab, dest);
      SelectFirst(a, dest);
      SelectSplits(tail, b, dest);
      ConcatAssociates(head, Select(tail, dest), Select(b, dest));
    }
  }

  lemma ConcatAssociates(x: seq<NewsRow>, y: seq<NewsRow>, z: seq<NewsRow>)
    ensures x + (y + z) == (x + y) + z
  {
  }

  /** One unfolding of the selection. */
  lemma SelectFirst(a: seq<NewsRow>, dest: seq<EmbeddingRow>)
    requires a != []
    ensures Select(a, dest) == (if Eligible(a[0], dest) then [a[0]] else []) + Select(a[1..], dest)
  {
  }

  /** Rows with the same headline and date inside one batch are not
      deduplicated: each is selected, so each is embedded. */
  lemma DuplicatesInBatchBothSelected(r: NewsRow)
    requires Truthy(r.content)
    ensures Select([r, r], []) == [r, r]
  {
    assert [r, r][1..] == [r] && [r][1..] == [];
  }

  /** The text handed to the embedding model. */
  function EmbedText(headline: string, content: string): string
  {
    headline + ". " + content
  }

  datatype EmbedError = NullHeadline | LoadFailed

  /** The `iterrows` loop: one record per selected row, in row order, copying
      ticker, date and headline; a null headline makes the concatenation
      raise. */
  method BuildRecords(sel: seq<NewsRow>, encode: string -> seq<real>)
    returns (res: Result<seq<EmbeddingRow>, EmbedError>)
    requires forall k :: 0 <= k < |sel| ==> sel[k].content.Some?
    ensures res.Ok? <==> forall k :: 0 <= k < |sel| ==> sel[k].headline.Some?
    ensures res.Err? ==> res.error == NullHeadline
    ensures res.Ok? ==> |res.value| == |sel|
    ensures res.Ok? ==> forall k :: 0 <= k < |sel| ==>
              res.value[k] == EmbeddingRow(sel[k].ticker, sel[k].date, sel[k].headline,
                                           encode(EmbedText(sel[k].headline.value, sel[k].content.value)))
  {
    var records: seq<EmbeddingRow> := [];
    var i := 0;
    while i < |sel|
      invariant 0 <= i <= |sel| && |records| == i
      invariant forall k :: 0 <= k < i ==> sel[k].headline.Some?
      invariant forall k :: 0 <= k < i ==>
                  records[k] == EmbeddingRow(sel[k].ticker, sel[k].date, sel[k].headline,
                                             encode(EmbedText(sel[k].headline.value, sel[k].content.value)))
    {
      var row := sel[i];
      if row.headline.None? {
        return Err(NullHeadline);
      }
      var text := EmbedText(row.headline.value, row.content.value);
      records := records + [EmbeddingRow(row.ticker, row.date, row.headline, encode(text))];
      i := i + 1;
    }
    return Ok(records);
  }

  /** Loading more rows never makes an embedded row eligible again. */
  lemma EmbeddedStaysEmbedded(r: NewsRow, dest: seq<EmbeddingRow>, more: seq<EmbeddingRow>)
    ensures AlreadyEmbedded(r, dest) ==> AlreadyEmbedded(r, dest + more)
  {
    if e :| e in dest && SqlEquals(e.headline, r.headline) && SqlEquals(e.date, r.date) {
      assert e in dest + more;
    }
  }

  /** A source with no eligible row selects nothing. */
  lemma {:induction false} NothingEligibleSelectsNothing(source: seq<NewsRow>, dest: seq<EmbeddingRow>)
    requires forall k :: 0 <= k < |source| ==> !Eligible(source[k], dest)
    ensures Select(source, dest) == []
  {
    if source != [] {
      NothingEligibleSelectsNothing(source[1..], dest);
    }
  }

  /** After the records of a selection are loaded, running the selection again
      on the same source picks only rows it picked before whose date is null;
      in particular none of the just-embedded headline/date pairs. */
  lemma RerunSelectsOnlyNullDates(source: seq<NewsRow>, dest: seq<EmbeddingRow>, records: seq<EmbeddingRow>)
    requires var sel := Select(source, dest);
      && |records| == |sel|
      && forall k :: 0 <= k < |sel| ==>
           sel[k].headline.Some? && records[k].headline == sel[k].headline && records[k].date == sel[k].date
    ensures forall r :: r in Select(source, dest + records) ==> r in Select(source, dest) && r.date.None?
  {
    var sel := Select(source, dest);
    forall r | r in Select(source, dest + records) ensures r in sel && r.date.None? {
      EmbeddedStaysEmbedded(r, dest, records);
      assert r in sel;
      var k :| 0 <= k < |sel| && sel[k] == r;
      RecordBlocksRow(r, dest, records, k);
    }
  }

  /** A loaded record with a row's headline blocks that row once the row's
      date is non-null. */
  lemma RecordBlocksRow(r: NewsRow, dest: seq<EmbeddingRow>, records: seq<EmbeddingRow>, k: int)
    requires 0 <= k < |records| && r.headline.Some?
    requires records[k].headline == r.headline && records[k].date == r.date
    ensures r.date.Some? ==> AlreadyEmbedded(r, dest + records)
  {
    assert records[k] in dest + records;
  }

  /** When every selected row has a date, a second run on unchanged source data
      selects nothing. */
  lemma RerunSelectsNothing(source: seq<NewsRow>, dest: seq<EmbeddingRow>, records: seq<EmbeddingRow>)
    requires var sel := Select(source, dest);
      && |records| == |sel|
      && forall k :: 0 <= k < |sel| ==>
           sel[k].headline.Some? && sel[k].date.Some?
           && records[k].headline == sel[k].headline && records[k].date == sel[k].date
    ensures Select(source, dest + records) == []
  {
    var sel := Select(source, dest);
    forall k | 0 <= k < |source| ensures !Eligible(source[k], dest + records) {
      var r := source[k];
      EmbeddedStaysEmbedded(r, dest, records);
      if Eligible(r, dest) {
        assert r in sel;
        var j :| 0 <= j < |sel| && sel[j] == r;
        assert records[j] in dest + records;
        assert SqlEquals(records[j].headline, r.headline) && SqlEquals(records[j].date, r.date);
      }
    }
    NothingEligibleSelectsNothing(source, dest + records);
  }

  datatype EmbedMessage = NoArticles | Generated(count: nat)

  /** The `financial_news_embeddings` table. */
  class EmbeddingTable {
    var rows: seq<EmbeddingRow>

    constructor (initial: seq<EmbeddingRow>)
      ensures rows == initial
    {
      rows := initial;
    }

    /** The job over the rows of the news table; `encode` is the sentence
        embedding model and `loadOk` whether the load job completes. The load
        is all-or-nothing. */
    method GenerateFreeEmbeddings(source: seq<NewsRow>, encode: string -> seq<real>, loadOk: bool)
      returns (reply: Result<Reply<EmbedMessage>, EmbedError>)
      modifies this
      ensures var sel := Select(source, old(rows));
        && (sel == [] ==> reply == Ok(Reply(NoArticles, 200)))
        && (reply.Err? || sel == [] ==> rows == old(rows))
        && (reply.Err? <==> sel != [] && (!loadOk || exists k :: 0 <= k < |sel| && sel[k].headline.None?))
        && (reply.Ok? && sel != [] ==>
              && reply.value == Reply(Generated(|sel|), 200)
              && |rows| == |old(rows)| + |sel|
              && rows[..|old(rows)|] == old(rows)
              && forall k :: 0 <= k < |sel| ==>
                   rows[|old(rows)| + k] == EmbeddingRow(sel[k].ticker, sel[k].date, sel[k].headline,
                                                         encode(EmbedText(sel[k].headline.value, sel[k].content.value))))
    {
      var sel := Select(source, rows);
      if sel == [] {
        return Ok(Reply(NoArticles, 200));
      }
      var built := BuildRecords(sel, encode);
      if built.Err? {
        return Err(built.error);
      }
      if !loadOk {
        return Err(LoadFailed);
      }
      var records := built.value;
      rows := rows + records;
      reply := Ok(Reply(Generated(|records|), 200));
    }
  }
}
