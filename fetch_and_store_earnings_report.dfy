/** The earnings-report job: fetch quarterly earnings, then quarterly income
    statements (the first failing request aborts the job), inner-join the two
    on (symbol, fiscalDateEnding), convert the date and numeric columns and
    load the rows into the earnings table. */
module EarningsReport {
  import opened Common

  /** A dataframe cell: a JSON string, a number, a timestamp, or missing
      (NaN / NaT). */
  datatype Cell = Str(s: string) | Num(x: real) | Stamp(t: int) | Missing

  /** A report as a dictionary, and a dataframe row as a map from column name
      to cell. */
  type Record = map<string, Cell>

  datatype Endpoint = IncomeStatement | Earnings

  /** What the date parser makes of a string: no date at all (`to_datetime`
      raises), a not-a-time marker such as "" or "NaT" (the cell becomes
      missing), or a time. */
  datatype ParsedDate = Unparseable | NotATime | Time(t: int)

  datatype ReportError =
    | FetchFailed(endpoint: Endpoint, status: int)
    | MissingKeyColumn
    | DuplicateSuffixedColumn
    | MissingDateColumn(column: string)
    | UnparseableDate(column: string)
    | LoadFailed

  /** The field of the reply that holds the list of reports. */
  function ListKey(e: Endpoint): string
  {
    match e
    case IncomeStatement => "quarterlyReports"
    case Earnings => "quarterlyEarnings"
  }

  const ReportTickers: seq<string> := ["AAPL", "GOOGL", "MSFT"]

  // ---------------------------------------------------------------------
  // Fetching, abort-on-error

  /** `report['symbol'] = ticker` on every report of one reply. */
  function TagAll(ticker: string, items: seq<Record>): (tagged: seq<Record>)
    ensures |tagged| == |items|
    ensures forall k :: 0 <= k < |items| ==> tagged[k] == items[k]["symbol" := Str(ticker)]
  {
    seq(|items|, k requires 0 <= k < |items| => items[k]["symbol" := Str(ticker)])
  }

  /** The accumulator after the listed tickers; the first non-200 reply raises
      and nothing gathered so far is returned. */
  function Collected(e: Endpoint, tickers: seq<string>, responses: seq<Response<Record>>): Result<seq<Record>, ReportError>
    requires |responses| == |tickers|
    decreases |tickers|
  {
    if tickers == [] then Ok([])
    else
      var n := |tickers| - 1;
      match Collected(e, tickers[..n], responses[..n])
      case Err(err) => Err(err)
      case Ok(acc) =>
        if responses[n].status != 200 then Err(FetchFailed(e, responses[n].status))
        else Ok(acc + TagAll(tickers[n], ListField(responses[n], ListKey(e))))
  }

  /** The index of the first non-200 reply, or the number of replies. */
  function FirstFailure(responses: seq<Response<Record>>): (i: nat)
    ensures i <= |responses|
    ensures forall j :: 0 <= j < i ==> responses[j].status == 200
    ensures i < |responses| ==> responses[i].status != 200
  {
    if responses == [] then 0
    else if responses[0].status != 200 then 0
    else 1 + FirstFailure(responses[1..])
  }

  /** The gathering fails exactly when some reply is not 200, and then with
      the status of the first such reply. */
  lemma {:induction false} CollectedFailsOnFirstError(e: Endpoint, tickers: seq<string>, responses: seq<Response<Record>>)
    requires |responses| == |tickers|
    ensures var f := FirstFailure(responses);
      && (Collected(e, tickers, responses).Err? <==> f < |responses|)
      && (f < |responses| ==> Collected(e, tickers, responses) == Err(FetchFailed(e, responses[f].status)))
    decreases |tickers|
  {
    if tickers != [] {
      var n := |tickers| - 1;
      var pre := responses[..n];
      CollectedFailsOnFirstError(e, tickers[..n], pre);
      FirstFailureOfPrefix(responses, n);
    }
  }

  /** How the first failure of a list relates to that of the list without its
      last reply. */
  lemma FirstFailureOfPrefix(responses: seq<Response<Record>>, n: nat)
    requires n + 1 == |responses|
    ensures var f, g := FirstFailure(responses), FirstFailure(responses[..n]);
      && (g < n ==> f == g)
      && (g == n ==> f == (if responses[n].status != 200 then n else n + 1))
  {
    var f, g := FirstFailure(responses), FirstFailure(responses[..n]);
    if g < n {
      assert responses[..n][g] == responses[g];
      assert forall j :: 0 <= j < g ==> responses[..n][j] == responses[j];
      FirstFailureIsLeast(responses, g);
    } else {
      assert forall j :: 0 <= j < n ==> responses[..n][j] == responses[j];
      if responses[n].status != 200 {
        FirstFailureIsLeast(responses, n);
      } else {
        FirstFailureIsLeast(responses, f);
      }
    }
  }

  /** A failure at index i preceded only by successes is the first failure. */
  lemma {:induction false} FirstFailureIsLeast(responses: seq<Response<Record>>, i: nat)
    requires i <= |responses|
    requires forall j :: 0 <= j < i ==> responses[j].status == 200
    requires i < |responses| ==> responses[i].status != 200
    ensures FirstFailure(responses) == i
  {
    if responses != [] && i > 0 {
      FirstFailureIsLeast(responses[1..], i - 1);
    }
  }

  /** A successful reply without the list field adds no reports. */
  lemma MissingListContributesNothing(e: Endpoint, tickers: seq<string>, responses: seq<Response<Record>>,
                                      t: string, r: Response<Record>)
    requires |responses| == |tickers| && r.status == 200 && ListKey(e) !in r.lists
    ensures Collected(e, tickers + [t], responses + [r]) == Collected(e, tickers, responses)
  {
    var ts, rs := tickers + [t], responses + [r];
    assert ts[..|tickers|] == tickers && rs[..|responses|] == responses;
    assert ListField(rs[|tickers|], ListKey(e)) == [];
    match Collected(e, tickers, responses)
    case Err(_) =>
    case Ok(acc) =>
      assert Collected(e, ts, rs) == Ok(acc + TagAll(t, []));
      assert acc + TagAll(t, []) == acc;
  }

  /** `report` is a report of ticker i's successful reply, tagged with that
      ticker. */
  predicate FromReply(e: Endpoint, tickers: seq<string>, responses: seq<Response<Record>>, report: Record)
    requires |responses| == |tickers|
  {
    exists i, item :: 0 <= i < |tickers| && responses[i].status == 200 && item in ListField(responses[i], ListKey(e))
                      && report == item["symbol" := Str(tickers[i])]
  }

  /** On success every report comes from the successful reply of a listed
      ticker and carries that ticker's symbol. */
  lemma {:induction false} CollectedAreTagged(e: Endpoint, tickers: seq<string>, responses: seq<Response<Record>>)
    requires |responses| == |tickers|
    requires Collected(e, tickers, responses).Ok?
    ensures forall r :: r in Collected(e, tickers, responses).value ==> FromReply(e, tickers, responses, r)
    decreases |tickers|
  {
    if tickers != [] {
      var n := |tickers| - 1;
      var tn, rn := tickers[..n], responses[..n];
      CollectedAreTagged(e, tn, rn);
      var acc := Collected(e, tn, rn).value;
      var items := ListField(responses[n], ListKey(e));
      var tagged := TagAll(tickers[n], items);
      assert responses[n].status == 200;
      assert Collected(e, tickers, responses).value == acc + tagged;
      forall r | r in acc + tagged ensures FromReply(e, tickers, responses, r) {
        if r in acc {
          assert FromReply(e, tn, rn, r);
          var i, item :| 0 <= i < n && rn[i].status == 200 && item in ListField(rn[i], ListKey(e))
                         && r == item["symbol" := Str(tn[i])];
          assert tn[i] == tickers[i] && rn[i] == responses[i];
        } else {
          var k :| 0 <= k < |tagged| && tagged[k] == r;
          assert items[k] in items;
        }
      }
    }
  }

  /** Once a prefix has failed, the whole gathering fails the same way. */
  lemma {:induction false} CollectedErrSticks(e: Endpoint, tickers: seq<string>, responses: seq<Response<Record>>, i: nat)
    requires |responses| == |tickers| && i <= |tickers|
    requires Collected(e, tickers[..i], responses[..i]).Err?
    ensures Collected(e, tickers, responses) == Collected(e, tickers[..i], responses[..i])
    decreases |tickers| - i
  {
    if i < |tickers| {
      assert tickers[..i + 1][..i] == tickers[..i] && responses[..i + 1][..i] == responses[..i];
      CollectedErrSticks(e, tickers, responses, i + 1);
    } else {
      assert tickers[..i] == tickers && responses[..i] == responses;
    }
  }

  /** The shared loop of `fetch_income_statement` and `fetch_earnings`: one
      request per ticker, in order; `requests` is how many were issued before
      the loop finished or raised. */
  method FetchReports(e: Endpoint, tickers: seq<string>, responses: seq<Response<Record>>)
    returns (res: Result<seq<Record>, ReportError>, requests: nat)
    requires |responses| == |tickers|
    ensures res == Collected(e, tickers, responses)
    ensures res.Ok? ==> requests == |tickers|
    ensures res.Err? ==> requests == FirstFailure(responses) + 1
  {
    var acc: seq<Record> := [];
    var i := 0;
    while i < |tickers|
      invariant 0 <= i <= |tickers|
      invariant Collected(e, tickers[..i], responses[..i]) == Ok(acc)
      invariant forall j :: 0 <= j < i ==> responses[j].status == 200
    {
      var response := responses[i];
      assert tickers[..i + 1][..i] == tickers[..i] && responses[..i + 1][..i] == responses[..i];
      if response.status != 200 {
        CollectedErrSticks(e, tickers, responses, i + 1);
        FirstFailureIsLeast(responses, i);
        return Err(FetchFailed(e, response.status)), i + 1;
      }
      var items := ListField(response, ListKey(e));
      var tagged := TagAll(tickers[i], items);
      var j := 0;
      while j < |items|
        invariant 0 <= j <= |items|
        invariant Collected(e, tickers[..i], responses[..i]).Ok?
        invariant acc == Collected(e, tickers[..i], responses[..i]).value + tagged[..j]
      {
        acc := acc + [items[j]["symbol" := Str(tickers[i])]];
        assert tagged[..j + 1] == tagged[..j] + [tagged[j]];
        j := j + 1;
      }
      assert tagged[..j] == tagged;
      i := i + 1;
    }
    assert tickers[..i] == tickers && responses[..i] == responses;
    FirstFailureIsLeast(responses, |responses|);
    return Ok(acc), |tickers|;
  }

  /** `fetch_earnings` on the fixed ticker list. */
  method FetchEarnings(responses: seq<Response<Record>>) returns (res: Result<seq<Record>, ReportError>, requests: nat)
    requires |responses| == |ReportTickers|
    ensures res == Collected(Earnings, ReportTickers, responses)
    ensures requests == if res.Ok? then |ReportTickers| else FirstFailure(responses) + 1
  {
    res, requests := FetchReports(Earnings, ReportTickers, responses);
  }

  /** `fetch_income_statement` on the fixed ticker list. */
  method FetchIncomeStatement(responses: seq<Response<Record>>) returns (res: Result<seq<Record>, ReportError>, requests: nat)
    requires |responses| == |ReportTickers|
    ensures res == Collected(IncomeStatement, ReportTickers, responses)
    ensures requests == if res.Ok? then |ReportTickers| else FirstFailure(responses) + 1
  {
    res, requests := FetchReports(IncomeStatement, ReportTickers, responses);
  }

  // ---------------------------------------------------------------------
  // Dataframes and the inner join

  /** A dataframe: its column names and its rows. */
  datatype Frame = Frame(columns: set<string>, rows: seq<Record>)

  predicate Rectangular(f: Frame)
  {
    forall k :: 0 <= k < |f.rows| ==> f.rows[k].Keys == f.columns
  }

  function ColumnsOf(records: seq<Record>): set<string>
  {
    if records == [] then {} else records[0].Keys + ColumnsOf(records[1..])
  }

  /** `pd.DataFrame(records)`: the columns are all keys seen, and a record
      without a column gets a missing cell there. */
  function FromRecords(records: seq<Record>): (f: Frame)
    ensures Rectangular(f) && |f.rows| == |records|
    ensures forall k, c :: 0 <= k < |records| && c in records[k] ==> c in f.rows[k] && f.rows[k][c] == records[k][c]
    ensures forall k, c :: 0 <= k < |records| && c in f.columns && c !in records[k] ==> f.rows[k][c] == Missing
    ensures forall c :: c in f.columns <==> exists k :: 0 <= k < |records| && c in records[k]
  {
    var cols := ColumnsOf(records);
    ColumnsCoverRecords(records);
    ColumnsExact(records);
    Frame(cols, seq(|records|, k requires 0 <= k < |records| => map c | c in cols :: if c in records[k] then records[k][c] else Missing))
  }

  lemma {:induction false} ColumnsCoverRecords(records: seq<Record>)
    ensures forall k :: 0 <= k < |records| ==> records[k].Keys <= ColumnsOf(records)
  {
    if records != [] {
      ColumnsCoverRecords(records[1..]);
      assert forall k :: 1 <= k < |records| ==> records[k] == records[1..][k - 1];
    }
  }

  /** Every column comes from some record. */
  lemma {:induction false} ColumnsExact(records: seq<Record>)
    ensures forall c :: c in ColumnsOf(records) ==> exists k :: 0 <= k < |records| && c in records[k]
  {
    if records != [] {
      ColumnsExact(records[1..]);
      forall c | c in ColumnsOf(records) ensures exists k :: 0 <= k < |records| && c in records[k] {
        if c !in records[0] {
          assert c in ColumnsOf(records[1..]);
          var k :| 0 <= k < |records[1..]| && c in records[1..][k];
          assert records[k + 1] == records[1..][k];
        }
      }
    }
  }

  function Get(r: Record, c: string): Cell
  {
    if c in r then r[c] else Missing
  }

  const JoinKeys: set<string> := {"symbol", "fiscalDateEnding"}

  /** Equal symbol and equal fiscalDateEnding; as in pandas, two missing keys
      are equal. */
  predicate KeysMatch(l: Record, r: Record)
  {
    Get(l, "symbol") == Get(r, "symbol") && Get(l, "fiscalDateEnding") == Get(r, "fiscalDateEnding")
  }

  /** The non-key columns both frames have; they get a suffix in the result. */
  function Overlap(left: set<string>, right: set<string>): set<string>
  {
    left * right - JoinKeys
  }

  /** The name a column gets in the merged frame. */
  function Suffixed(c: string, overlap: set<string>, suffix: string): string
  {
    if c in overlap then c + suffix else c
  }

  /** Suffixing makes two columns of one side share a name (pandas raises a
      MergeError). */
  predicate SuffixClash(columns: set<string>, overlap: set<string>, suffix: string)
  {
    exists c :: c in overlap && c + suffix in columns && c + suffix !in overlap
  }

  function RenamedColumns(columns: set<string>, overlap: set<string>, suffix: string): set<string>
  {
    (columns - overlap) + set c | c in columns && c in overlap :: c + suffix
  }

  lemma SuffixedNamesInvert(r: Record, overlap: set<string>, suffix: string)
    ensures forall n :: n in (set c | c in r && c in overlap :: c + suffix) ==>
              |suffix| <= |n| && n[..|n| - |suffix|] in r
  {
    forall n | n in (set c | c in r && c in overlap :: c + suffix)
      ensures |suffix| <= |n| && n[..|n| - |suffix|] in r
    {
      var c :| c in r && c in overlap && n == c + suffix;
      assert n[..|n| - |suffix|] == c;
    }
  }

  /** One side's row with its overlapping columns suffixed. */
  function Renamed(r: Record, overlap: set<string>, suffix: string): Record
  {
    SuffixedNamesInvert(r, overlap, suffix);
    (map c | c in r && c !in overlap :: r[c])
    + (map n | n in (set c | c in r && c in overlap :: c + suffix) :: r[n[..|n| - |suffix|]])
  }

  /** Without a clash, renaming keeps every value of the row under its new
      name and adds nothing. */
  lemma RenamingKeepsValues(r: Record, overlap: set<string>, suffix: string)
    requires !SuffixClash(r.Keys, overlap, suffix)
    ensures Renamed(r, overlap, suffix).Keys == RenamedColumns(r.Keys, overlap, suffix)
    ensures forall c :: c in r ==> Suffixed(c, overlap, suffix) in Renamed(r, overlap, suffix)
                                   && Renamed(r, overlap, suffix)[Suffixed(c, overlap, suffix)] == r[c]
  {
    var m := Renamed(r, overlap, suffix);
    forall c | c in r
      ensures Suffixed(c, overlap, suffix) in m && m[Suffixed(c, overlap, suffix)] == r[c]
    {
      if c in overlap {
        assert (c + suffix)[..|c + suffix| - |suffix|] == c;
      } else {
        assert forall d :: d in r && d in overlap ==> c != d + suffix;
      }
    }
  }

  /** The joined row: the key columns once, and the other columns of both,
      suffixed where both frames have them. */
  function Combine(l: Record, r: Record, overlap: set<string>): Record
  {
    Renamed(l, overlap, "_earnings") + Renamed(r, overlap, "_income")
  }

  /** The rows a left row contributes: one per matching right row. */
  function MatchesOf(l: Record, rights: seq<Record>, overlap: set<string>): seq<Record>
  {
    if rights == [] then []
    else (if KeysMatch(l, rights[0]) then [Combine(l, rights[0], overlap)] else []) + MatchesOf(l, rights[1..], overlap)
  }

  function JoinRows(lefts: seq<Record>, rights: seq<Record>, overlap: set<string>): seq<Record>
  {
    if lefts == [] then [] else MatchesOf(lefts[0], rights, overlap) + JoinRows(lefts[1..], rights, overlap)
  }

  /** `pd.merge(earnings, income, on=['symbol', 'fiscalDateEnding'],
      suffixes=('_earnings', '_income'))`: an inner join; a frame without
      either key column raises, and so does a suffix that would give one
      side two columns of the same name. */
  function Merge(left: Frame, right: Frame): (r: Result<Frame, ReportError>)
    ensures r.Err? <==> !(JoinKeys <= left.columns && JoinKeys <= right.columns)
                        || SuffixClash(left.columns, Overlap(left.columns, right.columns), "_earnings")
                        || SuffixClash(right.columns, Overlap(left.columns, right.columns), "_income")
  {
    if "symbol" !in left.columns || "fiscalDateEnding" !in left.columns
       || "symbol" !in right.columns || "fiscalDateEnding" !in right.columns
    then Err(MissingKeyColumn)
    else
      var overlap := Overlap(left.columns, right.columns);
      if SuffixClash(left.columns, overlap, "_earnings") || SuffixClash(right.columns, overlap, "_income")
      then Err(DuplicateSuffixedColumn)
      else Ok(Frame(RenamedColumns(left.columns, overlap, "_earnings") + RenamedColumns(right.columns, overlap, "_income"),
                    JoinRows(left.rows, right.rows, overlap)))
  }

  lemma {:induction false} MatchesOfMembership(l: Record, rights: seq<Record>, overlap: set<string>, x: Record)
    ensures x in MatchesOf(l, rights, overlap) <==>
            exists j :: 0 <= j < |rights| && KeysMatch(l, rights[j]) && x == Combine(l, rights[j], overlap)
  {
    if rights != [] {
      var rest := rights[1..];
      var head := if KeysMatch(l, rights[0]) then [Combine(l, rights[0], overlap)] else [];
      assert MatchesOf(l, rights, overlap) == head + MatchesOf(l, rest, overlap);
      MatchesOfMembership(l, rest, overlap, x);
      if x in MatchesOf(l, rights, overlap) {
        if x in head {
          assert KeysMatch(l, rights[0]) && x == Combine(l, rights[0], overlap);
        } else {
          var j :| 0 <= j < |rest| && KeysMatch(l, rest[j]) && x == Combine(l, rest[j], overlap);
          assert rights[j + 1] == rest[j];
        }
      }
      if j :| 0 <= j < |rights| && KeysMatch(l, rights[j]) && x == Combine(l, rights[j], overlap) {
        if j == 0 {
          assert x in head;
        } else {
          assert rest[j - 1] == rights[j];
          assert x in MatchesOf(l, rest, overlap);
        }
      }
    }
  }

  /** A row is in the join exactly when it combines some earnings row with some
      income row that has the same symbol and fiscalDateEnding; records with no
      partner are dropped. */
  lemma {:induction false} JoinMembership(lefts: seq<Record>, rights: seq<Record>, overlap: set<string>, x: Record)
    ensures x in JoinRows(lefts, rights, overlap) <==>
            exists i, j :: 0 <= i < |lefts| && 0 <= j < |rights| && KeysMatch(lefts[i], rights[j])
                           && x == Combine(lefts[i], rights[j], overlap)
  {
    if lefts != [] {
      var rest := lefts[1..];
      var first := MatchesOf(lefts[0], rights, overlap);
      assert JoinRows(lefts, rights, overlap) == first + JoinRows(rest, rights, overlap);
      JoinMembership(rest, rights, overlap, x);
      MatchesOfMembership(lefts[0], rights, overlap, x);
      if x in JoinRows(lefts, rights, overlap) {
        if x in first {
          var j :| 0 <= j < |rights| && KeysMatch(lefts[0], rights[j]) && x == Combine(lefts[0], rights[j], overlap);
        } else {
          var i, j :| 0 <= i < |rest| && 0 <= j < |rights| && KeysMatch(rest[i], rights[j]) && x == Combine(rest[i], rights[j], overlap);
          assert lefts[i + 1] == rest[i];
        }
      }
      if i, j :| 0 <= i < |lefts| && 0 <= j < |rights| && KeysMatch(lefts[i], rights[j]) && x == Combine(lefts[i], rights[j], overlap) {
        if i == 0 {
          assert x in first;
        } else {
          assert rest[i - 1] == lefts[i];
          assert x in JoinRows(rest, rights, overlap);
        }
      }
    }
  }

  /** The indexes of the income rows that match an earnings row. */
  function Partners(l: Record, rights: seq<Record>): set<int>
  {
    set j | 0 <= j < |rights| && KeysMatch(l, rights[j])
  }

  /** The matching (earnings, income) index pairs. */
  function MatchingPairs(lefts: seq<Record>, rights: seq<Record>): set<(int, int)>
  {
    set i, j | 0 <= i < |lefts| && 0 <= j < |rights| && KeysMatch(lefts[i], rights[j]) :: (i, j)
  }

  /** An earnings row yields one row per matching income row, however many
      there are. */
  lemma {:induction false} MatchesOfCount(l: Record, rights: seq<Record>, overlap: set<string>)
    ensures |MatchesOf(l, rights, overlap)| == |Partners(l, rights)|
  {
    if rights == [] {
      assert Partners(l, rights) == {};
    } else {
      var t := Partners(l, rights[1..]);
      var first: set<int> := if KeysMatch(l, rights[0]) then {0} else {};
      MatchesOfCount(l, rights[1..], overlap);
      ShiftedSize(t);
      PartnersSplit(l, rights);
      assert first * (set j | j in t :: j + 1) == {};
    }
  }

  /** The partners of an earnings row: the first income row if it matches,
      then those among the rest, shifted by one. */
  lemma PartnersSplit(l: Record, rights: seq<Record>)
    requires rights != []
    ensures Partners(l, rights)
         == (if KeysMatch(l, rights[0]) then {0} else {}) + (set j | j in Partners(l, rights[1..]) :: j + 1)
  {
    var rest := rights[1..];
    var t := Partners(l, rest);
    var shifted := set j | j in t :: j + 1;
    var first: set<int> := if KeysMatch(l, rights[0]) then {0} else {};
    forall x | x in Partners(l, rights) ensures x in first + shifted {
      if x > 0 {
        assert rest[x - 1] == rights[x];
        assert x - 1 in t;
      }
    }
    forall x | x in first + shifted ensures x in Partners(l, rights) {
      if x in shifted {
        var j :| j in t && x == j + 1;
        assert rest[j] == rights[x];
      }
    }
  }

  lemma {:induction false} ShiftedSize(t: set<int>)
    ensures |set j | j in t :: j + 1| == |t|
  {
    if |t| > 0 {
      var y := PickOne(t);
      var rest := t - {y};
      ShiftedSize(rest);
      var big, small := set j | j in t :: j + 1, set j | j in rest :: j + 1;
      forall x | x in big ensures x in small + {y + 1} {
        var j :| j in t && x == j + 1;
        if j != y {
          assert j in rest;
        }
      }
      assert big == small + {y + 1};
    }
  }

  lemma {:induction false} PairedSize(t: set<int>, i: int)
    ensures |set j | j in t :: (i, j)| == |t|
  {
    if |t| > 0 {
      var y := PickOne(t);
      var rest := t - {y};
      PairedSize(rest, i);
      var big, small := set j | j in t :: (i, j), set j | j in rest :: (i, j);
      forall x | x in big ensures x in small + {(i, y)} {
        var j :| j in t && x == (i, j);
      }
      assert big == small + {(i, y)};
    }
  }

  lemma {:induction false} ShiftedPairsSize(p: set<(int, int)>)
    ensures |set q | q in p :: (q.0 + 1, q.1)| == |p|
  {
    if |p| > 0 {
      var y := PickOne(p);
      var rest := p - {y};
      ShiftedPairsSize(rest);
      var big, small := set q | q in p :: (q.0 + 1, q.1), set q | q in rest :: (q.0 + 1, q.1);
      forall x | x in big ensures x in small + {(y.0 + 1, y.1)} {
        var q :| q in p && x == (q.0 + 1, q.1);
      }
      assert big == small + {(y.0 + 1, y.1)};
    }
  }

  /** Some element of a non-empty set. */
  ghost function PickOne<T>(s: set<T>): (y: T)
    requires |s| > 0
    ensures y in s
  {
    assert s != {};
    var y :| y in s; y
  }

  /** The matching pairs of the earnings rows: those of the first row, then
      those of the rest, shifted by one. */
  lemma MatchingPairsSplit(lefts: seq<Record>, rights: seq<Record>)
    requires lefts != []
    ensures MatchingPairs(lefts, rights)
         == (set j | j in Partners(lefts[0], rights) :: (0, j))
          + (set q | q in MatchingPairs(lefts[1..], rights) :: (q.0 + 1, q.1))
  {
    var rest := lefts[1..];
    var head := set j | j in Partners(lefts[0], rights) :: (0, j);
    var p := MatchingPairs(rest, rights);
    var shifted := set q | q in p :: (q.0 + 1, q.1);
    forall x | x in MatchingPairs(lefts, rights) ensures x in head + shifted {
      var i, j := x.0, x.1;
      if i == 0 {
        assert j in Partners(lefts[0], rights);
      } else {
        assert rest[i - 1] == lefts[i];
        assert (i - 1, j) in p;
      }
    }
    forall x | x in head + shifted ensures x in MatchingPairs(lefts, rights) {
      if x in shifted {
        var q :| q in p && x == (q.0 + 1, q.1);
        assert rest[q.0] == lefts[x.0];
      }
    }
  }

  /** The inner join emits one row per matching (earnings, income) pair, so a
      key shared by several rows on both sides multiplies. */
  lemma {:induction false} JoinCount(lefts: seq<Record>, rights: seq<Record>, overlap: set<string>)
    ensures |JoinRows(lefts, rights, overlap)| == |MatchingPairs(lefts, rights)|
  {
    if lefts == [] {
      assert MatchingPairs(lefts, rights) == {};
    } else {
      var rest := lefts[1..];
      var m := Partners(lefts[0], rights);
      var head := set j | j in m :: (0, j);
      var p := MatchingPairs(rest, rights);
      var shifted := set q | q in p :: (q.0 + 1, q.1);
      assert JoinRows(lefts, rights, overlap) == MatchesOf(lefts[0], rights, overlap) + JoinRows(rest, rights, overlap);
      MatchesOfCount(lefts[0], rights, overlap);
      JoinCount(rest, rights, overlap);
      PairedSize(m, 0);
      ShiftedPairsSize(p);
      MatchingPairsSplit(lefts, rights);
      assert head * shifted == {};
    }
  }

  /** No two rows share a (symbol, fiscalDateEnding) key. */
  predicate UniqueJoinKeys(rows: seq<Record>)
  {
    forall i, j :: 0 <= i < j < |rows| ==> !KeysMatch(rows[i], rows[j])
  }

  predicate HasPartner(l: Record, rights: seq<Record>)
  {
    exists j :: 0 <= j < |rights| && KeysMatch(l, rights[j])
  }

  lemma {:induction false} MatchesOfUnique(l: Record, rights: seq<Record>, overlap: set<string>)
    requires UniqueJoinKeys(rights)
    ensures |MatchesOf(l, rights, overlap)| == if HasPartner(l, rights) then 1 else 0
  {
    if rights != [] {
      var rest := rights[1..];
      MatchesOfUnique(l, rest, overlap);
      if HasPartner(l, rest) {
        var j :| 0 <= j < |rest| && KeysMatch(l, rest[j]);
        assert rest[j] == rights[j + 1];
        assert !KeysMatch(rights[0], rights[j + 1]);
      }
      if j :| 0 <= j < |rights| && KeysMatch(l, rights[j]) {
        if j > 0 {
          assert rest[j - 1] == rights[j];
        }
      }
    }
  }

  /** With at most one income row per key and a partner for every earnings
      row, the join has exactly one row per earnings row. */
  lemma {:induction false} JoinOnePerLeft(lefts: seq<Record>, rights: seq<Record>, overlap: set<string>)
    requires UniqueJoinKeys(rights)
    requires forall i :: 0 <= i < |lefts| ==> HasPartner(lefts[i], rights)
    ensures |JoinRows(lefts, rights, overlap)| == |lefts|
  {
    if lefts != [] {
      MatchesOfUnique(lefts[0], rights, overlap);
      assert forall i :: 0 <= i < |lefts| - 1 ==> lefts[1..][i] == lefts[i + 1];
      JoinOnePerLeft(lefts[1..], rights, overlap);
    }
  }

  // ---------------------------------------------------------------------
  // Column conversion

  const NumericColumns: seq<string> := [
    "reportedEPS", "estimatedEPS", "surprise", "surprisePercentage",
    "grossProfit", "totalRevenue", "costOfRevenue", "costofGoodsAndServicesSold",
    "operatingIncome", "sellingGeneralAndAdministrative", "researchAndDevelopment",
    "operatingExpenses", "investmentIncomeNet", "netInterestIncome", "interestIncome",
    "interestExpense", "nonInterestIncome", "otherNonOperatingIncome", "depreciation",
    "depreciationAndAmortization", "incomeBeforeTax", "incomeTaxExpense",
    "interestAndDebtExpense", "netIncomeFromContinuingOperations",
    "comprehensiveIncomeNetOfTax", "ebit", "ebitda", "netIncome"]

  /** `pd.to_numeric(..., errors='coerce')` on one cell, with `parse` the
      abstract number parser: a string that does not parse becomes missing,
      and nothing raises. */
  function ToNumeric(c: Cell, parse: string -> Option<real>): (d: Cell)
    ensures d.Num? || d.Missing?
    ensures c.Num? || c.Missing? ==> d == c
    ensures c.Str? ==> (d == Missing <==> parse(c.s).None?)
    ensures c.Str? && parse(c.s).Some? ==> d == Num(parse(c.s).value)
    ensures c.Stamp? ==> d == Num(c.t as real)
  {
    match c
    case Str(s) => if parse(s).Some? then Num(parse(s).value) else Missing
    case Num(_) => c
    case Stamp(t) => Num(t as real)
    case Missing => Missing
  }

  /** Coercing an already coerced cell changes nothing. */
  lemma ToNumericIdempotent(c: Cell, parse: string -> Option<real>)
    ensures ToNumeric(ToNumeric(c, parse), parse) == ToNumeric(c, parse)
  {
  }

  /** The row after every column in `listed` that the frame has was coerced. */
  function CoercedRow(r: Record, columns: set<string>, listed: seq<string>, parse: string -> Option<real>): Record
  {
    map c | c in r :: if c in columns && c in listed then ToNumeric(r[c], parse) else r[c]
  }

  function CoercedFrame(f: Frame, listed: seq<string>, parse: string -> Option<real>): Frame
  {
    Frame(f.columns, seq(|f.rows|, k requires 0 <= k < |f.rows| => CoercedRow(f.rows[k], f.columns, listed, parse)))
  }

  /** Coercion only touches listed columns the frame has; those end up numeric
      or missing, everything else is unchanged, and no row gains or loses a
      column. */
  lemma CoercionScope(f: Frame, parse: string -> Option<real>)
    ensures var g := CoercedFrame(f, NumericColumns, parse);
      && g.columns == f.columns && |g.rows| == |f.rows|
      && (forall k :: 0 <= k < |f.rows| ==> g.rows[k].Keys == f.rows[k].Keys)
      && (forall k, c :: 0 <= k < |f.rows| && c in f.rows[k] && c in f.columns && c in NumericColumns ==>
            g.rows[k][c] == ToNumeric(f.rows[k][c], parse))
      && (forall k, c :: 0 <= k < |f.rows| && c in f.rows[k] && !(c in f.columns && c in NumericColumns) ==>
            g.rows[k][c] == f.rows[k][c])
  {
  }

  /** Converting a second time changes nothing. */
  lemma CoercionIdempotent(f: Frame, listed: seq<string>, parse: string -> Option<real>)
    ensures CoercedFrame(CoercedFrame(f, listed, parse), listed, parse) == CoercedFrame(f, listed, parse)
  {
    var g := CoercedFrame(f, listed, parse);
    var h := CoercedFrame(g, listed, parse);
    forall k | 0 <= k < |f.rows| ensures h.rows[k] == g.rows[k] {
      forall c | c in g.rows[k] ensures h.rows[k][c] == g.rows[k][c] {
        ToNumericIdempotent(f.rows[k][c], parse);
      }
    }
  }

  /** `df[col] = pd.to_numeric(df[col], errors='coerce')` */
  function CoerceColumn(rows: seq<Record>, col: string, parse: string -> Option<real>): seq<Record>
  {
    seq(|rows|, k requires 0 <= k < |rows| =>
      if col in rows[k] then rows[k][col := ToNumeric(rows[k][col], parse)] else rows[k])
  }

  lemma CoerceStep(f: Frame, listed: seq<string>, col: string, parse: string -> Option<real>)
    requires col in f.columns
    ensures CoercedFrame(f, listed + [col], parse)
         == Frame(f.columns, CoerceColumn(CoercedFrame(f, listed, parse).rows, col, parse))
  {
    var g := CoercedFrame(f, listed, parse);
    var lhs := CoercedFrame(f, listed + [col], parse);
    var rhs := Frame(f.columns, CoerceColumn(g.rows, col, parse));
    forall k | 0 <= k < |f.rows| ensures lhs.rows[k] == rhs.rows[k] {
      forall c | c in f.rows[k] ensures lhs.rows[k][c] == rhs.rows[k][c] {
        ToNumericIdempotent(f.rows[k][c], parse);
      }
    }
  }

  lemma NothingListedNothingCoerced(f: Frame, parse: string -> Option<real>)
    ensures CoercedFrame(f, [], parse) == f
  {
    var g := CoercedFrame(f, [], parse);
    forall k | 0 <= k < |f.rows| ensures g.rows[k] == f.rows[k] {
      assert g.rows[k].Keys == f.rows[k].Keys;
    }
  }

  /** Column names the frame does not have make no difference to coercion. */
  lemma SameListedOnColumns(f: Frame, listed1: seq<string>, listed2: seq<string>, parse: string -> Option<real>)
    requires forall c :: c in f.columns ==> (c in listed1 <==> c in listed2)
    ensures CoercedFrame(f, listed1, parse) == CoercedFrame(f, listed2, parse)
  {
    var g1, g2 := CoercedFrame(f, listed1, parse), CoercedFrame(f, listed2, parse);
    forall k | 0 <= k < |f.rows| ensures g1.rows[k] == g2.rows[k] {
      assert g1.rows[k].Keys == g2.rows[k].Keys;
    }
  }

  /** The loop of `pre_process_dataframe` over a list of column names: each
      one the frame has is converted in place, in list order. */
  method CoerceListedColumns(f: Frame, listed: seq<string>, parse: string -> Option<real>) returns (g: Frame)
    ensures g == CoercedFrame(f, listed, parse)
  {
    g := f;
    var i := 0;
    NothingListedNothingCoerced(f, parse);
    assert listed[..0] == [];
    while i < |listed|
      invariant 0 <= i <= |listed|
      invariant g == CoercedFrame(f, listed[..i], parse)
    {
      var col := listed[i];
      assert listed[..i + 1] == listed[..i] + [col];
      if col in g.columns {
        CoerceStep(f, listed[..i], col, parse);
        g := Frame(g.columns, CoerceColumn(g.rows, col, parse));
      } else {
        SameListedOnColumns(f, listed[..i + 1], listed[..i], parse);
      }
      i := i + 1;
    }
    assert listed[..i] == listed;
  }

  /** The conversion of `pre_process_dataframe` over its numeric column names. */
  method CoerceNumericColumns(f: Frame, parse: string -> Option<real>) returns (g: Frame)
    ensures g == CoercedFrame(f, NumericColumns, parse)
  {
    g := CoerceListedColumns(f, NumericColumns, parse);
  }

  /** `pd.to_datetime` on one cell, with `parse` the abstract date parser: a
      string that does not parse raises (None), a not-a-time string becomes
      missing; a number is read as whole nanoseconds. */
  function ToDatetime(c: Cell, parse: string -> ParsedDate): (d: Option<Cell>)
    ensures d.None? <==> c.Str? && parse(c.s).Unparseable?
    ensures d.Some? ==> d.value.Stamp? || d.value.Missing?
    ensures c.Str? && parse(c.s).Time? ==> d == Some(Stamp(parse(c.s).t))
    ensures c.Str? && parse(c.s).NotATime? ==> d == Some(Missing)
    ensures c.Stamp? || c.Missing? ==> d == Some(c)
  {
    match c
    case Str(s) =>
      (match parse(s)
       case Unparseable => None
       case NotATime => Some(Missing)
       case Time(t) => Some(Stamp(t)))
    case Num(x) => Some(Stamp(x.Floor))
    case Stamp(_) => Some(c)
    case Missing => Some(Missing)
  }

  /** `df[col] = pd.to_datetime(df[col])`: a missing column or an unparseable
      cell raises. */
  function ConvertDates(f: Frame, col: string, parse: string -> ParsedDate): (r: Result<Frame, ReportError>)
    ensures r.Err? <==> col !in f.columns
                        || exists k :: 0 <= k < |f.rows| && col in f.rows[k] && ToDatetime(f.rows[k][col], parse).None?
    ensures r.Ok? ==> r.value.columns == f.columns && |r.value.rows| == |f.rows|
    ensures r.Ok? ==> forall k :: 0 <= k < |f.rows| ==> r.value.rows[k].Keys == f.rows[k].Keys
    ensures r.Ok? ==> forall k :: 0 <= k < |f.rows| ==> Get(r.value.rows[k], col).Stamp? || Get(r.value.rows[k], col).Missing?
    ensures r.Ok? ==> forall k, c :: 0 <= k < |f.rows| && c in f.rows[k] ==>
              r.value.rows[k][c] == if c == col then ToDatetime(f.rows[k][c], parse).value else f.rows[k][c]
  {
    if col !in f.columns then Err(MissingDateColumn(col))
    else if exists k :: 0 <= k < |f.rows| && col in f.rows[k] && ToDatetime(f.rows[k][col], parse).None?
    then Err(UnparseableDate(col))
    else Ok(Frame(f.columns, seq(|f.rows|, k requires 0 <= k < |f.rows| =>
           if col in f.rows[k] then f.rows[k][col := ToDatetime(f.rows[k][col], parse).value] else f.rows[k])))
  }

  /** `pre_process_dataframe` as a value. */
  function PreProcessed(f: Frame, parseDate: string -> ParsedDate, parseNum: string -> Option<real>): Result<Frame, ReportError>
  {
    match ConvertDates(f, "fiscalDateEnding", parseDate)
    case Err(e) => Err(e)
    case Ok(f1) =>
      match ConvertDates(f1, "reportedDate", parseDate)
      case Err(e) => Err(e)
      case Ok(f2) => Ok(CoercedFrame(f2, NumericColumns, parseNum))
  }

  /** An empty date that the parser reads as not-a-time keeps its row, with a
      missing cell, instead of raising. */
  lemma EmptyDateBecomesMissing(parse: string -> ParsedDate)
    requires parse("") == NotATime
    ensures var f := Frame({"fiscalDateEnding"}, [map["fiscalDateEnding" := Str("")]]);
      ConvertDates(f, "fiscalDateEnding", parse) == Ok(Frame(f.columns, [map["fiscalDateEnding" := Missing]]))
  {
    var f := Frame({"fiscalDateEnding"}, [map["fiscalDateEnding" := Str("")]]);
    assert ToDatetime(f.rows[0]["fiscalDateEnding"], parse) == Some(Missing);
    var g := ConvertDates(f, "fiscalDateEnding", parse).value;
    var row: Record := map["fiscalDateEnding" := Missing];
    assert g.rows[0].Keys == row.Keys && g.rows[0]["fiscalDateEnding"] == Missing;
    assert g.rows[0] == row;
    assert g.rows == [row];
  }

  /** What `pre_process_dataframe` leaves behind: both date columns hold
      timestamps or missing cells, and every listed numeric column the frame
      has holds numbers or missing cells. */
  predicate ColumnsTyped(g: Frame)
  {
    && (forall k :: 0 <= k < |g.rows| ==>
          && (Get(g.rows[k], "fiscalDateEnding").Stamp? || Get(g.rows[k], "fiscalDateEnding").Missing?)
          && (Get(g.rows[k], "reportedDate").Stamp? || Get(g.rows[k], "reportedDate").Missing?))
    && (forall k, c :: 0 <= k < |g.rows| && c in g.rows[k] && c in g.columns && c in NumericColumns ==>
          g.rows[k][c].Num? || g.rows[k][c].Missing?)
  }

  /** A successful pre-processing leaves every column typed. */
  lemma PreProcessedTyped(f: Frame, parseDate: string -> ParsedDate, parseNum: string -> Option<real>)
    ensures PreProcessed(f, parseDate, parseNum).Ok? ==> ColumnsTyped(PreProcessed(f, parseDate, parseNum).value)
  {
    var r1 := ConvertDates(f, "fiscalDateEnding", parseDate);
    if r1.Ok? {
      var r2 := ConvertDates(r1.value, "reportedDate", parseDate);
      if r2.Ok? {
        var f2 := r2.value;
        DateColumnsNotNumeric();
        ConversionKeepsOtherColumn(r1.value, "reportedDate", "fiscalDateEnding", parseDate);
        CoercionKeepsUnlisted(f2, "fiscalDateEnding", parseNum);
        CoercionKeepsUnlisted(f2, "reportedDate", parseNum);
        CoercionTypesListed(f2, parseNum);
      }
    }
  }

  lemma DateColumnsNotNumeric()
    ensures "fiscalDateEnding" !in NumericColumns && "reportedDate" !in NumericColumns
  {
  }

  /** Converting one date column leaves every other column as it was. */
  lemma ConversionKeepsOtherColumn(f: Frame, col: string, other: string, parse: string -> ParsedDate)
    requires other != col && ConvertDates(f, col, parse).Ok?
    ensures var g := ConvertDates(f, col, parse).value;
      forall k :: 0 <= k < |g.rows| ==> Get(g.rows[k], other) == Get(f.rows[k], other)
  {
  }

  /** Coercion leaves a column that is not listed as it was. */
  lemma CoercionKeepsUnlisted(f: Frame, c: string, parse: string -> Option<real>)
    requires c !in NumericColumns
    ensures var g := CoercedFrame(f, NumericColumns, parse);
      forall k :: 0 <= k < |g.rows| ==> Get(g.rows[k], c) == Get(f.rows[k], c)
  {
  }

  /** After coercion every listed column the frame has is numeric or missing. */
  lemma CoercionTypesListed(f: Frame, parse: string -> Option<real>)
    ensures var g := CoercedFrame(f, NumericColumns, parse);
      forall k, c :: 0 <= k < |g.rows| && c in g.rows[k] && c in g.columns && c in NumericColumns ==>
        g.rows[k][c].Num? || g.rows[k][c].Missing?
  {
  }

  /** `pre_process_dataframe`: the two date columns, then the numeric loop. */
  method PreProcessDataFrame(f: Frame, parseDate: string -> ParsedDate, parseNum: string -> Option<real>)
    returns (res: Result<Frame, ReportError>)
    ensures res == PreProcessed(f, parseDate, parseNum)
  {
    var f1 := ConvertDates(f, "fiscalDateEnding", parseDate);
    if f1.Err? {
      return Err(f1.error);
    }
    var f2 := ConvertDates(f1.value, "reportedDate", parseDate);
    if f2.Err? {
      return Err(f2.error);
    }
    var g := CoerceNumericColumns(f2.value, parseNum);
    return Ok(g);
  }

  // ---------------------------------------------------------------------
  // The job

  /** The frame the job loads, or the error that aborts it. */
  function Report(earningsReplies: seq<Response<Record>>, incomeReplies: seq<Response<Record>>,
                  parseDate: string -> ParsedDate, parseNum: string -> Option<real>): (r: Result<Frame, ReportError>)
    requires |earningsReplies| == |ReportTickers| && |incomeReplies| == |ReportTickers|
    ensures var earnings := Collected(Earnings, ReportTickers, earningsReplies);
      earnings.Err? ==> r == Err(earnings.error)
    ensures var earnings, income := Collected(Earnings, ReportTickers, earningsReplies), Collected(IncomeStatement, ReportTickers, incomeReplies);
      earnings.Ok? && income.Err? ==> r == Err(income.error)
    ensures r.Ok? ==> Collected(Earnings, ReportTickers, earningsReplies).Ok? && Collected(IncomeStatement, ReportTickers, incomeReplies).Ok?
    ensures r.Ok? ==> ColumnsTyped(r.value)
  {
    match Collected(Earnings, ReportTickers, earningsReplies)
    case Err(e) => Err(e)
    case Ok(earnings) =>
      match Collected(IncomeStatement, ReportTickers, incomeReplies)
      case Err(e) => Err(e)
      case Ok(income) =>
        match Merge(FromRecords(earnings), FromRecords(income))
        case Err(e) => Err(e)
        case Ok(merged) =>
          PreProcessedTyped(merged, parseDate, parseNum);
          PreProcessed(merged, parseDate, parseNum)
  }

  /** Earnings are fetched first: when they fail, the job fails with the
      earnings error whatever the income-statement replies would be. */
  lemma EarningsFailureHidesIncome(earningsReplies: seq<Response<Record>>, income1: seq<Response<Record>>,
                                   income2: seq<Response<Record>>, parseDate: string -> ParsedDate,
                                   parseNum: string -> Option<real>)
    requires |earningsReplies| == |ReportTickers| && |income1| == |ReportTickers| && |income2| == |ReportTickers|
    requires exists i :: 0 <= i < |earningsReplies| && earningsReplies[i].status != 200
    ensures Report(earningsReplies, income1, parseDate, parseNum) == Report(earningsReplies, income2, parseDate, parseNum)
    ensures Report(earningsReplies, income1, parseDate, parseNum)
         == Err(FetchFailed(Earnings, earningsReplies[FirstFailure(earningsReplies)].status))
  {
    CollectedFailsOnFirstError(Earnings, ReportTickers, earningsReplies);
  }

  /** The earnings table; the job only appends to it. */
  class EarningsTable {
    var rows: seq<Record>

    constructor (initial: seq<Record>)
      ensures rows == initial
    {
      rows := initial;
    }

    /** The job with the replies of both endpoints, the two abstract parsers
        and whether the load job completes (a load is all-or-nothing).
        `incomeRequests` counts the income-statement requests issued. */
    method FetchAndStoreEarningsReport(earningsReplies: seq<Response<Record>>, incomeReplies: seq<Response<Record>>,
                                       parseDate: string -> ParsedDate, parseNum: string -> Option<real>, loadOk: bool)
      returns (reply: Result<Reply<string>, ReportError>, incomeRequests: nat)
      requires |earningsReplies| == |ReportTickers| && |incomeReplies| == |ReportTickers|
      modifies this
      ensures Collected(Earnings, ReportTickers, earningsReplies).Err? ==> incomeRequests == 0
      ensures var report := Report(earningsReplies, incomeReplies, parseDate, parseNum);
        && (report.Err? ==> reply == Err(report.error) && rows == old(rows))
        && (report.Ok? && !loadOk ==> reply == Err(LoadFailed) && rows == old(rows))
        && (report.Ok? && loadOk ==>
              && reply == Ok(Reply("Earnings report data fetched and stored successfully.", 200))
              && rows == old(rows) + report.value.rows)
    {
      incomeRequests := 0;
      var earnings, _ := FetchEarnings(earningsReplies);
      if earnings.Err? {
        return Err(earnings.error), 0;
      }
      var income;
      income, incomeRequests := FetchIncomeStatement(incomeReplies);
      if income.Err? {
        return Err(income.error), incomeRequests;
      }
      var merged := Merge(FromRecords(earnings.value), FromRecords(income.value));
      if merged.Err? {
        return Err(merged.error), incomeRequests;
      }
      var processed := PreProcessDataFrame(merged.value, parseDate, parseNum);
      if processed.Err? {
        return Err(processed.error), incomeRequests;
      }
      if !loadOk {
        return Err(LoadFailed), incomeRequests;
      }
      rows := rows + processed.value.rows;
      reply := Ok(Reply("Earnings report data fetched and stored successfully.", 200));
    }
  }
}
