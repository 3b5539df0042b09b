/**
 The universe builder (`build_universe`): discovery, one metadata fetch per
 discovered ticker, the admission test on `market_cap`, then the table
 stages (exchange filter, type filter, numeric coercion, `dropna`, sort by
 market cap descending). The table is modelled as the sequence of its rows.
 */
module Universe {
  import opened Wrappers
  import opened Sequences
  import opened Metadata
  import opened Discovery

  /** The provider's reply to `get_ticker_details`, for each ticker it may be asked about. */
  type Provider = string -> Reply

  /** What one run of `build_universe` leaves behind. */
  datatype Outcome =
    | NoTickers                      // discovery returned nothing; logged, nothing written
    | Saved(table: seq<Record>)      // the table written to data/stock_metadata.csv
    | Crashed(missingColumn: string) // a KeyError raised out of the run

  // ---------------------------------------------------------------------------
  // Accumulation of fetched records

  /**
   The records `get_metadata` returns for `tickers`, in ticker order, skipping
   the tickers whose fetch raised.
   */
  function Successes(tickers: seq<string>, provider: Provider): (r: seq<Record>)
    ensures forall rec :: rec in r <==>
              exists i :: 0 <= i < |tickers| && GetMetadata(provider(tickers[i])) == Some(rec)
  {
    if tickers == [] then []
    else
      var init := tickers[..|tickers| - 1];
      var data := GetMetadata(provider(tickers[|tickers| - 1]));
      var r := Successes(init, provider) + (if data.Some? then [data.value] else []);
      assert forall i :: 0 <= i < |init| ==> init[i] == tickers[i];
      r
  }

  /** The admission test of `if data and data["market_cap"]`, once `data` is a record. */
  predicate HasTruthyCap(rec: Record)
  {
    Truthy(rec.marketCap)
  }

  /** The `records` list `build_universe` accumulates for `tickers`. */
  function Admitted(tickers: seq<string>, provider: Provider): (r: seq<Record>)
    ensures forall rec :: rec in r ==> Truthy(rec.marketCap)
  {
    Filter(Successes(tickers, provider), HasTruthyCap)
  }

  /** One more ticker appends at most its own record to the accumulated records. */
  lemma AdmittedStep(tickers: seq<string>, i: nat, provider: Provider)
    requires i < |tickers|
    ensures var data := GetMetadata(provider(tickers[i]));
      Admitted(tickers[..i + 1], provider) ==
        Admitted(tickers[..i], provider) + (if data.Some? && Truthy(data.value.marketCap) then [data.value] else [])
  {
    var data := GetMetadata(provider(tickers[i]));
    assert tickers[..i + 1][..i] == tickers[..i];
    var tail := if data.Some? then [data.value] else [];
    FilterAppend(Successes(tickers[..i], provider), tail, HasTruthyCap);
  }

  /**
   The admitted records are a subsequence of the successful fetches, each with
   a truthy market cap (so neither missing nor zero), and every successful
   fetch with a truthy market cap is admitted.
   */
  lemma AdmittedCharacterized(tickers: seq<string>, provider: Provider)
    ensures IsSubsequence(Admitted(tickers, provider), Successes(tickers, provider))
    ensures forall rec :: rec in Admitted(tickers, provider) <==>
              (exists i :: 0 <= i < |tickers| && GetMetadata(provider(tickers[i])) == Some(rec))
              && Truthy(rec.marketCap)
    ensures forall rec :: rec in Admitted(tickers, provider) ==>
              !rec.marketCap.Missing? && rec.marketCap != Num(0)
  {
    FilterIsSubsequence(Successes(tickers, provider), HasTruthyCap);
  }

  // ---------------------------------------------------------------------------
  // Table stages

  /** The exchange allow-list of line 81. */
  const AllowedExchanges: set<string> := {"XNYS", "XNAS"}

  /** `df["primary_exchange"].isin(["XNYS", "XNAS"])`; a missing exchange is not in the list. */
  predicate OnAllowedExchange(rec: Record)
  {
    rec.primaryExchange.Some? && rec.primaryExchange.value in AllowedExchanges
  }

  /** `df["type"] == "CS"`; a missing type is not equal to "CS". */
  predicate IsCommonStock(rec: Record)
  {
    rec.kind == Some("CS")
  }

  /** Both row predicates at once. */
  predicate Listed(rec: Record)
  {
    OnAllowedExchange(rec) && IsCommonStock(rec)
  }

  /** Line 81. */
  function ByExchange(df: seq<Record>): (r: seq<Record>)
    ensures forall rec :: rec in r <==> rec in df && OnAllowedExchange(rec)
  {
    Filter(df, OnAllowedExchange)
  }

  /** Line 82. */
  function ByType(df: seq<Record>): (r: seq<Record>)
    ensures forall rec :: rec in r <==> rec in df && IsCommonStock(rec)
  {
    Filter(df, IsCommonStock)
  }

  /** A row with its market cap coerced by `pd.to_numeric(..., errors="coerce")`. */
  function Coerced(rec: Record): (r: Record)
    ensures r.(marketCap := rec.marketCap) == rec
    ensures r.marketCap.Num? || r.marketCap.NaN?
    ensures r.marketCap.Num? <==> rec.marketCap.Num?
    ensures rec.marketCap.Num? ==> r == rec
  {
    rec.(marketCap := Coerce(rec.marketCap))
  }

  /** Line 83: the market-cap column replaced by its coerced values. */
  function ToNumeric(df: seq<Record>): (r: seq<Record>)
    ensures |r| == |df|
    ensures forall k :: 0 <= k < |df| ==> r[k] == Coerced(df[k])
  {
    if df == [] then []
    else ToNumeric(df[..|df| - 1]) + [Coerced(df[|df| - 1])]
  }

  /** The rows `dropna(subset=["market_cap"])` keeps. */
  predicate HasCap(rec: Record)
  {
    !IsNa(rec.marketCap)
  }

  /** Line 84. */
  function DropNa(df: seq<Record>): (r: seq<Record>)
    ensures forall rec :: rec in r <==> rec in df && !IsNa(rec.marketCap)
  {
    Filter(df, HasCap)
  }

  /** The rows of `records` that survive lines 81-84, before sorting. */
  function Cleaned(records: seq<Record>): (r: seq<Record>)
    ensures forall rec :: rec in r ==> Listed(rec) && rec.marketCap.Num?
  {
    DropNa(ToNumeric(ByType(ByExchange(records))))
  }

  /** The exchange and type filters commute, and together they are the one filter `Listed`. */
  lemma ListedFilters(df: seq<Record>)
    ensures ByType(ByExchange(df)) == Filter(df, Listed)
    ensures ByExchange(ByType(df)) == Filter(df, Listed)
    ensures IsSubsequence(ByType(ByExchange(df)), df)
  {
    FilterFuse(df, OnAllowedExchange, IsCommonStock, Listed);
    FilterFuse(df, IsCommonStock, OnAllowedExchange, Listed);
    FilterIsSubsequence(df, Listed);
  }

  /**
   Coercing then dropping NaN is the same as keeping the rows whose market
   cap is a number and coercing those: rows with a NaN or non-numeric cap
   are removed, every other row is kept, unchanged and in order.
   */
  lemma {:induction false} CoerceThenDrop(df: seq<Record>)
    ensures DropNa(ToNumeric(df)) == Filter(df, (rec: Record) => rec.marketCap.Num?)
    ensures forall rec :: rec in DropNa(ToNumeric(df)) <==> rec in df && rec.marketCap.Num?
  {
    if df != [] {
      var init := df[..|df| - 1];
      var last := df[|df| - 1];
      CoerceThenDrop(init);
      FilterAppend(ToNumeric(init), [Coerced(last)], HasCap);
      assert Coerced(last).marketCap.Num? ==> Coerced(last) == last;
    }
  }

  /**
   Every cleaned row is listed on an allowed exchange, is common stock and
   has a numeric market cap; the cleaned rows are exactly the listed rows of
   `records` with a numeric cap, as a subsequence.
   */
  lemma CleanedCharacterized(records: seq<Record>)
    ensures forall rec :: rec in Cleaned(records) ==> Listed(rec) && rec.marketCap.Num?
    ensures forall rec :: rec in Cleaned(records) <==>
              rec in records && Listed(rec) && rec.marketCap.Num?
    ensures IsSubsequence(Cleaned(records), records)
  {
    var listed := ByType(ByExchange(records));
    ListedFilters(records);
    CoerceThenDrop(listed);
    FilterFuse(records, Listed, (rec: Record) => rec.marketCap.Num?,
               (rec: Record) => Listed(rec) && rec.marketCap.Num?);
    FilterIsSubsequence(records, (rec: Record) => Listed(rec) && rec.marketCap.Num?);
  }

  // ---------------------------------------------------------------------------
  // Ranking: sort_values("market_cap", ascending=False)

  /** The sort key. Every row reaching the sort has a numeric market cap. */
  function Cap(rec: Record): int
  {
    if rec.marketCap.Num? then rec.marketCap.value else 0
  }

  /** Non-increasing by market cap. */
  predicate SortedDesc(df: seq<Record>)
  {
    forall i, j :: 0 <= i < j < |df| ==> Cap(df[i]) >= Cap(df[j])
  }

  /** A row with at least the cap of a sorted table's top row can head it. */
  lemma ConsSorted(h: Record, df: seq<Record>)
    requires SortedDesc(df)
    requires df != [] ==> Cap(h) >= Cap(df[0])
    ensures SortedDesc([h] + df)
  {
    var r := [h] + df;
    forall i, j | 0 <= i < j < |r|
      ensures Cap(r[i]) >= Cap(r[j])
    {
      if i == 0 {
        assert r[j] == df[j - 1];
      } else {
        assert r[i] == df[i - 1] && r[j] == df[j - 1];
      }
    }
  }

  /** Putting back the first row in front of the tail with `x` inserted gives the rows and `x`. */
  lemma ConsMultiset(df: seq<Record>, rest: seq<Record>, x: Record)
    requires df != []
    requires multiset(rest) == multiset(df[1..]) + multiset{x}
    ensures multiset([df[0]] + rest) == multiset(df) + multiset{x}
  {
    assert df == [df[0]] + df[1..];
  }

  /** Places `x` into a sorted table ahead of the first row with a smaller market cap. */
  function Insert(x: Record, df: seq<Record>): (r: seq<Record>)
    requires SortedDesc(df)
    ensures SortedDesc(r)
    ensures multiset(r) == multiset(df) + multiset{x}
    ensures r[0] == x || (df != [] && r[0] == df[0])
  {
    if df == [] then [x]
    else if Cap(x) >= Cap(df[0]) then
      ConsSorted(x, df);
      [x] + df
    else
      var rest := Insert(x, df[1..]);
      TailOfSorted(df);
      ConsSorted(df[0], rest);
      ConsMultiset(df, rest, x);
      [df[0]] + rest
  }

  /**
   Line 88. pandas' default sort is not stable, so the order among rows with
   equal market caps is unspecified; the contract promises only what the
   source does: non-increasing order, and the same rows.
   */
  function SortByCapDesc(df: seq<Record>): (r: seq<Record>)
    ensures SortedDesc(r)
    ensures multiset(r) == multiset(df)
  {
    if df == [] then []
    else
      assert df == [df[0]] + df[1..];
      Insert(df[0], SortByCapDesc(df[1..]))
  }

  /** Two sorted arrangements of the same rows start with the same market cap. */
  lemma SameTopCap(a: seq<Record>, b: seq<Record>)
    requires a != [] && b != []
    requires SortedDesc(a) && SortedDesc(b)
    requires multiset(a) == multiset(b)
    ensures Cap(a[0]) == Cap(b[0])
  {
    assert a[0] in multiset(b);
    var j :| 0 <= j < |b| && b[j] == a[0];
    assert b[0] in multiset(a);
    var m :| 0 <= m < |a| && a[m] == b[0];
  }

  /**
   Removing from a sorted table one row `x` that has the top market cap
   leaves a sorted table whose market caps are those of `b` shifted up by one.
   */
  lemma RemoveTop(b: seq<Record>, x: Record) returns (b': seq<Record>)
    requires SortedDesc(b)
    requires x in multiset(b) && Cap(x) == Cap(b[0])
    ensures SortedDesc(b')
    ensures multiset(b') == multiset(b) - multiset{x}
    ensures |b'| == |b| - 1
    ensures forall k :: 0 <= k < |b'| ==> Cap(b'[k]) == Cap(b[k + 1])
  {
    var j :| 0 <= j < |b| && b[j] == x;
    b' := b[..j] + b[j + 1..];
    RemoveAtMultiset(b, j);
    forall k | 0 <= k < |b'|
      ensures b'[k] == b[if k < j then k else k + 1]
    {
    }
    forall i, k | 0 <= i < k < |b'|
      ensures Cap(b'[i]) >= Cap(b'[k])
    {
      assert b'[i] == b[if i < j then i else i + 1];
      assert b'[k] == b[if k < j then k else k + 1];
    }
    forall k | 0 <= k < |b'|
      ensures Cap(b'[k]) == Cap(b[k + 1])
    {
      if k < j {
        assert Cap(b[0]) >= Cap(b[k]) >= Cap(b[k + 1]) >= Cap(b[j]);
      }
    }
  }

  lemma RemoveAtMultiset(b: seq<Record>, j: nat)
    requires j < |b|
    ensures multiset(b[..j] + b[j + 1..]) == multiset(b) - multiset{b[j]}
  {
    assert b == b[..j] + [b[j]] + b[j + 1..];
  }

  /**
   Any two sorted arrangements of the same rows have the same market cap at
   every position: sorting leaves only the order among equal caps open.
   */
  lemma {:induction false} SortedPermutationsAgreeOnCaps(a: seq<Record>, b: seq<Record>)
    requires SortedDesc(a) && SortedDesc(b)
    requires multiset(a) == multiset(b)
    ensures |a| == |b|
    ensures forall k :: 0 <= k < |a| ==> Cap(a[k]) == Cap(b[k])
    decreases |a|
  {
    assert |a| == |multiset(a)| == |multiset(b)| == |b|;
    if a != [] {
      SameTopCap(a, b);
      var b' := RemoveTop(b, a[0]);
      TailOfSorted(a);
      SortedPermutationsAgreeOnCaps(a[1..], b');
      forall k | 0 < k < |a|
        ensures Cap(a[k]) == Cap(b[k])
      {
        assert a[k] == a[1..][k - 1];
      }
    }
  }

  /** The tail of a sorted table is sorted and holds all rows but the first. */
  lemma TailOfSorted(a: seq<Record>)
    requires a != [] && SortedDesc(a)
    ensures SortedDesc(a[1..])
    ensures multiset(a[1..]) == multiset(a) - multiset{a[0]}
  {
    assert a == [a[0]] + a[1..];
  }

  /** The table written for the accumulated `records` (lines 77-88), were the empty case handled. */
  function Rank(records: seq<Record>): (r: seq<Record>)
    ensures SortedDesc(r)
    ensures multiset(r) == multiset(Cleaned(records))
  {
    SortByCapDesc(Cleaned(records))
  }

  /**
   The written table is sorted non-increasing by market cap, is a
   permutation of the cleaned rows, holds only listed common stock with a
   numeric cap, and keeps every such row of `records`.
   */
  lemma RankCorrect(records: seq<Record>)
    ensures SortedDesc(Rank(records))
    ensures multiset(Rank(records)) == multiset(Cleaned(records))
    ensures |Rank(records)| == |Cleaned(records)|
    ensures forall rec :: rec in Rank(records) <==>
              rec in records && Listed(rec) && rec.marketCap.Num?
  {
    var c := Cleaned(records);
    CleanedCharacterized(records);
    assert |multiset(Rank(records))| == |multiset(c)|;
    forall rec
      ensures rec in Rank(records) <==> rec in c
    {
      assert rec in Rank(records) <==> rec in multiset(Rank(records));
      assert rec in c <==> rec in multiset(c);
    }
  }

  /**
   The ranking is reproducible up to ties: any table the unstable sort could
   produce from the cleaned rows has the same market-cap column as `Rank`.
   */
  lemma RankCapsDetermined(records: seq<Record>, other: seq<Record>)
    requires SortedDesc(other)
    requires multiset(other) == multiset(Cleaned(records))
    ensures |other| == |Rank(records)|
    ensures forall k :: 0 <= k < |other| ==> Cap(other[k]) == Cap(Rank(records)[k])
  {
    RankCorrect(records);
    SortedPermutationsAgreeOnCaps(other, Rank(records));
  }

  // ---------------------------------------------------------------------------
  // The whole run

  /**
   `build_universe()` as written. `pd.DataFrame([])` has no columns, so when
   no record was admitted the lookup `df["primary_exchange"]` raises KeyError.
   */
  function PipelineAsWritten(listing: Listing, provider: Provider): (o: Outcome)
    ensures o.NoTickers? <==> Discovered(listing) == []
    ensures o.Crashed? <==> Discovered(listing) != [] && Admitted(Discovered(listing), provider) == []
    ensures o.Crashed? ==> o.missingColumn == "primary_exchange"
    ensures o.Saved? ==> o.table == Rank(Admitted(Discovered(listing), provider))
  {
    var tickers := Discovered(listing);
    if tickers == [] then NoTickers
    else
      var records := Admitted(tickers, provider);
      if records == [] then Crashed("primary_exchange")
      else Saved(Rank(records))
  }

  /** `build_universe()` with the empty table handled: an empty admitted set gives an empty table. */
  function Pipeline(listing: Listing, provider: Provider): (o: Outcome)
    ensures o.NoTickers? <==> Discovered(listing) == []
    ensures !o.Crashed?
  {
    var tickers := Discovered(listing);
    if tickers == [] then NoTickers
    else Saved(Rank(Admitted(tickers, provider)))
  }

  /**
   The imperative driver: discovery, then one fetch per ticker accumulating
   the admitted records (lines 69-73), then the table stages. It stops early
   with nothing to save when discovery yields no ticker.
   */
  method BuildUniverse(listing: Listing, provider: Provider) returns (outcome: Outcome)
    ensures outcome == Pipeline(listing, provider)
    ensures outcome.NoTickers? <==> Discovered(listing) == []
    ensures outcome.Saved? ==> outcome.table == Rank(Admitted(Discovered(listing), provider))
  {
    var tickers := GetAllCommonStockTickers(listing);
    if tickers == [] {
      return NoTickers;
    }
    var records: seq<Record> := [];
    for i := 0 to |tickers|
      invariant records == Admitted(tickers[..i], provider)
    {
      var data := GetMetadata(provider(tickers[i]));
      if data.Some? && Truthy(data.value.marketCap) {
        records := records + [data.value];
      }
      AdmittedStep(tickers, i, provider);
    }
    assert tickers[..|tickers|] == tickers;
    outcome := Saved(Rank(records));
  }

  /** Both builders agree except on the run in which no record is admitted. */
  lemma AsWrittenAgrees(listing: Listing, provider: Provider)
    ensures PipelineAsWritten(listing, provider) != Pipeline(listing, provider) <==>
              Discovered(listing) != [] && Admitted(Discovered(listing), provider) == []
  {
  }

  /**
   End to end: every row of a saved table is, verbatim, the record fetched
   for one of the discovered tickers, with a non-zero numeric market cap, on
   an allowed exchange and of type CS; the table is sorted non-increasing by
   market cap.
   */
  lemma PipelineSound(listing: Listing, provider: Provider)
    requires Pipeline(listing, provider).Saved?
    ensures var table := Pipeline(listing, provider).table;
      && SortedDesc(table)
      && forall rec :: rec in table ==>
           && Listed(rec)
           && rec.marketCap.Num? && rec.marketCap.value != 0
           && exists i :: 0 <= i < |Discovered(listing)| &&
                GetMetadata(provider(Discovered(listing)[i])) == Some(rec)
  {
    var tickers := Discovered(listing);
    var records := Admitted(tickers, provider);
    RankCorrect(records);
    AdmittedCharacterized(tickers, provider);
  }

  /** Every successful, listed fetch with a non-zero numeric market cap reaches the saved table. */
  lemma PipelineComplete(listing: Listing, provider: Provider, i: nat, rec: Record)
    requires i < |Discovered(listing)|
    requires GetMetadata(provider(Discovered(listing)[i])) == Some(rec)
    requires Listed(rec) && rec.marketCap.Num? && rec.marketCap.value != 0
    ensures Pipeline(listing, provider).Saved?
    ensures rec in Pipeline(listing, provider).table
  {
    var tickers := Discovered(listing);
    AdmittedCharacterized(tickers, provider);
    RankCorrect(Admitted(tickers, provider));
  }

  /** The provider answers each request with details about the ticker asked for. */
  predicate AnswersFor(provider: Provider, tickers: seq<string>)
  {
    forall i :: 0 <= i < |tickers| && provider(tickers[i]).Returned? ==>
      provider(tickers[i]).details.ticker == tickers[i]
  }

  /** When the provider answers about the ticker asked for, every saved symbol was discovered. */
  lemma SavedSymbolsDiscovered(listing: Listing, provider: Provider)
    requires Pipeline(listing, provider).Saved?
    requires AnswersFor(provider, Discovered(listing))
    ensures forall rec :: rec in Pipeline(listing, provider).table ==> rec.ticker in Discovered(listing)
  {
    PipelineSound(listing, provider);
  }

  // ---------------------------------------------------------------------------
  // Concrete runs

  /** Provider details for the runs below: an active common stock with the given symbol, cap and exchange. */
  function StockDetails(ticker: string, cap: MarketCap, exchange: string): TickerDetails
  {
    TickerDetails(ticker, Some(true), Some("CS"), cap, Some(exchange),
                  None, None, None, None, None, None, None, None, None, None)
  }

  /** The provider of the run below: every ticker is a listed stock without a market cap. */
  function NoCaps(t: string): Reply
  {
    Returned(StockDetails(t, Missing, "XNYS"))
  }

  /**
   One ticker, whose details carry no market cap: nothing is admitted. The
   code as written then indexes a column of an empty DataFrame and raises
   KeyError; the corrected builder saves an empty table.
   */
  lemma NullCapRun()
    ensures PipelineAsWritten(Listing([["CCC"]], None), NoCaps) == Crashed("primary_exchange")
    ensures Pipeline(Listing([["CCC"]], None), NoCaps) == Saved([])
  {
    assert [["CCC"]][..1] == [["CCC"]];
    assert Discovered(Listing([["CCC"]], None)) == ["CCC"];
    assert Admitted(["CCC"], NoCaps) == [];
  }

  /** The provider of the run below: AAA is a listed stock with a cap of 500, any other request times out. */
  function AaaOnly(t: string): Reply
  {
    if t == "AAA" then Returned(StockDetails("AAA", Num(500), "XNYS")) else Raised("timeout")
  }

  /**
   Two tickers, the first a listed stock with a cap of 500, the second a
   fetch that times out: the table holds the first record alone.
   */
  lemma OneFetchFailsRun()
    ensures var aaa := GetMetadata(AaaOnly("AAA")).value;
            && Pipeline(Listing([["AAA", "BBB"]], None), AaaOnly) == Saved([aaa])
            && PipelineAsWritten(Listing([["AAA", "BBB"]], None), AaaOnly) == Saved([aaa])
  {
    var aaa := GetMetadata(AaaOnly("AAA")).value;
    assert Discovered(Listing([["AAA", "BBB"]], None)) == ["AAA", "BBB"] by {
      assert [["AAA", "BBB"]][..1] == [["AAA", "BBB"]];
    }
    AaaOnlyAdmits(aaa);
    RankSingleton(aaa);
  }

  lemma AaaOnlyAdmits(aaa: Record)
    requires aaa == GetMetadata(AaaOnly("AAA")).value
    ensures Admitted(["AAA", "BBB"], AaaOnly) == [aaa]
  {
    assert AaaOnly("BBB") == Raised("timeout") by {
      assert "BBB" != "AAA" by { assert "BBB"[0] != "AAA"[0]; }
    }
    assert ["AAA", "BBB"][..1] == ["AAA"];
    assert Successes(["AAA"], AaaOnly) == [aaa];
    assert Successes(["AAA", "BBB"], AaaOnly) == [aaa];
  }

  /** A single listed row with a numeric cap is ranked as itself. */
  lemma RankSingleton(rec: Record)
    requires Listed(rec) && rec.marketCap.Num?
    ensures Rank([rec]) == [rec]
  {
    assert [rec][..0] == [];
    assert ByExchange([rec]) == [rec];
    assert ByType([rec]) == [rec];
    assert ToNumeric([rec]) == [rec];
    assert Cleaned([rec]) == [rec];
  }

  /** A listing request that fails on the first page leaves nothing to rank, and the run stops early. */
  lemma FirstPageFaultRun(pages: seq<seq<string>>, provider: Provider)
    ensures Pipeline(Listing(pages, Some(0)), provider) == NoTickers
  {
  }
}
