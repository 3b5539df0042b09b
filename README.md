# Stock universe builder — a verified model

This project models the universe-construction pipeline of
`ingestion/get_metadata_by_mcap.py` in Dafny and proves properties of it. The
pipeline has three stages:

1. **Ticker discovery** (`get_all_common_stock_tickers`). It walks the
   provider's paginated listing of active common stocks and appends every
   symbol. If a listing request raises, it logs the error and returns the
   symbols collected so far.
2. **Metadata fetch** (`get_metadata`). It asks the provider for one ticker's
   details. It copies twelve fields into a record, or returns `None` if the
   call raised.
3. **The builder** (`build_universe`). It stops if discovery found nothing. It
   fetches every ticker and keeps the records whose `market_cap` is truthy. It
   then keeps the rows on XNYS or XNAS whose type is `CS`. It coerces
   `market_cap` to a number, drops the NaNs and sorts by market cap,
   largest first.

The provider is an input. `Discovery.Listing` is the sequence of pages the
listing endpoint would send, plus the index of the first request that raises.
`Universe.Provider` is a function that gives the reply to
`get_ticker_details` for each ticker: an exception or a details object. The
DataFrame is modelled as the sequence of its rows (`seq<Record>`). The
`market_cap` cell is a small datatype: `Missing` (None), `Num` (a finite
number, as an integer), `NaN`, or `NonNumeric` (a string that is not a
number). That is enough to capture Python truthiness at line 72 and
`pd.to_numeric(errors="coerce")` followed by `dropna` at lines 83-84.

Files:
- `wrappers.dfy`: the `Option` type.
- `sequences.dfy`: mask filtering (`Filter`) and the subsequence relation.
- `metadata.dfy`: the market-cap cell, the provider's details, the record and `GetMetadata`.
- `discovery.dfy`: the paginated listing and the imperative `GetAllCommonStockTickers`.
- `universe.dfy`: admission, the table stages, the sort, the whole run (`Pipeline`) and the imperative `BuildUniverse`.

In these places the model follows the code rather than what a reader might expect:
- A failed listing request does not make the run fail. The code logs it and returns a partial list (lines 33-35).
- No tie-break on equal market caps is applied. `sort_values` at line 88 sets none, and its default sort is not stable.
- Negative market caps are not rejected. Line 84 only drops NaN.
- The run returns nothing. Its product is the CSV file, modelled as `Saved(table)`.

## Model

| member | source | states |
|---|---|---|
| `Discovery.GetAllCommonStockTickers` | ingestion/get_metadata_by_mcap.py:20-35 | Returns the symbols of every page delivered before the first failing request, concatenated in provider order. The result is always a prefix of all the symbols. With no fault it is all of them; with a fault at page k it is exactly the symbols of pages 0..k-1. It never fails. |
| `Discovery.Delivered` | ingestion/get_metadata_by_mcap.py:24-31 | The number of pages delivered is below the page count exactly when a fault is reached, and then it equals the fault index. |
| `Discovery.Flatten` | ingestion/get_metadata_by_mcap.py:24-31 | A symbol is in the concatenation exactly when it is on one of the pages. |
| `Discovery.Discovered` | ingestion/get_metadata_by_mcap.py:22-35 | The returned list is a prefix of all the listed symbols, and is all of them when no request fails. Its loop form is `GetAllCommonStockTickers`. |
| `Discovery.FlattenPrefix` | ingestion/get_metadata_by_mcap.py:24-31 | The symbols of a prefix of the pages are a prefix of all the symbols. |
| `Metadata.GetMetadata` | ingestion/get_metadata_by_mcap.py:38-57 | Yields a record exactly when the provider call returned, and `None` exactly when it raised. Every one of the twelve fields is copied verbatim from the details. |
| `Metadata.Truthy` | ingestion/get_metadata_by_mcap.py:72 | A market-cap cell is falsy exactly when it is None, the number 0 or the empty string. NaN and every other value are truthy. |
| `Metadata.IsNa` | ingestion/get_metadata_by_mcap.py:84 | The cells `dropna` removes: None and NaN. What removing them does is stated by `Universe.DropNa` and `Universe.CoerceThenDrop`. |
| `Metadata.Coerce` | ingestion/get_metadata_by_mcap.py:83 | A coerced cell is a number or NaN. It is a number exactly when the input was one, and numbers are unchanged. Missing values and non-numeric strings become NaN. |
| `Universe.Successes` | ingestion/get_metadata_by_mcap.py:70-71 | A record is among the successful fetches exactly when `get_metadata` returned it for one of the tickers. |
| `Universe.AdmittedStep` | ingestion/get_metadata_by_mcap.py:70-73 | Processing one more ticker appends its record if the fetch succeeded with a truthy cap, and appends nothing otherwise. |
| `Universe.Admitted` | ingestion/get_metadata_by_mcap.py:69-73 | Every accumulated record has a truthy market cap. The full characterization (subsequence, membership if and only if) is `AdmittedCharacterized`. |
| `Universe.AdmittedCharacterized` | ingestion/get_metadata_by_mcap.py:69-73 | The accumulated records are a subsequence of the successful fetches, in ticker order. A record is accumulated exactly when some ticker's fetch returned it with a truthy market cap. No accumulated record has a missing or zero cap. |
| `Sequences.Filter` | ingestion/get_metadata_by_mcap.py:81-84 | A boolean-mask filter is never longer than its input. An element is kept exactly when it is in the input and satisfies the predicate. |
| `Sequences.FilterIsSubsequence` | ingestion/get_metadata_by_mcap.py:81-84 | A mask filter yields a subsequence of its input. |
| `Sequences.FilterCommutes` | ingestion/get_metadata_by_mcap.py:81-82 | Applying two mask filters in either order gives the same rows. |
| `Universe.ByExchange` | ingestion/get_metadata_by_mcap.py:81 | A row is kept exactly when it is in the table and its primary exchange is XNYS or XNAS. A missing exchange is not kept. |
| `Universe.ByType` | ingestion/get_metadata_by_mcap.py:82 | A row is kept exactly when it is in the table and its type is CS. A missing type is not kept. |
| `Universe.ListedFilters` | ingestion/get_metadata_by_mcap.py:81-82 | Exchange-then-type and type-then-exchange filtering are both the one filter "exchange in {XNYS, XNAS} and type == CS". The result is a subsequence of the records. |
| `Universe.Coerced` | ingestion/get_metadata_by_mcap.py:83 | A coerced row differs from the input row at most in its market cap. That cap is a number or NaN, it is a number exactly when the input's was, and a row with a numeric cap is unchanged. |
| `Universe.ToNumeric` | ingestion/get_metadata_by_mcap.py:83 | Coercing the column keeps the number of rows, and row k becomes row k of the input with its market cap coerced and every other field unchanged. |
| `Universe.DropNa` | ingestion/get_metadata_by_mcap.py:84 | A row is kept exactly when it is in the table and its market cap is neither None nor NaN. |
| `Universe.CoerceThenDrop` | ingestion/get_metadata_by_mcap.py:83-84 | Coercing and then dropping NaN equals keeping the rows whose cap is a number. Rows with a NaN, missing or non-numeric cap are removed. Every other row is kept, unchanged and in order. |
| `Universe.CleanedCharacterized` | ingestion/get_metadata_by_mcap.py:81-84 | Every cleaned row is on an allowed exchange, has type CS and has a numeric cap. The cleaned rows are exactly the records with all three properties, as a subsequence of the records. |
| `Universe.Cleaned` | ingestion/get_metadata_by_mcap.py:81-84 | Every cleaned row is listed on an allowed exchange, has type CS and has a numeric cap. The exact characterization is `CleanedCharacterized`. |
| `Universe.Insert` | ingestion/get_metadata_by_mcap.py:88 | Inserting a row into a table sorted by cap (largest first) keeps it sorted. The result holds the old rows plus that row. |
| `Universe.SortByCapDesc` | ingestion/get_metadata_by_mcap.py:88 | The sorted table is non-increasing by market cap and is a permutation of its input. |
| `Universe.Rank` | ingestion/get_metadata_by_mcap.py:77-88 | The written table is sorted non-increasing by market cap and is a permutation of the cleaned rows. |
| `Universe.RankCorrect` | ingestion/get_metadata_by_mcap.py:77-88 | The written table is sorted non-increasing by cap. It is a permutation of the cleaned rows, so sorting adds and drops nothing. A row is in it exactly when that row is in the records, is listed and has a numeric cap. |
| `Universe.SameTopCap` | ingestion/get_metadata_by_mcap.py:88 | Two sorted arrangements of the same rows start with the same market cap. |
| `Universe.RemoveTop` | ingestion/get_metadata_by_mcap.py:88 | Removing a top-cap row from a sorted table leaves it sorted. The remaining caps shift up by one place. |
| `Universe.SortedPermutationsAgreeOnCaps` | ingestion/get_metadata_by_mcap.py:88 | Two sorted arrangements of the same rows have the same market cap at every position. |
| `Universe.RankCapsDetermined` | ingestion/get_metadata_by_mcap.py:88 | Any table that the unstable sort could produce from the cleaned rows has the same market-cap column as the model's. Only the order among equal caps is open. |
| `Universe.PipelineAsWritten` | ingestion/get_metadata_by_mcap.py:60-88 | The code as written. It stops early exactly when discovery returned no ticker. It raises KeyError, on the `primary_exchange` column, exactly when tickers were discovered but no record was admitted. When it saves, the table is the ranked admitted records. |
| `Universe.Pipeline` | ingestion/get_metadata_by_mcap.py:60-88 | The run with the empty table handled. It stops early exactly when discovery returned no ticker, and it never raises. |
| `Universe.BuildUniverse` | ingestion/get_metadata_by_mcap.py:60-88 | The imperative driver: discovery, then one fetch per ticker in a loop, accumulating the admitted records, then the table stages. Its outcome equals `Pipeline`: it saves nothing exactly when discovery found nothing, and otherwise saves the ranked admitted records. |
| `Universe.AsWrittenAgrees` | ingestion/get_metadata_by_mcap.py:64-81 | The code as written and the corrected run differ exactly on runs where tickers were discovered but no record was admitted. |
| `Universe.PipelineSound` | ingestion/get_metadata_by_mcap.py:63-88 | Every row of a saved table is, verbatim, the record fetched for one of the discovered tickers. It has a non-zero numeric cap, an allowed exchange and type CS. The table is sorted non-increasing by cap. |
| `Universe.PipelineComplete` | ingestion/get_metadata_by_mcap.py:69-88 | Every successful fetch of a discovered ticker that is listed and has a non-zero numeric cap appears in the saved table. |
| `Universe.SavedSymbolsDiscovered` | ingestion/get_metadata_by_mcap.py:41-42 | If the provider answers each request with details of the ticker asked for, every symbol in the saved table was discovered. |
| `Universe.NullCapRun` | ingestion/get_metadata_by_mcap.py:69-81 | One discovered ticker whose details have no market cap: the code as written raises KeyError, and the corrected run saves an empty table. |
| `Universe.OneFetchFailsRun` | ingestion/get_metadata_by_mcap.py:38-88 | Tickers AAA (listed, cap 500) and BBB (fetch times out): the saved table is the AAA record alone, and no error is raised. |
| `Universe.FirstPageFaultRun` | ingestion/get_metadata_by_mcap.py:33-35 | If the first listing request fails, discovery returns an empty list and the run stops early with nothing saved. |

## Left out

- Network access is not modelled. The provider client (`RESTClient`, `list_tickers`, `get_ticker_details`) is replaced by the inputs `Listing` and `Provider`. The listing's fixed query (market, type, active, sort, page size 1000) is the provider's business, and the given pages are taken to be its answer.
- Logging, the `tqdm` progress bar, the timing with `time.time`, `os.makedirs` and the CSV encoding at lines 91-97 are not modelled. The written file is the `Saved` table.
- Floating point is not modelled. Market caps are integers, which is enough for their order. Infinite values are not represented.
- Numbers sent as text are modelled as `Num`, so their truthiness is a number's. The string "0" is truthy in Python, while the model's `Num(0)` is falsy.
- A listing fault is modelled between pages, where the paginated iterator makes its requests. A fault part-way through the items of a page is not represented.
- `Universe.SortByCapDesc` is an insertion sort. It fixes one order among rows with equal caps, while pandas' unstable default leaves that order open. Only the sorted-and-permutation contract is claimed, and `RankCapsDetermined` shows the cap column is the same for every valid order.
- `Universe.SavedSymbolsDiscovered`: the record's symbol comes from the provider's response (`r.ticker`), not from the requested ticker. So "every output symbol was discovered" holds only if the provider answers with the ticker asked for, which the lemma takes as a hypothesis.
- `Universe.Provider` is a function from ticker to reply. So a ticker that occurs twice in the listing gets the same reply both times, while the code makes one network call per list position, and those calls could answer differently.
- `Metadata.TickerDetails.ticker` is a plain string. The provider's `ticker` attribute may be None, and the model does not represent that.
- pandas' chained-assignment warning on line 83 has no effect on the values and is not modelled.
- `ingestion/fetch_polygon_ohlcv.py` and `ingestion/printTickers.py` are not part of this model. They are I/O scripts with no logic of their own.

## Findings

| source | as written | input that shows it | evidently intended | confidence | as-written member | corrected member |
|---|---|---|---|---|---|---|
| ingestion/get_metadata_by_mcap.py:77-81 | `pd.DataFrame(records)` of an empty list has no columns, so `df["primary_exchange"]` raises KeyError | discovery returns `["CCC"]`, and the details of CCC have `market_cap` None, so `records == []` | an empty universe is written and no error is raised, as when rows exist but all are filtered out | high, not executed | `Universe.PipelineAsWritten` (shown by `Universe.NullCapRun`) | `Universe.Pipeline`, implemented by `Universe.BuildUniverse` |
