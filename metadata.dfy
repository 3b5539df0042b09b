/**
 The per-ticker metadata record and its fetcher (`get_metadata`).

 The provider's `get_ticker_details` call is modelled by its answer: either it
 raises (network error, unknown ticker, malformed response) or it returns a
 details object. The fetcher turns the first into `None` and copies twelve
 fields of the second into a record.
 */
module Metadata {
  import opened Wrappers

  /**
   The value held in a record's `market_cap` field. The provider's floats are
   modelled by integers, which is enough for their order; a float NaN and a
   string that does not parse as a number are kept as separate cases because
   Python truthiness and numeric coercion treat them differently.
   */
  datatype MarketCap =
    | Missing                   // None: the provider omitted the figure
    | Num(value: int)           // a finite number
    | NaN                       // a float NaN
    | NonNumeric(text: string)  // a string that is not a number

  /** Python truthiness of the field, as tested by `data["market_cap"]`. */
  predicate Truthy(c: MarketCap)
    ensures !Truthy(c) <==> c == Missing || c == Num(0) || c == NonNumeric("")
  {
    match c
    case Missing => false
    case Num(v) => v != 0
    case NaN => true
    case NonNumeric(t) => t != ""
  }

  /** pandas' missing-value test (`isna`), which `dropna` removes. */
  predicate IsNa(c: MarketCap)
  {
    c.Missing? || c.NaN?
  }

  /**
   `pd.to_numeric(..., errors="coerce")` on one cell: numbers stay as they
   are and everything else becomes NaN.
   */
  function Coerce(c: MarketCap): (r: MarketCap)
    ensures !IsNa(r) <==> c.Num?
    ensures r.Num? || r.NaN?
    ensures c.Num? ==> r == c
  {
    if c.Num? then c else NaN
  }

  /** The object `client.get_ticker_details` returns (the fields this core reads, and some it ignores). */
  datatype TickerDetails = TickerDetails(
    ticker: string,
    active: Option<bool>,
    kind: Option<string>,                             // `type`
    marketCap: MarketCap,
    primaryExchange: Option<string>,
    sicDescription: Option<string>,
    listDate: Option<string>,
    name: Option<string>,
    description: Option<string>,
    totalEmployees: Option<int>,
    shareClassSharesOutstanding: Option<int>,
    weightedSharesOutstanding: Option<int>,
    market: Option<string>,                           // not copied into the record
    locale: Option<string>,                           // not copied into the record
    currencyName: Option<string>)                     // not copied into the record

  /** What one call of `client.get_ticker_details(ticker)` does. */
  datatype Reply = Raised(reason: string) | Returned(details: TickerDetails)

  /** The dictionary `get_metadata` builds; one row of the universe table. */
  datatype Record = Record(
    ticker: string,
    active: Option<bool>,
    kind: Option<string>,                             // `type`
    marketCap: MarketCap,
    primaryExchange: Option<string>,
    sicDescription: Option<string>,
    listDate: Option<string>,
    name: Option<string>,
    description: Option<string>,
    totalEmployees: Option<int>,
    shareClassSharesOutstanding: Option<int>,
    weightedSharesOutstanding: Option<int>)

  /** Every field of `rec` holds the value of the like-named attribute of `d`. */
  predicate CopiedFrom(rec: Record, d: TickerDetails)
  {
    && rec.ticker == d.ticker
    && rec.active == d.active
    && rec.kind == d.kind
    && rec.marketCap == d.marketCap
    && rec.primaryExchange == d.primaryExchange
    && rec.sicDescription == d.sicDescription
    && rec.listDate == d.listDate
    && rec.name == d.name
    && rec.description == d.description
    && rec.totalEmployees == d.totalEmployees
    && rec.shareClassSharesOutstanding == d.shareClassSharesOutstanding
    && rec.weightedSharesOutstanding == d.weightedSharesOutstanding
  }

  /**
   `get_metadata(ticker)`, given the provider's reply for that ticker: a
   record on success, `None` when the call raised. It never raises itself.
   */
  function GetMetadata(reply: Reply): (r: Option<Record>)
    ensures r.Some? <==> reply.Returned?
    ensures r.Some? ==> CopiedFrom(r.value, reply.details)
  {
    match reply
    case Raised(_) => None
    case Returned(d) =>
      Some(Record(d.ticker, d.active, d.kind, d.marketCap, d.primaryExchange,
                  d.sicDescription, d.listDate, d.name, d.description,
                  d.totalEmployees, d.shareClassSharesOutstanding,
                  d.weightedSharesOutstanding))
  }
}
