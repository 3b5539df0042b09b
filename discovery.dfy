/**
 Ticker discovery (`get_all_common_stock_tickers`).

 `client.list_tickers(...)` is a lazily paginated iterator: it requests one
 page of symbols, yields its entries, then requests the next page, until the
 provider reports no further page. A request may fail instead; the exception
 ends the loop, is logged, and the symbols collected so far are returned.
 */
module Discovery {
  import opened Wrappers

  /**
   The provider's answers to the listing requests: the pages it would send,
   in order, and the index of the first request that raises, if any. A fault
   index at or beyond `|pages|` is never reached.
   */
  datatype Listing = Listing(pages: seq<seq<string>>, fault: Option<nat>)

  /** The symbols of `pages`, concatenated in provider order. */
  function Flatten(pages: seq<seq<string>>): (r: seq<string>)
    ensures forall t :: t in r <==> exists i :: 0 <= i < |pages| && t in pages[i]
  {
    if pages == [] then []
    else Flatten(pages[..|pages| - 1]) + pages[|pages| - 1]
  }

  /** The number of pages delivered before the first failing request. */
  function Delivered(listing: Listing): (n: nat)
    ensures n <= |listing.pages|
    ensures n < |listing.pages| <==> listing.fault.Some? && listing.fault.value < |listing.pages|
    ensures n < |listing.pages| ==> n == listing.fault.value
  {
    match listing.fault
    case Some(k) => if k < |listing.pages| then k else |listing.pages|
    case None => |listing.pages|
  }

  /** What discovery returns: the symbols of every page delivered before the fault. */
  function Discovered(listing: Listing): (r: seq<string>)
    ensures r <= Flatten(listing.pages)
    ensures listing.fault.None? ==> r == Flatten(listing.pages)
  {
    var n := Delivered(listing);
    FlattenPrefix(listing.pages, n);
    assert listing.fault.None? ==> listing.pages[..n] == listing.pages;
    Flatten(listing.pages[..n])
  }

  /** The symbols of a prefix of the pages are a prefix of all the symbols. */
  lemma {:induction false} FlattenPrefix(pages: seq<seq<string>>, n: nat)
    requires n <= |pages|
    ensures Flatten(pages[..n]) <= Flatten(pages)
    decreases |pages|
  {
    if n < |pages| {
      var init := pages[..|pages| - 1];
      assert pages[..n] == init[..n];
      FlattenPrefix(init, n);
    } else {
      assert pages[..n] == pages;
    }
  }

  /**
   `get_all_common_stock_tickers()`: walks the pages, appending each symbol,
   and stops at the first failing request. It never fails; on a fault it
   returns exactly the symbols of the pages delivered before it.
   */
  method GetAllCommonStockTickers(listing: Listing) returns (tickers: seq<string>)
    ensures tickers == Discovered(listing)
    ensures tickers <= Flatten(listing.pages)
    ensures listing.fault.None? ==> tickers == Flatten(listing.pages)
    ensures listing.fault.Some? && listing.fault.value < |listing.pages| ==>
              tickers == Flatten(listing.pages[..listing.fault.value])
  {
    var pages := listing.pages;
    tickers := [];
    var i := 0;
    while i < |pages| && listing.fault != Some(i)
      invariant 0 <= i <= Delivered(listing)
      invariant tickers == Flatten(pages[..i])
    {
      var page := pages[i];
      for j := 0 to |page|
        invariant tickers == Flatten(pages[..i]) + page[..j]
      {
        tickers := tickers + [page[j]];
      }
      assert pages[..i + 1][..i] == pages[..i];
      assert page[..|page|] == page;
      i := i + 1;
    }
    FlattenPrefix(pages, i);
    assert pages[..|pages|] == pages;
  }
}
