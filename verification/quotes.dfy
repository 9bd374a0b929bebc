/** The quote record shared by every part of the app. */
module Quotes {

  /** A quote as the app holds it: its text and its author. Favourites are
      matched by `content` alone. */
  datatype Quote = Quote(content: string, author: string)
}

/** The browser's local key/value store, reduced to the two keys the app
    uses. Values are held decoded: JSON encoding is not part of this model. */
module Storage {
  import opened Results
  import opened Quotes

  /** What a key can hold: the last fetched quote, or the favourites list. */
  datatype Value = QuoteValue(quote: Quote) | QuoteListValue(quotes: seq<Quote>)

  type Store = map<string, Value>

  const QuoteKey: string := "quote"
  const FavoritesKey: string := "favorites"

  /** The quote saved under "quote", if there is one. */
  function StoredQuote(store: Store): (r: Option<Quote>)
    ensures r.Some? <==> QuoteKey in store && store[QuoteKey].QuoteValue?
    ensures r.Some? ==> store[QuoteKey] == QuoteValue(r.value)
  {
    if QuoteKey in store && store[QuoteKey].QuoteValue? then Some(store[QuoteKey].quote) else None
  }

  /** The list saved under "favorites", if there is one. */
  function StoredFavorites(store: Store): (r: Option<seq<Quote>>)
    ensures r.Some? <==> FavoritesKey in store && store[FavoritesKey].QuoteListValue?
    ensures r.Some? ==> store[FavoritesKey] == QuoteListValue(r.value)
  {
    if FavoritesKey in store && store[FavoritesKey].QuoteListValue? then Some(store[FavoritesKey].quotes) else None
  }
}
