/** The quote-fetch lifecycle (`useFetchQuote`): the current quote, the
    loading flag and the error message, plus the store the fetched quote is
    saved to. The HTTP request is replaced by its outcome, passed in. */
module FetchQuote {
  import opened Results
  import opened Quotes
  import opened Storage

  /** How the request settled: a quote, a failure, or a cancellation. */
  datatype Outcome = Success(quote: Quote) | Failure | Cancelled

  datatype State = State(quote: Quote, loading: bool, error: string, store: Store)

  /** Shown until a quote is available. */
  const Placeholder: Quote := Quote("", "Unknown")

  const FailureMessage: string := "Failed to fetch quote. Please try again."

  /** The lazy initial quote: the saved one if there is one, otherwise the
      placeholder. */
  function InitialQuote(store: Store): (q: Quote)
    ensures StoredQuote(store).None? ==> q == Placeholder && q.content == ""
    ensures StoredQuote(store).Some? ==> q == StoredQuote(store).value
  {
    match StoredQuote(store)
    case None => Placeholder
    case Some(saved) => saved
  }

  /** The state right after mounting, before any effect has run. */
  function Mount(store: Store): (s: State)
    ensures s.quote == InitialQuote(store) && s.store == store
    ensures !s.loading && s.error == ""
  {
    State(InitialQuote(store), false, "", store)
  }

  /** The mount effect fetches exactly when there is no quote text. */
  predicate AutoFetches(s: State) {
    s.quote.content == ""
  }

  /** Entering `fetchRandomQuote`: loading on, error cleared. */
  function Start(s: State): (r: State)
    ensures r.loading && r.error == ""
    ensures r.quote == s.quote && r.store == s.store
  {
    s.(loading := true, error := "")
  }

  /** Settling the request. On success the deferred step writes the same
      quote to memory and to "quote" and clears loading; on failure the
      error is set and loading cleared, the quote and store untouched; on
      cancellation nothing changes. */
  function Complete(s: State, o: Outcome): (r: State)
    ensures o.Success? ==> r.quote == o.quote && StoredQuote(r.store) == Some(o.quote)
                           && !r.loading && r.error == s.error
                           && r.store - {QuoteKey} == s.store - {QuoteKey}
    ensures o.Failure? ==> r.error == FailureMessage && !r.loading
                           && r.quote == s.quote && r.store == s.store
    ensures o.Cancelled? ==> r == s
  {
    match o
    case Success(q) => s.(quote := q, store := s.store[QuoteKey := QuoteValue(q)], loading := false)
    case Failure => s.(error := FailureMessage, loading := false)
    case Cancelled => s
  }

  /** One whole call of `fetchRandomQuote` with the given outcome. */
  function Fetch(s: State, o: Outcome): (r: State)
    ensures o.Success? ==> r.quote == o.quote && StoredQuote(r.store) == Some(o.quote)
                           && !r.loading && r.error == ""
    ensures o.Failure? ==> r.error == FailureMessage && !r.loading
                           && r.quote == s.quote && r.store == s.store
    ensures o.Cancelled? ==> r.quote == s.quote && r.store == s.store
                             && r.error == "" && r.loading
  {
    Complete(Start(s), o)
  }

  /** With an empty store the first mount fetches; once a fetch with quote
      text has succeeded, mounting again from the updated store shows that
      quote and does not fetch. */
  lemma FirstVisitFetchesOnce(store: Store, q: Quote)
    requires StoredQuote(store).None?
    requires q.content != ""
    ensures AutoFetches(Mount(store))
    ensures Mount(Fetch(Mount(store), Success(q)).store).quote == q
    ensures !AutoFetches(Mount(Fetch(Mount(store), Success(q)).store))
  {
  }

  /** A failed fetch writes nothing, so the next mount behaves exactly as
      this one did. */
  lemma FailureLeavesMountUnchanged(store: Store)
    ensures Mount(Fetch(Mount(store), Failure).store) == Mount(store)
  {
  }

  /** A saved quote with text is shown on mount and suppresses the fetch; a
      saved quote without text still triggers one. */
  lemma SavedQuoteDecidesFetch(store: Store)
    requires StoredQuote(store).Some?
    ensures Mount(store).quote == StoredQuote(store).value
    ensures AutoFetches(Mount(store)) <==> StoredQuote(store).value.content == ""
  {
  }
}
