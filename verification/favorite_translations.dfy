/** Per-favourite translation state (`useFavoriteTranslations`): three maps
    keyed by a favourite's id, holding its translation, whether a request is
    in flight, and its error message. */
module FavoriteTranslations {
  import opened Results
  import opened Translation

  type Id = string

  datatype State = State(translations: map<Id, Pair>, translating: map<Id, bool>, errors: map<Id, string>)

  const Initial: State := State(map[], map[], map[])

  const FailureMessage: string := "Failed to translate text. Please try again."

  /** The result of `translateFavoriteItem`: the new state and how the
      returned promise settled. */
  datatype Step = Step(state: State, result: Result<Pair>)

  /** Every key other than `id` has the same entry (or none) in all three
      maps of `s` and `r`. */
  predicate OthersUnchanged(s: State, r: State, id: Id) {
    && s.translations - {id} == r.translations - {id}
    && s.translating - {id} == r.translating - {id}
    && s.errors - {id} == r.errors - {id}
  }

  /** `getFavoriteTranslation`: the stored pair, or the empty pair. */
  function GetTranslation(s: State, id: Id): (p: Pair)
    ensures id !in s.translations ==> p == Empty
    ensures id in s.translations ==> p == s.translations[id]
  {
    if id in s.translations then s.translations[id] else Empty
  }

  /** `isFavoriteTranslating`: the stored flag, or false. */
  function IsTranslating(s: State, id: Id): (b: bool)
    ensures b <==> id in s.translating && s.translating[id]
  {
    id in s.translating && s.translating[id]
  }

  /** `getFavoriteTranslationError`: the stored message, or "". */
  function GetError(s: State, id: Id): (e: string)
    ensures id !in s.errors ==> e == ""
    ensures id in s.errors ==> e == s.errors[id]
  {
    if id in s.errors then s.errors[id] else ""
  }

  /** `hasFavoriteTranslation`: a stored pair with some text in it. */
  predicate HasTranslation(s: State, id: Id) {
    id in s.translations && !IsEmpty(s.translations[id])
  }

  /** The synchronous part of `translateFavoriteItem`: mark `id` in flight
      and clear its error. */
  function Start(s: State, id: Id): (r: State)
    ensures IsTranslating(r, id) && GetError(r, id) == ""
    ensures r.translations == s.translations
    ensures OthersUnchanged(s, r, id)
  {
    State(s.translations, s.translating[id := true], s.errors[id := ""])
  }

  /** Settling the pair of requests: store the pair on success, the fixed
      message on failure; in both cases `id` is no longer in flight. */
  function Finish(s: State, id: Id, result: Result<Pair>): (r: State)
    ensures !IsTranslating(r, id) && id in r.translating
    ensures result.Ok? ==> GetTranslation(r, id) == result.value && r.errors == s.errors
    ensures result.Failed? ==> GetError(r, id) == FailureMessage && r.translations == s.translations
    ensures OthersUnchanged(s, r, id)
  {
    var settled := s.translating[id := false];
    match result
    case Ok(p) => State(s.translations[id := p], settled, s.errors)
    case Failed => State(s.translations, settled, s.errors[id := FailureMessage])
  }

  /** `translateFavoriteItem` for one favourite, given the endpoint's
      answers for the quote and the author. With nothing to translate it
      resolves to the empty pair and leaves the state alone. */
  function TranslateItem(s: State, id: Id, quote: string, author: string,
                         quoteResp: Response, authorResp: Response): (r: Step)
    ensures quote == "" && author == "" ==> r == Step(s, Ok(Empty))
    ensures quote != "" || author != "" ==>
              && !IsTranslating(r.state, id)
              && r.result == TranslatePair(quote, author, quoteResp, authorResp)
              && (r.result.Ok? ==> GetTranslation(r.state, id) == r.result.value && GetError(r.state, id) == "")
              && (r.result.Failed? ==> GetError(r.state, id) == FailureMessage
                                       && r.state.translations == s.translations)
    ensures OthersUnchanged(s, r.state, id)
  {
    if quote == "" && author == "" then Step(s, Ok(Empty))
    else
      var result := TranslatePair(quote, author, quoteResp, authorResp);
      Step(Finish(Start(s, id), id, result), result)
  }

  /** `clearFavoriteTranslation`: forget `id` in all three maps. */
  function Clear(s: State, id: Id): (r: State)
    ensures id !in r.translations && id !in r.translating && id !in r.errors
    ensures OthersUnchanged(s, r, id)
  {
    State(s.translations - {id}, s.translating - {id}, s.errors - {id})
  }

  /** After a clear every getter gives its default for `id`. */
  lemma ClearRestoresDefaults(s: State, id: Id)
    ensures GetTranslation(Clear(s, id), id) == Empty
    ensures !IsTranslating(Clear(s, id), id)
    ensures GetError(Clear(s, id), id) == ""
    ensures !HasTranslation(Clear(s, id), id)
  {
  }

  /** A fresh hook knows no id: every getter gives its default. */
  lemma InitialDefaults(id: Id)
    ensures GetTranslation(Initial, id) == Empty
    ensures !IsTranslating(Initial, id)
    ensures GetError(Initial, id) == ""
  {
  }

  /** The result of `toggleFavoriteTranslation`: the new state and whether
      its promise rejects, which it does when the awaited translation
      re-throws. */
  datatype Toggled = Toggled(state: State, rejected: bool)

  /** `toggleFavoriteTranslation`: clear a translation that has text,
      otherwise translate when there is something to translate, otherwise
      do nothing. */
  function Toggle(s: State, id: Id, quote: string, author: string,
                  quoteResp: Response, authorResp: Response): (r: Toggled)
    ensures HasTranslation(s, id) ==>
              id !in r.state.translations && id !in r.state.translating && id !in r.state.errors
    ensures !HasTranslation(s, id) && (quote != "" || author != "") ==>
              var result := TranslatePair(quote, author, quoteResp, authorResp);
              && !IsTranslating(r.state, id)
              && (result.Ok? ==> GetTranslation(r.state, id) == result.value && GetError(r.state, id) == "")
              && (result.Failed? ==> GetError(r.state, id) == FailureMessage && r.state.translations == s.translations)
    ensures !HasTranslation(s, id) && quote == "" && author == "" ==> r.state == s
    ensures r.rejected <==> !HasTranslation(s, id) && (quote != "" || author != "")
                            && TranslatePair(quote, author, quoteResp, authorResp).Failed?
    ensures OthersUnchanged(s, r.state, id)
  {
    if HasTranslation(s, id) then Toggled(Clear(s, id), false)
    else if quote != "" || author != "" then
      var step := TranslateItem(s, id, quote, author, quoteResp, authorResp);
      Toggled(step.state, step.result.Failed?)
    else Toggled(s, false)
  }

  /** Toggling twice: a toggle that stores a translation with text is
      undone by the next toggle, which brings back every default for `id`
      and keeps every other favourite's entries. */
  lemma ToggleTwiceClears(s: State, id: Id, quote: string, author: string,
                          quoteResp: Response, authorResp: Response,
                          quote2: string, author2: string,
                          quoteResp2: Response, authorResp2: Response)
    requires !HasTranslation(s, id)
    requires TranslatePair(quote, author, quoteResp, authorResp).Ok?
    requires !IsEmpty(TranslatePair(quote, author, quoteResp, authorResp).value)
    ensures var once := Toggle(s, id, quote, author, quoteResp, authorResp).state;
            var twice := Toggle(once, id, quote2, author2, quoteResp2, authorResp2).state;
            && HasTranslation(once, id)
            && GetTranslation(twice, id) == Empty && !IsTranslating(twice, id) && GetError(twice, id) == ""
            && OthersUnchanged(s, twice, id)
  {
  }
}
