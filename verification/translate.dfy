/** Translation state of the quote on the main view (`useTranslate`): one
    translated pair, an in-flight flag, an error message, whether
    translation is switched on, and whether the content may be shown. */
module Translate {
  import opened Results
  import opened Translation

  datatype State = State(translation: Pair, translating: bool, error: string,
                         enabled: bool, contentReady: bool)

  const Initial: State := State(Empty, false, "", false, false)

  const FailureMessage: string := "Failed to translate text. Please try again."

  /** The result of `translateQuoteAndAuthor`: the new state and how the
      returned promise settled. */
  datatype Step = Step(state: State, result: Result<Pair>)

  /** `shouldShowContent`: translation is off, or its content is ready. */
  predicate ShouldShowContent(s: State) {
    !s.enabled || s.contentReady
  }

  /** `clearTranslation`: drop the pair and the error, switch translation
      off and let the content show. */
  function Clear(s: State): (r: State)
    ensures r.translation == Empty && r.error == ""
    ensures !r.enabled && r.contentReady
    ensures r.translating == s.translating
  {
    State(Empty, s.translating, "", false, true)
  }

  /** The synchronous start of a translation: in flight, no error,
      translation on, content held back. */
  function Start(s: State): (r: State)
    ensures r.translating && r.error == "" && r.enabled && !r.contentReady
    ensures r.translation == s.translation
    ensures !ShouldShowContent(r)
  {
    State(s.translation, true, "", true, false)
  }

  /** Settling the pair of requests: store the result pair on success, reset it and
      set the fixed message on failure; either way no longer in flight and
      the content may show. */
  function Finish(s: State, result: Result<Pair>): (r: State)
    ensures !r.translating && r.contentReady && r.enabled == s.enabled
    ensures result.Ok? ==> r.translation == result.value && r.error == s.error
    ensures result.Failed? ==> r.translation == Empty && r.error == FailureMessage
  {
    match result
    case Ok(p) => s.(translation := p, contentReady := true, translating := false)
    case Failed => s.(error := FailureMessage, translation := Empty, contentReady := true, translating := false)
  }

  /** `translateQuoteAndAuthor`, given the endpoint's answers for the quote
      and the author. With nothing to translate it only marks the content
      ready and resolves to the empty pair. */
  function TranslateQuoteAndAuthor(s: State, quote: string, author: string,
                                   quoteResp: Response, authorResp: Response): (r: Step)
    ensures quote == "" && author == "" ==>
              r == Step(s.(contentReady := true), Ok(Empty))
    ensures quote != "" || author != "" ==>
              && r.result == TranslatePair(quote, author, quoteResp, authorResp)
              && !r.state.translating && r.state.enabled && r.state.contentReady
              && (r.result.Ok? ==> r.state.translation == r.result.value && r.state.error == "")
              && (r.result.Failed? ==> r.state.translation == Empty && r.state.error == FailureMessage)
  {
    if quote == "" && author == "" then Step(s.(contentReady := true), Ok(Empty))
    else
      var result := TranslatePair(quote, author, quoteResp, authorResp);
      Step(Finish(Start(s), result), result)
  }

  /** There is a translation to clear: translation is on and the pair has
      some text. */
  predicate HasTranslation(s: State) {
    s.enabled && !IsEmpty(s.translation)
  }

  /** The result of `toggleTranslation` and `autoTranslateIfEnabled`: the
      new state and whether the returned promise rejects, which it does
      when the awaited translation re-throws. */
  datatype Toggled = Toggled(state: State, rejected: bool)

  /** `toggleTranslation`: clear an existing translation, otherwise
      translate when there is input, otherwise do nothing. */
  function Toggle(s: State, quote: string, author: string,
                  quoteResp: Response, authorResp: Response): (r: Toggled)
    ensures HasTranslation(s) ==> r.state == Clear(s) && !r.state.enabled && IsEmpty(r.state.translation)
    ensures !HasTranslation(s) && (quote != "" || author != "") ==>
              var result := TranslatePair(quote, author, quoteResp, authorResp);
              && !r.state.translating && r.state.enabled && r.state.contentReady
              && (result.Ok? ==> r.state.translation == result.value && r.state.error == "")
              && (result.Failed? ==> r.state.translation == Empty && r.state.error == FailureMessage)
    ensures !HasTranslation(s) && quote == "" && author == "" ==> r.state == s
    ensures r.rejected <==> !HasTranslation(s) && (quote != "" || author != "")
                            && TranslatePair(quote, author, quoteResp, authorResp).Failed?
  {
    if HasTranslation(s) then Toggled(Clear(s), false)
    else if quote != "" || author != "" then
      var step := TranslateQuoteAndAuthor(s, quote, author, quoteResp, authorResp);
      Toggled(step.state, step.result.Failed?)
    else Toggled(s, false)
  }

  /** `autoTranslateIfEnabled`: translate the new quote only when
      translation is on and there is input; otherwise do nothing. */
  function AutoTranslate(s: State, quote: string, author: string,
                         quoteResp: Response, authorResp: Response): (r: Toggled)
    ensures !(s.enabled && (quote != "" || author != "")) ==> r.state == s
    ensures s.enabled && (quote != "" || author != "") ==>
              var result := TranslatePair(quote, author, quoteResp, authorResp);
              && !r.state.translating && r.state.enabled && r.state.contentReady
              && (result.Ok? ==> r.state.translation == result.value && r.state.error == "")
              && (result.Failed? ==> r.state.translation == Empty && r.state.error == FailureMessage)
    ensures r.rejected <==> s.enabled && (quote != "" || author != "")
                            && TranslatePair(quote, author, quoteResp, authorResp).Failed?
  {
    if s.enabled && (quote != "" || author != "") then
      var step := TranslateQuoteAndAuthor(s, quote, author, quoteResp, authorResp);
      Toggled(step.state, step.result.Failed?)
    else Toggled(s, false)
  }

  /** Of the transitions alone (the render-time effects of the hook are
      not modelled): content is hidden only between `Start` and `Finish`.
      Every operation that runs to completion leaves content showable if it
      was showable before, and a clear or a translation always does. */
  lemma SettledStatesShowContent(s: State, quote: string, author: string,
                                 quoteResp: Response, authorResp: Response)
    ensures ShouldShowContent(Clear(s))
    ensures ShouldShowContent(TranslateQuoteAndAuthor(s, quote, author, quoteResp, authorResp).state)
    ensures ShouldShowContent(s) ==> ShouldShowContent(Toggle(s, quote, author, quoteResp, authorResp).state)
    ensures ShouldShowContent(s) ==> ShouldShowContent(AutoTranslate(s, quote, author, quoteResp, authorResp).state)
  {
  }

  /** The initial state shows content and has nothing to clear. */
  lemma InitialShowsContent()
    ensures ShouldShowContent(Initial) && !HasTranslation(Initial)
  {
  }

  /** Toggling twice: a toggle that produces a translation with text is
      undone by the next toggle, which empties the pair and switches
      translation off. */
  lemma ToggleTwiceClears(s: State, quote: string, author: string,
                          quoteResp: Response, authorResp: Response,
                          quote2: string, author2: string,
                          quoteResp2: Response, authorResp2: Response)
    requires !HasTranslation(s)
    requires TranslatePair(quote, author, quoteResp, authorResp).Ok?
    requires !IsEmpty(TranslatePair(quote, author, quoteResp, authorResp).value)
    ensures var once := Toggle(s, quote, author, quoteResp, authorResp).state;
            var twice := Toggle(once, quote2, author2, quoteResp2, authorResp2).state;
            && HasTranslation(once)
            && twice.translation == Empty && !twice.enabled && twice.error == ""
            && ShouldShowContent(twice)
  {
  }
}
