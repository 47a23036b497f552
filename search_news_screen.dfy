/**
 * The search screen's text-field handler and clear button
 * (presentation/search/SearchNewsScreen.kt): every change is echoed to the
 * view model, and a search is submitted only when the text is not blank.
 */
module SearchScreen {
  import opened Wrappers
  import opened Text
  import opened Search

  /** Whether the text has some character that is not whitespace. */
  predicate NotBlank(text: string) {
    exists i :: 0 <= i < |text| && !IsWhitespace(text[i])
  }

  /** `onSearchValueChange(text)` at time `now`, on the view model's session. The value
      always becomes the text and the news flow is left alone; a text that is not blank
      replaces the pending job with its own, a blank one leaves the pending job as it was. */
  function OnSearchValueChangeStep(s: SearchSession, text: string, now: int): (r: SearchSession)
    ensures r.uiState.searchValue == text
    ensures r.uiState.news == s.uiState.news
    ensures NotBlank(text) ==> r.searchJob == Some(ScheduledSearch(text, now + DEBOUNCE_PERIOD))
    ensures !NotBlank(text) ==> r.searchJob == s.searchJob
  {
    TrimEmptyIff(text);
    var echoed := UpdateSearchValueStep(s, text);
    if Trim(text) != [] then GetNewsStep(echoed, text, now) else echoed
  }

  /** The calls the handler makes on the view model, in order. */
  function HandlerCalls(text: string, now: int): seq<Event> {
    [UpdateSearchValue(text)] + if Trim(text) != [] then [GetNews(text, now)] else []
  }

  /** The handler is exactly its calls run in order on the view model, so every property
      of call sequences holds of handler sequences too. */
  lemma HandlerIsItsCalls(s: SearchSession, text: string, now: int)
    ensures OnSearchValueChangeStep(s, text, now) == Run(s, HandlerCalls(text, now))
  {
    var first := [UpdateSearchValue(text)];
    assert first[..0] == [];
    assert Run(s, first) == UpdateSearchValueStep(s, text);
    if Trim(text) != [] {
      var calls := first + [GetNews(text, now)];
      assert calls[..1] == first;
      assert Run(s, calls) == GetNewsStep(UpdateSearchValueStep(s, text), text, now);
    }
  }

  /** The handler run on a view model. */
  method OnSearchValueChange(viewModel: SearchNewsViewModel, text: string, now: int)
    modifies viewModel
    ensures viewModel.Session() == OnSearchValueChangeStep(old(viewModel.Session()), text, now)
  {
    viewModel.UpdateSearchValue(text);
    if Trim(text) != [] {
      viewModel.GetNews(text, now);
    }
  }

  /** The clear button sends "" through the same handler: the value is emptied, the news
      flow stays, and a pending search is not cancelled. */
  method OnClearClick(viewModel: SearchNewsViewModel, now: int)
    modifies viewModel
    ensures viewModel.uiState.searchValue == ""
    ensures viewModel.uiState.news == old(viewModel.uiState.news)
    ensures viewModel.searchJob == old(viewModel.searchJob)
  {
    OnSearchValueChange(viewModel, "", now);
  }

  /** Whitespace-only text neither submits nor cancels. */
  lemma BlankTextKeepsPendingSearch(s: SearchSession, now: int)
    ensures OnSearchValueChangeStep(s, " \t ", now).searchJob == s.searchJob
  {
    var text := " \t ";
    assert |text| == 3 && text[0] == ' ' && text[1] == '\t' && text[2] == ' ';
    assert !NotBlank(text);
  }
}
