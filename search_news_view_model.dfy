/**
 * `SearchNewsViewModel` (presentation/search/SearchNewsViewModel.kt) with
 * its debounce. `getNews(q)` cancels the pending search job and launches one
 * that waits `DEBOUNCE_PERIOD` milliseconds and then replaces the news flow
 * with a search for `q`. The clock is a parameter: a job is scheduled at the
 * time of the call, and `DelayElapsed(now)` is the moment the coroutine's
 * delay ends, applying the pending job once its due time has come.
 * `SearchNewsUseCase` is inlined: a search request has no country and no
 * category.
 */
module Search {
  import opened Wrappers
  import opened Paging

  /** Milliseconds between a submission and its search. */
  const DEBOUNCE_PERIOD: int := 500

  datatype SearchNewsUiState = SearchNewsUiState(searchValue: string, news: Option<NewsPagingSource>)

  /** A launched search job: the query it will apply and when its delay ends. */
  datatype ScheduledSearch = ScheduledSearch(query: string, dueAt: int)

  /** Everything the view model holds: its ui state and its search job (absent when none is pending). */
  datatype SearchSession = SearchSession(uiState: SearchNewsUiState, searchJob: Option<ScheduledSearch>)

  /** The paging source `searchNewsUseCase(query)` asks for. */
  function SearchRequest(query: string): (src: NewsPagingSource)
    ensures src.searchQuery == Some(query) && src.country.None? && src.category.None?
  {
    NewsPagingSource(None, None, Some(query))
  }

  /** `SearchNewsUiState()` and no job. */
  function InitialSession(): (s: SearchSession)
    ensures s.uiState.searchValue == "" && s.uiState.news.None? && s.searchJob.None?
  {
    SearchSession(SearchNewsUiState("", None), None)
  }

  /** `getNews(query)` at time `now`: any pending job is dropped and replaced by one for
      `query`, due one debounce period later; the ui state is not touched yet. */
  function GetNewsStep(s: SearchSession, query: string, now: int): (r: SearchSession)
    ensures r.uiState == s.uiState
    ensures r.searchJob == Some(ScheduledSearch(query, now + DEBOUNCE_PERIOD))
  {
    s.(searchJob := Some(ScheduledSearch(query, now + DEBOUNCE_PERIOD)))
  }

  /** `updateSearchValue(value)`: only the displayed value changes. */
  function UpdateSearchValueStep(s: SearchSession, value: string): (r: SearchSession)
    ensures r.uiState.searchValue == value
    ensures r.uiState.news == s.uiState.news && r.searchJob == s.searchJob
  {
    s.(uiState := s.uiState.(searchValue := value))
  }

  /** Whether the pending job's delay has ended by `now`. */
  predicate Due(s: SearchSession, now: int) {
    s.searchJob.Some? && now >= s.searchJob.value.dueAt
  }

  /** Time reaches `now`: a job whose delay has ended applies its own query to the news
      flow and completes; before that nothing changes. The displayed value is never touched. */
  function DelayElapsedStep(s: SearchSession, now: int): (r: SearchSession)
    ensures Due(s, now) ==> r.uiState.news == Some(SearchRequest(s.searchJob.value.query))
    ensures Due(s, now) ==> r.searchJob.None?
    ensures !Due(s, now) ==> r == s
    ensures r.uiState.searchValue == s.uiState.searchValue
  {
    if Due(s, now) then
      SearchSession(s.uiState.(news := Some(SearchRequest(s.searchJob.value.query))), None)
    else s
  }

  /** The calls the view model receives, and the end of a delay. */
  datatype Event =
    | GetNews(query: string, at: int)
    | UpdateSearchValue(value: string)
    | DelayElapsed(now: int)

  function Apply(s: SearchSession, e: Event): SearchSession {
    match e
    case GetNews(q, at) => GetNewsStep(s, q, at)
    case UpdateSearchValue(v) => UpdateSearchValueStep(s, v)
    case DelayElapsed(now) => DelayElapsedStep(s, now)
  }

  /** The session after the events, in order. */
  function Run(s: SearchSession, events: seq<Event>): SearchSession
    decreases |events|
  {
    if events == [] then s else Apply(Run(s, events[..|events| - 1]), events[|events| - 1])
  }

  /** The job the most recent `getNews` of `events` launched, or the job pending at the
      start when `events` holds no `getNews`. */
  function LatestSubmission(s: SearchSession, events: seq<Event>): Option<ScheduledSearch>
    decreases |events|
  {
    if events == [] then s.searchJob
    else match events[|events| - 1]
      case GetNews(q, at) => Some(ScheduledSearch(q, at + DEBOUNCE_PERIOD))
      case _ => LatestSubmission(s, events[..|events| - 1])
  }

  /** Whatever happened, a pending job is always the one the latest submission launched:
      cancelling is unconditional, so no older job survives a newer `getNews`. */
  lemma {:induction false} PendingJobIsLatest(s: SearchSession, events: seq<Event>)
    ensures Run(s, events).searchJob.Some? ==> Run(s, events).searchJob == LatestSubmission(s, events)
    decreases |events|
  {
    if events != [] {
      PendingJobIsLatest(s, events[..|events| - 1]);
    }
  }

  /** Whenever a delay ends, the news flow either stays as it was or becomes the search for
      the latest submitted query, and only once that submission's debounce period is over:
      a superseded query is never applied. */
  lemma OnlyLatestQueryApplied(s: SearchSession, events: seq<Event>, now: int)
    ensures var before := Run(s, events);
      var after := DelayElapsedStep(before, now);
      var latest := LatestSubmission(s, events);
      || after == before
      || (&& latest.Some? && now >= latest.value.dueAt
          && after.uiState.news == Some(SearchRequest(latest.value.query)))
  {
    PendingJobIsLatest(s, events);
  }

  /** A run of calls with no delay ending in between changes no news, and leaves pending
      exactly the job of its last submission. */
  lemma {:induction false} BurstKeepsOnlyLast(s: SearchSession, events: seq<Event>)
    requires forall i :: 0 <= i < |events| ==> !events[i].DelayElapsed?
    ensures Run(s, events).uiState.news == s.uiState.news
    ensures Run(s, events).searchJob == LatestSubmission(s, events)
    decreases |events|
  {
    if events != [] {
      BurstKeepsOnlyLast(s, events[..|events| - 1]);
    }
  }

  /** Once there is a news flow, no call and no delay ever resets it to null. */
  lemma {:induction false} NewsNeverCleared(s: SearchSession, events: seq<Event>)
    requires s.uiState.news.Some?
    ensures Run(s, events).uiState.news.Some?
    decreases |events|
  {
    if events != [] {
      NewsNeverCleared(s, events[..|events| - 1]);
    }
  }

  /** Typing "a" then "ab" 100 ms apart: at 500 ms nothing has been searched, since the
      job for "a" was cancelled; at 600 ms the search for "ab" is applied. */
  lemma TypingScenario()
    ensures Run(InitialSession(), [GetNews("a", 0), GetNews("ab", 100), DelayElapsed(500)]).uiState.news.None?
    ensures Run(InitialSession(), [GetNews("a", 0), GetNews("ab", 100), DelayElapsed(500), DelayElapsed(600)]).uiState.news
      == Some(SearchRequest("ab"))
  {
    var s0 := InitialSession();
    var e0 := [GetNews("a", 0)];
    var e1 := e0 + [GetNews("ab", 100)];
    var e2 := e1 + [DelayElapsed(500)];
    var e3 := e2 + [DelayElapsed(600)];
    assert e0[..0] == [] && e1[..1] == e0 && e2[..2] == e1 && e3[..3] == e2;
    assert Run(s0, e0).searchJob == Some(ScheduledSearch("a", 500));
    assert Run(s0, e1).searchJob == Some(ScheduledSearch("ab", 600));
    assert Run(s0, e2) == Run(s0, e1);
    assert Run(s0, e1).uiState.news.None?;
    assert e2 == [GetNews("a", 0), GetNews("ab", 100), DelayElapsed(500)];
    assert e3 == [GetNews("a", 0), GetNews("ab", 100), DelayElapsed(500), DelayElapsed(600)];
  }

  class SearchNewsViewModel {
    var uiState: SearchNewsUiState
    /** The launched search job, while it is still waiting. */
    var searchJob: Option<ScheduledSearch>

    function Session(): SearchSession
      reads this
    {
      SearchSession(uiState, searchJob)
    }

    /** A new view model: empty search value, no news flow, no job. */
    constructor ()
      ensures Session() == InitialSession()
    {
      uiState := SearchNewsUiState("", None);
      searchJob := None;
    }

    /** `getNews(searchQuery)`, called at time `now`: cancel, then schedule. */
    method GetNews(searchQuery: string, now: int)
      modifies this
      ensures Session() == GetNewsStep(old(Session()), searchQuery, now)
    {
      searchJob := Some(ScheduledSearch(searchQuery, now + DEBOUNCE_PERIOD));
    }

    /** `updateSearchValue(value)`. */
    method UpdateSearchValue(value: string)
      modifies this
      ensures Session() == UpdateSearchValueStep(old(Session()), value)
    {
      uiState := uiState.(searchValue := value);
    }

    /** The pending job's coroutine resuming at time `now`. */
    method DelayElapsed(now: int)
      modifies this
      ensures Session() == DelayElapsedStep(old(Session()), now)
    {
      if searchJob.Some? && now >= searchJob.value.dueAt {
        uiState := uiState.(news := Some(SearchRequest(searchJob.value.query)));
        searchJob := None;
      }
    }
  }
}
