/**
 * `NewsListViewModel` (presentation/newslist/NewsListViewModel.kt): holds the
 * news list screen's state and rewrites it with `copy`-style updates.
 * `GetNewsUseCase` is inlined: the request it builds has no search query.
 */
module NewsList {
  import opened Wrappers
  import opened Text
  import opened Paging
  import opened Countries
  import opened NewsListState

  /** The paging source `getNews(country, category)` asks for: the country name turned into
      its code, the category lower-cased, no search query; a null argument stays null. */
  function NewsRequest(country: Option<string>, category: Option<string>): (src: NewsPagingSource)
    ensures src.country.Some? <==> country.Some?
    ensures country.Some? ==> src.country.value == ToISO3166Alpha2(country.value)
    ensures src.category.Some? <==> category.Some?
    ensures category.Some? ==> src.category.value == Lower(category.value)
    ensures src.searchQuery.None?
  {
    NewsPagingSource(
      if country.Some? then Some(ToISO3166Alpha2(country.value)) else None,
      if category.Some? then Some(Lower(category.value)) else None,
      None
    )
  }

  /** The view-model test's call `getNews("US", "Business")`: "US" is a code, not a listed
      name, so the request carries an empty country. */
  lemma CodeIsNotAName()
    ensures NewsRequest(Some("US"), Some("Business")) == NewsPagingSource(Some(""), Some("business"), None)
  {
    assert Lower("US") == "us";
    assert Lower("Business") == "business";
  }

  /** The request made on construction: the default country "United States" as "us",
      no category. */
  lemma InitialRequest()
    ensures NewsRequest(DefaultState().selectedCountry, DefaultState().selectedCategory)
      == NewsPagingSource(Some("us"), None, None)
  {
    CountryCodesInOrder();
  }

  class NewsListViewModel {
    var uiState: NewsListUiState

    /** The default state, then `init`'s `getNews` for the selected country and category. */
    constructor ()
      ensures uiState == DefaultState().(news := Some(NewsPagingSource(Some("us"), None, None)))
    {
      uiState := DefaultState();
      new;
      InitialRequest();
      GetNews(uiState.selectedCountry, uiState.selectedCategory);
    }

    /** `getNews(country, category)`: replaces the news flow and nothing else. */
    method GetNews(country: Option<string>, category: Option<string>)
      modifies this
      ensures uiState == old(uiState).(news := Some(NewsRequest(country, category)))
    {
      uiState := uiState.(news := Some(NewsRequest(country, category)));
    }

    /** `setFiltersBottomSheetState(value)`: only the filter sheet's visibility changes. */
    method SetFiltersBottomSheetState(value: bool)
      modifies this
      ensures uiState == old(uiState).(showNewsFilters := value)
    {
      uiState := uiState.(showNewsFilters := value);
    }

    /** `setCountriesDialogState(value)`: only the country dialog's visibility changes. */
    method SetCountriesDialogState(value: bool)
      modifies this
      ensures uiState == old(uiState).(showCountryDialog := value)
    {
      uiState := uiState.(showCountryDialog := value);
    }

    /** `selectCountry(country)`: only the selection changes; no new request is made. */
    method SelectCountry(country: string)
      modifies this
      ensures uiState == old(uiState).(selectedCountry := Some(country))
    {
      uiState := uiState.(selectedCountry := Some(country));
    }

    /** `selectCategory(category)`: only the selection changes; no new request is made. */
    method SelectCategory(category: string)
      modifies this
      ensures uiState == old(uiState).(selectedCategory := Some(category))
    {
      uiState := uiState.(selectedCategory := Some(category));
    }
  }

  /** A later `getNews` replaces the earlier request whole, and selecting filters does not
      refetch: the request stays the one built at construction until `getNews` runs again. */
  method NewsListScenario()
    returns (afterSelecting: NewsListUiState, afterRefetch: NewsListUiState)
    ensures afterSelecting.news == Some(NewsPagingSource(Some("us"), None, None))
    ensures afterSelecting.selectedCountry == Some("Kenya") && afterSelecting.selectedCategory == Some("Sports")
    ensures afterRefetch.news == Some(NewsPagingSource(None, Some("health"), None))
    ensures afterRefetch.selectedCountry == Some("Kenya") && afterRefetch.showCountryDialog
    ensures !afterRefetch.showNewsFilters
  {
    var vm := new NewsListViewModel();
    vm.SelectCountry("Kenya");
    vm.SelectCategory("Sports");
    afterSelecting := vm.uiState;
    vm.GetNews(None, Some("Health"));
    assert Lower("Health") == "health";
    vm.SetCountriesDialogState(true);
    afterRefetch := vm.uiState;
  }
}
