# NewsApp core, modelled in Dafny

NewsApp is an Android client for a headline API. It pages through news
articles filtered by country, category or search text. Favourite articles are
stored in a local Room table keyed by title. The theme and the language are
kept in a DataStore. This project models the logic under that UI:

- the page-key protocol of `NewsPagingSource`;
- the `news` favourites table and `FavoriteRepositoryImpl` over it;
- `PreferenceRepositoryImpl`;
- the `News` ↔ `NewsEntity` ↔ `NewsUiModel` conversions;
- the country-name table `toISO3166Alpha2`;
- the news-list state and `NewsListViewModel`;
- the debounced `SearchNewsViewModel` and the search screen's text handler;
- the language tables of `LanguageUtils`;
- the paging-error message shown on the news list.

One module per source file:

| file | module | models |
|---|---|---|
| wrappers.dfy | Wrappers | `Option` (Kotlin's nullable values) |
| news.dfy | Domain | the `News` domain record |
| news_entity.dfy | Entities | `NewsEntity`, its primary key, `toEntity`/`toNews` |
| news_dao.dfy | Dao | the `news` table and `NewsDao` (class) |
| favorite_repository.dfy | Favorites | `FavoriteRepositoryImpl` (class) and the details screen's favourite toggle |
| preference_repository.dfy | Preferences | `PreferenceRepositoryImpl` (class over a key/value map) |
| news_ui_model.dfy | UiModels | `NewsUiModel`, `toUiModel`/`toNews` |
| text.dfy | Text | Kotlin's `lowercase()` and `trim()` |
| country_codes.dfy | Countries | `String.toISO3166Alpha2()` |
| exceptions.dfy | Exceptions | the exceptions a page load can raise |
| news_paging_source.dfy | Paging | `NewsPagingSource.load` / `getRefreshKey` |
| paging_error.dfy | PagingErrors | `getPagingError`, `errorMessage`, `convertErrorBody` |
| news_list_ui_state.dfy | NewsListState | `NewsListUiState`, `newsCountries`, `newsCategories` |
| news_list_view_model.dfy | NewsList | `NewsListViewModel` (class) |
| search_news_view_model.dfy | Search | `SearchNewsViewModel` (class) and its debounce |
| search_news_screen.dfy | SearchScreen | the `onSearchValueChange` handler and the clear button |
| language_utils.dfy | Languages | `languageMap` and its lookups |

Modelling choices:

- **Favourites table.** The table is a sequence of rows in storage order.
  - Its invariant is that no two rows share a title, which is the primary key.
  - An insert follows SQLite's REPLACE: it deletes the row with the same title, then stores the new row last.
  - A delete removes the row whose key equals the entity's title.
  - The repository's flows are read as the value they carry in the current state.
- **Paged news flow.** A `Flow<PagingData>` held in a UI state is represented by the `NewsPagingSource(country, category, searchQuery)` request it is built from.
  - `GetNewsUseCase` (no search query) and `SearchNewsUseCase` (no country, no category) are inlined into the request functions.
- **Paging.** The API call and the article conversion are parameters of `Load`. Page keys are Kotlin `Int`s, so `nextPage ± 1` wraps around at the 32-bit bounds.
- **Search debounce.**
  - The clock is a parameter. `getNews(q)` at time `now` drops any pending job and schedules one due at `now + 500`.
  - A separate `DelayElapsed(now)` step is the end of the coroutine's delay. It applies the pending job once the job is due.
  - Each view-model method is proved equal to a step function on the session. Properties of call sequences are proved about those step functions.
- **Error parsing.** Gson is a parameter: a function from an error body to an optional `ErrorResponse`. It gives nothing on a `JsonParseException` or an empty body.
  - Gson fills fields by reflection, so a field that is missing from the JSON is null at run time. Each field of `ErrorResponse` is therefore optional.

## Model

| member | source | states |
|---|---|---|
| Entities.ToEntity | data/src/main/java/io/github/joelkanyi/data/cache/NewsEntity.kt:19-30 | the row copies all eight fields; its key is the article's title |
| Entities.ToNews | data/src/main/java/io/github/joelkanyi/data/cache/NewsEntity.kt:32-43 | the article copies all eight fields of the row |
| Entities.NewsRoundTrip | data/src/main/java/io/github/joelkanyi/data/cache/NewsEntity.kt:19-43 | converting an article to a row and back gives the same article |
| Entities.EntityRoundTrip | data/src/main/java/io/github/joelkanyi/data/cache/NewsEntity.kt:19-43 | converting a row to an article and back gives the same row |
| Entities.SameKeyIffSameTitle | data/src/main/java/io/github/joelkanyi/data/cache/NewsEntity.kt:7 | two articles occupy the same table slot exactly when their titles are equal |
| Entities.ToNewsList | data/src/main/java/io/github/joelkanyi/data/repository/FavoriteRepositoryImpl.kt:30-32 | list conversion keeps length and order, converting each row |
| UiModels.ToUiModel | presentation/src/main/java/io/github/joelkanyi/presentation/model/NewsUiModel.kt:27-36 | the UI model copies all eight fields of the article |
| UiModels.ToNews | presentation/src/main/java/io/github/joelkanyi/presentation/model/NewsUiModel.kt:38-47 | the article copies all eight fields of the UI model |
| UiModels.NewsRoundTrip | presentation/src/main/java/io/github/joelkanyi/presentation/model/NewsUiModel.kt:27-47 | article → UI model → article is the identity |
| UiModels.UiModelRoundTrip | presentation/src/main/java/io/github/joelkanyi/presentation/model/NewsUiModel.kt:27-47 | UI model → article → UI model is the identity |
| Dao.Find | data/src/main/java/io/github/joelkanyi/data/cache/NewsDao.kt:27-28 | a row found has the title and is stored; nothing is found exactly when no stored row has the title |
| Dao.Without | data/src/main/java/io/github/joelkanyi/data/cache/NewsDao.kt:21-22 | deleting by key keeps exactly the rows with other titles; deleting an absent key changes nothing |
| Dao.WithoutKeepsUnique | data/src/main/java/io/github/joelkanyi/data/cache/NewsDao.kt:21-22 | a delete preserves the primary-key constraint |
| Dao.ConsKeepsUnique | data/src/main/java/io/github/joelkanyi/data/cache/NewsEntity.kt:7 | a row whose title no other row has can be added without breaking the primary-key constraint |
| Dao.Upsert | data/src/main/java/io/github/joelkanyi/data/cache/NewsDao.kt:18-19 | a REPLACE insert ends with the new row, keeps exactly the rows with other titles besides it, and grows the table by at most one |
| Dao.UpsertStores | data/src/main/java/io/github/joelkanyi/data/cache/NewsDao.kt:18-19 | a REPLACE insert preserves the constraint, stores exactly the new row under its title (last write wins) and leaves every other title's row as it was |
| Dao.WithoutRemoves | data/src/main/java/io/github/joelkanyi/data/cache/NewsDao.kt:21-22 | after a delete the title finds nothing and every other title finds what it found before |
| Dao.FindWithout | data/src/main/java/io/github/joelkanyi/data/cache/NewsDao.kt:21-22 | a delete does not change the lookup of any other title |
| Dao.FindAppend | data/src/main/java/io/github/joelkanyi/data/cache/NewsDao.kt:18-19 | storing a row under a fresh title makes that title find it and leaves other lookups alone |
| Dao.UpsertIdempotent | data/src/main/java/io/github/joelkanyi/data/cache/NewsDao.kt:18-19 | inserting the same row twice leaves the table as one insert does |
| Dao.WithoutAppendSame | data/src/main/java/io/github/joelkanyi/data/cache/NewsDao.kt:18-22 | deleting a row just stored under a fresh title restores the table |
| Dao.NewsDao.constructor | data/src/main/java/io/github/joelkanyi/data/cache/NewsDao.kt:16-29 | a new table is empty and satisfies the constraint |
| Dao.NewsDao.Insert | data/src/main/java/io/github/joelkanyi/data/cache/NewsDao.kt:18-19 | the table becomes the REPLACE insert of the row, and the constraint is kept |
| Dao.NewsDao.Delete | data/src/main/java/io/github/joelkanyi/data/cache/NewsDao.kt:21-22 | the table loses the row keyed by the entity's title and nothing else, and the constraint is kept |
| Dao.NewsDao.GetAll | data/src/main/java/io/github/joelkanyi/data/cache/NewsDao.kt:24-25 | every stored row, one per row |
| Dao.NewsDao.IsFavorite | data/src/main/java/io/github/joelkanyi/data/cache/NewsDao.kt:27-28 | true exactly when some stored row has the title |
| Favorites.FavoriteRepositoryImpl.constructor | data/src/main/java/io/github/joelkanyi/data/repository/FavoriteRepositoryImpl.kt:18-20 | the repository works on the given DAO |
| Favorites.FavoriteRepositoryImpl.AddFavorite | data/src/main/java/io/github/joelkanyi/data/repository/FavoriteRepositoryImpl.kt:21-23 | the article's row is upserted: it is now a favourite, its stored row carries the new fields, and no other title is affected |
| Favorites.FavoriteRepositoryImpl.RemoveFavorite | data/src/main/java/io/github/joelkanyi/data/repository/FavoriteRepositoryImpl.kt:25-27 | the row keyed by the title is deleted: the article is no longer a favourite, and no other title is affected |
| Favorites.FavoriteRepositoryImpl.GetFavorites | data/src/main/java/io/github/joelkanyi/data/repository/FavoriteRepositoryImpl.kt:29-33 | one article per stored row, in table order, each converting back to its row |
| Favorites.FavoriteRepositoryImpl.IsFavorite | data/src/main/java/io/github/joelkanyi/data/repository/FavoriteRepositoryImpl.kt:35 | true exactly when some stored row has the article's title |
| Favorites.FavoriteRepositoryImpl.ToggleFavorite | presentation/src/main/java/io/github/joelkanyi/presentation/newsdetails/NewsDetailsScreen.kt:56-62 | a favourite is removed, any other article is added, and its favourite status flips |
| Favorites.IsFavoriteOnlyByTitle | data/src/main/java/io/github/joelkanyi/data/repository/FavoriteRepositoryImpl.kt:35 | favourite status depends on the title alone |
| Favorites.IsFavoriteAcrossUiModel | presentation/src/main/java/io/github/joelkanyi/presentation/model/NewsUiModel.kt:33 | asking about an article's UI model is asking about the article |
| Favorites.TableScenarios | data/src/androidTest/java/io/github/joelkanyi/data/cache/NewsDaoTest.kt:44-162 | insert into an empty table reads back that row; the title is a favourite and another title is not; delete empties the table |
| Favorites.FavoriteScenarios | data/src/main/java/io/github/joelkanyi/data/repository/FavoriteRepositoryImpl.kt:21-35 | adding twice leaves one favourite; removing leaves none and the article is no longer a favourite; removing again changes nothing |
| Preferences.ThemeOf | data/src/main/java/io/github/joelkanyi/data/repository/PreferenceRepositoryImpl.kt:27-29 | the stored theme, else follow-the-system (-1) |
| Preferences.LanguageOf | data/src/main/java/io/github/joelkanyi/data/repository/PreferenceRepositoryImpl.kt:37-40 | the stored language, else the system default (0) |
| Preferences.SaveThemeReadBack | data/src/main/java/io/github/joelkanyi/data/repository/PreferenceRepositoryImpl.kt:21-25 | a saved theme is read back, overwriting an earlier one, and the language is unchanged |
| Preferences.SetLanguageReadBack | data/src/main/java/io/github/joelkanyi/data/repository/PreferenceRepositoryImpl.kt:31-35 | a saved language is read back, overwriting an earlier one, and the theme is unchanged |
| Preferences.PreferenceRepositoryImpl.constructor | data/src/main/java/io/github/joelkanyi/data/repository/PreferenceRepositoryImpl.kt:18-20 | an empty store reads both defaults |
| Preferences.PreferenceRepositoryImpl.GetTheme | data/src/main/java/io/github/joelkanyi/data/repository/PreferenceRepositoryImpl.kt:27-29 | the stored theme, else follow-the-system (-1), read from the current store |
| Preferences.PreferenceRepositoryImpl.GetLanguage | data/src/main/java/io/github/joelkanyi/data/repository/PreferenceRepositoryImpl.kt:37-40 | the stored language, else the system default (0), read from the current store |
| Preferences.PreferenceRepositoryImpl.SaveTheme | data/src/main/java/io/github/joelkanyi/data/repository/PreferenceRepositoryImpl.kt:21-25 | only the theme key changes; the theme reads back and the language is unchanged |
| Preferences.PreferenceRepositoryImpl.SetLanguage | data/src/main/java/io/github/joelkanyi/data/repository/PreferenceRepositoryImpl.kt:31-35 | only the language key changes; the language reads back and the theme is unchanged |
| Preferences.PreferenceRepositoryImpl.Clear | data/src/main/java/io/github/joelkanyi/data/repository/PreferenceRepositoryImpl.kt:42-46 | the store is emptied and both getters fall back to their defaults |
| Text.LowerChar | presentation/src/main/java/io/github/joelkanyi/presentation/utils/Utils.kt:4 | an ASCII capital becomes its lower-case letter; every other character is kept |
| Text.Lower | presentation/src/main/java/io/github/joelkanyi/presentation/newslist/NewsListViewModel.kt:35 | lower-casing keeps the length and lower-cases each character |
| Text.LowerIdempotent | presentation/src/main/java/io/github/joelkanyi/presentation/utils/Utils.kt:4 | lower-casing twice is lower-casing once |
| Text.LowerOfLowerLetters | presentation/src/main/java/io/github/joelkanyi/presentation/utils/Utils.kt:4 | a string of lower-case letters is its own lower-case form |
| Text.TrimStart | presentation/src/main/java/io/github/joelkanyi/presentation/search/SearchNewsScreen.kt:57 | drops exactly the leading whitespace |
| Text.TrimEnd | presentation/src/main/java/io/github/joelkanyi/presentation/search/SearchNewsScreen.kt:57 | drops exactly the trailing whitespace |
| Text.Trim | presentation/src/main/java/io/github/joelkanyi/presentation/search/SearchNewsScreen.kt:57 | the result is the middle of the input: everything before and after it is whitespace, and it neither starts nor ends with whitespace |
| Text.WhitespaceClasses | presentation/src/main/java/io/github/joelkanyi/presentation/search/SearchNewsScreen.kt:57 | space, tab, line feed, carriage return, no-break, figure and ideographic spaces are whitespace; no ASCII letter or digit is |
| Text.TrimEmptyIff | presentation/src/main/java/io/github/joelkanyi/presentation/search/SearchNewsScreen.kt:57 | a trimmed string is empty exactly when every character is whitespace |
| Countries.ToISO3166Alpha2 | presentation/src/main/java/io/github/joelkanyi/presentation/utils/Utils.kt:3-31 | the result is "" or two lower-case letters; it is non-empty exactly when the lower-cased name is a non-empty name of the inverse table, and then the code names it back; "" and unknown names give "" |
| Countries.CodeOf | presentation/src/main/java/io/github/joelkanyi/presentation/utils/Utils.kt:4-30 | the `when` table: "" or two lower-case letters; a key gets a code exactly when it is a non-empty name of the inverse table, and the code names that key back |
| Countries.NameHasCode | presentation/src/main/java/io/github/joelkanyi/presentation/utils/Utils.kt:3-4 | a name whose lower-case form the table lists gets that entry's code |
| Countries.CaseInsensitive | presentation/src/main/java/io/github/joelkanyi/presentation/utils/Utils.kt:4 | a name and its lower-case form map to the same code |
| Countries.CodesDistinct | presentation/src/main/java/io/github/joelkanyi/presentation/utils/Utils.kt:5-29 | names that differ after lower-casing never share a non-empty code |
| Countries.MapTwiceIsEmpty | presentation/src/main/java/io/github/joelkanyi/presentation/utils/Utils.kt:3-31 | no code is itself a listed name, so mapping twice gives "" |
| Countries.KnownNameExamples | presentation/src/main/java/io/github/joelkanyi/presentation/utils/Utils.kt:5-19 | "Kenya" → "ke", "United Kingdom" → "gb", "SOUTH KOREA" → "kr" |
| Countries.UnknownInputExamples | presentation/src/main/java/io/github/joelkanyi/presentation/utils/Utils.kt:30 | surrounding whitespace is not stripped, and an existing code is not a name: both give "" |
| Paging.Plus1 | data/src/main/java/io/github/joelkanyi/data/paging/NewsPagingSource.kt:38 | the Kotlin `Int` successor, wrapping at the 32-bit bounds |
| Paging.Minus1 | data/src/main/java/io/github/joelkanyi/data/paging/NewsPagingSource.kt:37 | the Kotlin `Int` predecessor, wrapping at the 32-bit bounds |
| Paging.RequestedPage | data/src/main/java/io/github/joelkanyi/data/paging/NewsPagingSource.kt:25 | a missing key requests page 0; otherwise the key itself |
| Paging.RequestFor | data/src/main/java/io/github/joelkanyi/data/paging/NewsPagingSource.kt:27-33 | the fetch carries the source's filters unchanged, the load size as page size and the requested page |
| Paging.MapArticles | data/src/main/java/io/github/joelkanyi/data/paging/NewsPagingSource.kt:36 | the articles converted one by one in order when every conversion succeeds; otherwise the exception of the first article whose conversion throws |
| Paging.Load | data/src/main/java/io/github/joelkanyi/data/paging/NewsPagingSource.kt:23-43 | an exception from the fetch or from converting an article is an `Error` carrying it (the first failing article's), never a `Page`; a page holds the converted articles; `prevKey` is null exactly on the first page, otherwise the page before; `nextKey` is null exactly when the page is empty, otherwise the page after |
| Paging.GetRefreshKey | data/src/main/java/io/github/joelkanyi/data/paging/NewsPagingSource.kt:21 | the refresh key is the anchor position: null exactly when there is no anchor |
| Paging.BadArticleFailsTheLoad | data/src/main/java/io/github/joelkanyi/data/paging/NewsPagingSource.kt:34-41 | one article whose conversion throws turns a fetched page into an `Error` carrying that exception |
| Paging.RefreshRequestsAnchor | data/src/main/java/io/github/joelkanyi/data/paging/NewsPagingSource.kt:21 | a refresh keyed by `getRefreshKey` requests the anchor position, or page 0 without an anchor |
| Paging.KeysAreNeighbours | data/src/main/java/io/github/joelkanyi/data/paging/NewsPagingSource.kt:37-38 | below the 32-bit bound the keys are the page minus and plus one, and never negative |
| Paging.FirstRefreshOfThree | data/src/test/java/io/github/joelkanyi/data/paging/NewsPagingSourceTest.kt:24-47 | a keyless refresh that fetches three convertible articles gives a page of those three, no previous key and next key 1 |
| PagingErrors.ConvertErrorBody | presentation/src/main/java/io/github/joelkanyi/presentation/newslist/NewsListScreen.kt:625-631 | no response or no error body gives nothing; otherwise the parse of the body |
| PagingErrors.ErrorMessage | presentation/src/main/java/io/github/joelkanyi/presentation/newslist/NewsListScreen.kt:619-623 | the server's parsed message when there is one, else "Unknown error" |
| PagingErrors.GetPagingError | presentation/src/main/java/io/github/joelkanyi/presentation/newslist/NewsListScreen.kt:591-605 | HTTP errors show the server's message or "Unknown error"; I/O errors show "Network error"; anything else shows "Unknown error"; the result is empty only when the server sent an empty message |
| PagingErrors.InvalidApiKeyMessage | presentation/src/main/java/io/github/joelkanyi/presentation/newslist/NewsListScreen.kt:591-623 | an HTTP 401 whose body parses to an error payload shows that payload's message |
| NewsListState.DefaultState | presentation/src/main/java/io/github/joelkanyi/presentation/newslist/NewsListUiState.kt:7-14 | no news, both dialogs hidden, "United States" selected, no category, not initialized |
| NewsListState.CountriesDistinct | presentation/src/main/java/io/github/joelkanyi/presentation/newslist/NewsListUiState.kt:28-55 | 25 countries, pairwise distinct |
| NewsListState.CountriesHaveDistinctCodes | presentation/src/main/java/io/github/joelkanyi/presentation/newslist/NewsListUiState.kt:28-55 | every offered country has a code, and no two share one |
| NewsListState.CountryCodesInOrder | presentation/src/main/java/io/github/joelkanyi/presentation/newslist/NewsListUiState.kt:28-55 | the codes of the offered countries, in display order |
| NewsListState.CategoriesDistinct | presentation/src/main/java/io/github/joelkanyi/presentation/newslist/NewsListUiState.kt:16-26 | seven pairwise-distinct categories and no "All News" entry |
| NewsList.NewsRequest | presentation/src/main/java/io/github/joelkanyi/presentation/newslist/NewsListViewModel.kt:26-43 | the country is mapped to its code and the category is lower-cased; a null argument stays null; there is no search query |
| NewsList.CodeIsNotAName | presentation/src/test/java/io/github/joelkanyi/presentation/newslist/NewsListViewModelTest.kt:104 | `getNews("US", "Business")` requests country "" and category "business" |
| NewsList.InitialRequest | presentation/src/main/java/io/github/joelkanyi/presentation/newslist/NewsListViewModel.kt:77-82 | the construction request is country "us", no category |
| NewsList.NewsListViewModel.constructor | presentation/src/main/java/io/github/joelkanyi/presentation/newslist/NewsListViewModel.kt:77-82 | default state plus the news request for "us" |
| NewsList.NewsListViewModel.GetNews | presentation/src/main/java/io/github/joelkanyi/presentation/newslist/NewsListViewModel.kt:26-43 | replaces the news request whole, and nothing else |
| NewsList.NewsListViewModel.SetFiltersBottomSheetState | presentation/src/main/java/io/github/joelkanyi/presentation/newslist/NewsListViewModel.kt:45-51 | changes only the filters flag |
| NewsList.NewsListViewModel.SetCountriesDialogState | presentation/src/main/java/io/github/joelkanyi/presentation/newslist/NewsListViewModel.kt:53-59 | changes only the country-dialog flag |
| NewsList.NewsListViewModel.SelectCountry | presentation/src/main/java/io/github/joelkanyi/presentation/newslist/NewsListViewModel.kt:61-67 | changes only the selected country; no refetch |
| NewsList.NewsListViewModel.SelectCategory | presentation/src/main/java/io/github/joelkanyi/presentation/newslist/NewsListViewModel.kt:69-75 | changes only the selected category; no refetch |
| NewsList.NewsListScenario | presentation/src/main/java/io/github/joelkanyi/presentation/newslist/NewsListViewModel.kt:26-82 | selections keep the construction request; a later `getNews` replaces it whole and keeps the selections |
| Search.SearchRequest | presentation/src/main/java/io/github/joelkanyi/presentation/search/SearchNewsViewModel.kt:37 | a search request has the query and no country or category |
| Search.InitialSession | presentation/src/main/java/io/github/joelkanyi/presentation/search/SearchNewsUiState.kt:13-16 | empty search value, no news, no pending job |
| Search.GetNewsStep | presentation/src/main/java/io/github/joelkanyi/presentation/search/SearchNewsViewModel.kt:30-34 | any pending job is replaced by one for the query, due 500 ms later; the UI state is untouched |
| Search.UpdateSearchValueStep | presentation/src/main/java/io/github/joelkanyi/presentation/search/SearchNewsViewModel.kt:48-52 | only the search value changes |
| Search.DelayElapsedStep | presentation/src/main/java/io/github/joelkanyi/presentation/search/SearchNewsViewModel.kt:33-45 | a due job applies its own query as the news request and completes; before it is due nothing changes; the search value is never touched |
| Search.PendingJobIsLatest | presentation/src/main/java/io/github/joelkanyi/presentation/search/SearchNewsViewModel.kt:31-32 | any pending job is the one the latest `getNews` launched |
| Search.OnlyLatestQueryApplied | presentation/src/main/java/io/github/joelkanyi/presentation/search/SearchNewsViewModel.kt:30-46 | when a delay ends, the news either stays or becomes the latest query's search, and only after its debounce period |
| Search.BurstKeepsOnlyLast | presentation/src/main/java/io/github/joelkanyi/presentation/search/SearchNewsViewModel.kt:30-52 | calls with no delay ending in between change no news, and leave pending exactly the last submission |
| Search.NewsNeverCleared | presentation/src/main/java/io/github/joelkanyi/presentation/search/SearchNewsViewModel.kt:25-52 | once set, the news request is never reset to null |
| Search.TypingScenario | presentation/src/main/java/io/github/joelkanyi/presentation/search/SearchNewsViewModel.kt:30-55 | "a" then "ab" 100 ms apart: nothing at 500 ms, the search for "ab" at 600 ms |
| Search.SearchNewsViewModel.constructor | presentation/src/main/java/io/github/joelkanyi/presentation/search/SearchNewsViewModel.kt:25-28 | the initial session |
| Search.SearchNewsViewModel.GetNews | presentation/src/main/java/io/github/joelkanyi/presentation/search/SearchNewsViewModel.kt:30-46 | the session takes the cancel-then-schedule step |
| Search.SearchNewsViewModel.UpdateSearchValue | presentation/src/main/java/io/github/joelkanyi/presentation/search/SearchNewsViewModel.kt:48-52 | the session takes the update-value step |
| Search.SearchNewsViewModel.DelayElapsed | presentation/src/main/java/io/github/joelkanyi/presentation/search/SearchNewsViewModel.kt:33-44 | the session takes the delay-elapsed step |
| SearchScreen.OnSearchValueChangeStep | presentation/src/main/java/io/github/joelkanyi/presentation/search/SearchNewsScreen.kt:55-60 | the value becomes the text and the news is untouched; non-blank text replaces the pending job with its own; blank text leaves the job as it was |
| SearchScreen.HandlerIsItsCalls | presentation/src/main/java/io/github/joelkanyi/presentation/search/SearchNewsScreen.kt:55-60 | the handler equals running its calls on the view model in order |
| SearchScreen.OnSearchValueChange | presentation/src/main/java/io/github/joelkanyi/presentation/search/SearchNewsScreen.kt:55-60 | the view model's session takes the handler step |
| SearchScreen.OnClearClick | presentation/src/main/java/io/github/joelkanyi/presentation/search/SearchNewsScreen.kt:122 | the value becomes "", and the news and any pending search are kept |
| SearchScreen.BlankTextKeepsPendingSearch | presentation/src/main/java/io/github/joelkanyi/presentation/search/SearchNewsScreen.kt:57 | whitespace-only text neither submits nor cancels |
| Languages.EntriesAreTheMap | presentation/src/main/java/io/github/joelkanyi/presentation/language/LanguageUtils.kt:62-66 | the entries in iteration order are exactly the map's |
| Languages.FindKeyByValue | presentation/src/main/java/io/github/joelkanyi/presentation/language/LanguageUtils.kt:22 | the key of the first entry whose value is the code; nothing exactly when no entry has it |
| Languages.FirstMatchWins | presentation/src/main/java/io/github/joelkanyi/presentation/language/LanguageUtils.kt:21-22 | when two entries share a code, the earlier one's key is found |
| Languages.GetLanguageNumberByCode | presentation/src/main/java/io/github/joelkanyi/presentation/language/LanguageUtils.kt:21-22 | "en" → 1, "sw" → 2 (exact, case-sensitive); any other code gives the system default 0 |
| Languages.GetLanguageConfiguration | presentation/src/main/java/io/github/joelkanyi/presentation/language/LanguageUtils.kt:33 | 1 → "en", 2 → "sw", any unmapped number → "" |
| Languages.NumberRoundTrip | presentation/src/main/java/io/github/joelkanyi/presentation/language/LanguageUtils.kt:21-33 | a mapped number goes to its code and back; any other number comes back as the system default |
| Languages.CodeRoundTrip | presentation/src/main/java/io/github/joelkanyi/presentation/language/LanguageUtils.kt:21-33 | a mapped code goes to its number and back |
| Languages.GetLanguageNumber | presentation/src/main/java/io/github/joelkanyi/presentation/language/LanguageUtils.kt:24-31 | below API 33 the stored number is kept; from 33 on it is read back from the first locale tag, and the system default when there is none |
| Languages.RegionalTagIsNotALanguage | presentation/src/main/java/io/github/joelkanyi/presentation/language/LanguageUtils.kt:21-28 | from API 33 on, a regional tag such as "en-US" reads back as the system default |

## Left out

- Compose rendering, theming, previews, navigation, dependency injection and the build files. They hold no logic beyond wiring.
- Retrofit, Room-generated code and DataStore internals. The API call and Gson are parameters; the table and the store are explicit state.
- The Paging library: `Pager`, `PagingData`, `cachedIn` and the load states. Only `NewsPagingSource`'s own key logic is modelled.
- Coroutines and `Flow` reactivity. Flows are read as their current value, and the end of the search delay is an explicit step.
  - The clock is not required to be monotonic.
  - The `Log.e` call in `errorMessage` is left out.
- Articles from the API. `NewsResponseDto` has no `toNews` conversion, so the conversion is a parameter of `Paging.Load` that either gives a `News` or throws.
- The presentation-layer `LANGUAGE_SYSTEM_DEFAULT` (imported from the presentation `utils` package) is not part of this model; it is taken to equal the store's fallback 0 (data/src/main/java/io/github/joelkanyi/data/repository/PreferenceRepositoryImpl.kt:49), as `Languages.LANGUAGE_SYSTEM_DEFAULT` says.
- `LanguageUtils.setLanguage` and `getLanguageDesc`. One is a platform locale call, the other a string-resource lookup.
  - The locale list read from API 33 on is a parameter of `Languages.GetLanguageNumber`.
- The date-formatting helpers `toRelativeTime` and `toHumanReadableDateTIme` are not part of this model.
- Text.Lower: lower-cases ASCII letters only. Kotlin's `lowercase()` is full Unicode, so a non-ASCII capital in a country name or category is kept as it is.
- Favorites.FavoriteRepositoryImpl.ToggleFavorite: reads the favourite status from the table at the moment of the click. The screen reads a flow's last value, which starts as `false` before the first emission.
- Dao.NewsDao.GetAll: the row order is the model's storage order (insertion, with a replaced row moved last). SQLite promises no order for `SELECT *` without `ORDER BY`.
- NewsListState.DefaultState: the `initialized` field is kept, but no operation in the core ever sets it.
- PagingErrors.GetPagingError: the message is non-empty except when the server explicitly sends an empty `message`. In that case the empty string is shown.
