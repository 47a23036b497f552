/**
 * `NewsPagingSource` (data/paging/NewsPagingSource.kt): turns a page key
 * into one call of the headline API and the call's outcome into a page with
 * its neighbouring keys. The API call is a parameter: a function from the
 * request to what the call returned or threw. Keys are Kotlin `Int`s, so the
 * key arithmetic wraps around at the 32-bit bounds.
 */
module Paging {
  import opened Wrappers
  import opened Domain
  import opened Exceptions

  const INT32_MIN: int := -0x8000_0000
  const INT32_MAX: int := 0x7FFF_FFFF

  newtype int32 = x: int | -0x8000_0000 <= x < 0x8000_0000

  /** Kotlin `x + 1` on `Int`. */
  function Plus1(x: int32): (r: int32)
    ensures x as int < INT32_MAX ==> r as int == x as int + 1
    ensures x as int == INT32_MAX ==> r as int == INT32_MIN
  {
    if x as int == INT32_MAX then INT32_MIN as int32 else x + 1
  }

  /** Kotlin `x - 1` on `Int`. */
  function Minus1(x: int32): (r: int32)
    ensures x as int > INT32_MIN ==> r as int == x as int - 1
    ensures x as int == INT32_MIN ==> r as int == INT32_MAX
  {
    if x as int == INT32_MIN then INT32_MAX as int32 else x - 1
  }

  /** The page a missing key stands for. */
  const FIRST_PAGE_INDEX: int32 := 0

  /** The filters a paging source is built with; this triple is what a screen's
      paged news flow is made from. */
  datatype NewsPagingSource = NewsPagingSource(
    country: Option<string>,
    category: Option<string>,
    searchQuery: Option<string>
  )

  /** What the pager asks for: a key (absent on the first load) and a load size. */
  datatype LoadParams = LoadParams(key: Option<int32>, loadSize: int32)

  /** The arguments of `NewsApi.fetchNews`. */
  datatype FetchRequest = FetchRequest(
    country: Option<string>,
    category: Option<string>,
    searchQuery: Option<string>,
    pageSize: int32,
    page: int32
  )

  /** What the call did: returned the articles of a response, or threw. */
  datatype FetchOutcome<A> = Fetched(articles: seq<A>) | Thrown(exception: Exception)

  /** What converting one article did: returned a `News`, or threw (on a field the JSON
      parser left null, say). */
  datatype Conversion = Converted(news: News) | ConversionThrew(exception: Exception)

  /** What mapping the conversion over a list did: returned every article converted, or
      threw the first exception a conversion raised. */
  datatype Mapping = Mapped(data: seq<News>) | MapThrew(exception: Exception)

  /** `LoadResult.Page` or `LoadResult.Error`. */
  datatype LoadResult =
    | Page(data: seq<News>, prevKey: Option<int32>, nextKey: Option<int32>)
    | Error(exception: Exception)

  /** The part of the pager's `PagingState` the source reads. */
  datatype PagingState = PagingState(anchorPosition: Option<int32>)

  /** `params.key ?: FIRST_PAGE_INDEX`. */
  function RequestedPage(params: LoadParams): (page: int32)
    ensures params.key.None? ==> page == FIRST_PAGE_INDEX
    ensures params.key.Some? ==> page == params.key.value
  {
    params.key.GetOr(FIRST_PAGE_INDEX)
  }

  /** The call `load` makes: the source's filters unchanged, the load size as page size
      and the requested page. */
  function RequestFor(source: NewsPagingSource, params: LoadParams): (req: FetchRequest)
    ensures req.country == source.country && req.category == source.category
    ensures req.searchQuery == source.searchQuery
    ensures req.pageSize == params.loadSize && req.page == RequestedPage(params)
  {
    FetchRequest(source.country, source.category, source.searchQuery, params.loadSize, RequestedPage(params))
  }

  /** `articles.map { it.toNews() }`: converts in order, and the first conversion that
      throws ends the map with its exception. */
  function MapArticles<A>(articles: seq<A>, toNews: A -> Conversion): (r: Mapping)
    ensures r.Mapped? <==> forall i :: 0 <= i < |articles| ==> toNews(articles[i]).Converted?
    ensures r.Mapped? ==> |r.data| == |articles|
                          && forall i :: 0 <= i < |articles| ==> r.data[i] == toNews(articles[i]).news
    ensures r.MapThrew? ==> exists i :: 0 <= i < |articles| && toNews(articles[i]) == ConversionThrew(r.exception)
                              && forall j :: 0 <= j < i ==> toNews(articles[j]).Converted?
  {
    if articles == [] then Mapped([])
    else match toNews(articles[0])
      case ConversionThrew(e) => MapThrew(e)
      case Converted(n) =>
        var rest := MapArticles(articles[1..], toNews);
        assert forall i :: 1 <= i < |articles| ==> articles[i] == articles[1..][i - 1];
        if rest.MapThrew? then
          assert exists i :: 0 <= i < |articles| && toNews(articles[i]) == ConversionThrew(rest.exception)
                             && forall j :: 0 <= j < i ==> toNews(articles[j]).Converted? by {
            var k :| 0 <= k < |articles[1..]| && toNews(articles[1..][k]) == ConversionThrew(rest.exception)
                     && forall j :: 0 <= j < k ==> toNews(articles[1..][j]).Converted?;
            assert toNews(articles[k + 1]) == ConversionThrew(rest.exception);
            forall j | 0 <= j < k + 1 ensures toNews(articles[j]).Converted? {
              if j > 0 {
                assert articles[j] == articles[1..][j - 1];
              }
            }
          }
          rest
        else
          Mapped([n] + rest.data)
  }

  /** `load(params)`. `fetch` stands for the API call and `toNews` for the article
      conversion; both run inside the `try`, so an exception from either becomes an `Error`. */
  function Load<A>(source: NewsPagingSource, params: LoadParams,
                   fetch: FetchRequest -> FetchOutcome<A>, toNews: A -> Conversion): (r: LoadResult)
    // the fetch throwing gives an Error carrying its exception
    ensures fetch(RequestFor(source, params)).Thrown? ==>
      r == Error(fetch(RequestFor(source, params)).exception)
    // otherwise an Error exactly when some article fails to convert, carrying the first failure
    ensures fetch(RequestFor(source, params)).Fetched? ==>
      var articles := fetch(RequestFor(source, params)).articles;
      && (r.Error? <==> exists i :: 0 <= i < |articles| && toNews(articles[i]).ConversionThrew?)
      && (r.Error? ==> exists i :: 0 <= i < |articles| && toNews(articles[i]) == ConversionThrew(r.exception)
                                   && forall j :: 0 <= j < i ==> toNews(articles[j]).Converted?)
    // the page holds the fetched articles converted one by one, in order
    ensures r.Page? ==>
      && fetch(RequestFor(source, params)).Fetched?
      && var articles := fetch(RequestFor(source, params)).articles;
      && |r.data| == |articles|
      && (forall i :: 0 <= i < |articles| ==> r.data[i] == toNews(articles[i]).news)
      // no previous key exactly on the first page, else the page before
      && (r.prevKey.None? <==> RequestedPage(params) == FIRST_PAGE_INDEX)
      && (r.prevKey.Some? ==> r.prevKey.value == Minus1(RequestedPage(params)))
      // no next key exactly when the page came back empty, else the page after
      && (r.nextKey.None? <==> articles == [])
      && (r.nextKey.Some? ==> r.nextKey.value == Plus1(RequestedPage(params)))
  {
    var nextPage := RequestedPage(params);
    match fetch(RequestFor(source, params))
    case Thrown(e) => Error(e)
    case Fetched(articles) =>
      match MapArticles(articles, toNews)
      case MapThrew(e) => Error(e)
      case Mapped(data) =>
        Page(
          data,
          if nextPage == FIRST_PAGE_INDEX then None else Some(Minus1(nextPage)),
          if articles == [] then None else Some(Plus1(nextPage))
        )
  }

  /** `getRefreshKey(state)`: the anchor position. */
  function GetRefreshKey(state: PagingState): (key: Option<int32>)
    ensures key.None? <==> state.anchorPosition.None?
    ensures key.Some? ==> key.value == state.anchorPosition.value
  {
    state.anchorPosition
  }

  /** A refresh keyed by `getRefreshKey` requests the anchor's page, or the first page
      when the state has no anchor. */
  lemma RefreshRequestsAnchor(source: NewsPagingSource, state: PagingState, loadSize: int32)
    ensures RequestFor(source, LoadParams(GetRefreshKey(state), loadSize)).page ==
      if state.anchorPosition.Some? then state.anchorPosition.value else FIRST_PAGE_INDEX
  {
  }

  /** Away from the 32-bit bounds, successive pages are consecutive: the next key is one
      more than the page, the previous key one less, and an empty page ends paging. */
  lemma KeysAreNeighbours<A>(source: NewsPagingSource, params: LoadParams,
                             fetch: FetchRequest -> FetchOutcome<A>, toNews: A -> Conversion)
    requires FIRST_PAGE_INDEX <= RequestedPage(params) && (RequestedPage(params) as int) < INT32_MAX
    ensures var r := Load(source, params, fetch, toNews);
      r.Page? ==>
        && (r.nextKey.Some? ==> r.nextKey.value as int == RequestedPage(params) as int + 1)
        && (r.prevKey.Some? ==> r.prevKey.value as int == RequestedPage(params) as int - 1 >= 0)
  {
  }

  /** The paging test: a refresh with no key that fetches three articles, each of which
      converts, yields exactly those three, no previous key and next key 1. */
  lemma FirstRefreshOfThree<A>(source: NewsPagingSource, loadSize: int32,
                               fetch: FetchRequest -> FetchOutcome<A>, toNews: A -> Conversion,
                               a1: A, a2: A, a3: A)
    requires fetch(RequestFor(source, LoadParams(None, loadSize))) == Fetched([a1, a2, a3])
    requires toNews(a1).Converted? && toNews(a2).Converted? && toNews(a3).Converted?
    ensures Load(source, LoadParams(None, loadSize), fetch, toNews) ==
      Page([toNews(a1).news, toNews(a2).news, toNews(a3).news], None, Some(1))
  {
    var r := Load(source, LoadParams(None, loadSize), fetch, toNews);
    var articles := [a1, a2, a3];
    assert forall i :: 0 <= i < 3 ==> toNews(articles[i]).Converted?;
    assert r.Page?;
    assert r.data == [toNews(a1).news, toNews(a2).news, toNews(a3).news];
  }

  /** One article that fails to convert fails the whole load, even after good ones: the
      pager gets an `Error`, not a shorter page. */
  lemma BadArticleFailsTheLoad<A>(source: NewsPagingSource, params: LoadParams,
                                  fetch: FetchRequest -> FetchOutcome<A>, toNews: A -> Conversion,
                                  good: A, bad: A, e: Exception)
    requires fetch(RequestFor(source, params)) == Fetched([good, bad])
    requires toNews(good).Converted? && toNews(bad) == ConversionThrew(e)
    ensures Load(source, params, fetch, toNews) == Error(e)
  {
    var articles := [good, bad];
    assert toNews(articles[1]).ConversionThrew?;
    assert forall i :: 0 <= i < 2 && toNews(articles[i]).ConversionThrew? ==> i == 1;
  }
}
