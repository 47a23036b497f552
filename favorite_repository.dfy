/**
 * `FavoriteRepositoryImpl` (data/repository/FavoriteRepositoryImpl.kt): the
 * favourites API over the `news` table, converting `News` to and from rows.
 * The reactive flows it returns are modelled as the value they carry in the
 * table's current state.
 */
module Favorites {
  import opened Wrappers
  import opened Domain
  import opened Entities
  import opened Dao
  import UiModels

  class FavoriteRepositoryImpl {
    const newsDao: NewsDao

    constructor (newsDao: NewsDao)
      ensures this.newsDao == newsDao
    {
      this.newsDao := newsDao;
    }

    /** `addFavorite(news)`: upsert the article's row; the title is now a favourite,
        its stored row carries the new fields, and no other title is affected. */
    method AddFavorite(news: News)
      requires newsDao.Valid()
      modifies newsDao
      ensures newsDao.Valid()
      ensures newsDao.rows == Upsert(old(newsDao.rows), ToEntity(news))
      ensures IsFavorite(news)
      ensures Find(newsDao.rows, news.title) == Some(ToEntity(news))
      ensures forall t :: t != news.title ==> Find(newsDao.rows, t) == Find(old(newsDao.rows), t)
    {
      UpsertStores(newsDao.rows, ToEntity(news));
      newsDao.Insert(ToEntity(news));
    }

    /** `removeFavorite(news)`: delete the row keyed by the article's title, if any;
        no other title is affected. */
    method RemoveFavorite(news: News)
      requires newsDao.Valid()
      modifies newsDao
      ensures newsDao.Valid()
      ensures newsDao.rows == Without(old(newsDao.rows), news.title)
      ensures !IsFavorite(news)
      ensures forall t :: t != news.title ==> Find(newsDao.rows, t) == Find(old(newsDao.rows), t)
    {
      WithoutRemoves(newsDao.rows, news.title);
      newsDao.Delete(ToEntity(news));
    }

    /** `getFavorites()`: every stored row converted to an article, one per row, in table order. */
    function GetFavorites(): (r: seq<News>)
      reads this, newsDao
      ensures |r| == |newsDao.rows|
      ensures forall i :: 0 <= i < |r| ==> ToEntity(r[i]) == newsDao.rows[i]
    {
      var ns := ToNewsList(newsDao.GetAll());
      assert forall i :: 0 <= i < |ns| ==> ToEntity(ns[i]) == newsDao.rows[i] by {
        forall i | 0 <= i < |ns| ensures ToEntity(ns[i]) == newsDao.rows[i] {
          EntityRoundTrip(newsDao.rows[i]);
        }
      }
      ns
    }

    /** `isFavorite(news)`: whether some stored row has the article's title. */
    function IsFavorite(news: News): (r: bool)
      reads this, newsDao
      ensures r <==> exists i :: 0 <= i < |newsDao.rows| && newsDao.rows[i].title == news.title
    {
      newsDao.IsFavorite(news.title)
    }

    /** The favourite button of the details screen: remove the article if it is
        currently a favourite, add it otherwise. The article arrives as a
        `NewsUiModel` and is converted with `toNews()` on the way. */
    method ToggleFavorite(news: UiModels.NewsUiModel)
      requires newsDao.Valid()
      modifies newsDao
      ensures newsDao.Valid()
      ensures old(IsFavorite(UiModels.ToNews(news))) ==>
        newsDao.rows == Without(old(newsDao.rows), news.title)
      ensures !old(IsFavorite(UiModels.ToNews(news))) ==>
        newsDao.rows == Upsert(old(newsDao.rows), ToEntity(UiModels.ToNews(news)))
      ensures IsFavorite(UiModels.ToNews(news)) == !old(IsFavorite(UiModels.ToNews(news)))
    {
      var article := UiModels.ToNews(news);
      if IsFavorite(article) {
        RemoveFavorite(article);
      } else {
        AddFavorite(article);
      }
    }
  }

  /** Whether an article is a favourite depends on its title alone. */
  lemma IsFavoriteOnlyByTitle(repo: FavoriteRepositoryImpl, n: News, m: News)
    requires n.title == m.title
    ensures repo.IsFavorite(n) == repo.IsFavorite(m)
  {
  }

  /** The favourite key survives the trip through the presentation layer: asking about
      the `NewsUiModel` of an article is asking about the article. */
  lemma IsFavoriteAcrossUiModel(repo: FavoriteRepositoryImpl, n: News)
    ensures repo.IsFavorite(UiModels.ToNews(UiModels.ToUiModel(n))) == repo.IsFavorite(n)
  {
  }

  /** The table test scenarios: insert then read back, insert then delete,
      and membership of an inserted and of a never-inserted title. */
  method TableScenarios(e: NewsEntity, other: string)
    returns (afterInsert: seq<NewsEntity>, inserted: bool, neverInserted: bool, afterDelete: seq<NewsEntity>)
    requires other != e.title
    ensures afterInsert == [e] && inserted && !neverInserted && afterDelete == []
  {
    var dao := new NewsDao();
    dao.Insert(e);
    afterInsert := dao.GetAll();
    inserted := dao.IsFavorite(e.title);
    neverInserted := dao.IsFavorite(other);
    dao.Delete(e);
    afterDelete := dao.GetAll();
  }

  /** Adding an article twice leaves one row; removing it then leaves none;
      removing again changes nothing. */
  method FavoriteScenarios(n: News)
    returns (afterTwoAdds: seq<News>, afterRemove: seq<News>, stillFavorite: bool, afterSecondRemove: seq<News>)
    ensures afterTwoAdds == [n] && afterRemove == [] && !stillFavorite && afterSecondRemove == []
  {
    var dao := new NewsDao();
    var repo := new FavoriteRepositoryImpl(dao);
    repo.AddFavorite(n);
    repo.AddFavorite(n);
    afterTwoAdds := repo.GetFavorites();
    NewsRoundTrip(n);
    repo.RemoveFavorite(n);
    afterRemove := repo.GetFavorites();
    stillFavorite := repo.IsFavorite(n);
    repo.RemoveFavorite(n);
    afterSecondRemove := repo.GetFavorites();
  }
}
