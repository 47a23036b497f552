/** The presentation copy of an article and its conversions (presentation/model/NewsUiModel.kt). */
module UiModels {
  import opened Domain

  datatype NewsUiModel = NewsUiModel(
    title: string,
    description: string,
    content: string,
    imageUrl: string,
    source: string,
    publishedAt: string,
    author: string,
    url: string
  )

  /** `News.toUiModel()`: field-by-field copy. */
  function ToUiModel(n: News): (u: NewsUiModel)
    ensures u.title == n.title
    ensures u.description == n.description && u.content == n.content
    ensures u.imageUrl == n.imageUrl && u.source == n.source
    ensures u.publishedAt == n.publishedAt && u.author == n.author && u.url == n.url
  {
    NewsUiModel(n.title, n.description, n.content, n.imageUrl, n.source, n.publishedAt, n.author, n.url)
  }

  /** `NewsUiModel.toNews()`: field-by-field copy. */
  function ToNews(u: NewsUiModel): (n: News)
    ensures n.title == u.title
    ensures n.description == u.description && n.content == u.content
    ensures n.imageUrl == u.imageUrl && n.source == u.source
    ensures n.publishedAt == u.publishedAt && n.author == u.author && n.url == u.url
  {
    News(u.title, u.description, u.content, u.imageUrl, u.source, u.publishedAt, u.author, u.url)
  }

  lemma NewsRoundTrip(n: News)
    ensures ToNews(ToUiModel(n)) == n
  {
  }

  lemma UiModelRoundTrip(u: NewsUiModel)
    ensures ToUiModel(ToNews(u)) == u
  {
  }
}
