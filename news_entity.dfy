/** The Room row for a favourite article and its conversions to and from `News`. */
module Entities {
  import opened Domain

  /** One row of the `news` table; the primary key is `title` alone. */
  datatype NewsEntity = NewsEntity(
    title: string,
    description: string,
    content: string,
    imageUrl: string,
    source: string,
    publishedAt: string,
    author: string,
    url: string
  )

  /** The primary key of a row. */
  function Key(e: NewsEntity): string {
    e.title
  }

  /** `News.toEntity()`: field-by-field copy. */
  function ToEntity(n: News): (e: NewsEntity)
    ensures Key(e) == n.title
    ensures e.description == n.description && e.content == n.content
    ensures e.imageUrl == n.imageUrl && e.source == n.source
    ensures e.publishedAt == n.publishedAt && e.author == n.author && e.url == n.url
  {
    NewsEntity(n.title, n.description, n.content, n.imageUrl, n.source, n.publishedAt, n.author, n.url)
  }

  /** `NewsEntity.toNews()`: field-by-field copy. */
  function ToNews(e: NewsEntity): (n: News)
    ensures n.title == Key(e)
    ensures n.description == e.description && n.content == e.content
    ensures n.imageUrl == e.imageUrl && n.source == e.source
    ensures n.publishedAt == e.publishedAt && n.author == e.author && n.url == e.url
  {
    News(e.title, e.description, e.content, e.imageUrl, e.source, e.publishedAt, e.author, e.url)
  }

  /** Converting to a row and back gives the article back. */
  lemma NewsRoundTrip(n: News)
    ensures ToNews(ToEntity(n)) == n
  {
  }

  /** Converting to an article and back gives the row back. */
  lemma EntityRoundTrip(e: NewsEntity)
    ensures ToEntity(ToNews(e)) == e
  {
  }

  /** Two articles land on the same row exactly when their titles agree. */
  lemma SameKeyIffSameTitle(n: News, m: News)
    ensures Key(ToEntity(n)) == Key(ToEntity(m)) <==> n.title == m.title
  {
  }

  /** `newsList.map { it.toNews() }`: element-wise, same length, same order. */
  function ToNewsList(es: seq<NewsEntity>): (ns: seq<News>)
    ensures |ns| == |es|
    ensures forall i :: 0 <= i < |es| ==> ns[i] == ToNews(es[i])
  {
    if es == [] then [] else [ToNews(es[0])] + ToNewsList(es[1..])
  }
}
