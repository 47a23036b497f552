/** The domain record of one news article (domain/model/News.kt). */
module Domain {

  /** An article; `title` doubles as its identity in the favourites table. */
  datatype News = News(
    title: string,
    description: string,
    content: string,
    imageUrl: string,
    source: string,
    publishedAt: string,
    author: string,
    url: string
  )
}
