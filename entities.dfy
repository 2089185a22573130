/** The rows of the local database: folders (keyed by name), sources (keyed by
    url, optionally filed under a folder) and articles (keyed by link, owned by
    a source). */
module Entities {
  import opened Wrappers

  /** An `articles` row. A Kotlin `Long` date is an unbounded integer here. */
  datatype Article = Article(
    link: string,
    title: string,
    description: Option<string>,
    pubDate: int,
    sourceUrl: string,
    imageUrl: Option<string>,
    isRead: bool,
    isSaved: bool)

  /** A `sources` row; `folderName` refers to a `folders` row. */
  datatype Source = Source(url: string, title: string, iconUrl: Option<string>, folderName: Option<string>)

  /** An `ArticleEntity` built without the flag arguments: it starts unread and
      unsaved. */
  function NewArticle(link: string, title: string, description: Option<string>, pubDate: int,
                      sourceUrl: string, imageUrl: Option<string>): (a: Article)
    ensures !a.isRead && !a.isSaved
    ensures a.link == link && a.sourceUrl == sourceUrl && a.title == title
  {
    Article(link, title, description, pubDate, sourceUrl, imageUrl, false, false)
  }

  /** A `SourceEntity` built without a folder argument is unfiled. */
  function NewSource(url: string, title: string, iconUrl: Option<string>): (s: Source)
    ensures s.folderName.None?
    ensures s.url == url && s.title == title && s.iconUrl == iconUrl
  {
    Source(url, title, iconUrl, None)
  }
}
