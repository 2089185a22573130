# Riffle feed reader — a Dafny model of its core

Riffle is an Android RSS reader. Its source holds three generations of the app side by side: `com.example.inoreaderlite`, then `com.example.riffle`, then the current `com.boaxente.riffle`. This project models the logic under the Compose screens, Room, Firebase and the HTTP clients, and proves properties of that model:

- **The local database** (`entities.dfy`, `feed_store.dfy`, `feed_dao.dfy`, `row_mapping.dfy`). It has three tables: folders keyed by name, sources keyed by url, articles keyed by link. The model keeps their foreign keys:
  - a source's folder must exist, with `ON DELETE CASCADE` and `ON UPDATE CASCADE`;
  - an article's source must exist, with `ON DELETE CASCADE`.

  `FeedStore` gives each statement of the DAO as a function on the tables. These are `INSERT OR IGNORE`, `INSERT OR REPLACE`, the flag updates, the ordered queries and the counts. `Dao.FeedDao` is a class whose fields are the tables; each of its methods is proved against those functions, and a failing statement leaves the tables unchanged. `RowMapping` binds entities to SQL parameters and reads cursor rows back.
- **Feed and subscription-list parsing** (`xml.dfy`, `rss_parser.dfy`, `opml.dfy`).
  - A document is an element tree together with the pull-parser events it serialises to.
  - The RSS reader (RSS 2.0 items, enclosures and Media RSS `media:content`) walks the events with loops that are proved equal to functions over the tree. So do `skip` and the OPML 2.0 reader and writer.
  - An OPML export read back gives every source with its folder.
- **Repository, settings, backup and cloud sync** (`repository.dfy`, `preferences.dfy`, `backup.dfy`, `firestore_sync.dfy`, `numbers.dfy`). These cover:
  - the title and icon rules for adding and refreshing sources;
  - OPML import;
  - the settings manager and its dismissal records;
  - backup export and restore;
  - the reconciliation of the cloud snapshots (feeds, read marks, saved articles, settings) with the local database;
  - the read-mark upload queue.

  Kotlin's 64-bit `Long` arithmetic is written out where it matters.
- **The main view models** of all three generations (`selection.dfy`, `lists.dfy`, `discovery.dfy`, `main_view_model.dfy`, `riffle_view_model.dfy`, `inoreader_view_model.dfy`). They model:
  - the selector strings;
  - the filtered and capped article list;
  - selection repair after deletes and renames;
  - feed-health bands;
  - the AI summary's fallback between models;
  - the search for new feeds.
- **Comment threads** (`comments.dfy`, `comment_store.dfy`, `comments_view_model.dfy`). They model:
  - the stored form of a comment;
  - the like and dislike toggles, which keep the counters equal to the voter lists;
  - the listing orders and the reply tree;
  - the deletion of a subtree, with its reply-count and per-user accounting;
  - the screen's grafting of loaded replies.
- **Screen logic** (`home_screen.dfy`, `article_reader.dfy`). This covers:
  - the drawer and header unread badges;
  - mark-as-read on scroll and the load-more trigger;
  - the Markdown subset used for AI summaries;
  - the reader's floating button.

The network, the clock, the Firebase account and the AI and search services are parameters: an operation receives their answers as values. Writes that only mirror a local change to the cloud are returned as values and not performed.

## Model

| member | source | states |
|---|---|---|
| Entities.NewArticle | app/src/main/java/com/example/inoreaderlite/data/local/entity/ArticleEntity.kt:28-29 | A freshly built article row is unread and unsaved and carries the given link, title and source url. |
| Entities.NewSource | app/src/main/java/com/boaxente/riffle/data/local/entity/SourceEntity.kt:26 | A source built without a folder has no folder name. |
| FeedStore.InsertArticleRowsKeeps | app/src/main/java/com/boaxente/riffle/data/local/dao/FeedDao.kt:53-54 | After `INSERT OR IGNORE` succeeds, every stored article is unchanged (so its read and saved flags survive), every row of the batch is stored under its link, and every new row comes from the batch. |
| FeedStore.InsertArticleRowsFails | app/build/kspCaches/debug/backups/java/byRounds/1/com/example/inoreaderlite/data/local/dao/FeedDao_Impl.java:113-130 | The one-transaction batch aborts exactly when some row that is neither stored nor repeated from an earlier row names a source that does not exist (the article's foreign key); otherwise all rows go in. |
| FeedStore.InsertArticleRowsIdempotent | app/src/main/java/com/boaxente/riffle/data/local/dao/FeedDao.kt:53-54 | Inserting the same batch a second time leaves the article table as the first insert left it. |
| FeedStore.AllStoredIsNoop | app/src/main/java/com/boaxente/riffle/data/local/dao/FeedDao.kt:53-54 | A batch whose links are all stored changes nothing. |
| FeedStore.MarkReadEffect | app/src/main/java/com/boaxente/riffle/data/local/dao/FeedDao.kt:62-73 | The by-source, by-folder and all-articles updates set isRead on exactly the rows in scope; folders, sources, keys and every other field are unchanged. |
| FeedStore.MarkArticleReadEffect | app/src/main/java/com/boaxente/riffle/data/local/dao/FeedDao.kt:59-60 | Marking one link read sets isRead on that row only; nothing else changes. |
| FeedStore.SetSavedEffect | app/src/main/java/com/boaxente/riffle/data/local/dao/FeedDao.kt:75-76 | Setting the saved flag of an unknown link changes nothing; otherwise only that row's isSaved changes. |
| FeedStore.CleanupHugeEffect | app/src/main/java/com/boaxente/riffle/data/local/dao/FeedDao.kt:122-123 | Afterwards every description has at most 100000 characters; a longer one keeps its first 100000 and every other row is untouched. |
| FeedStore.UpsertSourceEffect | app/src/main/java/com/boaxente/riffle/data/local/dao/FeedDao.kt:91-92 | The corrected source insert succeeds exactly when the row's folder exists; it stores the given row under its url, keeps the other sources, and keeps every article and folder. |
| FeedStore.InsertSourceReplaceDropsArticles | app/build/kspCaches/debug/backups/java/byRounds/1/com/example/inoreaderlite/data/local/dao/FeedDao_Impl.java:80 | `INSERT OR REPLACE` as SQLite runs it stores the row but, by deleting the old row first, cascades away every article of that source. |
| FeedStore.InsertSourceReplaceCounterexample | app/src/main/java/com/boaxente/riffle/data/local/dao/FeedDao.kt:91-92 | A concrete consistent store in which re-inserting a source into a folder drops its read and saved article under `REPLACE` but not under the corrected upsert. |
| FeedStore.ReplaceIsUpsertThenCascade | app/src/main/java/com/boaxente/riffle/data/local/dao/FeedDao.kt:91-92 | The REPLACE insert fails exactly when the upsert fails. Otherwise it leaves the upsert's folders and sources but drops every article of the inserted url. For a url with no stored article the two are the same. |
| FeedStore.InsertFolderIdempotent | app/src/main/java/com/boaxente/riffle/data/local/dao/FeedDao.kt:113-114 | Inserting an existing folder is a no-op, and afterwards the folder exists. |
| FeedStore.DeleteSourceEffect | app/build/kspCaches/debug/backups/java/byRounds/1/com/example/inoreaderlite/data/local/dao/FeedDao_Impl.java:174-197 | Deleting a source removes only the row with that url, and exactly the articles of that source (ON DELETE CASCADE); the remaining rows are unchanged. |
| FeedStore.DeleteFolderEffect | app/src/main/java/com/boaxente/riffle/data/local/entity/SourceEntity.kt:15 | Deleting a folder deletes every source filed under it and every article of those sources; nothing else changes. |
| FeedStore.RenameFolderEffect | app/src/main/java/com/boaxente/riffle/data/local/entity/SourceEntity.kt:16 | Renaming onto an existing name fails; otherwise every source of the old folder is rewritten to the new name, every other source keeps its folder, and the articles are untouched. |
| FeedStore.InsertArticlesConsistent | app/src/main/java/com/example/inoreaderlite/data/local/entity/ArticleEntity.kt:9-15 | A successful article insert keeps every key matching its row and every article's source present. |
| FeedStore.InsertArticleRowsSources | app/src/main/java/com/example/inoreaderlite/data/local/entity/ArticleEntity.kt:9-15 | Every row the insert leaves is keyed by its link and names an existing source. |
| FeedStore.ArticleUpdatesConsistent | app/src/main/java/com/example/inoreaderlite/data/local/entity/ArticleEntity.kt:9-15 | Clearing, marking read, saving and trimming descriptions keep the store consistent. |
| FeedStore.DeleteSourceConsistent | app/src/main/java/com/example/inoreaderlite/data/local/entity/ArticleEntity.kt:15 | Deleting a source with its articles keeps the store consistent. |
| FeedStore.InsertSourceConsistent | app/src/main/java/com/boaxente/riffle/data/local/entity/SourceEntity.kt:11-14 | Both source inserts, when they succeed, keep every source's folder present and every article's source present. |
| FeedStore.SourceUpdatesConsistent | app/src/main/java/com/boaxente/riffle/data/local/entity/SourceEntity.kt:11-14 | Moving, renaming and re-iconing a source keep the store consistent. |
| FeedStore.FolderUpdatesConsistent | app/src/main/java/com/boaxente/riffle/data/local/entity/SourceEntity.kt:11-16 | Inserting, deleting and renaming folders keep the store consistent. |
| FeedStore.MarkAllLeavesNoUnread | app/src/main/java/com/boaxente/riffle/data/local/dao/FeedDao.kt:47-48 | After `markAllArticlesAsRead` no source has an unread article, so the unread-count list is empty. |
| FeedStore.MarkSourceUnread | app/src/main/java/com/boaxente/riffle/data/local/dao/FeedDao.kt:62-63 | Marking one source read empties that source's unread set and leaves every other source's set as it was. |
| FeedStore.DistinctLinksCount | app/src/main/java/com/boaxente/riffle/data/local/dao/FeedDao.kt:50-51 | A list with distinct links holding exactly the rows of a set of links has as many elements as the set. |
| FeedStore.InsertByDate | app/src/main/java/com/boaxente/riffle/data/local/dao/FeedDao.kt:16-17 | Inserting a row into a list ordered by pubDate descending keeps it ordered and adds exactly that row (as a multiset); the head is the newer of the two candidates. |
| FeedStore.InsertByDateMembers | app/src/main/java/com/boaxente/riffle/data/local/dao/FeedDao.kt:16-17 | The inserted list holds exactly the old rows and the new one. |
| FeedStore.InsertByDateDistinct | app/src/main/java/com/boaxente/riffle/data/local/dao/FeedDao.kt:16-17 | Inserting a row whose link is new keeps the links distinct. |
| FeedStore.SavedCountIsListLength | app/src/main/java/com/boaxente/riffle/data/local/dao/FeedDao.kt:30-31 | `getSavedCount` equals the length of `getSavedArticles`. |
| Dao.FeedDao.Commit | app/build/kspCaches/debug/backups/java/byRounds/1/com/example/inoreaderlite/data/local/dao/FeedDao_Impl.java:120-127 | A transaction either commits its whole new state or leaves the store exactly as it was and reports the error. |
| Dao.FeedDao.InsertArticles | app/build/kspCaches/debug/backups/java/byRounds/1/com/example/inoreaderlite/data/local/dao/FeedDao_Impl.java:113-130 | `insertArticles` changes the store exactly as `INSERT OR IGNORE` of the batch in one transaction does, or reports the failure with the store unchanged; the store stays consistent. |
| Dao.FeedDao.ClearAllArticles | app/build/kspCaches/debug/backups/java/byRounds/1/com/example/inoreaderlite/data/local/dao/FeedDao_Impl.java:151-172 | `clearAllArticles` empties the article table and touches no source or folder. |
| Dao.FeedDao.MarkArticleAsRead | app/src/main/java/com/boaxente/riffle/data/local/dao/FeedDao.kt:59-60 | The new state is the one-row read update of the old. |
| Dao.FeedDao.MarkArticlesAsRead | app/src/main/java/com/boaxente/riffle/data/local/dao/FeedDao.kt:59-60 | Marking a set of links read is the read update of exactly those rows. |
| Dao.FeedDao.MarkScopeAsRead | app/src/main/java/com/boaxente/riffle/data/local/dao/FeedDao.kt:62-73 | The by-source, by-folder and all-articles updates, each as the scoped read update of the old state. |
| Dao.FeedDao.UpdateArticleSavedStatus | app/src/main/java/com/boaxente/riffle/data/local/dao/FeedDao.kt:75-76 | The new state is the saved-flag update of the old. |
| Dao.FeedDao.CleanupHugeArticles | app/src/main/java/com/boaxente/riffle/data/local/dao/FeedDao.kt:122-123 | The new state is the description-trimming update of the old. |
| Dao.FeedDao.InsertSource | app/src/main/java/com/boaxente/riffle/data/local/dao/FeedDao.kt:91-92 | `insertSource` as written: the `REPLACE` statement, or an error with the store unchanged. |
| Dao.FeedDao.UpsertSource | app/src/main/java/com/boaxente/riffle/data/local/dao/FeedDao.kt:91-92 | The corrected insert-or-update of a source row, or an error with the store unchanged. |
| Dao.FeedDao.DeleteSource | app/src/main/java/com/boaxente/riffle/data/local/dao/FeedDao.kt:97-98 | The new state is the source delete with its article cascade. |
| Dao.FeedDao.UpdateSourceFolder | app/src/main/java/com/boaxente/riffle/data/local/dao/FeedDao.kt:100-101 | Moving a source to a folder that does not exist fails with the store unchanged; otherwise only that source's folder changes. |
| Dao.FeedDao.UpdateSourceTitle | app/src/main/java/com/boaxente/riffle/data/local/dao/FeedDao.kt:103-104 | The new state is the title update of the old. |
| Dao.FeedDao.UpdateSourceIcon | app/src/main/java/com/boaxente/riffle/data/local/dao/FeedDao.kt:106-107 | The new state is the icon update of the old. |
| Dao.FeedDao.InsertFolder | app/src/main/java/com/boaxente/riffle/data/local/dao/FeedDao.kt:113-114 | The new state is the insert-or-ignore of the folder. |
| Dao.FeedDao.DeleteFolder | app/src/main/java/com/boaxente/riffle/data/local/dao/FeedDao.kt:116-117 | The new state is the folder delete with its source and article cascades. |
| Dao.FeedDao.RenameFolder | app/src/main/java/com/boaxente/riffle/data/local/dao/FeedDao.kt:119-120 | The rename with its ON UPDATE CASCADE, or an error with the store unchanged. |
| Dao.FeedDao.SelectArticles | app/src/main/java/com/boaxente/riffle/data/local/dao/FeedDao.kt:16-31 | The all, by-source, by-folder and saved queries return exactly the stored rows matching their filter, each once, ordered by pubDate descending. |
| Dao.FeedDao.GetSavedArticlesList | app/src/main/java/com/boaxente/riffle/data/local/dao/FeedDao.kt:88-89 | The saved rows, each once. |
| Dao.FeedDao.GetArticleByLink | app/src/main/java/com/boaxente/riffle/data/local/dao/FeedDao.kt:41-42 | The row stored under the link, or none. |
| Dao.FeedDao.GetArticleWithSource | app/src/main/java/com/boaxente/riffle/data/local/dao/FeedDao.kt:33-39 | The row stored under the link with its source's title, the title being null when the source row is missing (LEFT JOIN). |
| Dao.FeedDao.GetSourceByUrl | app/src/main/java/com/boaxente/riffle/data/local/dao/FeedDao.kt:94-95 | The source row stored under the url, or none. |
| Dao.FeedDao.GetReadArticleLinks | app/src/main/java/com/boaxente/riffle/data/local/dao/FeedDao.kt:44-45 | Exactly the links of the read rows, each once. |
| Dao.FeedDao.GetAllSources | app/src/main/java/com/boaxente/riffle/data/local/dao/FeedDao.kt:82-83 | Every source row, each once. |
| Dao.FeedDao.GetAllFolders | app/src/main/java/com/boaxente/riffle/data/local/dao/FeedDao.kt:85-86 | Every folder name, each once. |
| Dao.FeedDao.GetUnreadCountsBySource | app/src/main/java/com/boaxente/riffle/data/local/dao/FeedDao.kt:47-48 | A source url is listed exactly when it has an unread article, with the number of its unread articles. |
| Dao.FeedDao.GetSavedCount | app/src/main/java/com/boaxente/riffle/data/local/dao/FeedDao.kt:50-51 | The number of saved rows. |
| RowMapping.BindArticle | app/build/kspCaches/debug/backups/java/byRounds/1/com/example/inoreaderlite/data/local/dao/FeedDao_Impl.java:53-74 | Binding an article fills the eight parameters in column order; a null description or image binds NULL, and the flags bind as 1 or 0. |
| RowMapping.ReadArticle | app/build/kspCaches/debug/backups/java/byRounds/1/com/example/inoreaderlite/data/local/dao/FeedDao_Impl.java:218-249 | Reading a cursor row: isRead and isSaved are the stored integer being non-zero, and NULL description or image read as null. |
| RowMapping.ArticleRoundTrip | app/build/kspCaches/debug/backups/java/byRounds/1/com/example/inoreaderlite/data/local/dao/FeedDao_Impl.java:53-74 | Reading back a bound article gives the article again. |
| RowMapping.ArticleRowRoundTrip | app/build/kspCaches/debug/backups/java/byRounds/1/com/example/inoreaderlite/data/local/dao/FeedDao_Impl.java:240-247 | Binding what was read gives the row back exactly when both flag columns hold 0 or 1 (any other non-zero integer reads as true). |
| RowMapping.BindSource | app/build/kspCaches/debug/backups/java/byRounds/1/com/example/inoreaderlite/data/local/dao/FeedDao_Impl.java:83-93 | Binding a source fills url, title and iconUrl; a null icon binds NULL. |
| RowMapping.ReadSource | app/build/kspCaches/debug/backups/java/byRounds/1/com/example/inoreaderlite/data/local/dao/FeedDao_Impl.java:345-358 | A cursor row read back as a source has no folder name (the generated statement has no folder column), and a NULL icon reads as null. |
| RowMapping.SourceRoundTrip | app/build/kspCaches/debug/backups/java/byRounds/1/com/example/inoreaderlite/data/local/dao/FeedDao_Impl.java:80 | A bound source reads back unchanged exactly when it has no folder: the older generated insert drops the folder column. |
| RowMapping.ReadArticles | app/build/kspCaches/debug/backups/java/byRounds/1/com/example/inoreaderlite/data/local/dao/FeedDao_Impl.java:217-251 | The cursor loop yields exactly one article per row, in row order. |
| RowMapping.ReadSources | app/build/kspCaches/debug/backups/java/byRounds/1/com/example/inoreaderlite/data/local/dao/FeedDao_Impl.java:344-360 | The cursor loop yields exactly one source per row, in row order. |
| RowMapping.ReadBoundArticles | app/build/kspCaches/debug/backups/java/byRounds/1/com/example/inoreaderlite/data/local/dao/FeedDao_Impl.java:217-251 | Reading the rows that bound a list of articles gives that list back. |
| Xml.AttributeValue | app/src/main/java/com/boaxente/riffle/data/remote/RssParser.kt:119 | `getAttributeValue` gives the value of an attribute with that name, and null exactly when the element has none. |
| Xml.NodeBalance | app/src/main/java/com/boaxente/riffle/data/remote/RssParser.kt:186-192 | In the events of one element, start tags and end tags balance, and every proper prefix after the start tag is strictly open, so the depth counter of `skip` first reaches zero at the element's own end tag. |
| Xml.AllBalance | app/src/main/java/com/boaxente/riffle/data/remote/RssParser.kt:186-192 | The events of a list of sibling nodes balance, and no prefix closes more than it opened. |
| Xml.Skip | app/src/main/java/com/boaxente/riffle/data/remote/RssParser.kt:181-193 | `skip` on a start tag consumes exactly the balanced subtree and stops on its end tag; on anything else it fails. |
| Strings.Trim | app/src/main/java/com/boaxente/riffle/data/remote/RssParser.kt:196 | Kotlin `trim()`: the result is a slice of the input that neither starts nor ends with whitespace. |
| Strings.TrimIdempotent | app/src/main/java/com/boaxente/riffle/data/remote/RssParser.kt:196 | Trimming twice is trimming once. |
| Strings.TrimEmptyIffBlank | app/src/main/java/com/boaxente/riffle/data/repository/FeedRepositoryImpl.kt:41 | A string trims to empty exactly when it is blank. |
| Strings.JoinSplit | app/src/main/java/com/boaxente/riffle/ui/screen/ArticleReaderScreen.kt:478-479 | Joining the parts of a split with the same delimiter gives the input back. |
| RssParser.StripTags | app/src/main/java/com/boaxente/riffle/data/remote/RssParser.kt:196 | Removing every `<...>` span leaves text with no complete tag in it, made only of the input's characters. |
| RssParser.StripTagsNoTag | app/src/main/java/com/boaxente/riffle/data/remote/RssParser.kt:196 | Text with no tag in it is left unchanged. |
| RssParser.CleanHtmlTagsResult | app/src/main/java/com/boaxente/riffle/data/remote/RssParser.kt:195-197 | A cleaned title has no tag and neither starts nor ends with whitespace. |
| RssParser.CleanHtmlTagsIdempotent | app/src/main/java/com/boaxente/riffle/data/remote/RssParser.kt:195-197 | Cleaning a cleaned title changes nothing. |
| RssParser.Truncate | app/src/main/java/com/boaxente/riffle/data/remote/RssParser.kt:155-157 | Text is cut to its first 100000 characters; shorter text is kept whole. |
| RssParser.ChannelArticles | app/src/main/java/com/boaxente/riffle/data/remote/RssParser.kt:75-80 | A channel yields one article per `item` child, in document order, appended to what it had; no other element (an Atom `entry` included) adds one. |
| RssParser.ItemArticlesOwned | app/src/main/java/com/boaxente/riffle/data/remote/RssParser.kt:138-145 | Every article carries the feed's url and starts unread and unsaved. |
| RssParser.EntryFoldKeeps | app/src/main/java/com/boaxente/riffle/data/remote/RssParser.kt:113-117 | Reading an item's children changes its title, link or description only when a child of that name is present. |
| RssParser.EntryDefaults | app/src/main/java/com/boaxente/riffle/data/remote/RssParser.kt:133-145 | A missing title becomes "No Title", a missing link "", a missing description ""; the article carries the feed's url and starts unread and unsaved. |
| RssParser.EntryImageIsLast | app/src/main/java/com/boaxente/riffle/data/remote/RssParser.kt:118-128 | The item image is the url of the last `media:content`, or of an `enclosure` whose type starts with "image/", whichever comes last. |
| RssParser.FeedRoots | app/src/main/java/com/boaxente/riffle/data/remote/RssParser.kt:41-62 | A `feed` root is read as a channel with no site url; a root other than `rss` or `feed` gives an empty feed. |
| RssParser.ReadText | app/src/main/java/com/boaxente/riffle/data/remote/RssParser.kt:148-162 | `readText` returns the element's text cut to 100000 characters, "" when the element has no text child, and fails when the element holds anything else; it ends on the element's end tag. |
| RssParser.ReadEntryChild | app/src/main/java/com/boaxente/riffle/data/remote/RssParser.kt:113-130 | One child of an item: title, link, description and pubDate are read as text (the title cleaned), `media:content` and an image `enclosure` set the image, everything else is skipped. |
| RssParser.ReadEntry | app/src/main/java/com/boaxente/riffle/data/remote/RssParser.kt:100-146 | `readEntry` over the event stream builds the same article as the tree definition and ends on the item's end tag. |
| RssParser.ReadImage | app/src/main/java/com/boaxente/riffle/data/remote/RssParser.kt:85-98 | `readImage` returns the text of the last `url` child and skips the others. |
| RssParser.ReadChannel | app/src/main/java/com/boaxente/riffle/data/remote/RssParser.kt:65-83 | `readChannel` collects items, takes `image` and `link`, skips the rest, and ends on the channel's end tag. |
| RssParser.ReadFeed | app/src/main/java/com/boaxente/riffle/data/remote/RssParser.kt:34-63 | `readFeed` under `rss` reads each `channel` child and skips others; under `feed` reads the root as a channel; otherwise returns an empty feed. |
| Opml.FolderChildrenDirect | app/src/main/java/com/boaxente/riffle/utils/OpmlUtility.kt:81-94 | A folder keeps exactly the subscriptions among its direct `outline` children, in order: each comes from such a child, and every such child with an `xmlUrl` is kept; nested folders are dropped. |
| Opml.ReadOutline | app/src/main/java/com/boaxente/riffle/utils/OpmlUtility.kt:60-97 | `readOutline` over the event stream gives the tree reading of the outline (a subscription when `xmlUrl` is present, title from `title`, else `text`, else ""; otherwise a folder) and ends on the outline's end tag. |
| Opml.ReadBody | app/src/main/java/com/boaxente/riffle/utils/OpmlUtility.kt:46-58 | `readBody` gives one item per `outline` child of `body`, in order, skipping every other element. |
| Opml.ReadOpml | app/src/main/java/com/boaxente/riffle/utils/OpmlUtility.kt:21-44 | `parse` gives the items of every `body` under `opml`, in order, and fails when the root is not `opml`. |
| Opml.FolderKeys | app/src/main/java/com/boaxente/riffle/utils/OpmlUtility.kt:132 | The folder keys of `groupBy` are distinct and include the folder of every source. |
| Opml.FolderKeysFromSources | app/src/main/java/com/boaxente/riffle/utils/OpmlUtility.kt:132 | Every folder key is the folder of some source. |
| Opml.GroupByIsGrouped | app/src/main/java/com/boaxente/riffle/utils/OpmlUtility.kt:132 | `groupBy { it.folderName }` lists each folder once, in order of first occurrence, holding exactly the sources of that folder in list order. |
| Opml.OrphansOf | app/src/main/java/com/boaxente/riffle/utils/OpmlUtility.kt:150 | `grouped[null]` is the list of the sources without a folder, in list order. |
| Opml.WriteSourceOutline | app/src/main/java/com/boaxente/riffle/utils/OpmlUtility.kt:164-172 | A subscription is written as an empty `outline` with type "rss", text and title set to the source title, and `xmlUrl` set to its url. |
| Opml.WriteSources | app/src/main/java/com/boaxente/riffle/utils/OpmlUtility.kt:141-144 | Each source of a folder is written after an indentation text, in list order. |
| Opml.WriteFolder | app/src/main/java/com/boaxente/riffle/utils/OpmlUtility.kt:136-146 | A folder is written as an `outline` with text and title set to its name, holding its sources. |
| Opml.WriteFolders | app/src/main/java/com/boaxente/riffle/utils/OpmlUtility.kt:135-147 | Every non-null folder group is written in group order; the null group writes nothing here. |
| Opml.Generate | app/src/main/java/com/boaxente/riffle/utils/OpmlUtility.kt:110-162 | `generate` writes the `opml` document: the head titled "Riffle Export", the folders in order of first use, then the unfiled sources. |
| Opml.ExportEvents | app/src/main/java/com/boaxente/riffle/utils/OpmlUtility.kt:110-162 | The written document is the fixed prefix, the folder outlines, the unfiled outlines and the fixed suffix. |
| Opml.SourceOutlineRead | app/src/main/java/com/boaxente/riffle/utils/OpmlUtility.kt:62-70 | A written subscription reads back as that subscription with no `htmlUrl`. |
| Opml.FolderOutlineRead | app/src/main/java/com/boaxente/riffle/utils/OpmlUtility.kt:81-95 | A written folder reads back as a folder holding its sources. |
| Opml.ExportImport | app/src/main/java/com/boaxente/riffle/utils/OpmlUtility.kt:22-172 | Parsing what `generate` writes gives one folder per folder in use, in order of first use, with its sources, then every unfiled source; only `htmlUrl` is lost. |
| Numbers.WrapLong | app/src/main/java/com/boaxente/riffle/data/local/PreferencesManager.kt:86 | `now - timestamp` on `Long` wraps around in two's complement; a difference already in range is kept. |
| Numbers.LongToInt | app/src/main/java/com/boaxente/riffle/data/remote/FirestoreHelper.kt:369 | `Long.toInt()` keeps the low 32 bits as a signed `Int`. |
| Numbers.LongToIntIsOne | app/src/main/java/com/boaxente/riffle/data/remote/FirestoreHelper.kt:369 | `theme.toInt() == 1` holds exactly for the stored values congruent to 1 modulo 2^32. |
| Numbers.DigitsRoundTrip | app/src/main/java/com/boaxente/riffle/data/local/PreferencesManager.kt:85 | Reading back the decimal digits written for a number gives that number. |
| Numbers.LongRoundTrip | app/src/main/java/com/boaxente/riffle/data/local/PreferencesManager.kt:85 | `toLongOrNull` reads back every `Long` that `toString` wrote. |
| Numbers.LongToStringChars | app/src/main/java/com/boaxente/riffle/data/local/PreferencesManager.kt:83-85 | A written `Long` holds only digits and a leading '-', so splitting an entry on the bar separator cannot cut through the timestamp. |
| Repository.SourceTitle | app/src/main/java/com/boaxente/riffle/data/repository/FeedRepositoryImpl.kt:41 | The title is the given one unless it is null or blank, else "Feed from <url>"; either way it is not blank. |
| Repository.AddIcon | app/src/main/java/com/boaxente/riffle/data/repository/FeedRepositoryImpl.kt:48-55 | The icon is the favicon-service image when the probe accepts it, else the caller's icon, else the feed image. |
| Repository.SyncIcon | app/src/main/java/com/boaxente/riffle/data/repository/FeedRepositoryImpl.kt:137-154 | A refresh updates the icon exactly when the candidate (accepted favicon, else feed image) is non-null and differs from the current icon. |
| Repository.SyncIconSettles | app/src/main/java/com/boaxente/riffle/data/repository/FeedRepositoryImpl.kt:150 | After one update a second refresh with the same outcome changes nothing. |
| Repository.AddedSource | app/src/main/java/com/boaxente/riffle/data/repository/FeedRepositoryImpl.kt:41-57 | The stored source has the requested url, no folder and a non-blank title. |
| Repository.AddSource | app/src/main/java/com/boaxente/riffle/data/repository/FeedRepositoryImpl.kt:34-72 | A failed download stores nothing and sends nothing; otherwise the source is upserted, then its articles inserted, then the helper's cached read and saved links are applied (none without a helper); the cloud copy is told only when the inserts succeed, and a failing article insert leaves the source row committed. |
| Repository.WithStatesEffect | app/src/main/java/com/boaxente/riffle/data/remote/FirestoreHelper.kt:384-398 | Applying the cached states keeps folders, sources and the set of article links, turns on exactly the flags of cached links and nothing else, is idempotent, is the identity for empty caches, and keeps the tables consistent. |
| Repository.FlaggedTwice | app/src/main/java/com/boaxente/riffle/data/remote/FirestoreHelper.kt:384-398 | Applying the cached states to an article twice is applying them once. |
| Repository.AddSourceKeepsStored | app/src/main/java/com/boaxente/riffle/data/repository/FeedRepositoryImpl.kt:57-62 | With the corrected upsert, re-adding a stored feed keeps every stored article; its only change is the cached read and saved links turning flags on, so no flag is ever cleared. |
| Repository.AddSourceAsWrittenLoss | app/src/main/java/com/boaxente/riffle/data/repository/FeedRepositoryImpl.kt:57-62 | As written, adding a url that is already stored deletes its articles first. A stored article of that url is left only as the row the feed brings back, with the feed's flags plus the cached ones. |
| Repository.AddSourceAsWrittenCounterexample | app/src/main/java/com/boaxente/riffle/data/repository/FeedRepositoryImpl.kt:57-62 | A concrete store in which, when the saved cache does not hold the link, re-adding a feed turns its saved article unsaved as written, while the upsert keeps it saved. |
| Repository.AddSourceStoresAll | app/src/main/java/com/boaxente/riffle/data/repository/FeedRepositoryImpl.kt:57-62 | From consistent tables, adding a source whose articles all belong to it succeeds, stores the source as built and stores every article link. |
| Repository.SyncOneKeeps | app/src/main/java/com/boaxente/riffle/data/repository/FeedRepositoryImpl.kt:125-160 | Refreshing one source keeps the tables consistent, keeps folders and the set of sources, and never removes a stored article; a stored article either stays as it was or only has isRead/isSaved turned on for a cached link, and with empty caches nothing stored changes. |
| Repository.SyncAllKeeps | app/src/main/java/com/boaxente/riffle/data/repository/FeedRepositoryImpl.kt:74-83 | Refreshing all sources keeps the tables consistent, keeps folders and the set of sources, and never removes a stored article; a stored article either stays as it was or only has isRead/isSaved turned on for a cached link, and with empty caches nothing stored changes. |
| Repository.SyncOneStores | app/src/main/java/com/boaxente/riffle/data/repository/FeedRepositoryImpl.kt:127-131 | A successful refresh of a stored source stores every link of its feed. |
| Repository.SyncAllStores | app/src/main/java/com/boaxente/riffle/data/repository/FeedRepositoryImpl.kt:74-83 | After refreshing all sources, every link of every successfully fetched stored source is stored. |
| Repository.SyncSource | app/src/main/java/com/boaxente/riffle/data/repository/FeedRepositoryImpl.kt:125-160 | `syncSource` inserts the feed's articles, applies the helper's cached read and saved links through `applyRemoteStates`, updates the icon, and sends an icon update exactly when the icon changed. |
| Repository.SyncFeeds | app/src/main/java/com/boaxente/riffle/data/repository/FeedRepositoryImpl.kt:74-83 | `syncFeeds` refreshes exactly the stored sources, each with the same cached states applied. |
| Repository.ProcessSourceEffect | app/src/main/java/com/boaxente/riffle/data/repository/FeedRepositoryImpl.kt:187-214 | Importing a subscription inserts it when its url is new, moves an existing one to the given folder only when a folder is given, and changes no other source, folder or article. |
| Repository.ProcessSourceAsWrittenLoss | app/src/main/java/com/boaxente/riffle/data/repository/FeedRepositoryImpl.kt:194-209 | As written, moving a stored source to another existing folder deletes every article of it. The folder and source rows, and every other case, match the corrected import. |
| Repository.ProcessSourceConsistent | app/src/main/java/com/boaxente/riffle/data/repository/FeedRepositoryImpl.kt:187-214 | Importing a subscription keeps the tables consistent. |
| Repository.ImportChildrenEffect | app/src/main/java/com/boaxente/riffle/data/repository/FeedRepositoryImpl.kt:239-241 | After importing a folder's children every child is stored in that folder; other sources are unchanged. |
| Repository.ImportChildrenConsistent | app/src/main/java/com/boaxente/riffle/data/repository/FeedRepositoryImpl.kt:239-241 | Importing a folder's children keeps the tables consistent. |
| Repository.ImportItemsEffect | app/src/main/java/com/boaxente/riffle/data/repository/FeedRepositoryImpl.kt:216-247 | After `importOpml` every imported folder and every imported subscription exists, nothing is removed and the articles are untouched. |
| Repository.ProcessSource | app/src/main/java/com/boaxente/riffle/data/repository/FeedRepositoryImpl.kt:187-214 | `processSource` updates the tables as the import definition says. |
| Repository.ImportOpml | app/src/main/java/com/boaxente/riffle/data/repository/FeedRepositoryImpl.kt:181-258 | `importOpml` inserts each folder, then processes its children, then the top-level subscriptions, in order. |
| Repository.DeleteFolder | app/src/main/java/com/boaxente/riffle/data/repository/FeedRepositoryImpl.kt:108-118 | Deleting a folder deletes it locally and sends one cloud deletion per source that was in it, and no other. |
| Numbers.ToLongOrNull | app/src/main/java/com/boaxente/riffle/data/local/PreferencesManager.kt:85 | A string reads as a number only when it is an optional sign and decimal digits, and the number is then within the `Long` range. |
| Preferences.PreferencesManager.constructor | app/src/main/java/com/boaxente/riffle/data/local/PreferencesManager.kt:14-52 | Each preference starts from its stored value, or its default: dark mode off, mark-on-scroll off, empty api key, language "system", interval 1 hour, no dismissals. |
| Preferences.PreferencesManager.SetDarkMode | app/src/main/java/com/boaxente/riffle/data/local/PreferencesManager.kt:19-22 | Sets dark mode and nothing else. |
| Preferences.PreferencesManager.SetMarkAsReadOnScroll | app/src/main/java/com/boaxente/riffle/data/local/PreferencesManager.kt:29-32 | Sets mark-on-scroll and nothing else. |
| Preferences.PreferencesManager.SetGeminiApiKey | app/src/main/java/com/boaxente/riffle/data/local/PreferencesManager.kt:38-40 | Sets the api key and nothing else. |
| Preferences.PreferencesManager.SetLanguage | app/src/main/java/com/boaxente/riffle/data/local/PreferencesManager.kt:47-50 | Sets the language and nothing else. |
| Preferences.PreferencesManager.SetSyncInterval | app/src/main/java/com/boaxente/riffle/data/local/PreferencesManager.kt:57-60 | Sets the sync interval and nothing else. |
| Preferences.PreferencesManager.DismissFeedHealthNotification | app/src/main/java/com/boaxente/riffle/data/local/PreferencesManager.kt:67-77 | Replaces the url's dismissal entries by one entry: the url, the bar separator and the current time; other preferences are unchanged. |
| Preferences.PreferencesManager.ClearExpiredDismissals | app/src/main/java/com/boaxente/riffle/data/local/PreferencesManager.kt:79-94 | Keeps only the well-formed entries younger than the maximum age, and rewrites the set exactly when that removed something. |
| Preferences.DismissEffect | app/src/main/java/com/boaxente/riffle/data/local/PreferencesManager.kt:67-77 | After a dismissal the only entry for the url (the url followed by the separator) is the new one; every entry of another url is kept; nothing else is added. |
| Preferences.UnexpiredShrinks | app/src/main/java/com/boaxente/riffle/data/local/PreferencesManager.kt:82-91 | Clearing only removes entries, and the size changes exactly when the set changes, so the size comparison detects every removal. |
| Preferences.ClearIdempotent | app/src/main/java/com/boaxente/riffle/data/local/PreferencesManager.kt:79-94 | Clearing twice at the same time is clearing once. |
| Preferences.SplitAround | app/src/main/java/com/boaxente/riffle/data/local/PreferencesManager.kt:83 | Splitting a URL and a timestamp joined by the bar separator, when neither holds that separator, gives back exactly the two. |
| Preferences.DismissedEntryAge | app/src/main/java/com/boaxente/riffle/data/local/PreferencesManager.kt:73-87 | A dismissal written at time `now` for a url without the separator is kept later exactly when the wrapped age `later - now` is under the maximum. |
| Backup.PrefsMap | app/src/main/java/com/boaxente/riffle/data/local/BackupManager.kt:25-31 | An export writes exactly the five preference keys. |
| Backup.SettingsRoundTrip | app/src/main/java/com/boaxente/riffle/data/local/BackupManager.kt:25-31 | Importing the preferences an export wrote restores every exported setting and reports no error, whatever the settings were before. |
| Backup.RestoreSettingsMissing | app/src/main/java/com/boaxente/riffle/data/local/BackupManager.kt:52-60 | A key absent from the backup leaves its setting unchanged; a numeric interval is taken as its whole part, any other interval value becomes 1. |
| Backup.InsertFoldersEffect | app/src/main/java/com/boaxente/riffle/data/local/BackupManager.kt:64-66 | Restoring folders adds exactly the backed-up folder names and touches no source or article. |
| Backup.UpsertSourcesEffect | app/src/main/java/com/boaxente/riffle/data/local/BackupManager.kt:69-71 | Restoring sources whose folders exist stores each backed-up source as written, adds exactly their urls, and leaves other sources, folders and articles unchanged. |
| Backup.InsertIntoEmpty | app/src/main/java/com/boaxente/riffle/data/local/BackupManager.kt:75-77 | Inserting distinct articles of stored sources into an empty article table stores exactly those articles. |
| Backup.RestoreStructure | app/src/main/java/com/boaxente/riffle/data/local/BackupManager.kt:62-71 | Restoring the folders and sources of an export into empty tables gives back exactly the exported folders and sources. |
| Backup.RestoreSaved | app/src/main/java/com/boaxente/riffle/data/local/BackupManager.kt:73-77 | Restoring the saved articles of an export gives back exactly the saved articles. |
| Backup.RestoreRoundTrip | app/src/main/java/com/boaxente/riffle/data/local/BackupManager.kt:19-78 | Importing an export into empty tables gives back the folders, the sources and the saved articles, with no error. |
| Backup.UpsertSourcesKeeps | app/src/main/java/com/boaxente/riffle/data/local/BackupManager.kt:69-71 | Restoring sources never touches folders or articles. |
| Backup.ReplaceSourcesLoss | app/src/main/java/com/boaxente/riffle/data/local/BackupManager.kt:69-71 | As written, restoring sources stores the same folder and source rows as the upsert and stops at the same error. It never adds or changes an article and keeps the articles of other sources. When no insert fails, every stored article of each restored url is deleted. |
| Backup.RestoreKeepsStored | app/src/main/java/com/boaxente/riffle/data/local/BackupManager.kt:62-77 | Importing into non-empty tables removes no folder and never changes a stored article. |
| Backup.RestoreAsWrittenLoss | app/src/main/java/com/boaxente/riffle/data/local/BackupManager.kt:62-77 | As written, after a successful restore a stored article of a restored source is left only as one of the backup's saved rows. |
| Backup.ExportBackup | app/src/main/java/com/boaxente/riffle/data/local/BackupManager.kt:19-44 | An export holds the current preferences, exactly the folders, exactly the sources (each once) and exactly the saved articles (each once), stamped with the given time. |
| Backup.ImportBackup | app/src/main/java/com/boaxente/riffle/data/local/BackupManager.kt:46-79 | An import restores the preferences in order; a wrongly typed value throws before the tables are touched; otherwise folders, sources and saved articles are restored in that order, and an error of the store is reported. |
| Backup.RestorePreferences | app/src/main/java/com/boaxente/riffle/data/local/BackupManager.kt:52-60 | Applies the backed-up preferences in the source's order and stops at the first wrongly typed value, keeping what was already applied. |
| Backup.RestoreScrollOn | app/src/main/java/com/boaxente/riffle/data/local/BackupManager.kt:53-60 | Applies the preferences from mark-on-scroll onward. |
| Backup.RestoreApiKeyOn | app/src/main/java/com/boaxente/riffle/data/local/BackupManager.kt:54-60 | Applies the preferences from the api key onward. |
| Backup.RestoreLanguageOn | app/src/main/java/com/boaxente/riffle/data/local/BackupManager.kt:55-60 | Applies the language and the interval. |
| FirestoreSync.Chunked | app/src/main/java/com/boaxente/riffle/data/remote/FirestoreHelper.kt:212 | Kotlin `chunked(n)`: every chunk is non-empty and holds at most n items. |
| FirestoreSync.ChunkedFlatten | app/src/main/java/com/boaxente/riffle/data/remote/FirestoreHelper.kt:212-214 | The chunks, put back together, are the list itself: chunking loses and reorders nothing. |
| FirestoreSync.DeleteSourcesStep | app/src/main/java/com/boaxente/riffle/data/remote/FirestoreHelper.kt:139-142 | Deleting the missing sources one at a time is deleting the whole set. |
| FirestoreSync.ApplyFeedDocEffect | app/src/main/java/com/boaxente/riffle/data/remote/FirestoreHelper.kt:105-136 | One remote feed document: a non-blank folder is created; a new url is inserted titled by the document (else by its url); an existing source is rewritten only when folder, title or a non-null icon differ; nothing else changes. |
| FirestoreSync.ApplyFeedDocAsWrittenLoss | app/src/main/java/com/boaxente/riffle/data/remote/FirestoreHelper.kt:115-134 | As written, a document that writes a source row deletes every article of that url. Folders, source rows and errors match the corrected listener, and a document that writes no row has the same effect in both. |
| FirestoreSync.MissingTitleLoss | app/src/main/java/com/boaxente/riffle/data/remote/FirestoreHelper.kt:107-134 | A stored source whose document has no title always needs an update. As written, the rewrite stores the same row and deletes its articles; the upsert leaves the tables unchanged. |
| FirestoreSync.ApplyFeedDocsEffect | app/src/main/java/com/boaxente/riffle/data/remote/FirestoreHelper.kt:105-136 | After all documents, the folders are the old ones plus every non-blank remote folder, sources not named remotely are untouched, and no source appears from nowhere. |
| FirestoreSync.ApplyFeedDocsResult | app/src/main/java/com/boaxente/riffle/data/remote/FirestoreHelper.kt:115-135 | Each remote url ends up stored exactly as that document alone decides. |
| FirestoreSync.ReconcileFeedsEffect | app/src/main/java/com/boaxente/riffle/data/remote/FirestoreHelper.kt:96-143 | After the feeds listener the local sources are exactly the remote urls, each as its document decides, the articles of deleted sources are gone with them, and the folders gained every non-blank remote folder. |
| FirestoreSync.ValidLinksMeaning | app/src/main/java/com/boaxente/riffle/data/remote/FirestoreHelper.kt:176-196 | A link is valid exactly when the remote list holds it as a bare string, or as a stamped entry no older than the retention limit (a missing stamp counting as 0). |
| FirestoreSync.PruneMeaning | app/src/main/java/com/boaxente/riffle/data/remote/FirestoreHelper.kt:231-257 | With no local articles nothing is pruned; otherwise the pruned items are exactly the remote items whose link is not stored locally. |
| FirestoreSync.MarkLinksReadUnion | app/src/main/java/com/boaxente/riffle/data/remote/FirestoreHelper.kt:212-214 | Marking two batches of links read is marking their union. |
| FirestoreSync.UnsaveLinksStep | app/src/main/java/com/boaxente/riffle/data/remote/FirestoreHelper.kt:345-349 | Unsaving links one at a time is unsaving the set. |
| FirestoreSync.SaveLinksStep | app/src/main/java/com/boaxente/riffle/data/remote/FirestoreHelper.kt:396 | Saving links one at a time is saving the set. |
| FirestoreSync.MarkReadInChunks | app/src/main/java/com/boaxente/riffle/data/remote/FirestoreHelper.kt:211-215 | Marking the new links read chunk by chunk marks exactly those links read. |
| FirestoreSync.DocArticle | app/src/main/java/com/boaxente/riffle/data/remote/FirestoreHelper.kt:297-307 | The article built from a saved document is saved and keyed by the document's link. |
| FirestoreSync.ApplySavedDocEffect | app/src/main/java/com/boaxente/riffle/data/remote/FirestoreHelper.kt:288-340 | One saved document: an existing article only becomes saved; a missing one is inserted, saved, when it names a source (creating a placeholder source if needed); sources and folders are kept. |
| FirestoreSync.ApplySavedDocsEffect | app/src/main/java/com/boaxente/riffle/data/remote/FirestoreHelper.kt:288-341 | After all saved documents every stored article with a remote link is saved, other stored articles are unchanged, and every insertable document is stored. |
| FirestoreSync.SyncSavedEffect | app/src/main/java/com/boaxente/riffle/data/remote/FirestoreHelper.kt:284-356 | After the saved listener a stored article is saved exactly when the remote collection holds its link; articles are otherwise unchanged. |
| FirestoreSync.ApplySettings | app/src/main/java/com/boaxente/riffle/data/remote/FirestoreHelper.kt:361-382 | Each present remote setting overwrites its preference (dark mode when the theme narrows to 1); absent ones and the api key are kept. |
| FirestoreSync.ListOf | app/src/main/java/com/boaxente/riffle/data/remote/FirestoreHelper.kt:387 | `toList()` of a set lists each element exactly once. |
| FirestoreSync.ApplyFeedDocTo | app/src/main/java/com/boaxente/riffle/data/remote/FirestoreHelper.kt:105-136 | Applies one feed document to the database as the definition says. |
| FirestoreSync.DeleteAll | app/src/main/java/com/boaxente/riffle/data/remote/FirestoreHelper.kt:139-142 | Deletes exactly the given sources. |
| FirestoreSync.ClassifyReadItems | app/src/main/java/com/boaxente/riffle/data/remote/FirestoreHelper.kt:171-196 | Collects the valid links and, in order, the stamped items older than the retention limit. |
| FirestoreSync.NewLinks | app/src/main/java/com/boaxente/riffle/data/remote/FirestoreHelper.kt:200-205 | The new links are exactly the valid links not already cached. |
| FirestoreSync.PruneList | app/src/main/java/com/boaxente/riffle/data/remote/FirestoreHelper.kt:231-257 | Collects, in order, the remote items whose link is not stored locally, and nothing when the local store is empty. |
| FirestoreSync.ApplySavedDocTo | app/src/main/java/com/boaxente/riffle/data/remote/FirestoreHelper.kt:288-340 | Applies one saved document to the database as the definition says. |
| FirestoreSync.UnsaveAll | app/src/main/java/com/boaxente/riffle/data/remote/FirestoreHelper.kt:344-349 | Unsaves exactly the saved articles missing from the remote collection. |
| FirestoreSync.SaveAll | app/src/main/java/com/boaxente/riffle/data/remote/FirestoreHelper.kt:396 | Saves exactly the given links. |
| FirestoreSync.Stamp | app/src/main/java/com/boaxente/riffle/data/remote/FirestoreHelper.kt:451-453 | Every queued link is stamped with the same time, in order. |
| FirestoreSync.FirestoreHelper.constructor | app/src/main/java/com/boaxente/riffle/data/remote/FirestoreHelper.kt:46-62 | Starts with empty caches, an empty queue and zero counts. |
| FirestoreSync.FirestoreHelper.OnFeeds | app/src/main/java/com/boaxente/riffle/data/remote/FirestoreHelper.kt:91-157 | Reconciles the local sources with the remote feeds, and asks for a refresh exactly when some remote url was not stored before. |
| FirestoreSync.FirestoreHelper.OnReadStates | app/src/main/java/com/boaxente/riffle/data/remote/FirestoreHelper.kt:159-275 | Marks read the valid links not yet cached, replaces the cache by the valid links and the count by their number, and issues removals for the unstored items, then the expired ones, in chunks. |
| FirestoreSync.FirestoreHelper.OnSavedArticles | app/src/main/java/com/boaxente/riffle/data/remote/FirestoreHelper.kt:278-359 | Synchronises the saved flags with the remote collection and replaces the saved cache and count. |
| FirestoreSync.FirestoreHelper.ApplyRemoteStates | app/src/main/java/com/boaxente/riffle/data/remote/FirestoreHelper.kt:384-398 | Marks read every cached read link, then saves every cached saved link. |
| FirestoreSync.FirestoreHelper.MarkReadInCloud | app/src/main/java/com/boaxente/riffle/data/remote/FirestoreHelper.kt:416-424 | Queues the link when a user is signed in; otherwise nothing. |
| FirestoreSync.FirestoreHelper.FlushReadQueue | app/src/main/java/com/boaxente/riffle/data/remote/FirestoreHelper.kt:435-462 | Empties the queue and uploads every non-blank queued link once, stamped with the same time, in chunks of at most 500. |
| Selection.ViewOf | app/src/main/java/com/boaxente/riffle/ui/viewmodel/MainViewModel.kt:369-377 | The selector "saved" is the saved view, no selector is every article, "folder:<name>" is that folder, anything else is one source's url. |
| Selection.SelectorRoundTrip | app/src/main/java/com/boaxente/riffle/ui/viewmodel/MainViewModel.kt:369-377 | Reading a selector and writing back its view gives the selector. |
| Selection.ViewRoundTrip | app/src/main/java/com/boaxente/riffle/ui/viewmodel/MainViewModel.kt:414-432 | Writing a view as a selector and reading it back gives the view, except for a source whose url is "saved" or starts with "folder:", which the selector cannot tell apart. |
| Selection.ScopeOf | app/src/main/java/com/boaxente/riffle/ui/viewmodel/MainViewModel.kt:369-377 | The saved view reads the saved rows, a folder view the rows of that folder, a source view the rows of that source, and only the saved view reads saved rows. |
| Selection.RepairEffect | app/src/main/java/com/boaxente/riffle/ui/viewmodel/MainViewModel.kt:497-528 | Deleting the selected source or folder clears the selection, renaming the selected folder follows the new name, and any other selection is left alone. |
| ViewModel.Health | app/src/main/java/com/boaxente/riffle/ui/viewmodel/MainViewModel.kt:326-341 | The feed health badge is never "unknown" for a feed with a dated article. |
| ViewModel.HealthBands | app/src/main/java/com/boaxente/riffle/ui/viewmodel/MainViewModel.kt:330-337 | For an age that fits a `Long`, the badge is good up to 5 days, warning up to 10, bad up to 50, dead beyond. |
| ViewModel.HealthMonotone | app/src/main/java/com/boaxente/riffle/ui/viewmodel/MainViewModel.kt:330-337 | An older newest article never gives a better badge. |
| ViewModel.HealthMap | app/src/main/java/com/boaxente/riffle/ui/viewmodel/MainViewModel.kt:326-341 | The badge map has exactly the sources that have a dated article. |
| ViewModel.HealthMapLastRow | app/src/main/java/com/boaxente/riffle/ui/viewmodel/MainViewModel.kt:330-339 | With `associate`, the last row of a source decides its badge. |
| ViewModel.ShownMeaning | app/src/main/java/com/boaxente/riffle/ui/viewmodel/MainViewModel.kt:378-387 | The shown list holds at most `limit` rows of the view; with a query only titles containing it ignoring case; without one every row in the saved view and otherwise no hidden link; and when fewer than `limit` are shown, every qualifying row is. |
| ViewModel.ShownInOrder | app/src/main/java/com/boaxente/riffle/ui/viewmodel/MainViewModel.kt:378-387 | Shown rows keep the order of the view's rows. |
| ViewModel.FallbackSucceeds | app/src/main/java/com/boaxente/riffle/ui/viewmodel/MainViewModel.kt:248-283 | A summary is produced exactly when some model answers after nothing but quota errors from the models tried before it. |
| ViewModel.FallbackStatuses | app/src/main/java/com/boaxente/riffle/ui/viewmodel/MainViewModel.kt:246-283 | Only tried models change status: "available" only for one that answered, "exhausted" only for one that failed on quota; other entries are kept. |
| ViewModel.DomainsToSearch | app/src/main/java/com/boaxente/riffle/ui/viewmodel/MainViewModel.kt:576-595 | There is always at least one domain to search. |
| ViewModel.DomainsChoice | app/src/main/java/com/boaxente/riffle/ui/viewmodel/MainViewModel.kt:580-595 | A query with "." or starting with "http" is searched as it is; otherwise the suggested domains, each once, or "<query>.com" when there are none. |
| ViewModel.DiscoverAll | app/src/main/java/com/boaxente/riffle/ui/viewmodel/MainViewModel.kt:606-614 | One discovered feed per search hit. |
| ViewModel.FoundMeaning | app/src/main/java/com/boaxente/riffle/ui/viewmodel/MainViewModel.kt:603-619 | The collected results are exactly the hits of the searched domains. |
| ViewModel.SearchResultMeaning | app/src/main/java/com/boaxente/riffle/ui/viewmodel/MainViewModel.kt:569-636 | At most three domains are searched; the results have distinct urls, each comes from a hit of a searched domain, and every hit's url is represented. |
| ViewModel.MainViewModel.constructor | app/src/main/java/com/boaxente/riffle/ui/viewmodel/MainViewModel.kt:97-311 | No selection, a limit of 20, an empty query, no hidden link, no summary, no model status and no discovered feed; the api key is the stored one. |
| ViewModel.MainViewModel.SetArticleSearchQuery | app/src/main/java/com/boaxente/riffle/ui/viewmodel/MainViewModel.kt:113-115 | Sets the search query. |
| ViewModel.MainViewModel.UpdateHiddenArticles | app/src/main/java/com/boaxente/riffle/ui/viewmodel/MainViewModel.kt:399-404 | The hidden links become exactly the links of the read articles. |
| ViewModel.MainViewModel.SelectSource | app/src/main/java/com/boaxente/riffle/ui/viewmodel/MainViewModel.kt:414-419 | Resets the limit to 20, refreshes the hidden links, selects the source (or every article) and clears the query. |
| ViewModel.MainViewModel.SelectSaved | app/src/main/java/com/boaxente/riffle/ui/viewmodel/MainViewModel.kt:421-425 | Resets the limit to 20, selects the saved view and clears the query, keeping the hidden links. |
| ViewModel.MainViewModel.SelectFolder | app/src/main/java/com/boaxente/riffle/ui/viewmodel/MainViewModel.kt:427-432 | Resets the limit to 20, refreshes the hidden links, selects the folder and clears the query. |
| ViewModel.MainViewModel.LoadMore | app/src/main/java/com/boaxente/riffle/ui/viewmodel/MainViewModel.kt:434-436 | Raises the limit by 20. |
| ViewModel.MainViewModel.UiState | app/src/main/java/com/boaxente/riffle/ui/viewmodel/MainViewModel.kt:365-397 | The list is the selection's rows, newest first, filtered and cut as `Shown` says. |
| ViewModel.MainViewModel.DeleteSource | app/src/main/java/com/boaxente/riffle/ui/viewmodel/MainViewModel.kt:497-504 | Deletes the source (its articles with it), tells the cloud, and clears the selection when it was that source. |
| ViewModel.MainViewModel.DeleteFolder | app/src/main/java/com/boaxente/riffle/ui/viewmodel/MainViewModel.kt:512-519 | Deletes the folder with its sources, tells the cloud about each of them, and clears the selection when it was that folder. |
| ViewModel.MainViewModel.RenameFolder | app/src/main/java/com/boaxente/riffle/ui/viewmodel/MainViewModel.kt:521-528 | Renames the folder and makes the selection follow it; when the rename fails nothing changes. |
| ViewModel.MainViewModel.ToggleSaveArticle | app/src/main/java/com/boaxente/riffle/ui/viewmodel/MainViewModel.kt:558-562 | Stores the opposite of the saved flag it was given. |
| ViewModel.MainViewModel.MarkAsRead | app/src/main/java/com/boaxente/riffle/ui/viewmodel/MainViewModel.kt:551-555 | Marks the article read. |
| ViewModel.MainViewModel.SummarizeArticle | app/src/main/java/com/boaxente/riffle/ui/viewmodel/MainViewModel.kt:203-301 | With a blank api key reports the key error and keeps the statuses; otherwise tries the models in order and shows the outcome. |
| ViewModel.MainViewModel.SearchFeeds | app/src/main/java/com/boaxente/riffle/ui/viewmodel/MainViewModel.kt:569-636 | The discovered feeds are the distinct-by-url results of searching at most three chosen domains. |
| Lists.Filter | app/src/main/java/com/boaxente/riffle/ui/viewmodel/MainViewModel.kt:380-384 | Kotlin `filter` keeps exactly the elements satisfying the predicate, never more than the list had. |
| Lists.FilterOrder | app/src/main/java/com/boaxente/riffle/ui/viewmodel/MainViewModel.kt:384 | `filter` keeps the order of the list. |
| Lists.Take | app/src/main/java/com/boaxente/riffle/ui/viewmodel/MainViewModel.kt:386 | Kotlin `take(n)` is the first n elements, or the whole list when it is shorter. |
| Lists.DistinctByKeys | app/src/main/java/com/boaxente/riffle/ui/viewmodel/MainViewModel.kt:621 | `distinctBy` keeps one element per key: keys of the result are distinct and cover every key of the list. |
| Lists.FirstNonEmptyMeaning | app/src/main/java/com/example/riffle/ui/viewmodel/MainViewModel.kt:474-538 | The loop that stops at the first candidate giving results gives nothing exactly when every candidate gives nothing, and otherwise the results of the first candidate that gives any. |
| FeedDiscovery.SuggestedDomains | app/src/main/java/com/example/riffle/ui/viewmodel/MainViewModel.kt:456-457 | One candidate domain per suggestion, in order. |
| FeedDiscovery.FirstSome | app/src/main/java/com/example/riffle/ui/viewmodel/MainViewModel.kt:458-459 | The site name and icon are the first non-null ones among the suggestions, and null when every suggestion lacks one. |
| FeedDiscovery.BaseUrls | app/src/main/java/com/example/riffle/ui/viewmodel/MainViewModel.kt:475-482 | A domain starting with "http" is fetched as it is; otherwise "https://d", "https://www.d" and "http://d", in that order. |
| FeedDiscovery.Feeds | app/src/main/java/com/example/riffle/ui/viewmodel/MainViewModel.kt:493-499 | One offered feed per feed link of the page, carrying the site's icon and name. |
| FeedDiscovery.ScanPages | app/src/main/java/com/example/riffle/ui/viewmodel/MainViewModel.kt:484-513 | Scans the base urls in order and stops at the first page that lists any feed. |
| FeedDiscovery.RemovePrefix | app/src/main/java/com/example/riffle/ui/viewmodel/MainViewModel.kt:268 | Kotlin `removePrefix`: with the prefix, what follows it; without, the string unchanged. |
| FeedDiscovery.Probes | app/src/main/java/com/example/riffle/ui/viewmodel/MainViewModel.kt:516-534 | The probed feeds are exactly the usual paths whose address at the host answers with XML. |
| FeedDiscovery.ProbePaths | app/src/main/java/com/example/riffle/ui/viewmodel/MainViewModel.kt:521-534 | Probes the usual paths in order, collecting those answering with XML. |
| RiffleViewModel.UiStateMeaning | app/src/main/java/com/example/riffle/ui/viewmodel/MainViewModel.kt:252-287 | Loading exactly until the first refresh ends; then at most `limit` rows: none for a blank search, the search rows while searching, every saved row in the saved view, and elsewhere the rows not hidden, all of them when fewer than `limit` are shown. |
| RiffleViewModel.DomainsToTryShape | app/src/main/java/com/example/riffle/ui/viewmodel/MainViewModel.kt:449-472 | The query is always a candidate and so is every suggested domain; when the query is a suggestion the list is the suggestions, otherwise the query comes first, and without a "." "<query>.es" and "<query>.com" come last. |
| RiffleViewModel.SearchDomain | app/src/main/java/com/example/riffle/ui/viewmodel/MainViewModel.kt:474-535 | One domain yields the feeds of its first page listing any, else the usual paths answering with XML. |
| RiffleViewModel.MainViewModel.constructor | app/src/main/java/com/example/riffle/ui/viewmodel/MainViewModel.kt:76-229 | No selection, a limit of 20, no hidden link, loading until the first refresh, not searching, no discovered feed. |
| RiffleViewModel.MainViewModel.UpdateHiddenArticles | app/src/main/java/com/example/riffle/ui/viewmodel/MainViewModel.kt:289-294 | The hidden links become exactly the links of the read articles. |
| RiffleViewModel.MainViewModel.FinishSync | app/src/main/java/com/example/riffle/ui/viewmodel/MainViewModel.kt:392-408 | The refresh ends the loading state either way; after a success the hidden links are read again. |
| RiffleViewModel.MainViewModel.MarkAsRead | app/src/main/java/com/example/riffle/ui/viewmodel/MainViewModel.kt:410-415 | Marks the article read and hides its link at once. |
| RiffleViewModel.MainViewModel.MarkAllAsRead | app/src/main/java/com/example/riffle/ui/viewmodel/MainViewModel.kt:417-432 | In the saved view nothing happens; otherwise every article of the selected view is marked read and the hidden links are read again. |
| RiffleViewModel.MainViewModel.SelectSource | app/src/main/java/com/example/riffle/ui/viewmodel/MainViewModel.kt:304-308 | Resets the limit to 20, refreshes the hidden links and selects the source. |
| RiffleViewModel.MainViewModel.SelectSaved | app/src/main/java/com/example/riffle/ui/viewmodel/MainViewModel.kt:310-313 | Resets the limit to 20 and selects the saved view. |
| RiffleViewModel.MainViewModel.SelectFolder | app/src/main/java/com/example/riffle/ui/viewmodel/MainViewModel.kt:315-319 | Resets the limit to 20, refreshes the hidden links and selects the folder. |
| RiffleViewModel.MainViewModel.LoadMore | app/src/main/java/com/example/riffle/ui/viewmodel/MainViewModel.kt:321-323 | Raises the limit by 20. |
| RiffleViewModel.MainViewModel.StartArticleSearch | app/src/main/java/com/example/riffle/ui/viewmodel/MainViewModel.kt:563-565 | Enters search mode. |
| RiffleViewModel.MainViewModel.StopArticleSearch | app/src/main/java/com/example/riffle/ui/viewmodel/MainViewModel.kt:567-570 | Leaves search mode and clears the query. |
| RiffleViewModel.MainViewModel.UpdateArticleSearchQuery | app/src/main/java/com/example/riffle/ui/viewmodel/MainViewModel.kt:572-574 | Sets the query. |
| RiffleViewModel.MainViewModel.DeleteSource | app/src/main/java/com/example/riffle/ui/viewmodel/MainViewModel.kt:353-360 | Deletes the source and clears the selection when it was that source. |
| RiffleViewModel.MainViewModel.DeleteFolder | app/src/main/java/com/example/riffle/ui/viewmodel/MainViewModel.kt:368-375 | Deletes the folder with its sources and clears the selection when it was that folder. |
| RiffleViewModel.MainViewModel.RenameFolder | app/src/main/java/com/example/riffle/ui/viewmodel/MainViewModel.kt:377-384 | Renames the folder and makes the selection follow it; when the rename fails nothing changes. |
| RiffleViewModel.MainViewModel.SearchFeeds | app/src/main/java/com/example/riffle/ui/viewmodel/MainViewModel.kt:440-549 | The discovered feeds are the distinct-by-url feeds of the first candidate domain that yields any. |
| Selection.MarkAllScope | app/src/main/java/com/example/riffle/ui/viewmodel/MainViewModel.kt:417-432 | Marking all read does nothing in the saved view and otherwise covers exactly the rows of the selected view. |
| InoreaderViewModel.ShownMeaning | app/src/main/java/com/example/inoreaderlite/ui/viewmodel/MainViewModel.kt:119-127 | In the saved view the list is every row of the view; elsewhere exactly the rows whose link is not hidden. |
| InoreaderViewModel.ShownInOrder | app/src/main/java/com/example/inoreaderlite/ui/viewmodel/MainViewModel.kt:125 | Shown rows keep the order of the view's rows. |
| InoreaderViewModel.DomainsToTryShape | app/src/main/java/com/example/inoreaderlite/ui/viewmodel/MainViewModel.kt:279-302 | The query is always a candidate, the candidates are exactly the query and the suggested domains, and the query comes first unless it was suggested. |
| InoreaderViewModel.ProbeHosts | app/src/main/java/com/example/inoreaderlite/ui/viewmodel/MainViewModel.kt:353-361 | The probed hosts are the host without "www." and its "www." form, and the domain's own host is one of them. |
| InoreaderViewModel.SearchDomain | app/src/main/java/com/example/inoreaderlite/ui/viewmodel/MainViewModel.kt:304-381 | One domain yields the feeds of its first page listing any, else those of the first host at which some usual path answers with XML. |
| InoreaderViewModel.MainViewModel.constructor | app/src/main/java/com/example/inoreaderlite/ui/viewmodel/MainViewModel.kt:66-103 | No selection, no hidden link, not refreshing, no discovered feed. |
| InoreaderViewModel.MainViewModel.UpdateHiddenArticles | app/src/main/java/com/example/inoreaderlite/ui/viewmodel/MainViewModel.kt:136-141 | The hidden links become exactly the links of the read articles. |
| InoreaderViewModel.MainViewModel.FinishSync | app/src/main/java/com/example/inoreaderlite/ui/viewmodel/MainViewModel.kt:226-239 | The refresh indicator goes off either way; after a success the hidden links are read again. |
| InoreaderViewModel.MainViewModel.SelectSource | app/src/main/java/com/example/inoreaderlite/ui/viewmodel/MainViewModel.kt:147-150 | Refreshes the hidden links and selects the source. |
| InoreaderViewModel.MainViewModel.SelectSaved | app/src/main/java/com/example/inoreaderlite/ui/viewmodel/MainViewModel.kt:152-154 | Selects the saved view. |
| InoreaderViewModel.MainViewModel.SelectFolder | app/src/main/java/com/example/inoreaderlite/ui/viewmodel/MainViewModel.kt:156-159 | Refreshes the hidden links and selects the folder. |
| InoreaderViewModel.MainViewModel.MarkAsRead | app/src/main/java/com/example/inoreaderlite/ui/viewmodel/MainViewModel.kt:241-245 | Marks the article read; the list keeps showing it. |
| InoreaderViewModel.MainViewModel.ToggleSaveArticle | app/src/main/java/com/example/inoreaderlite/ui/viewmodel/MainViewModel.kt:264-268 | Stores the opposite of the saved flag it was given. |
| InoreaderViewModel.MainViewModel.MarkAllAsRead | app/src/main/java/com/example/inoreaderlite/ui/viewmodel/MainViewModel.kt:247-262 | In the saved view nothing happens; otherwise every article of the selected view is marked read and the hidden links are read again. |
| InoreaderViewModel.MainViewModel.DeleteSource | app/src/main/java/com/example/inoreaderlite/ui/viewmodel/MainViewModel.kt:187-194 | Deletes the source and clears the selection when it was that source. |
| InoreaderViewModel.MainViewModel.DeleteFolder | app/src/main/java/com/example/inoreaderlite/ui/viewmodel/MainViewModel.kt:202-209 | Deletes the folder with its sources and clears the selection when it was that folder. |
| InoreaderViewModel.MainViewModel.RenameFolder | app/src/main/java/com/example/inoreaderlite/ui/viewmodel/MainViewModel.kt:211-218 | Renames the folder and makes the selection follow it; when the rename fails nothing changes. |
| InoreaderViewModel.MainViewModel.SearchFeeds | app/src/main/java/com/example/inoreaderlite/ui/viewmodel/MainViewModel.kt:270-397 | The discovered feeds are the distinct-by-url feeds of the first candidate domain that yields any. |
| Comments.NewComment | app/src/main/java/com/boaxente/riffle/data/repository/CommentRepository.kt:123-131 | A new comment starts with no votes and no replies, carrying its author, parent, text and time. |
| Comments.ToMap | app/src/main/java/com/boaxente/riffle/data/model/Comment.kt:30-43 | `toMap` stores the twelve fields other than the id. |
| Comments.StoredRoundTrip | app/src/main/java/com/boaxente/riffle/data/model/Comment.kt:30-43 | Reading back a stored comment under its document id gives the comment. |
| Comments.EmptyDocument | app/src/main/java/com/boaxente/riffle/data/model/Comment.kt:9-25 | A document with no fields reads as the all-default comment, stamped now. |
| Comments.ArrayRemove | app/src/main/java/com/boaxente/riffle/data/repository/CommentRepository.kt:196 | `arrayRemove` drops every occurrence of the value; on a list without duplicates it drops at most one element. |
| Comments.RemoveAppended | app/src/main/java/com/boaxente/riffle/data/repository/CommentRepository.kt:196-212 | Removing a value just added by `arrayUnion` gives the list back. |
| Comments.VotesStayConsistent | app/src/main/java/com/boaxente/riffle/data/repository/CommentRepository.kt:176-271 | Liking or disliking keeps the counters equal to the voter lists, with no duplicate voter. |
| Comments.LikeEffect | app/src/main/java/com/boaxente/riffle/data/repository/CommentRepository.kt:191-215 | A like toggles the user's like, takes back a dislike it replaces, moves the counters accordingly and touches nothing else. |
| Comments.DislikeEffect | app/src/main/java/com/boaxente/riffle/data/repository/CommentRepository.kt:241-265 | A dislike toggles the user's dislike, takes back a like it replaces, moves the counters accordingly and touches nothing else. |
| Comments.ToggleTwice | app/src/main/java/com/boaxente/riffle/data/repository/CommentRepository.kt:176-271 | For a user who had not voted, liking twice or disliking twice restores the comment. |
| Comments.Insert | app/src/main/java/com/boaxente/riffle/data/repository/CommentRepository.kt:54 | Inserting into a list sorted by descending key keeps it sorted and adds exactly that element. |
| Comments.SortDesc | app/src/main/java/com/boaxente/riffle/data/repository/CommentRepository.kt:54 | Sorting by descending key gives a sorted permutation of the list. |
| Comments.InsertStable | app/src/main/java/com/boaxente/riffle/data/repository/CommentRepository.kt:54 | Inserting an element puts it after every element with the same key, so the elements of each key keep their order. |
| Comments.SortDescStable | app/src/main/java/com/boaxente/riffle/data/repository/CommentRepository.kt:54 | The sort is stable: the elements with any one key come out in the order they had in the input, as with Kotlin's `sortedWith`. |
| Comments.ChildrenOf | app/src/main/java/com/boaxente/riffle/data/repository/CommentRepository.kt:357-358 | The children of a parent are exactly the comments naming it as parent. |
| Comments.OthersOf | app/src/main/java/com/boaxente/riffle/data/repository/CommentRepository.kt:357-358 | The comments not naming the parent, which together with its children make up the pool. |
| Comments.RepliesMeaning | app/src/main/java/com/boaxente/riffle/data/repository/CommentRepository.kt:63-82 | The replies of a comment are exactly its children, oldest first. |
| Comments.Leaves | app/src/main/java/com/boaxente/riffle/data/repository/CommentRepository.kt:55 | One node with no replies at depth 0 per comment, in the same order. |
| Comments.RootNodesMeaning | app/src/main/java/com/boaxente/riffle/data/repository/CommentRepository.kt:29-61 | The listener shows one leaf node per root comment, most liked first and, among equal likes, newest first. |
| Comments.RootNodesShape | app/src/main/java/com/boaxente/riffle/data/repository/CommentRepository.kt:55 | Every shown node is a root comment at depth 0 with no replies. |
| Comments.RootNodesCover | app/src/main/java/com/boaxente/riffle/data/repository/CommentRepository.kt:34-55 | Every root comment is shown. |
| Comments.RootNodesOrder | app/src/main/java/com/boaxente/riffle/data/repository/CommentRepository.kt:54 | Shown nodes are ordered by likes, then by date, both descending. |
| Comments.BuildEachAt | app/src/main/java/com/boaxente/riffle/data/repository/CommentRepository.kt:385-388 | The i-th built reply is the node built from the i-th child. |
| Comments.BuildNodeMeaning | app/src/main/java/com/boaxente/riffle/data/repository/CommentRepository.kt:384-391 | A built node is well formed (each reply one level deeper and a child of its parent, replies most liked first) and holds every child of its comment. |
| Comments.BuildNodeWellFormed | app/src/main/java/com/boaxente/riffle/data/repository/CommentRepository.kt:384-391 | Every reply of a built node is a child of it one level deeper, sorted by likes, at every level. |
| Comments.BuildNodeComplete | app/src/main/java/com/boaxente/riffle/data/repository/CommentRepository.kt:385-387 | Every child of a comment appears among the replies of its node. |
| Comments.BuildCommentTreeMeaning | app/src/main/java/com/boaxente/riffle/data/repository/CommentRepository.kt:372-382 | The tree has one well-formed node per root comment, most liked first. |
| Comments.TreeNodesWellFormed | app/src/main/java/com/boaxente/riffle/data/repository/CommentRepository.kt:377-379 | Every tree node is a root comment at depth 0, well formed. |
| Comments.TreeCoversRoots | app/src/main/java/com/boaxente/riffle/data/repository/CommentRepository.kt:377-379 | Every root comment has a node in the tree. |
| Comments.DescendantsUnfold | app/src/main/java/com/boaxente/riffle/data/repository/CommentRepository.kt:354-367 | The descendants of a comment are its children followed by the descendants of each child. |
| Comments.DescendantsOfAllSnoc | app/src/main/java/com/boaxente/riffle/data/repository/CommentRepository.kt:362-364 | Collecting descendants child by child appends each child's descendants in order. |
| Comments.IdsConcat | app/src/main/java/com/boaxente/riffle/data/repository/CommentRepository.kt:360-363 | The ids of two collected lists together are the ids of their concatenation. |
| Comments.JoinClosed | app/src/main/java/com/boaxente/riffle/data/repository/CommentRepository.kt:360-364 | Joining two collections that are each rooted at and closed under their anchors gives one rooted at and closed under both. |
| Comments.DescendantsClosed | app/src/main/java/com/boaxente/riffle/data/repository/CommentRepository.kt:354-367 | Every collected descendant hangs below the comment, and every comment hanging below a collected one (or the comment itself) is collected. |
| Comments.DescendantsOfAllClosed | app/src/main/java/com/boaxente/riffle/data/repository/CommentRepository.kt:362-364 | The descendants of a list of comments are rooted at and closed under that list. |
| Comments.DescendantsLeast | app/src/main/java/com/boaxente/riffle/data/repository/CommentRepository.kt:354-367 | Any set of ids holding the comment and closed under "child of" holds all its descendants: nothing extra is collected. |
| Comments.DescendantsOfAllLeast | app/src/main/java/com/boaxente/riffle/data/repository/CommentRepository.kt:362-364 | Any set holding the list and closed under "child of" holds all their descendants. |
| Comments.Authors | app/src/main/java/com/boaxente/riffle/data/repository/CommentRepository.kt:315 | `groupBy { it.userId }` has one group per author, each author once. |
| Comments.CountByAbsent | app/src/main/java/com/boaxente/riffle/data/repository/CommentRepository.kt:315-316 | An author with no comment has an empty group. |
| Comments.SumCountsSnoc | app/src/main/java/com/boaxente/riffle/data/repository/CommentRepository.kt:315-316 | Adding one comment raises the summed group sizes of a list of distinct authors by one exactly when its author is listed. |
| Comments.GroupSizesAddUp | app/src/main/java/com/boaxente/riffle/data/repository/CommentRepository.kt:315-326 | The group sizes add up to the number of deleted comments, so the profile counters lose exactly that many in total. |
| CommentStore.SplitFirstPart | app/src/main/java/com/boaxente/riffle/data/repository/CommentRepository.kt:121 | `split("@").firstOrNull()` is the part of the email before its first '@'. |
| CommentStore.DisplayName | app/src/main/java/com/boaxente/riffle/data/repository/CommentRepository.kt:121 | The author name is the profile name, else the account display name, else the email up to its first '@', else "Anónimo". |
| CommentStore.Find | app/src/main/java/com/boaxente/riffle/data/repository/CommentRepository.kt:289-294 | A comment is found exactly when some stored comment has that id. |
| CommentStore.Without | app/src/main/java/com/boaxente/riffle/data/repository/CommentRepository.kt:300-302 | The comments left after a batch delete are exactly those whose id was not deleted. |
| CommentStore.ReplyCountMoves | app/src/main/java/com/boaxente/riffle/data/repository/CommentRepository.kt:143-146 | Adjusting the parent's reply count changes that counter only, of that comment only. |
| CommentStore.DeletionLeavesNoOrphans | app/src/main/java/com/boaxente/riffle/data/repository/CommentRepository.kt:276-352 | After deleting a comment with its descendants, no remaining comment names a deleted one (or the target) as parent. |
| CommentStore.CommentRepository.AddComment | app/src/main/java/com/boaxente/riffle/data/repository/CommentRepository.kt:107-171 | Signed out: an error and no change. Replying to a missing parent: the transaction fails, nothing changes. Otherwise the new comment is stored, the parent's reply count rises by one and the author's total by one. |
| CommentStore.CommentRepository.Vote | app/src/main/java/com/boaxente/riffle/data/repository/CommentRepository.kt:176-271 | Signed out or voting on a missing comment: an error and no change; otherwise the comment is updated as `Like` or `Dislike` says. |
| CommentStore.CommentRepository.GetAllDescendants | app/src/main/java/com/boaxente/riffle/data/repository/CommentRepository.kt:354-367 | Collects the descendants as the definition says: children first, then each child's descendants. |
| CommentStore.CommentRepository.DescendantsOfEach | app/src/main/java/com/boaxente/riffle/data/repository/CommentRepository.kt:362-364 | Collects the descendants of every child, in order. |
| CommentStore.CommentRepository.DeleteComment | app/src/main/java/com/boaxente/riffle/data/repository/CommentRepository.kt:276-352 | Signed out: an error. Nothing to delete: success, no change. A missing parent makes the batch fail with no change. Otherwise the comment and its descendants go, the parent's reply count drops by one, and each author's total drops by their number of deleted comments. |
| CommentStore.CommentRepository.CollectDoomed | app/src/main/java/com/boaxente/riffle/data/repository/CommentRepository.kt:285-294 | The comments to delete are the descendants followed by the target itself when it exists. |
| CommentStore.CommentRepository.CommitDeletion | app/src/main/java/com/boaxente/riffle/data/repository/CommentRepository.kt:298-346 | The batch removes the doomed comments, decrements the parent's reply count and the authors' totals. |
| CommentStore.CommentRepository.DropTotals | app/src/main/java/com/boaxente/riffle/data/repository/CommentRepository.kt:315-326 | Each author's total drops by the number of their deleted comments. |
| CommentStore.DeletionKeepsValid | app/src/main/java/com/boaxente/riffle/data/repository/CommentRepository.kt:298-311 | Deleting keeps ids distinct and votes consistent. |
| CommentStore.KeptDistinct | app/src/main/java/com/boaxente/riffle/data/repository/CommentRepository.kt:300-302 | Removing comments keeps ids distinct. |
| CommentsViewModel.ReplyNodes | app/src/main/java/com/boaxente/riffle/ui/viewmodel/CommentsViewModel.kt:93-95 | One node per loaded reply, in order, one level below the node, with no replies yet. |
| CommentsViewModel.MergeTree | app/src/main/java/com/boaxente/riffle/ui/viewmodel/CommentsViewModel.kt:88-106 | The merged tree keeps every node, its comment and depth; a node with no loaded replies is unchanged, and a node with loaded replies shows exactly those replies, in order, one level deeper. |
| CommentsViewModel.MergeNode | app/src/main/java/com/boaxente/riffle/ui/viewmodel/CommentsViewModel.kt:89-104 | A node keeps its comment and depth; without loaded replies it is unchanged, with them it shows them. |
| CommentsViewModel.MergeTreeLayered | app/src/main/java/com/boaxente/riffle/ui/viewmodel/CommentsViewModel.kt:88-106 | Merging keeps every node's depth equal to its distance from the top. |
| CommentsViewModel.MergeNodeLayered | app/src/main/java/com/boaxente/riffle/ui/viewmodel/CommentsViewModel.kt:93-98 | Merging one node keeps depths layered below it. |
| CommentsViewModel.MergeNothing | app/src/main/java/com/boaxente/riffle/ui/viewmodel/CommentsViewModel.kt:88-106 | With nothing loaded the merged tree is the list of roots itself. |
| CommentsViewModel.LoadRepliesError | app/src/main/java/com/boaxente/riffle/ui/viewmodel/CommentsViewModel.kt:80 | The error text is "Error loading replies: " followed by the failure's message. |
| CommentsViewModel.CommentsViewModel.constructor | app/src/main/java/com/boaxente/riffle/ui/viewmodel/CommentsViewModel.kt:21-47 | No roots, nothing loaded or loading, no error, no reply target, no current article. |
| CommentsViewModel.CommentsViewModel.LoadComments | app/src/main/java/com/boaxente/riffle/ui/viewmodel/CommentsViewModel.kt:49-59 | Records the article and starts loading. |
| CommentsViewModel.CommentsViewModel.ReceiveRoots | app/src/main/java/com/boaxente/riffle/ui/viewmodel/CommentsViewModel.kt:55-57 | A snapshot of root nodes replaces the roots and ends loading. |
| CommentsViewModel.CommentsViewModel.ReceiveCount | app/src/main/java/com/boaxente/riffle/ui/viewmodel/CommentsViewModel.kt:61-65 | A count update replaces the comment count. |
| CommentsViewModel.CommentsViewModel.BeginLoadReplies | app/src/main/java/com/boaxente/riffle/ui/viewmodel/CommentsViewModel.kt:68-73 | Loading starts exactly when an article is open and the comment is not already loading, and marks it loading. |
| CommentsViewModel.CommentsViewModel.FinishLoadReplies | app/src/main/java/com/boaxente/riffle/ui/viewmodel/CommentsViewModel.kt:75-84 | On success the replies are stored under the comment and the shown root with that id lists them; on failure the error is set and nothing is stored; the comment stops loading either way. |
| CommentsViewModel.CommentsViewModel.AddComment | app/src/main/java/com/boaxente/riffle/ui/viewmodel/CommentsViewModel.kt:108-140 | With no article open nothing changes. Otherwise the reply target is cleared and loading ends; a successful reply is appended to its parent's loaded replies and shown last under it; a root comment leaves them alone; a failure sets the error. |
| CommentsViewModel.CommentsViewModel.Vote | app/src/main/java/com/boaxente/riffle/ui/viewmodel/CommentsViewModel.kt:142-158 | Only a failed vote on an open article changes anything: it sets the error. |
| CommentsViewModel.CommentsViewModel.DeleteComment | app/src/main/java/com/boaxente/riffle/ui/viewmodel/CommentsViewModel.kt:160-196 | On success the comment is removed from the replies of one parent whose loaded replies hold it, if any; otherwise nothing loaded changes; a failure sets the error. |
| CommentsViewModel.CommentsViewModel.SetReplyingTo | app/src/main/java/com/boaxente/riffle/ui/viewmodel/CommentsViewModel.kt:198-200 | Sets the reply target. |
| CommentsViewModel.CommentsViewModel.ClearError | app/src/main/java/com/boaxente/riffle/ui/viewmodel/CommentsViewModel.kt:202-204 | Clears the error. |
| ArticleReader.LineText | app/src/main/java/com/boaxente/riffle/ui/screen/ArticleReaderScreen.kt:479-483 | A trimmed line starting with "* " becomes the bullet "•  " followed by the rest of the trimmed line; any other line is just trimmed. |
| ArticleReader.Texts | app/src/main/java/com/boaxente/riffle/ui/screen/ArticleReaderScreen.kt:486-495 | The texts of a line's spans, in order. |
| ArticleReader.Alternate | app/src/main/java/com/boaxente/riffle/ui/screen/ArticleReaderScreen.kt:487-495 | One span per part with the same text, bold exactly at odd positions. |
| ArticleReader.LineSpansMeaning | app/src/main/java/com/boaxente/riffle/ui/screen/ArticleReaderScreen.kt:479-495 | A line renders as at least one span whose texts are its pieces split at "**", odd pieces bold, and joining them back with "**" gives the processed line. |
| ArticleReader.LinesSpans | app/src/main/java/com/boaxente/riffle/ui/screen/ArticleReaderScreen.kt:478-496 | Each line is rendered on its own, in order. |
| ArticleReader.MarkdownText | app/src/main/java/com/boaxente/riffle/ui/screen/ArticleReaderScreen.kt:474-505 | The builder loop appends exactly the rendering of the text. |
| ArticleReader.AppendLine | app/src/main/java/com/boaxente/riffle/ui/screen/ArticleReaderScreen.kt:479-495 | Appending one line gives its spans. |
| ArticleReader.AppendParts | app/src/main/java/com/boaxente/riffle/ui/screen/ArticleReaderScreen.kt:487-495 | Appending the parts gives them alternately plain and bold. |
| ArticleReader.Plains | app/src/main/java/com/boaxente/riffle/ui/screen/ArticleReaderScreen.kt:478-496 | The plain text of each line, in order. |
| ArticleReader.PlainTextAppend | app/src/main/java/com/boaxente/riffle/ui/screen/ArticleReaderScreen.kt:476-500 | The plain text of appended spans is the concatenation of their plain texts. |
| ArticleReader.PlainBreak | app/src/main/java/com/boaxente/riffle/ui/screen/ArticleReaderScreen.kt:497-499 | The separator span is a plain newline. |
| ArticleReader.PlainsOf | app/src/main/java/com/boaxente/riffle/ui/screen/ArticleReaderScreen.kt:478-500 | The plain text of each rendered line, in order. |
| ArticleReader.LayoutPlain | app/src/main/java/com/boaxente/riffle/ui/screen/ArticleReaderScreen.kt:478-500 | The plain text of the first n lines is those lines joined by newlines, with a trailing newline while lines remain. |
| ArticleReader.RenderPlain | app/src/main/java/com/boaxente/riffle/ui/screen/ArticleReaderScreen.kt:476-500 | Without styling the rendered text is the processed lines joined by newlines: no newline is added or lost. |
| ArticleReader.TrimCount | app/src/main/java/com/boaxente/riffle/ui/screen/ArticleReaderScreen.kt:479 | Trimming never adds a character. |
| ArticleReader.CountCharSlice | app/src/main/java/com/boaxente/riffle/ui/screen/ArticleReaderScreen.kt:482 | A piece of a line holds no more of a character than the line. |
| ArticleReader.LineTextNoBreak | app/src/main/java/com/boaxente/riffle/ui/screen/ArticleReaderScreen.kt:479-483 | Processing a line without a newline adds none. |
| ArticleReader.LinePlainNoBreak | app/src/main/java/com/boaxente/riffle/ui/screen/ArticleReaderScreen.kt:479-495 | Rendering a line without a newline adds none. |
| ArticleReader.RenderLineBreaks | app/src/main/java/com/boaxente/riffle/ui/screen/ArticleReaderScreen.kt:477-500 | The rendered text holds one newline fewer than it has lines. |
| ArticleReader.Fab.constructor | app/src/main/java/com/boaxente/riffle/ui/screen/ArticleReaderScreen.kt:144-145 | The button starts visible, at offset 0. |
| ArticleReader.Fab.OnScroll | app/src/main/java/com/boaxente/riffle/ui/screen/ArticleReaderScreen.kt:148-156 | Scrolling down hides the button, scrolling up shows it, no move keeps it; the offset is recorded. |
| ArticleReader.LastMove | app/src/main/java/com/boaxente/riffle/ui/screen/ArticleReaderScreen.kt:148-156 | The direction of the last scroll that moved: down, up or none. |
| ArticleReader.AfterScrollsSnoc | app/src/main/java/com/boaxente/riffle/ui/screen/ArticleReaderScreen.kt:148-156 | One more scroll event updates the state as the handler does. |
| ArticleReader.AfterScrollsOffset | app/src/main/java/com/boaxente/riffle/ui/screen/ArticleReaderScreen.kt:155 | After any scrolls the recorded offset is the last one. |
| ArticleReader.FabFollowsLastMove | app/src/main/java/com/boaxente/riffle/ui/screen/ArticleReaderScreen.kt:148-156 | After any scrolls the button is hidden if the last move was down, shown if it was up, and as it started if nothing moved. |
| HomeScreen.TotalRemove | app/src/main/java/com/boaxente/riffle/ui/screen/HomeScreen.kt:476 | The sum of the unread counts is one entry plus the sum of the rest. |
| HomeScreen.SumOverSnoc | app/src/main/java/com/boaxente/riffle/ui/screen/HomeScreen.kt:536 | Summing the unread counts over one more source adds its count (0 when it has none). |
| HomeScreen.DistinctSnoc | app/src/main/java/com/boaxente/riffle/ui/screen/HomeScreen.kt:534-560 | Dropping the last of a list of distinct feed URLs keeps them distinct and removes exactly that URL. |
| HomeScreen.SourcesIn | app/src/main/java/com/boaxente/riffle/ui/screen/HomeScreen.kt:674-682 | The sources a view shows: all of them, those of a folder, the one selected, none for the saved list. |
| HomeScreen.SumOverIgnores | app/src/main/java/com/boaxente/riffle/ui/screen/HomeScreen.kt:681 | Counts of URLs outside the list do not change its sum. |
| HomeScreen.TotalIsSumOverSources | app/src/main/java/com/boaxente/riffle/ui/screen/HomeScreen.kt:476 | When every counted URL belongs to one of the (distinct) sources, the all-feeds total is the sum over the sources. |
| HomeScreen.SumOverOneSource | app/src/main/java/com/boaxente/riffle/ui/screen/HomeScreen.kt:681 | Summing over the one selected source gives its count, or 0 when it is not a source. |
| HomeScreen.NothingSaved | app/src/main/java/com/boaxente/riffle/ui/screen/HomeScreen.kt:675 | The saved list shows no source, so its header count is 0. |
| HomeScreen.HeaderCountsShownSources | app/src/main/java/com/boaxente/riffle/ui/screen/HomeScreen.kt:674-682 | The header count of every view is the sum of the unread counts of the sources that view shows. |
| HomeScreen.AllCovered | app/src/main/java/com/boaxente/riffle/ui/screen/HomeScreen.kt:676 | The all-feeds view shows every source. |
| HomeScreen.DrawerFolders | app/src/main/java/com/boaxente/riffle/ui/screen/HomeScreen.kt:534-536 | One drawer entry per folder, in order, holding exactly the sources filed in it and the sum of their unread counts. |
| HomeScreen.Orphans | app/src/main/java/com/boaxente/riffle/ui/screen/HomeScreen.kt:560 | The uncategorized sources are exactly those without a folder. |
| HomeScreen.SourcesInSnoc | app/src/main/java/com/boaxente/riffle/ui/screen/HomeScreen.kt:535 | Filtering one more source appends it exactly when the view covers it. |
| HomeScreen.OrphansSnoc | app/src/main/java/com/boaxente/riffle/ui/screen/HomeScreen.kt:560 | Filtering one more source appends it exactly when it has no folder. |
| HomeScreen.BadgeSnoc | app/src/main/java/com/boaxente/riffle/ui/screen/HomeScreen.kt:535-536 | One more source raises a folder's badge by its count exactly when it is filed in that folder. |
| HomeScreen.BadgesSnoc | app/src/main/java/com/boaxente/riffle/ui/screen/HomeScreen.kt:534-536 | One more source raises the folder badges' total by its count exactly when it is filed in a listed folder. |
| HomeScreen.DrawerPartitionsCounts | app/src/main/java/com/boaxente/riffle/ui/screen/HomeScreen.kt:534-560 | When every folder a source names is listed once, the folder badges plus the uncategorized counts add up to the sum over all sources. |
| HomeScreen.BadgesEmpty | app/src/main/java/com/boaxente/riffle/ui/screen/HomeScreen.kt:534-536 | With no sources every badge is 0. |
| HomeScreen.AllFeedsBadge | app/src/main/java/com/boaxente/riffle/ui/screen/HomeScreen.kt:476-560 | The all-feeds badge equals the folder badges plus the uncategorized sources' counts. |
| HomeScreen.UnreadBetweenMeaning | app/src/main/java/com/boaxente/riffle/ui/screen/HomeScreen.kt:1533-1537 | A link is marked exactly when an unread article at a position between the last processed and the current first visible one, inside the list, has it. |
| HomeScreen.UnreadBetweenSplit | app/src/main/java/com/boaxente/riffle/ui/screen/HomeScreen.kt:1533-1537 | Marking from x to y and then from y to z marks what marking from x to z does. |
| HomeScreen.ArticleList.constructor | app/src/main/java/com/boaxente/riffle/ui/screen/HomeScreen.kt:1520 | The last processed position starts at the first visible one. |
| HomeScreen.ArticleList.OnArticlesChanged | app/src/main/java/com/boaxente/riffle/ui/screen/HomeScreen.kt:1522-1524 | A new article list resets the last processed position to the first visible one. |
| HomeScreen.ArticleList.OnFirstVisibleChanged | app/src/main/java/com/boaxente/riffle/ui/screen/HomeScreen.kt:1519-1541 | With marking on, outside the saved list and not refreshing, a scroll forward marks the unread articles passed over and the position is recorded; otherwise nothing is marked or recorded. |
| HomeScreen.ArticleList.OnLastVisibleChanged | app/src/main/java/com/boaxente/riffle/ui/screen/HomeScreen.kt:1507-1514 | More articles are requested exactly when the last visible index changed and lies within 5 of the end. |
| HomeScreen.OnToggleSave | app/src/main/java/com/boaxente/riffle/ui/screen/HomeScreen.kt:770-774 | Toggling save flips the flag; removing an article from the saved list also marks it read. |
| HomeScreen.UnsaveFromSavedView | app/src/main/java/com/boaxente/riffle/ui/screen/HomeScreen.kt:770-774 | Removing an article from the saved list clears its saved flag, sets it read, and changes nothing else. |

## Left out

- Network, threads and coroutines are not modelled. This covers feed downloads, favicon probes, the AI and search services, Firestore reads, listeners and debouncing. Their answers are parameters, and each operation is modelled as if it ran to completion without interleaving.
- Authentication (`signIn`, `signOut`) is left out. The signed-in account is an `Option` parameter.
- Kotlin `ignoreCase` comparisons and `lowercase()` are modelled as ASCII case folding only. Full Unicode case mapping is not modelled.
- Dates, `parseDate` and `Timestamp.now()` are reduced to integer milliseconds passed in. Date-string parsing is not modelled.
- The newest `ArticleEntity` is not part of this model, and its `hasVideo` column is left out. The article row follows `app/src/main/java/com/example/inoreaderlite/data/local/entity/ArticleEntity.kt`.
- `FeedDao.kt` in the newest generation does not declare `markArticlesAsRead(list)` or `getLastArticleDates`, although its callers use them. `markArticlesAsRead` is modelled as the statement its callers rely on: mark exactly those links read. The rows of `getLastArticleDates` (a source and its newest `pubDate`) are a parameter of the health computation.
- The first generation deleted folders with `SET NULL` (`app/build/generated/ksp/debug/java/com/example/inoreaderlite/data/local/AppDatabase_Impl.java:41`). That rule is not modelled; the newest `CASCADE` rule is.
- The MD5 `hashString` that names an article's comment collection is not modelled. The comment repository models the collection of one article.
- `getCommentCount`, `saveUserInteraction` and the deletion of the interaction documents inside `deleteComment` are left out. They keep counts for other screens and change no comment.
- Comments.Descendants: deeper levels are looked up among the comments not yet collected. This guards against a cycle of parent links. On acyclic data it gives what `getAllDescendants` does; on a cycle the source would not terminate.
- Comments.BuildNode: the same guard as `Descendants`. `buildCommentTree` is private and has no caller in the source.
- CommentsViewModel.MergeTree: a reply id is not expanded again below itself, which guards the recursion on a cycle. On acyclic data the two agree.
- The order of Firestore query results is modelled as insertion order. A new comment is appended to its collection.
- The exception texts Firestore would raise are modelled by kind (`NotSignedIn`, `MissingDocument`), not by message.
- `LinkedHashMap` iteration order in `groupBy` is modelled as the order authors first appear.
- `distinctUntilChanged` on the list state flows is modelled only where it decides an outcome (the load-more trigger). Elsewhere repeated equal states are harmless.
- The cloud echo is not modelled: a write to Firestore coming back through a listener as a new snapshot. Each listener callback is modelled on the snapshot it receives.
- Upload-only cloud calls are not modelled. These are `saveArticleToCloud`, `removeSavedArticleFromCloud`, `updateSourceFolderInCloud`, `updateSourceTitleInCloud`, `updateSourceIconInCloud`, `updateSettingInCloud`, `addSourceToCloud` and `deleteSourceFromCloud`. They are returned as `CloudOp` values where the repository issues them.
- The JSON and Gson encoding of backups is not modelled. A backup is its decoded value.
- Several view-model members only forward to the repository, the DAO or the preferences manager, which are modelled themselves. Of the newest generation these are `addSource`, `addFolder`, `renameSource`, `moveSourceToFolder`, `toggleDarkMode`, `toggleMarkAsReadOnScroll`, `updateGeminiApiKey`, `setLanguage`, `setSyncInterval`, `sync`, `getArticle`, `getArticleWithSource`, `clearSummary`, `clearFeedSearch`, `clearSourceAdditionState` and `markStartupScrollPerformed`. The same holds in the two earlier generations.
- The second generation's `sync` also calls `deleteOldArticles`, and its `deleteReadArticles` issues a DAO statement. Neither statement is declared in the newest DAO, and both are left out.
- The second generation's `summarizeArticle` is the same fallback loop as the newest one. Only the newest is modelled.
- `markAllAsRead` in the second generation ends with a `sync()`, which is left out with `sync`.
- Repository.AddSource: the source row is stored with the corrected upsert. The program's `insertSource` at app/src/main/java/com/boaxente/riffle/data/repository/FeedRepositoryImpl.kt:58 is a REPLACE. Re-adding a stored url therefore deletes its articles first, and only the feed's rows come back, with the feed's flags. `Repository.AddSourceAsWrittenLoss` states that effect. The `applyRemoteStates` call that follows (app/src/main/java/com/boaxente/riffle/data/repository/FeedRepositoryImpl.kt:62, and :134 in `syncSource`) is modelled as `FirestoreSync.FirestoreHelper.ApplyRemoteStates` run to completion right after the article insert.
- Repository.SyncSource: `applyRemoteStates` launches a coroutine; the model runs it to completion before the icon update, so its interleaving with later writes and with other sources' refreshes is not modelled. A missing helper is modelled as empty caches.
- Repository.ProcessSource: moving a stored source to another folder uses the corrected upsert. The program's REPLACE at app/src/main/java/com/boaxente/riffle/data/repository/FeedRepositoryImpl.kt:207 deletes that source's articles. `Repository.ProcessSourceAsWrittenLoss` states that effect.
- Repository.ProcessSourceEffect: "no article changes" holds for the corrected upsert only. As written, a move deletes the moved source's articles (`Repository.ProcessSourceAsWrittenLoss`).
- Repository.ImportChildrenEffect: the same gap as `ProcessSourceEffect`. As written, each stored child moved into the folder loses its articles.
- Repository.ImportItemsEffect: the same gap. As written, the import deletes the articles of every stored subscription it moves to another folder.
- Repository.ImportOpml: it is built on `Repository.ProcessSource` and has the same gap.
- Backup.UpsertSourcesEffect: restoring sources uses the corrected upsert. The program's REPLACE at app/src/main/java/com/boaxente/riffle/data/local/BackupManager.kt:70 deletes every stored article of each restored url. `Backup.ReplaceSourcesLoss` states that effect.
- Backup.UpsertSourcesKeeps: the same gap. As written, the articles of restored urls are deleted.
- Backup.RestoreKeepsStored: this holds for the corrected upsert. As written, a stored article of a restored source survives only as one of the backup's saved rows (`Backup.RestoreAsWrittenLoss`).
- Backup.ImportBackup: it is built on the corrected restore and has the same gap.
- FirestoreSync.ApplyFeedDocEffect: the insert and the rewrite use the corrected upsert. The program's REPLACE at app/src/main/java/com/boaxente/riffle/data/remote/FirestoreHelper.kt:117 and app/src/main/java/com/boaxente/riffle/data/remote/FirestoreHelper.kt:128 deletes the articles of each source it writes. `FirestoreSync.ApplyFeedDocAsWrittenLoss` states that effect. `FirestoreSync.MissingTitleLoss` shows a source whose remote document has no title losing its articles on every snapshot.
- FirestoreSync.ApplyFeedDocsEffect: the same gap, for every document that writes a source row.
- FirestoreSync.ReconcileFeedsEffect: the same gap. As written, the articles of every remote source the listener rewrites are deleted as well, not only those of removed sources.
- FirestoreSync.ApplyFeedDocTo: it is built on `ApplyFeedDoc` and has the same gap.
- FirestoreSync.FirestoreHelper.OnFeeds: it is built on the corrected listener and has the same gap.
- The placeholder source of the saved-articles listener is inserted only for a url that is not stored. With no stored articles of that url, REPLACE and the upsert agree there (`FeedStore.ReplaceIsUpsertThenCascade`).
- RssParser.Truncate: lengths are counted in Dafny `char`s. Kotlin's `length` and `substring` count UTF-16 code units, so there a character outside the Basic Multilingual Plane counts as two, and the cut can split its surrogate pair. The model does not capture that.
- RssParser.ReadText: it cuts with `Truncate` and has the same gap.
- Numbers.ToLongOrNull: only ASCII digits are accepted. Kotlin's `toLongOrNull` also accepts the other Unicode decimal digits, which the model rejects.
- The Compose layout, toasts, text-to-speech, sharing and the trust-all TLS socket factory are left out.

## Findings

| source | as written | input that shows it | evidently intended | confidence | as-written member | corrected member |
|---|---|---|---|---|---|---|
| app/src/main/java/com/boaxente/riffle/data/local/dao/FeedDao.kt:91-92 | `insertSource` uses `OnConflictStrategy.REPLACE`. SQLite carries out `REPLACE` by deleting the old row, and the articles' `ON DELETE CASCADE` then deletes every article of that source, read and saved ones included. Callers use it to add a source or update a known one: `addSource` (app/src/main/java/com/boaxente/riffle/data/repository/FeedRepositoryImpl.kt:58), OPML import (app/src/main/java/com/boaxente/riffle/data/repository/FeedRepositoryImpl.kt:203, app/src/main/java/com/boaxente/riffle/data/repository/FeedRepositoryImpl.kt:207), backup restore (app/src/main/java/com/boaxente/riffle/data/local/BackupManager.kt:70) and the cloud feeds listener (app/src/main/java/com/boaxente/riffle/data/remote/FirestoreHelper.kt:117, app/src/main/java/com/boaxente/riffle/data/remote/FirestoreHelper.kt:128). The rows below give the effect at each caller. | A store with folder "f", source "u" without a folder, and a saved, read article "l" of "u". Re-inserting "u" into folder "f" removes article "l". | An insert-or-update that replaces the source row and keeps its articles | not executed | FeedStore.InsertSourceReplaceCounterexample | FeedStore.UpsertSourceEffect |
| app/src/main/java/com/boaxente/riffle/data/repository/FeedRepositoryImpl.kt:58 | `addSource` stores its row with the REPLACE insert before the feed's articles. | A store with source "u" and a saved, read article "l" of "u"; the fetched feed lists "l" unsaved and unread, and the helper's saved cache does not hold "l" (for example, no user is signed in). After re-adding "u", "l" is unsaved. | Re-adding a feed keeps the stored articles and their flags | not executed | Repository.AddSourceAsWrittenCounterexample | Repository.AddSourceKeepsStored |
| app/src/main/java/com/boaxente/riffle/data/repository/FeedRepositoryImpl.kt:207 | `processSource` moves a stored source to the OPML item's folder with the REPLACE insert. | A consistent store in which a stored source with articles is imported into another existing folder. Every article of that source is deleted. | The move changes only the folder of the row | not executed | Repository.ProcessSourceAsWrittenLoss | Repository.ProcessSourceEffect |
| app/src/main/java/com/boaxente/riffle/data/local/BackupManager.kt:70 | A restore stores each backed-up source with the REPLACE insert. | A store holding a read, unsaved article of a source that the backup also holds. After the restore, the article is gone. | Restoring keeps the articles already stored | not executed | Backup.ReplaceSourcesLoss | Backup.UpsertSourcesKeeps |
| app/src/main/java/com/boaxente/riffle/data/remote/FirestoreHelper.kt:119-128 | The feeds listener rewrites a stored source with the REPLACE insert whenever it needs an update. A document without a title always needs one, because a null title differs from every stored title. | A stored source without a folder, and its remote document with no title, folder or icon. Each snapshot stores the same row again and deletes the source's articles. | A rewrite that changes only the row, and none when nothing changed | not executed | FirestoreSync.MissingTitleLoss | FirestoreSync.ApplyFeedDocEffect |
