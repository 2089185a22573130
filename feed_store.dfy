/** The local database: the `folders`, `sources` and `articles` tables, their
    key and foreign-key rules, and every statement the DAO issues against them.
    The tables are values here (`Tables`) and each statement is a function from
    the tables before to the tables after. The `FeedDao` class (module `Dao`)
    holds the tables in its fields and is proved against these functions. */
module FeedStore {
  import opened Wrappers
  import opened Entities

  /** The three tables, each keyed by its primary key. */
  datatype Tables = Tables(folders: set<string>, sources: map<string, Source>, articles: map<string, Article>)

  /** Why a statement aborts (its transaction is rolled back). */
  datatype DbError = ForeignKeyViolation | PrimaryKeyViolation

  /** Keys agree with the rows, a source's folder exists, an article's source exists. */
  predicate Consistent(t: Tables) {
    (forall u :: u in t.sources ==> t.sources[u].url == u)
    && (forall u :: u in t.sources && t.sources[u].folderName.Some? ==> t.sources[u].folderName.value in t.folders)
    && (forall l :: l in t.articles ==> t.articles[l].link == l && t.articles[l].sourceUrl in t.sources)
  }

  const Empty := Tables({}, map[], map[])

  /** The rows a bulk UPDATE or a query selects. */
  datatype Scope =
    | AllArticles             // every article
    | OfSource(url: string)   // `WHERE sourceUrl = :sourceUrl`
    | OfFolder(name: string)  // joined with `sources` on `folderName = :folderName`
    | Saved                   // `WHERE isSaved = 1`

  predicate InScope(sources: map<string, Source>, sc: Scope, a: Article) {
    match sc
    case AllArticles => true
    case OfSource(u) => a.sourceUrl == u
    case OfFolder(f) => a.sourceUrl in sources && sources[a.sourceUrl].folderName == Some(f)
    case Saved => a.isSaved
  }

  // ---------------------------------------------------------------------------
  // Articles

  /** `INSERT OR IGNORE` of each row in turn: a row whose link is stored is
      skipped; a row that would be stored but names no existing source aborts
      the statement, and the surrounding transaction rolls every row back. */
  function InsertArticleRows(sources: map<string, Source>, arts: map<string, Article>, batch: seq<Article>): Result<map<string, Article>, DbError>
    decreases |batch|
  {
    if |batch| == 0 then Ok(arts)
    else if batch[0].link in arts then InsertArticleRows(sources, arts, batch[1..])
    else if batch[0].sourceUrl !in sources then Err(ForeignKeyViolation)
    else InsertArticleRows(sources, arts[batch[0].link := batch[0]], batch[1..])
  }

  function InsertArticles(t: Tables, batch: seq<Article>): Result<Tables, DbError> {
    match InsertArticleRows(t.sources, t.articles, batch)
    case Ok(arts) => Ok(t.(articles := arts))
    case Err(e) => Err(e)
  }

  /** Re-inserting never changes a stored article, so read and saved flags
      survive re-ingestion; every row of the batch is then stored under its link. */
  lemma {:induction false} InsertArticleRowsKeeps(sources: map<string, Source>, arts: map<string, Article>, batch: seq<Article>)
    requires InsertArticleRows(sources, arts, batch).Ok?
    ensures var r := InsertArticleRows(sources, arts, batch).value;
      && (forall l :: l in arts ==> l in r && r[l] == arts[l])
      && (forall i :: 0 <= i < |batch| ==> batch[i].link in r)
      && (forall l :: l in r ==> l in arts || exists i :: 0 <= i < |batch| && batch[i] == r[l])
    decreases |batch|
  {
    if |batch| > 0 {
      var arts' := if batch[0].link in arts then arts else arts[batch[0].link := batch[0]];
      InsertArticleRowsKeeps(sources, arts', batch[1..]);
      var r := InsertArticleRows(sources, arts, batch).value;
      forall i | 0 <= i < |batch| ensures batch[i].link in r {
        if i > 0 {
          assert batch[i] == batch[1..][i - 1];
        }
      }
      forall l | l in r && l !in arts ensures exists i :: 0 <= i < |batch| && batch[i] == r[l] {
        if l in arts' {
          assert batch[0] == r[l];
        } else {
          var i :| 0 <= i < |batch[1..]| && batch[1..][i] == r[l];
          assert batch[i + 1] == r[l];
        }
      }
    }
  }

  /** Row `i` of the batch is not yet stored (by an earlier row or before) and
      names an unknown source. */
  predicate FailsAt(sources: map<string, Source>, arts: map<string, Article>, batch: seq<Article>, i: int)
  {
    0 <= i < |batch| && batch[i].sourceUrl !in sources && batch[i].link !in arts
    && forall j :: 0 <= j < i ==> batch[j].link != batch[i].link
  }

  /** The batch aborts exactly when some row fails as above. */
  lemma {:induction false} InsertArticleRowsFails(sources: map<string, Source>, arts: map<string, Article>, batch: seq<Article>)
    requires forall l :: l in arts ==> arts[l].sourceUrl in sources
    ensures InsertArticleRows(sources, arts, batch).Err? <==> exists i :: FailsAt(sources, arts, batch, i)
    decreases |batch|
  {
    if |batch| > 0 {
      var arts' := if batch[0].link in arts then arts else arts[batch[0].link := batch[0]];
      if batch[0].link !in arts && batch[0].sourceUrl !in sources {
        assert FailsAt(sources, arts, batch, 0);
      } else {
        InsertArticleRowsFails(sources, arts', batch[1..]);
        assert !FailsAt(sources, arts, batch, 0);
        if exists i :: FailsAt(sources, arts, batch, i) {
          var i :| FailsAt(sources, arts, batch, i);
          FailsAtShift(sources, arts, batch, i - 1);
        }
        if exists i :: FailsAt(sources, arts', batch[1..], i) {
          var i :| FailsAt(sources, arts', batch[1..], i);
          FailsAtShift(sources, arts, batch, i);
        }
      }
    }
  }

  /** After a first row that is stored, row `i + 1` of the batch fails exactly
      when row `i` of the rest fails against the updated table. */
  lemma FailsAtShift(sources: map<string, Source>, arts: map<string, Article>, batch: seq<Article>, i: int)
    requires |batch| > 0 && 0 <= i
    ensures var arts' := if batch[0].link in arts then arts else arts[batch[0].link := batch[0]];
      FailsAt(sources, arts', batch[1..], i) <==> FailsAt(sources, arts, batch, i + 1)
  {
    var rest := batch[1..];
    if i < |rest| {
      assert rest[i] == batch[i + 1];
      assert forall j :: 0 <= j < i ==> rest[j] == batch[j + 1];
      var arts' := if batch[0].link in arts then arts else arts[batch[0].link := batch[0]];
      if FailsAt(sources, arts', rest, i) {
        assert batch[0].link in arts';
        forall j | 0 <= j < i + 1 ensures batch[j].link != batch[i + 1].link {
          if j > 0 {
            assert rest[j - 1] == batch[j];
          }
        }
      }
    }
  }

  /** Inserting the same batch a second time changes nothing. */
  lemma {:induction false} InsertArticleRowsIdempotent(sources: map<string, Source>, arts: map<string, Article>, batch: seq<Article>)
    requires InsertArticleRows(sources, arts, batch).Ok?
    ensures var r := InsertArticleRows(sources, arts, batch).value;
      InsertArticleRows(sources, r, batch) == Ok(r)
  {
    var r := InsertArticleRows(sources, arts, batch).value;
    InsertArticleRowsKeeps(sources, arts, batch);
    AllStoredIsNoop(sources, r, batch);
  }

  lemma {:induction false} AllStoredIsNoop(sources: map<string, Source>, arts: map<string, Article>, batch: seq<Article>)
    requires forall i :: 0 <= i < |batch| ==> batch[i].link in arts
    ensures InsertArticleRows(sources, arts, batch) == Ok(arts)
  {
    if |batch| > 0 {
      forall i | 0 <= i < |batch[1..]| ensures batch[1..][i].link in arts {
        assert batch[1..][i] == batch[i + 1];
      }
      AllStoredIsNoop(sources, arts, batch[1..]);
    }
  }

  /** `DELETE FROM articles`. */
  function ClearAllArticles(t: Tables): Tables {
    t.(articles := map[])
  }

  /** `UPDATE articles SET isRead = 1` on the rows in scope. */
  function MarkRead(t: Tables, sc: Scope): Tables {
    t.(articles := map l | l in t.articles ::
         if InScope(t.sources, sc, t.articles[l]) then t.articles[l].(isRead := true) else t.articles[l])
  }

  /** `UPDATE articles SET isRead = 1 WHERE link = :link`. */
  function MarkArticleRead(t: Tables, link: string): Tables {
    if link in t.articles then t.(articles := t.articles[link := t.articles[link].(isRead := true)]) else t
  }

  /** `UPDATE articles SET isRead = 1 WHERE link IN (:links)`. */
  function MarkLinksRead(t: Tables, links: set<string>): Tables {
    t.(articles := map l | l in t.articles :: if l in links then t.articles[l].(isRead := true) else t.articles[l])
  }

  /** `UPDATE articles SET isSaved = :isSaved WHERE link = :link`. */
  function SetSaved(t: Tables, link: string, isSaved: bool): Tables {
    if link in t.articles then t.(articles := t.articles[link := t.articles[link].(isSaved := isSaved)]) else t
  }

  /** Marking read touches only the isRead flag of the rows in scope: the
      same links, every other field and every other row unchanged, and no
      row in scope is left unread. */
  lemma MarkReadEffect(t: Tables, sc: Scope)
    ensures var t' := MarkRead(t, sc);
      && t'.folders == t.folders && t'.sources == t.sources
      && t'.articles.Keys == t.articles.Keys
      && (forall l :: l in t.articles ==> t'.articles[l] == t.articles[l].(isRead := t.articles[l].isRead || InScope(t.sources, sc, t.articles[l])))
  {
  }

  lemma MarkArticleReadEffect(t: Tables, link: string)
    ensures var t' := MarkArticleRead(t, link);
      && t'.folders == t.folders && t'.sources == t.sources
      && t'.articles.Keys == t.articles.Keys
      && (forall l :: l in t.articles ==> t'.articles[l] == t.articles[l].(isRead := t.articles[l].isRead || l == link))
  {
  }

  /** Changing the saved flag of an unknown link changes nothing; otherwise
      only that flag of that row changes. */
  lemma SetSavedEffect(t: Tables, link: string, isSaved: bool)
    ensures link !in t.articles ==> SetSaved(t, link, isSaved) == t
    ensures var t' := SetSaved(t, link, isSaved);
      && t'.articles.Keys == t.articles.Keys
      && (forall l :: l in t.articles ==> t'.articles[l] == (if l == link then t.articles[l].(isSaved := isSaved) else t.articles[l]))
  {
  }

  /** Longest description kept by `cleanupHugeArticles`. */
  const MaxDescription := 100000

  function Clip(a: Article): Article {
    if a.description.Some? && |a.description.value| > MaxDescription
    then a.(description := Some(a.description.value[..MaxDescription]))
    else a
  }

  /** `UPDATE articles SET description = SUBSTR(description, 1, 100000) WHERE LENGTH(description) > 100000`. */
  function CleanupHugeArticles(t: Tables): Tables {
    t.(articles := map l | l in t.articles :: Clip(t.articles[l]))
  }

  /** Afterwards every description fits; long ones keep their first 100000
      characters, other rows are untouched. */
  lemma CleanupHugeEffect(t: Tables)
    ensures var t' := CleanupHugeArticles(t);
      && t'.articles.Keys == t.articles.Keys
      && (forall l :: l in t'.articles && t'.articles[l].description.Some? ==> |t'.articles[l].description.value| <= MaxDescription)
      && (forall l :: l in t.articles ==>
            var a, a' := t.articles[l], t'.articles[l];
            if a.description.Some? && |a.description.value| > MaxDescription
            then a' == a.(description := a'.description) && a'.description.value == a.description.value[..MaxDescription]
            else a' == a)
  {
  }

  // ---------------------------------------------------------------------------
  // Sources and folders

  /** `DELETE FROM sources WHERE url = :url`, with the articles' ON DELETE CASCADE. */
  function DeleteSource(t: Tables, url: string): Tables {
    Tables(t.folders, t.sources - {url}, map l | l in t.articles && t.articles[l].sourceUrl != url :: t.articles[l])
  }

  /** The folder a source row names exists (or it names none). */
  predicate FolderExists(t: Tables, folderName: Option<string>) {
    folderName.None? || folderName.value in t.folders
  }

  /** `INSERT OR REPLACE INTO sources`, as SQLite runs it: a row with the same
      url is deleted first — which cascades to its articles — and the new row
      is inserted; a folder that does not exist aborts the statement. */
  function InsertSourceReplace(t: Tables, s: Source): Result<Tables, DbError> {
    if !FolderExists(t, s.folderName) then Err(ForeignKeyViolation)
    else
      var d := DeleteSource(t, s.url);
      Ok(d.(sources := d.sources[s.url := s]))
  }

  /** The evidently intended insert-or-update of a source row: the row is
      replaced and its articles stay. */
  function UpsertSource(t: Tables, s: Source): Result<Tables, DbError> {
    if !FolderExists(t, s.folderName) then Err(ForeignKeyViolation)
    else Ok(t.(sources := t.sources[s.url := s]))
  }

  /** Both inserts store exactly the given row under its url and leave the
      other source rows alone; the upsert keeps every article. */
  lemma UpsertSourceEffect(t: Tables, s: Source)
    ensures UpsertSource(t, s).Ok? <==> FolderExists(t, s.folderName)
    ensures UpsertSource(t, s).Ok? ==>
      var t' := UpsertSource(t, s).value;
      && t'.sources[s.url] == s
      && (forall u :: u in t.sources && u != s.url ==> u in t'.sources && t'.sources[u] == t.sources[u])
      && t'.sources.Keys == t.sources.Keys + {s.url}
      && t'.articles == t.articles && t'.folders == t.folders
  {
  }

  /** The statement as written drops every article of a source that is
      re-inserted, read and saved ones included. */
  lemma InsertSourceReplaceDropsArticles(t: Tables, s: Source)
    requires FolderExists(t, s.folderName)
    ensures var t' := InsertSourceReplace(t, s).value;
      && t'.sources[s.url] == s
      && (forall u :: u in t.sources && u != s.url ==> u in t'.sources && t'.sources[u] == t.sources[u])
      && (forall l :: l in t'.articles <==> l in t.articles && t.articles[l].sourceUrl != s.url)
  {
  }

  /** The statement as written is the upsert followed by the cascade: it fails
      exactly when the upsert fails, and otherwise leaves the upsert's folders
      and sources but only the articles of the other sources. A url with no
      stored article is re-inserted with no loss. */
  lemma ReplaceIsUpsertThenCascade(t: Tables, s: Source)
    ensures InsertSourceReplace(t, s).Ok? <==> UpsertSource(t, s).Ok?
    ensures InsertSourceReplace(t, s).Ok? ==>
      InsertSourceReplace(t, s).value == UpsertSource(t, s).value.(articles := DeleteSource(t, s.url).articles)
    ensures (forall l :: l in t.articles ==> t.articles[l].sourceUrl != s.url) ==> InsertSourceReplace(t, s) == UpsertSource(t, s)
  {
    if (forall l :: l in t.articles ==> t.articles[l].sourceUrl != s.url) {
      assert DeleteSource(t, s.url).articles == t.articles;
    }
  }

  /** A concrete case: moving a stored source to another folder by
      re-inserting it deletes its saved article. */
  lemma InsertSourceReplaceCounterexample()
    ensures var s := Source("u", "T", None, None);
      var a := Article("l", "A", None, 0, "u", None, true, true);
      var t := Tables({"f"}, map["u" := s], map["l" := a]);
      && Consistent(t)
      && InsertSourceReplace(t, s.(folderName := Some("f"))).Ok?
      && "l" !in InsertSourceReplace(t, s.(folderName := Some("f"))).value.articles
      && "l" in UpsertSource(t, s.(folderName := Some("f"))).value.articles
  {
  }

  /** `UPDATE sources SET folderName = :folderName WHERE url = :url`: an update
      of no row changes nothing; a folder that does not exist aborts. */
  function UpdateSourceFolder(t: Tables, url: string, folderName: Option<string>): Result<Tables, DbError> {
    if url !in t.sources then Ok(t)
    else if !FolderExists(t, folderName) then Err(ForeignKeyViolation)
    else Ok(t.(sources := t.sources[url := t.sources[url].(folderName := folderName)]))
  }

  /** `UPDATE sources SET title = :newTitle WHERE url = :url`. */
  function UpdateSourceTitle(t: Tables, url: string, title: string): Tables {
    if url in t.sources then t.(sources := t.sources[url := t.sources[url].(title := title)]) else t
  }

  /** `UPDATE sources SET iconUrl = :iconUrl WHERE url = :url`. */
  function UpdateSourceIcon(t: Tables, url: string, iconUrl: Option<string>): Tables {
    if url in t.sources then t.(sources := t.sources[url := t.sources[url].(iconUrl := iconUrl)]) else t
  }

  /** `INSERT OR IGNORE INTO folders`. */
  function InsertFolder(t: Tables, name: string): Tables {
    t.(folders := t.folders + {name})
  }

  /** `DELETE FROM folders WHERE name = :name`: the sources filed under it go
      (ON DELETE CASCADE), and with them their articles. */
  function DeleteFolder(t: Tables, name: string): Tables {
    var gone := set u | u in t.sources && t.sources[u].folderName == Some(name);
    Tables(t.folders - {name},
           map u | u in t.sources && u !in gone :: t.sources[u],
           map l | l in t.articles && t.articles[l].sourceUrl !in gone :: t.articles[l])
  }

  /** `UPDATE folders SET name = :newName WHERE name = :oldName`: renaming onto
      another existing folder is a key conflict; the sources follow the new
      name (ON UPDATE CASCADE). */
  function RenameFolder(t: Tables, oldName: string, newName: string): Result<Tables, DbError> {
    if oldName !in t.folders || oldName == newName then Ok(t)
    else if newName in t.folders then Err(PrimaryKeyViolation)
    else Ok(Tables(t.folders - {oldName} + {newName},
                   map u | u in t.sources ::
                     if t.sources[u].folderName == Some(oldName) then t.sources[u].(folderName := Some(newName)) else t.sources[u],
                   t.articles))
  }

  /** Inserting a folder that exists is a no-op. */
  lemma InsertFolderIdempotent(t: Tables, name: string)
    ensures name in t.folders ==> InsertFolder(t, name) == t
    ensures name in InsertFolder(t, name).folders
  {
  }

  /** Deleting a source removes that row only, with exactly its articles. */
  lemma DeleteSourceEffect(t: Tables, url: string)
    ensures var t' := DeleteSource(t, url);
      && t'.sources.Keys == t.sources.Keys - {url}
      && (forall u :: u in t'.sources ==> t'.sources[u] == t.sources[u])
      && (forall l :: l in t'.articles <==> l in t.articles && t.articles[l].sourceUrl != url)
      && (forall l :: l in t'.articles ==> t'.articles[l] == t.articles[l])
  {
  }

  /** Deleting a folder deletes every source filed under it and every article
      of those sources, and nothing else. */
  lemma DeleteFolderEffect(t: Tables, name: string)
    ensures var t' := DeleteFolder(t, name);
      && t'.folders == t.folders - {name}
      && (forall u :: u in t'.sources <==> u in t.sources && t.sources[u].folderName != Some(name))
      && (forall u :: u in t'.sources ==> t'.sources[u] == t.sources[u])
      && (forall l :: l in t'.articles <==>
            l in t.articles && !(t.articles[l].sourceUrl in t.sources && t.sources[t.articles[l].sourceUrl].folderName == Some(name)))
      && (forall l :: l in t'.articles ==> t'.articles[l] == t.articles[l])
  {
  }

  /** Renaming keeps every source of the folder attached under the new name. */
  lemma RenameFolderEffect(t: Tables, oldName: string, newName: string)
    requires oldName in t.folders && oldName != newName
    ensures RenameFolder(t, oldName, newName).Err? <==> newName in t.folders
    ensures RenameFolder(t, oldName, newName).Ok? ==>
      var t' := RenameFolder(t, oldName, newName).value;
      && t'.folders == t.folders - {oldName} + {newName}
      && t'.sources.Keys == t.sources.Keys && t'.articles == t.articles
      && (forall u :: u in t.sources ==>
            t'.sources[u].folderName == (if t.sources[u].folderName == Some(oldName) then Some(newName) else t.sources[u].folderName))
  {
  }

  // ---------------------------------------------------------------------------
  // Every statement keeps the tables consistent

  lemma InsertArticlesConsistent(t: Tables, batch: seq<Article>)
    requires Consistent(t) && InsertArticles(t, batch).Ok?
    ensures Consistent(InsertArticles(t, batch).value)
  {
    InsertArticleRowsSources(t.sources, t.articles, batch);
  }

  lemma {:induction false} InsertArticleRowsSources(sources: map<string, Source>, arts: map<string, Article>, batch: seq<Article>)
    requires forall l :: l in arts ==> arts[l].link == l && arts[l].sourceUrl in sources
    requires InsertArticleRows(sources, arts, batch).Ok?
    ensures var r := InsertArticleRows(sources, arts, batch).value;
      forall l :: l in r ==> r[l].link == l && r[l].sourceUrl in sources
    decreases |batch|
  {
    if |batch| > 0 {
      if batch[0].link in arts {
        InsertArticleRowsSources(sources, arts, batch[1..]);
      } else {
        InsertArticleRowsSources(sources, arts[batch[0].link := batch[0]], batch[1..]);
      }
    }
  }

  lemma ArticleUpdatesConsistent(t: Tables)
    requires Consistent(t)
    ensures Consistent(ClearAllArticles(t))
    ensures forall sc :: Consistent(MarkRead(t, sc))
    ensures forall l :: Consistent(MarkArticleRead(t, l))
    ensures forall l, b :: Consistent(SetSaved(t, l, b))
    ensures Consistent(CleanupHugeArticles(t))
  {
  }

  lemma DeleteSourceConsistent(t: Tables, url: string)
    requires Consistent(t)
    ensures Consistent(DeleteSource(t, url))
  {
  }

  lemma InsertSourceConsistent(t: Tables, s: Source)
    requires Consistent(t)
    ensures UpsertSource(t, s).Ok? ==> Consistent(UpsertSource(t, s).value)
    ensures InsertSourceReplace(t, s).Ok? ==> Consistent(InsertSourceReplace(t, s).value)
  {
  }

  lemma SourceUpdatesConsistent(t: Tables, url: string, f: Option<string>, x: string, icon: Option<string>)
    requires Consistent(t)
    ensures UpdateSourceFolder(t, url, f).Ok? ==> Consistent(UpdateSourceFolder(t, url, f).value)
    ensures Consistent(UpdateSourceTitle(t, url, x))
    ensures Consistent(UpdateSourceIcon(t, url, icon))
  {
  }

  lemma FolderUpdatesConsistent(t: Tables, f: string, g: string)
    requires Consistent(t)
    ensures Consistent(InsertFolder(t, f))
    ensures Consistent(DeleteFolder(t, f))
    ensures RenameFolder(t, f, g).Ok? ==> Consistent(RenameFolder(t, f, g).value)
  {
  }

  // ---------------------------------------------------------------------------
  // Queries

  /** Ordered by `pubDate DESC`; ties in any order. */
  predicate ByDateDesc(r: seq<Article>) {
    forall i, j :: 0 <= i < j < |r| ==> r[i].pubDate >= r[j].pubDate
  }

  predicate DistinctLinks(r: seq<Article>) {
    forall i, j :: 0 <= i < j < |r| ==> r[i].link != r[j].link
  }

  /** The stored rows in scope: `a` is the row stored under its link. */
  predicate Selected(t: Tables, sc: Scope, a: Article) {
    a.link in t.articles && t.articles[a.link] == a && InScope(t.sources, sc, a)
  }

  /** Links of the unread articles of one source. */
  function UnreadLinks(arts: map<string, Article>, url: string): set<string> {
    set l | l in arts && arts[l].sourceUrl == url && !arts[l].isRead
  }

  /** Links of the saved articles. */
  function SavedLinks(arts: map<string, Article>): set<string> {
    set l | l in arts && arts[l].isSaved
  }

  /** After marking everything read no source has an unread article. */
  lemma MarkAllLeavesNoUnread(t: Tables)
    ensures forall u :: UnreadLinks(MarkRead(t, AllArticles).articles, u) == {}
  {
    var t' := MarkRead(t, AllArticles);
    assert forall l :: l in t'.articles ==> t'.articles[l].isRead;
  }

  /** Marking one source read empties its unread set and leaves the others'. */
  lemma MarkSourceUnread(t: Tables, url: string)
    ensures UnreadLinks(MarkRead(t, OfSource(url)).articles, url) == {}
    ensures forall u :: u != url ==> UnreadLinks(MarkRead(t, OfSource(url)).articles, u) == UnreadLinks(t.articles, u)
  {
    var t' := MarkRead(t, OfSource(url));
    assert forall l :: l in t'.articles && t'.articles[l].sourceUrl == url ==> t'.articles[l].isRead;
  }

  /** A list with distinct links, holding exactly the rows of a set of links,
      is as long as that set: `getSavedCount` is the length of `getSavedArticles`. */
  lemma {:induction false} DistinctLinksCount(r: seq<Article>, links: set<string>)
    requires DistinctLinks(r)
    requires forall a :: a in r ==> a.link in links
    requires forall l :: l in links ==> exists a :: a in r && a.link == l
    ensures |r| == |links|
    decreases |r|
  {
    if |r| == 0 {
      assert forall l :: l !in links;
    } else {
      var last := r[|r| - 1];
      var rest := r[..|r| - 1];
      forall a | a in rest ensures a.link in links - {last.link} {
        var i :| 0 <= i < |rest| && rest[i] == a;
        assert r[i] == a;
      }
      forall l | l in links - {last.link} ensures exists a :: a in rest && a.link == l {
        var a :| a in r && a.link == l;
        var i :| 0 <= i < |r| && r[i] == a;
        assert i < |r| - 1;
        assert rest[i] == a;
      }
      DistinctLinksCount(rest, links - {last.link});
    }
  }

  /** Inserts `a` after the rows dated no earlier than it, keeping the list
      ordered newest first. */
  function InsertByDate(r: seq<Article>, a: Article): (r': seq<Article>)
    requires ByDateDesc(r)
    ensures ByDateDesc(r') && multiset(r') == multiset(r) + multiset{a}
    ensures |r'| > 0 && r'[0] == (if |r| > 0 && r[0].pubDate >= a.pubDate then r[0] else a)
  {
    if |r| == 0 then [a]
    else if r[0].pubDate < a.pubDate then
      assert r == [r[0]] + r[1..];
      [a] + r
    else
      var rest := InsertByDate(r[1..], a);
      assert r == [r[0]] + r[1..];
      assert |r| > 1 ==> r[1..][0] == r[1];
      ConsByDate(r[0], rest);
      [r[0]] + rest
  }

  /** A row dated no earlier than the head of an ordered list goes first. */
  lemma ConsByDate(h: Article, t: seq<Article>)
    requires ByDateDesc(t) && (|t| > 0 ==> h.pubDate >= t[0].pubDate)
    ensures ByDateDesc([h] + t)
  {
    var r := [h] + t;
    forall i, j | 0 <= i < j < |r| ensures r[i].pubDate >= r[j].pubDate {
      assert r[j] == t[j - 1];
      if i > 0 {
        assert r[i] == t[i - 1];
      }
    }
  }

  /** Inserting adds exactly the one row. */
  lemma InsertByDateMembers(r: seq<Article>, a: Article)
    requires ByDateDesc(r)
    ensures forall x :: x in InsertByDate(r, a) <==> x in r || x == a
  {
    var r' := InsertByDate(r, a);
    assert forall x :: x in r' <==> x in multiset(r');
    assert forall x :: x in r <==> x in multiset(r);
  }

  /** Inserting a row whose link is new keeps the links distinct. */
  lemma {:induction false} InsertByDateDistinct(r: seq<Article>, a: Article)
    requires ByDateDesc(r) && DistinctLinks(r)
    requires forall x :: x in r ==> x.link != a.link
    ensures DistinctLinks(InsertByDate(r, a))
    decreases |r|
  {
    if |r| > 0 {
      var r' := InsertByDate(r, a);
      var head, tail := r[0], r[1..];
      assert forall k :: 0 <= k < |tail| ==> tail[k] == r[k + 1];
      assert head in r;
      assert forall x :: x in tail ==> x.link != head.link;
      if head.pubDate < a.pubDate {
        assert r' == [a] + r;
      } else {
        var rest := InsertByDate(tail, a);
        assert r' == [head] + rest;
        InsertByDateDistinct(tail, a);
        InsertByDateMembers(tail, a);
        ConsDistinct(head, rest);
      }
    }
  }

  /** A row whose link no later row has keeps the links distinct at the head. */
  lemma ConsDistinct(h: Article, t: seq<Article>)
    requires DistinctLinks(t) && forall x :: x in t ==> x.link != h.link
    ensures DistinctLinks([h] + t)
  {
    var r := [h] + t;
    forall i, j | 0 <= i < j < |r| ensures r[i].link != r[j].link {
      assert r[j] == t[j - 1];
      if i > 0 {
        assert r[i] == t[i - 1];
      }
    }
  }

  /** `getSavedCount` is the length of `getSavedArticles`. */
  lemma SavedCountIsListLength(t: Tables, r: seq<Article>)
    requires Consistent(t)
    requires DistinctLinks(r) && forall a :: a in r <==> Selected(t, Saved, a)
    ensures |r| == |SavedLinks(t.articles)|
  {
    forall l | l in SavedLinks(t.articles) ensures exists a :: a in r && a.link == l {
      assert Selected(t, Saved, t.articles[l]);
    }
    DistinctLinksCount(r, SavedLinks(t.articles));
  }
}
