/** The Room DAO over the local database: an object whose fields are the three
    tables, with one method per DAO member. Each method is proved against the
    statement it issues, as defined in `FeedStore`. */
module Dao {
  import opened Wrappers
  import opened Entities
  import FeedStore

  /** The database behind the DAO. Every statement runs as one transaction:
      it either completes or, on an error, leaves the tables as they were. */
  class FeedDao {
    var folders: set<string>
    var sources: map<string, Source>
    var articles: map<string, Article>

    function Snapshot(): FeedStore.Tables
      reads this
    {
      FeedStore.Tables(folders, sources, articles)
    }

    predicate Valid()
      reads this
    {
      FeedStore.Consistent(Snapshot())
    }

    constructor()
      ensures Snapshot() == FeedStore.Empty && Valid()
    {
      folders, sources, articles := {}, map[], map[];
    }

    /** Stores `t` when `r` is `Ok(t)`; otherwise nothing changes. */
    method Commit(r: Result<FeedStore.Tables, FeedStore.DbError>) returns (err: Option<FeedStore.DbError>)
      modifies this
      ensures r.Ok? ==> Snapshot() == r.value && err.None?
      ensures r.Err? ==> Snapshot() == old(Snapshot()) && err == Some(r.error)
    {
      if r.Ok? {
        folders, sources, articles := r.value.folders, r.value.sources, r.value.articles;
        err := None;
      } else {
        err := Some(r.error);
      }
    }

    /** `insertArticles`: one INSERT OR IGNORE per row inside a transaction. */
    method InsertArticles(batch: seq<Article>) returns (err: Option<FeedStore.DbError>)
      requires Valid()
      modifies this
      ensures Valid()
      ensures match FeedStore.InsertArticles(old(Snapshot()), batch)
        case Ok(t) => err.None? && Snapshot() == t
        case Err(e) => err == Some(e) && Snapshot() == old(Snapshot())
    {
      var arts := articles;
      var i := 0;
      while i < |batch|
        invariant 0 <= i <= |batch|
        invariant FeedStore.InsertArticleRows(sources, arts, batch[i..]) == FeedStore.InsertArticleRows(sources, articles, batch)
      {
        assert batch[i..][1..] == batch[i + 1..];
        var a := batch[i];
        if a.link !in arts {
          if a.sourceUrl !in sources {
            return Some(FeedStore.ForeignKeyViolation);
          }
          arts := arts[a.link := a];
        }
        i := i + 1;
      }
      assert batch[i..] == [];
      FeedStore.InsertArticlesConsistent(Snapshot(), batch);
      articles := arts;
      err := None;
    }

    /** `clearAllArticles`. */
    method ClearAllArticles()
      requires Valid()
      modifies this
      ensures Valid() && Snapshot() == FeedStore.ClearAllArticles(old(Snapshot()))
    {
      FeedStore.ArticleUpdatesConsistent(Snapshot());
      articles := map[];
    }

    /** `markArticleAsRead`. */
    method MarkArticleAsRead(link: string)
      requires Valid()
      modifies this
      ensures Valid() && Snapshot() == FeedStore.MarkArticleRead(old(Snapshot()), link)
    {
      FeedStore.ArticleUpdatesConsistent(Snapshot());
      if link in articles {
        articles := articles[link := articles[link].(isRead := true)];
      }
    }

    /** `markArticlesAsRead(links)`: one UPDATE over a list of links. */
    method MarkArticlesAsRead(links: set<string>)
      requires Valid()
      modifies this
      ensures Valid() && Snapshot() == FeedStore.MarkLinksRead(old(Snapshot()), links)
    {
      articles := map l | l in articles :: if l in links then articles[l].(isRead := true) else articles[l];
    }

    /** `markArticlesAsReadBySource`, `markArticlesAsReadByFolder` and
        `markAllArticlesAsRead`: set isRead on every row in scope. */
    method MarkScopeAsRead(sc: FeedStore.Scope)
      requires Valid()
      modifies this
      ensures Valid() && Snapshot() == FeedStore.MarkRead(old(Snapshot()), sc)
    {
      FeedStore.ArticleUpdatesConsistent(Snapshot());
      articles := map l | l in articles :: if FeedStore.InScope(sources, sc, articles[l]) then articles[l].(isRead := true) else articles[l];
    }

    /** `updateArticleSavedStatus`. */
    method UpdateArticleSavedStatus(link: string, isSaved: bool)
      requires Valid()
      modifies this
      ensures Valid() && Snapshot() == FeedStore.SetSaved(old(Snapshot()), link, isSaved)
    {
      FeedStore.ArticleUpdatesConsistent(Snapshot());
      if link in articles {
        articles := articles[link := articles[link].(isSaved := isSaved)];
      }
    }

    /** `cleanupHugeArticles`. */
    method CleanupHugeArticles()
      requires Valid()
      modifies this
      ensures Valid() && Snapshot() == FeedStore.CleanupHugeArticles(old(Snapshot()))
    {
      FeedStore.ArticleUpdatesConsistent(Snapshot());
      articles := map l | l in articles :: FeedStore.Clip(articles[l]);
    }

    /** `insertSource` as the generated code runs it: INSERT OR REPLACE. */
    method InsertSource(s: Source) returns (err: Option<FeedStore.DbError>)
      requires Valid()
      modifies this
      ensures Valid()
      ensures match FeedStore.InsertSourceReplace(old(Snapshot()), s)
        case Ok(t) => err.None? && Snapshot() == t
        case Err(e) => err == Some(e) && Snapshot() == old(Snapshot())
    {
      FeedStore.InsertSourceConsistent(Snapshot(), s);
      err := Commit(FeedStore.InsertSourceReplace(Snapshot(), s));
    }

    /** The insert-or-update the callers of `insertSource` rely on. */
    method UpsertSource(s: Source) returns (err: Option<FeedStore.DbError>)
      requires Valid()
      modifies this
      ensures Valid()
      ensures match FeedStore.UpsertSource(old(Snapshot()), s)
        case Ok(t) => err.None? && Snapshot() == t
        case Err(e) => err == Some(e) && Snapshot() == old(Snapshot())
    {
      FeedStore.InsertSourceConsistent(Snapshot(), s);
      if s.folderName.Some? && s.folderName.value !in folders {
        return Some(FeedStore.ForeignKeyViolation);
      }
      sources := sources[s.url := s];
      err := None;
    }

    /** `deleteSource`. */
    method DeleteSource(url: string)
      requires Valid()
      modifies this
      ensures Valid() && Snapshot() == FeedStore.DeleteSource(old(Snapshot()), url)
    {
      FeedStore.DeleteSourceConsistent(Snapshot(), url);
      sources := sources - {url};
      articles := map l | l in articles && articles[l].sourceUrl != url :: articles[l];
    }

    /** `updateSourceFolder`. */
    method UpdateSourceFolder(url: string, folderName: Option<string>) returns (err: Option<FeedStore.DbError>)
      requires Valid()
      modifies this
      ensures Valid()
      ensures match FeedStore.UpdateSourceFolder(old(Snapshot()), url, folderName)
        case Ok(t) => err.None? && Snapshot() == t
        case Err(e) => err == Some(e) && Snapshot() == old(Snapshot())
    {
      FeedStore.SourceUpdatesConsistent(Snapshot(), url, folderName, "", None);
      err := Commit(FeedStore.UpdateSourceFolder(Snapshot(), url, folderName));
    }

    /** `updateSourceTitle`. */
    method UpdateSourceTitle(url: string, title: string)
      requires Valid()
      modifies this
      ensures Valid() && Snapshot() == FeedStore.UpdateSourceTitle(old(Snapshot()), url, title)
    {
      FeedStore.SourceUpdatesConsistent(Snapshot(), url, None, title, None);
      if url in sources {
        sources := sources[url := sources[url].(title := title)];
      }
    }

    /** `updateSourceIcon`. */
    method UpdateSourceIcon(url: string, iconUrl: Option<string>)
      requires Valid()
      modifies this
      ensures Valid() && Snapshot() == FeedStore.UpdateSourceIcon(old(Snapshot()), url, iconUrl)
    {
      FeedStore.SourceUpdatesConsistent(Snapshot(), url, None, "", iconUrl);
      if url in sources {
        sources := sources[url := sources[url].(iconUrl := iconUrl)];
      }
    }

    /** `insertFolder`. */
    method InsertFolder(name: string)
      requires Valid()
      modifies this
      ensures Valid() && Snapshot() == FeedStore.InsertFolder(old(Snapshot()), name)
    {
      folders := folders + {name};
    }

    /** `deleteFolder`. */
    method DeleteFolder(name: string)
      requires Valid()
      modifies this
      ensures Valid() && Snapshot() == FeedStore.DeleteFolder(old(Snapshot()), name)
    {
      FeedStore.FolderUpdatesConsistent(Snapshot(), name, name);
      var t := FeedStore.DeleteFolder(Snapshot(), name);
      folders, sources, articles := t.folders, t.sources, t.articles;
    }

    /** `renameFolder`. */
    method RenameFolder(oldName: string, newName: string) returns (err: Option<FeedStore.DbError>)
      requires Valid()
      modifies this
      ensures Valid()
      ensures match FeedStore.RenameFolder(old(Snapshot()), oldName, newName)
        case Ok(t) => err.None? && Snapshot() == t
        case Err(e) => err == Some(e) && Snapshot() == old(Snapshot())
    {
      FeedStore.FolderUpdatesConsistent(Snapshot(), oldName, newName);
      err := Commit(FeedStore.RenameFolder(Snapshot(), oldName, newName));
    }

    /** `getAllArticles`, `getArticlesBySource`, `getArticlesByFolder` and
        `getSavedArticles`: exactly the rows in scope, newest first. */
    method SelectArticles(sc: FeedStore.Scope) returns (r: seq<Article>)
      requires Valid()
      ensures FeedStore.ByDateDesc(r) && FeedStore.DistinctLinks(r)
      ensures forall a :: a in r <==> FeedStore.Selected(Snapshot(), sc, a)
    {
      var keys := articles.Keys;
      r := [];
      while keys != {}
        invariant keys <= articles.Keys
        invariant FeedStore.ByDateDesc(r) && FeedStore.DistinctLinks(r)
        invariant forall a :: a in r ==> a.link !in keys
        invariant forall a :: a in r <==> FeedStore.Selected(Snapshot(), sc, a) && a.link !in keys
        decreases |keys|
      {
        var k :| k in keys;
        var a := articles[k];
        if FeedStore.InScope(sources, sc, a) {
          FeedStore.InsertByDateDistinct(r, a);
          FeedStore.InsertByDateMembers(r, a);
          r := FeedStore.InsertByDate(r, a);
        }
        keys := keys - {k};
      }
    }

    /** `getSavedArticlesList`: the saved rows, each once, in no particular order. */
    method GetSavedArticlesList() returns (r: seq<Article>)
      requires Valid()
      ensures FeedStore.DistinctLinks(r)
      ensures forall a :: a in r <==> FeedStore.Selected(Snapshot(), FeedStore.Saved, a)
    {
      var keys := articles.Keys;
      r := [];
      while keys != {}
        invariant keys <= articles.Keys
        invariant FeedStore.DistinctLinks(r)
        invariant forall a :: a in r <==> FeedStore.Selected(Snapshot(), FeedStore.Saved, a) && a.link !in keys
        decreases |keys|
      {
        var k :| k in keys;
        if articles[k].isSaved {
          r := r + [articles[k]];
        }
        keys := keys - {k};
      }
    }

    /** `getArticleByLink`. */
    method GetArticleByLink(link: string) returns (r: Option<Article>)
      ensures r.Some? <==> link in articles
      ensures r.Some? ==> r.value == articles[link]
    {
      r := if link in articles then Some(articles[link]) else None;
    }

    /** `getArticleWithSource`: the article with its source's title, null
        when no source row matches (LEFT JOIN). */
    method GetArticleWithSource(link: string) returns (r: Option<(Article, Option<string>)>)
      ensures r.Some? <==> link in articles
      ensures r.Some? ==> r.value.0 == articles[link]
      ensures r.Some? ==> r.value.1 == if articles[link].sourceUrl in sources then Some(sources[articles[link].sourceUrl].title) else None
    {
      if link in articles {
        var a := articles[link];
        r := Some((a, if a.sourceUrl in sources then Some(sources[a.sourceUrl].title) else None));
      } else {
        r := None;
      }
    }

    /** `getSourceByUrl`. */
    method GetSourceByUrl(url: string) returns (r: Option<Source>)
      ensures r.Some? <==> url in sources
      ensures r.Some? ==> r.value == sources[url]
    {
      r := if url in sources then Some(sources[url]) else None;
    }

    /** `getReadArticleLinks`: the links of the read rows, each once. */
    method GetReadArticleLinks() returns (r: seq<string>)
      ensures forall i, j :: 0 <= i < j < |r| ==> r[i] != r[j]
      ensures forall l :: l in r <==> l in articles && articles[l].isRead
    {
      var keys := articles.Keys;
      r := [];
      while keys != {}
        invariant keys <= articles.Keys
        invariant forall i, j :: 0 <= i < j < |r| ==> r[i] != r[j]
        invariant forall l :: l in r <==> l in articles && articles[l].isRead && l !in keys
        decreases |keys|
      {
        var k :| k in keys;
        if articles[k].isRead {
          r := r + [k];
        }
        keys := keys - {k};
      }
    }

    /** `getAllSourcesList`: every source row, each once. */
    method GetAllSources() returns (r: seq<Source>)
      requires Valid()
      ensures forall i, j :: 0 <= i < j < |r| ==> r[i].url != r[j].url
      ensures forall s :: s in r <==> s.url in sources && sources[s.url] == s
    {
      var keys := sources.Keys;
      r := [];
      while keys != {}
        invariant keys <= sources.Keys
        invariant forall i, j :: 0 <= i < j < |r| ==> r[i].url != r[j].url
        invariant forall s :: s in r <==> s.url in sources && sources[s.url] == s && s.url !in keys
        decreases |keys|
      {
        var k :| k in keys;
        r := r + [sources[k]];
        keys := keys - {k};
      }
    }

    /** `getAllFoldersList`: every folder name, each once. */
    method GetAllFolders() returns (r: seq<string>)
      ensures forall i, j :: 0 <= i < j < |r| ==> r[i] != r[j]
      ensures forall f :: f in r <==> f in folders
    {
      var keys := folders;
      r := [];
      while keys != {}
        invariant keys <= folders
        invariant forall i, j :: 0 <= i < j < |r| ==> r[i] != r[j]
        invariant forall f :: f in r <==> f in folders && f !in keys
        decreases |keys|
      {
        var k :| k in keys;
        r := r + [k];
        keys := keys - {k};
      }
    }

    /** `getUnreadCountsBySource`: `GROUP BY sourceUrl` over the unread rows,
        so a source with no unread article has no entry. */
    method GetUnreadCountsBySource() returns (counts: map<string, nat>)
      ensures forall u :: u in counts <==> FeedStore.UnreadLinks(articles, u) != {}
      ensures forall u :: u in counts ==> counts[u] == |FeedStore.UnreadLinks(articles, u)|
    {
      var keys := articles.Keys;
      counts := map[];
      while keys != {}
        invariant keys <= articles.Keys
        invariant forall u :: u in counts <==> FeedStore.UnreadLinks(articles, u) - keys != {}
        invariant forall u :: u in counts ==> counts[u] == |FeedStore.UnreadLinks(articles, u) - keys|
        decreases |keys|
      {
        var k :| k in keys;
        var a := articles[k];
        if !a.isRead {
          counts := counts[a.sourceUrl := if a.sourceUrl in counts then counts[a.sourceUrl] + 1 else 1];
        }
        forall u ensures (u in counts <==> FeedStore.UnreadLinks(articles, u) - (keys - {k}) != {})
          && (u in counts ==> counts[u] == |FeedStore.UnreadLinks(articles, u) - (keys - {k})|)
        {
          UnreadStep(articles, keys, k, u);
        }
        keys := keys - {k};
      }
    }

    /** `getSavedCount`: `COUNT(*)` of the saved rows. */
    method GetSavedCount() returns (n: nat)
      ensures n == |FeedStore.SavedLinks(articles)|
    {
      var keys := articles.Keys;
      n := 0;
      while keys != {}
        invariant keys <= articles.Keys
        invariant n == |FeedStore.SavedLinks(articles - keys)|
        decreases |keys|
      {
        var k :| k in keys;
        SavedLinksStep(articles, keys, k);
        if articles[k].isSaved {
          n := n + 1;
        }
        keys := keys - {k};
      }
      assert articles - {} == articles;
    }
  }

  /** Counting row `k` grows the unread set of its own source by one, if unread. */
  lemma UnreadStep(arts: map<string, Article>, keys: set<string>, k: string, u: string)
    requires k in keys && keys <= arts.Keys
    ensures var s := FeedStore.UnreadLinks(arts, u);
      if arts[k].sourceUrl == u && !arts[k].isRead
      then s - (keys - {k}) == (s - keys) + {k} && |s - (keys - {k})| == |s - keys| + 1
      else s - (keys - {k}) == s - keys
  {
    var s := FeedStore.UnreadLinks(arts, u);
    if arts[k].sourceUrl == u && !arts[k].isRead {
      assert k in s && k !in s - keys;
      assert s - (keys - {k}) == (s - keys) + {k};
    } else {
      assert k !in s;
      assert s - (keys - {k}) == s - keys;
    }
  }

  lemma SavedLinksStep(arts: map<string, Article>, keys: set<string>, k: string)
    requires k in keys && keys <= arts.Keys
    ensures FeedStore.SavedLinks(arts - (keys - {k})) == FeedStore.SavedLinks(arts - keys) + (if arts[k].isSaved then {k} else {})
    ensures k !in FeedStore.SavedLinks(arts - keys)
  {
  }

}
