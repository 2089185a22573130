/** The feed repository: adding a source from a fetched feed, refreshing every
    source, importing an OPML subscription list and deleting a folder. The
    network (feed download, favicon probe) appears as parameters; the calls
    that mirror a change to the cloud are returned as `CloudOp` values. */
module Repository {
  import opened Wrappers
  import opened Strings
  import opened Entities
  import FeedStore
  import Dao
  import Opml
  import RssParser
  import FirestoreSync

  /** A change the repository forwards to the cloud copy of the user's data. */
  datatype CloudOp =
    | AddSourceOp(source: Source)
    | DeleteSourceOp(url: string)
    | UpdateIconOp(url: string, iconUrl: string)

  /** Why `addSource` throws. */
  datatype AddError = DownloadFailed | Store(error: FeedStore.DbError)

  /** What downloading and parsing one feed gave: the parsed feed and whether
      the favicon probe accepted the favicon-service image, or a failure. */
  datatype Fetch = Fetched(feed: RssParser.ParsedFeed, faviconAccepted: bool) | FetchFailed

  // ---------------------------------------------------------------------------
  // Remote read and saved states

  /** The read and saved links the cloud helper holds in its caches. */
  datatype RemoteStates = RemoteStates(read: set<string>, saved: set<string>)

  /** The caches of the helper; without a helper (no signed-in user) there
      are none, and `firestoreHelper?.applyRemoteStates()` does nothing. */
  function StatesOf(h: FirestoreSync.FirestoreHelper?): RemoteStates
    reads h
  {
    if h == null then RemoteStates({}, {}) else RemoteStates(h.remoteReadLinks, h.remoteSavedLinks)
  }

  /** `applyRemoteStates` on tables: the cached read links marked read, then
      the cached saved links saved. */
  function WithStates(t: FeedStore.Tables, st: RemoteStates): FeedStore.Tables {
    FirestoreSync.SaveLinks(FeedStore.MarkLinksRead(t, st.read), st.saved)
  }

  /** A stored article stored under `l` once the caches are applied to it. */
  function Flagged(a: Article, l: string, st: RemoteStates): Article {
    a.(isRead := a.isRead || l in st.read, isSaved := a.isSaved || l in st.saved)
  }

  /** Applying the caches removes and adds nothing and touches only the two
      flags, each only turning true, and only for a cached link; applying
      them again changes nothing. */
  lemma WithStatesEffect(t: FeedStore.Tables, st: RemoteStates)
    ensures var t' := WithStates(t, st);
      && t'.folders == t.folders && t'.sources == t.sources
      && t'.articles.Keys == t.articles.Keys
      && (forall l :: l in t.articles ==> t'.articles[l] == Flagged(t.articles[l], l, st))
      && WithStates(t', st) == t'
      && (st.read == {} && st.saved == {} ==> t' == t)
      && (FeedStore.Consistent(t) ==> FeedStore.Consistent(t'))
  {
    var t' := WithStates(t, st);
    if st.read == {} && st.saved == {} {
      assert t'.articles == t.articles;
    }
    assert forall l :: l in t'.articles ==> Flagged(t'.articles[l], l, st) == t'.articles[l];
    assert WithStates(t', st).articles == t'.articles;
  }

  // ---------------------------------------------------------------------------
  // Title and icon choice

  /** The given title unless it is null or blank, else "Feed from <url>". */
  function SourceTitle(title: Option<string>, url: string): (r: string)
    ensures title.Some? && !IsBlank(title.value) ==> r == title.value
    ensures title.None? || IsBlank(title.value) ==> r == "Feed from " + url
    ensures !IsBlank(r)
  {
    if title.Some? && !IsBlank(title.value) then title.value
    else
      assert ("Feed from " + url)[0] == 'F' && !IsWhitespace('F');
      "Feed from " + url
  }

  /** The favicon-service address for a site. */
  function FaviconUrl(siteUrl: string): string {
    "https://t0.gstatic.com/faviconV2?client=SOCIAL&type=FAVICON&fallback_opts=TYPE,SIZE,URL&url=" + siteUrl + "&size=64"
  }

  /** The site the favicon is asked for: the feed's own site link, else the
      feed url. */
  function SiteOf(feed: RssParser.ParsedFeed, url: string): string {
    feed.siteUrl.GetOr(url)
  }

  /** `addSource`'s icon: the favicon-service image if the probe accepted it,
      else the icon supplied by the caller, else the feed's image. */
  function AddIcon(faviconAccepted: bool, siteUrl: string, iconUrl: Option<string>, feedImage: Option<string>): (r: Option<string>)
    ensures faviconAccepted ==> r == Some(FaviconUrl(siteUrl))
    ensures !faviconAccepted && iconUrl.Some? ==> r == iconUrl
    ensures !faviconAccepted && iconUrl.None? ==> r == feedImage
  {
    if faviconAccepted then Some(FaviconUrl(siteUrl)) else if iconUrl.Some? then iconUrl else feedImage
  }

  /** `syncSource`'s icon update: the favicon-service image if accepted, else
      the feed's image; it is applied only when non-null and different from the
      current icon. `None` means no update. */
  function SyncIcon(faviconAccepted: bool, siteUrl: string, feedImage: Option<string>, current: Option<string>): (r: Option<string>)
    ensures r.Some? ==> Some(r.value) != current
    ensures r.Some? <==> (faviconAccepted || feedImage.Some?) && AddIcon(faviconAccepted, siteUrl, None, feedImage) != current
    ensures r.Some? ==> Some(r.value) == AddIcon(faviconAccepted, siteUrl, None, feedImage)
  {
    var candidate := if faviconAccepted then Some(FaviconUrl(siteUrl)) else feedImage;
    if candidate.Some? && candidate != current then candidate else None
  }

  /** Applying the chosen update twice is the same as once: a second refresh
      with the same outcome changes no icon. */
  lemma SyncIconSettles(faviconAccepted: bool, siteUrl: string, feedImage: Option<string>, current: Option<string>)
    requires SyncIcon(faviconAccepted, siteUrl, feedImage, current).Some?
    ensures SyncIcon(faviconAccepted, siteUrl, feedImage, SyncIcon(faviconAccepted, siteUrl, feedImage, current)).None?
  {
  }

  // ---------------------------------------------------------------------------
  // addSource

  /** The source row `addSource` stores. */
  function AddedSource(url: string, title: Option<string>, iconUrl: Option<string>, fetch: Fetch): (s: Source)
    requires fetch.Fetched?
    ensures s.url == url && s.folderName.None? && !IsBlank(s.title)
  {
    NewSource(url, SourceTitle(title, url),
              AddIcon(fetch.faviconAccepted, SiteOf(fetch.feed, url), iconUrl, fetch.feed.imageUrl))
  }

  /** `addSource`: store the source, then its articles, then apply the
      cloud helper's cached read and saved states, then tell the cloud. A
      failed download throws before anything is stored; a failed article
      insert throws after the source row was committed. */
  method AddSource(dao: Dao.FeedDao, helper: FirestoreSync.FirestoreHelper?, url: string, title: Option<string>, iconUrl: Option<string>, fetch: Fetch)
    returns (err: Option<AddError>, ops: seq<CloudOp>)
    requires dao.Valid()
    modifies dao
    ensures dao.Valid()
    ensures fetch.FetchFailed? ==> err == Some(DownloadFailed) && ops == [] && dao.Snapshot() == old(dao.Snapshot())
    ensures fetch.Fetched? ==>
      var s := AddedSource(url, title, iconUrl, fetch);
      var t1 := FeedStore.UpsertSource(old(dao.Snapshot()), s).value;
      match FeedStore.InsertArticles(t1, fetch.feed.articles)
      case Ok(t2) => err.None? && dao.Snapshot() == WithStates(t2, StatesOf(helper)) && ops == [AddSourceOp(s)]
      case Err(e) => err == Some(Store(e)) && dao.Snapshot() == t1 && ops == []
  {
    if fetch.FetchFailed? {
      return Some(DownloadFailed), [];
    }
    var s := AddedSource(url, title, iconUrl, fetch);
    var e1 := dao.UpsertSource(s);
    assert e1.None?;
    var e2 := dao.InsertArticles(fetch.feed.articles);
    if e2.Some? {
      return Some(Store(e2.value)), [];
    }
    if helper != null {
      helper.ApplyRemoteStates(dao);
    } else {
      WithStatesEffect(dao.Snapshot(), StatesOf(helper));
    }
    err, ops := None, [AddSourceOp(s)];
  }

  /** A feed whose articles all belong to the url is added in full: the
      source row and every article link are stored, and nothing fails. */
  lemma AddSourceStoresAll(t: FeedStore.Tables, url: string, title: Option<string>, iconUrl: Option<string>, fetch: Fetch, st: RemoteStates)
    requires FeedStore.Consistent(t) && fetch.Fetched?
    requires forall i :: 0 <= i < |fetch.feed.articles| ==> fetch.feed.articles[i].sourceUrl == url
    ensures var s := AddedSource(url, title, iconUrl, fetch);
      var t1 := FeedStore.UpsertSource(t, s);
      && t1.Ok? && FeedStore.InsertArticles(t1.value, fetch.feed.articles).Ok?
      && var t2 := WithStates(FeedStore.InsertArticles(t1.value, fetch.feed.articles).value, st);
      && t2.sources[url] == s
      && (forall i :: 0 <= i < |fetch.feed.articles| ==> fetch.feed.articles[i].link in t2.articles)
  {
    var s := AddedSource(url, title, iconUrl, fetch);
    var t1 := FeedStore.UpsertSource(t, s).value;
    FeedStore.InsertArticleRowsFails(t1.sources, t1.articles, fetch.feed.articles);
    FeedStore.InsertArticleRowsKeeps(t1.sources, t1.articles, fetch.feed.articles);
    WithStatesEffect(FeedStore.InsertArticles(t1, fetch.feed.articles).value, st);
  }

  /** Re-adding a stored feed keeps every stored article, read and saved
      flags included, changed only by the cached states turning a flag on;
      the feed only adds the rows not yet stored. */
  lemma AddSourceKeepsStored(t: FeedStore.Tables, url: string, title: Option<string>, iconUrl: Option<string>, fetch: Fetch, st: RemoteStates)
    requires fetch.Fetched?
    ensures var s := AddedSource(url, title, iconUrl, fetch);
      && FeedStore.UpsertSource(t, s).Ok?
      && (FeedStore.InsertArticles(FeedStore.UpsertSource(t, s).value, fetch.feed.articles).Ok? ==>
            var c := WithStates(FeedStore.InsertArticles(FeedStore.UpsertSource(t, s).value, fetch.feed.articles).value, st);
            forall l :: l in t.articles ==> l in c.articles && c.articles[l] == Flagged(t.articles[l], l, st))
  {
    var c1 := FeedStore.UpsertSource(t, AddedSource(url, title, iconUrl, fetch)).value;
    if FeedStore.InsertArticleRows(c1.sources, c1.articles, fetch.feed.articles).Ok? {
      FeedStore.InsertArticleRowsKeeps(c1.sources, c1.articles, fetch.feed.articles);
      WithStatesEffect(FeedStore.InsertArticles(c1, fetch.feed.articles).value, st);
    }
  }

  /** `addSource` as written stores its row with the REPLACE statement, so
      adding a url that is already stored first deletes its articles: a stored
      article of that url survives only as the row the feed brings back, with
      the feed's read and saved flags, and the cached states are all that
      can turn them back on. */
  lemma AddSourceAsWrittenLoss(t: FeedStore.Tables, url: string, title: Option<string>, iconUrl: Option<string>, fetch: Fetch, st: RemoteStates)
    requires fetch.Fetched?
    ensures var s := AddedSource(url, title, iconUrl, fetch);
      var arts := fetch.feed.articles;
      && FeedStore.InsertSourceReplace(t, s).Ok?
      && (FeedStore.InsertArticles(FeedStore.InsertSourceReplace(t, s).value, arts).Ok? ==>
            var w := WithStates(FeedStore.InsertArticles(FeedStore.InsertSourceReplace(t, s).value, arts).value, st);
            forall l :: l in t.articles && t.articles[l].sourceUrl == url && l in w.articles ==>
              exists i :: 0 <= i < |arts| && Flagged(arts[i], l, st) == w.articles[l])
  {
    var w1 := FeedStore.InsertSourceReplace(t, AddedSource(url, title, iconUrl, fetch)).value;
    if FeedStore.InsertArticleRows(w1.sources, w1.articles, fetch.feed.articles).Ok? {
      FeedStore.InsertArticleRowsKeeps(w1.sources, w1.articles, fetch.feed.articles);
      WithStatesEffect(FeedStore.InsertArticles(w1, fetch.feed.articles).value, st);
    }
  }

  /** A concrete case: re-adding a stored feed whose saved, read article is
      still listed brings it back unsaved, when the cloud helper's saved
      cache does not hold it (as with no signed-in user). */
  lemma AddSourceAsWrittenCounterexample(st: RemoteStates)
    requires "l" !in st.saved
    ensures var a := Article("l", "A", None, 0, "u", None, true, true);
      var t := FeedStore.Tables({}, map["u" := Source("u", "T", None, None)], map["l" := a]);
      var fetch := Fetched(RssParser.ParsedFeed([a.(isRead := false, isSaved := false)], None, None), false);
      var s := AddedSource("u", Some("T"), None, fetch);
      && FeedStore.Consistent(t)
      && var w := FeedStore.InsertArticles(FeedStore.InsertSourceReplace(t, s).value, fetch.feed.articles);
      && var c := FeedStore.InsertArticles(FeedStore.UpsertSource(t, s).value, fetch.feed.articles);
      && w.Ok? && "l" in WithStates(w.value, st).articles && !WithStates(w.value, st).articles["l"].isSaved
      && c.Ok? && "l" in WithStates(c.value, st).articles && WithStates(c.value, st).articles["l"].isSaved
  {
    var a := Article("l", "A", None, 0, "u", None, true, true);
    var a' := a.(isRead := false, isSaved := false);
    var t := FeedStore.Tables({}, map["u" := Source("u", "T", None, None)], map["l" := a]);
    var fetch := Fetched(RssParser.ParsedFeed([a'], None, None), false);
    var s := AddedSource("u", Some("T"), None, fetch);
    assert [a'][1..] == [];
    var w1 := FeedStore.InsertSourceReplace(t, s).value;
    assert w1.articles == map[];
    assert "u" in w1.sources;
    assert FeedStore.InsertArticleRows(w1.sources, w1.articles, [a']) == Ok(map["l" := a']);
    var c1 := FeedStore.UpsertSource(t, s).value;
    assert c1.articles == t.articles;
    assert FeedStore.InsertArticleRows(c1.sources, c1.articles, [a']) == Ok(t.articles);
    WithStatesEffect(w1.(articles := map["l" := a']), st);
    WithStatesEffect(c1, st);
  }

  // ---------------------------------------------------------------------------
  // syncFeeds / syncSource

  /** `syncSource` on tables: insert the fetched articles, apply the cloud
      helper's cached states `st`, then update the icon. Any failure is
      swallowed and leaves what was already committed. */
  function SyncOne(t: FeedStore.Tables, s: Source, fetch: Fetch, st: RemoteStates): FeedStore.Tables {
    match fetch
    case FetchFailed => t
    case Fetched(feed, ok) =>
      match FeedStore.InsertArticles(t, feed.articles)
      case Err(_) => t
      case Ok(t1) =>
        var t2 := WithStates(t1, st);
        var icon := SyncIcon(ok, SiteOf(feed, s.url), feed.imageUrl, s.iconUrl);
        if icon.Some? then FeedStore.UpdateSourceIcon(t2, s.url, icon) else t2
  }

  /** The cloud update `syncSource` sends, if any. */
  function SyncOps(t: FeedStore.Tables, s: Source, fetch: Fetch): seq<CloudOp> {
    match fetch
    case FetchFailed => []
    case Fetched(feed, ok) =>
      if FeedStore.InsertArticles(t, feed.articles).Err? then []
      else
        var icon := SyncIcon(ok, SiteOf(feed, s.url), feed.imageUrl, s.iconUrl);
        if icon.Some? then [UpdateIconOp(s.url, icon.value)] else []
  }

  /** Every source in list order. */
  function SyncAll(t: FeedStore.Tables, list: seq<Source>, fetch: string -> Fetch, st: RemoteStates): FeedStore.Tables
    decreases |list|
  {
    if |list| == 0 then t else SyncAll(SyncOne(t, list[0], fetch(list[0].url), st), list[1..], fetch, st)
  }

  /** A refresh never removes a folder, a source or an article, and keeps
      the tables consistent. A stored article either stays as it was or has
      the cached states applied to it, so a flag only ever turns on, and only
      for a cached link; with empty caches no stored article changes. */
  lemma SyncOneKeeps(t: FeedStore.Tables, s: Source, fetch: Fetch, st: RemoteStates)
    requires FeedStore.Consistent(t)
    ensures var t' := SyncOne(t, s, fetch, st);
      && FeedStore.Consistent(t')
      && t'.folders == t.folders && t'.sources.Keys == t.sources.Keys
      && (forall l :: l in t.articles ==>
            && l in t'.articles
            && (t'.articles[l] == t.articles[l] || t'.articles[l] == Flagged(t.articles[l], l, st)))
      && (st.read == {} && st.saved == {} ==> forall l :: l in t.articles ==> t'.articles[l] == t.articles[l])
  {
    if fetch.Fetched? {
      var r := FeedStore.InsertArticles(t, fetch.feed.articles);
      if r.Ok? {
        FeedStore.InsertArticlesConsistent(t, fetch.feed.articles);
        FeedStore.InsertArticleRowsKeeps(t.sources, t.articles, fetch.feed.articles);
        WithStatesEffect(r.value, st);
        FeedStore.SourceUpdatesConsistent(WithStates(r.value, st), s.url, None, "", SyncIcon(fetch.faviconAccepted, SiteOf(fetch.feed, s.url), fetch.feed.imageUrl, s.iconUrl));
      }
    }
  }

  /** Applying the cached states twice is applying them once. */
  lemma FlaggedTwice(a: Article, l: string, st: RemoteStates)
    ensures Flagged(Flagged(a, l, st), l, st) == Flagged(a, l, st)
  {
  }

  lemma {:induction false} SyncAllKeeps(t: FeedStore.Tables, list: seq<Source>, fetch: string -> Fetch, st: RemoteStates)
    requires FeedStore.Consistent(t)
    ensures var t' := SyncAll(t, list, fetch, st);
      && FeedStore.Consistent(t')
      && t'.folders == t.folders && t'.sources.Keys == t.sources.Keys
      && (forall l :: l in t.articles ==>
            && l in t'.articles
            && (t'.articles[l] == t.articles[l] || t'.articles[l] == Flagged(t.articles[l], l, st)))
      && (st.read == {} && st.saved == {} ==> forall l :: l in t.articles ==> t'.articles[l] == t.articles[l])
    decreases |list|
  {
    if |list| > 0 {
      var t1 := SyncOne(t, list[0], fetch(list[0].url), st);
      SyncOneKeeps(t, list[0], fetch(list[0].url), st);
      SyncAllKeeps(t1, list[1..], fetch, st);
      forall l | l in t.articles ensures Flagged(t1.articles[l], l, st) == Flagged(t.articles[l], l, st) {
        FlaggedTwice(t.articles[l], l, st);
      }
    }
  }

  /** A stored source whose feed downloaded gets all of its articles stored. */
  lemma SyncOneStores(t: FeedStore.Tables, s: Source, fetch: Fetch, st: RemoteStates)
    requires FeedStore.Consistent(t)
    requires s.url in t.sources && fetch.Fetched?
    requires forall i :: 0 <= i < |fetch.feed.articles| ==> fetch.feed.articles[i].sourceUrl == s.url
    ensures forall i :: 0 <= i < |fetch.feed.articles| ==> fetch.feed.articles[i].link in SyncOne(t, s, fetch, st).articles
  {
    var arts := fetch.feed.articles;
    FeedStore.InsertArticleRowsFails(t.sources, t.articles, arts);
    assert FeedStore.InsertArticleRows(t.sources, t.articles, arts).Ok?;
    FeedStore.InsertArticleRowsKeeps(t.sources, t.articles, arts);
    WithStatesEffect(FeedStore.InsertArticles(t, arts).value, st);
  }

  /** One stored source whose feed downloaded gets all of its articles stored,
      whatever happens to the other sources of the refresh. */
  lemma {:induction false} SyncAllStores(t: FeedStore.Tables, list: seq<Source>, fetch: string -> Fetch, st: RemoteStates, k: int)
    requires FeedStore.Consistent(t)
    requires 0 <= k < |list| && list[k].url in t.sources && fetch(list[k].url).Fetched?
    requires var arts := fetch(list[k].url).feed.articles;
      forall i :: 0 <= i < |arts| ==> arts[i].sourceUrl == list[k].url
    ensures var arts := fetch(list[k].url).feed.articles;
      forall i :: 0 <= i < |arts| ==> arts[i].link in SyncAll(t, list, fetch, st).articles
    decreases |list|
  {
    var t1 := SyncOne(t, list[0], fetch(list[0].url), st);
    SyncOneKeeps(t, list[0], fetch(list[0].url), st);
    if k == 0 {
      SyncOneStores(t, list[0], fetch(list[0].url), st);
      SyncAllKeeps(t1, list[1..], fetch, st);
    } else {
      assert list[1..][k - 1] == list[k];
      SyncAllStores(t1, list[1..], fetch, st, k - 1);
    }
  }

  /** `syncSource`. */
  method SyncSource(dao: Dao.FeedDao, helper: FirestoreSync.FirestoreHelper?, s: Source, fetch: Fetch) returns (ops: seq<CloudOp>)
    requires dao.Valid()
    modifies dao
    ensures dao.Valid()
    ensures dao.Snapshot() == SyncOne(old(dao.Snapshot()), s, fetch, StatesOf(helper))
    ensures ops == SyncOps(old(dao.Snapshot()), s, fetch)
  {
    if fetch.FetchFailed? {
      return [];
    }
    var err := dao.InsertArticles(fetch.feed.articles);
    if err.Some? {
      return [];
    }
    if helper != null {
      helper.ApplyRemoteStates(dao);
    } else {
      WithStatesEffect(dao.Snapshot(), StatesOf(helper));
    }
    var icon := SyncIcon(fetch.faviconAccepted, SiteOf(fetch.feed, s.url), fetch.feed.imageUrl, s.iconUrl);
    ops := [];
    if icon.Some? {
      dao.UpdateSourceIcon(s.url, icon);
      ops := [UpdateIconOp(s.url, icon.value)];
    }
  }

  /** `syncFeeds`: every stored source, one after the other. */
  method SyncFeeds(dao: Dao.FeedDao, helper: FirestoreSync.FirestoreHelper?, fetch: string -> Fetch) returns (list: seq<Source>, ops: seq<CloudOp>)
    requires dao.Valid()
    modifies dao
    ensures dao.Valid()
    ensures forall s :: s in list <==> s.url in old(dao.sources) && old(dao.sources)[s.url] == s
    ensures dao.Snapshot() == SyncAll(old(dao.Snapshot()), list, fetch, StatesOf(helper))
  {
    list := dao.GetAllSources();
    ops := [];
    var i := 0;
    while i < |list|
      invariant 0 <= i <= |list| && dao.Valid()
      invariant SyncAll(dao.Snapshot(), list[i..], fetch, StatesOf(helper)) == SyncAll(old(dao.Snapshot()), list, fetch, StatesOf(helper))
    {
      assert list[i..][1..] == list[i + 1..];
      var o := SyncSource(dao, helper, list[i], fetch(list[i].url));
      ops := ops + o;
      i := i + 1;
    }
  }

  // ---------------------------------------------------------------------------
  // importOpml

  /** `processSource` on tables: an unknown url is inserted with the item's
      folder and no icon; a known url only moves to the item's folder, when it
      has one and it differs. A failure is swallowed. */
  function ProcessedSource(t: FeedStore.Tables, title: string, url: string, folder: Option<string>): FeedStore.Tables {
    if url !in t.sources then
      match FeedStore.UpsertSource(t, Source(url, title, None, folder))
      case Ok(t') => t'
      case Err(_) => t
    else if folder.Some? && t.sources[url].folderName != folder then
      match FeedStore.UpsertSource(t, t.sources[url].(folderName := folder))
      case Ok(t') => t'
      case Err(_) => t
    else t
  }

  /** The children of a folder item, each processed under the folder's name. */
  function ImportChildren(t: FeedStore.Tables, cs: seq<Opml.OpmlSource>, folder: string): FeedStore.Tables
    decreases |cs|
  {
    if |cs| == 0 then t else ImportChildren(ProcessedSource(t, cs[0].title, cs[0].xmlUrl, Some(folder)), cs[1..], folder)
  }

  /** A folder item inserts its folder first; a top-level item has no folder. */
  function ImportItem(t: FeedStore.Tables, item: Opml.OpmlItem): FeedStore.Tables {
    match item
    case FolderItem(title, cs) => ImportChildren(FeedStore.InsertFolder(t, title), cs, title)
    case SourceItem(s) => ProcessedSource(t, s.title, s.xmlUrl, None)
  }

  function ImportItems(t: FeedStore.Tables, items: seq<Opml.OpmlItem>): FeedStore.Tables
    decreases |items|
  {
    if |items| == 0 then t else ImportItems(ImportItem(t, items[0]), items[1..])
  }

  /** What `processSource` does to the one source it names; it never touches
      any other row, any folder or any article. */
  lemma ProcessSourceEffect(t: FeedStore.Tables, title: string, url: string, folder: Option<string>)
    requires FeedStore.Consistent(t) && (folder.Some? ==> folder.value in t.folders)
    ensures var t' := ProcessedSource(t, title, url, folder);
      && url in t'.sources
      && (url !in t.sources ==> t'.sources[url] == Source(url, title, None, folder))
      && (url in t.sources ==> t'.sources[url] == t.sources[url].(folderName := if folder.Some? then folder else t.sources[url].folderName))
      && t'.sources.Keys == t.sources.Keys + {url}
      && (forall u :: u in t.sources && u != url ==> t'.sources[u] == t.sources[u])
      && t'.folders == t.folders && t'.articles == t.articles
  {
  }

  lemma ProcessSourceConsistent(t: FeedStore.Tables, title: string, url: string, folder: Option<string>)
    requires FeedStore.Consistent(t)
    ensures FeedStore.Consistent(ProcessedSource(t, title, url, folder))
  {
    FeedStore.InsertSourceConsistent(t, Source(url, title, None, folder));
    if url in t.sources {
      FeedStore.InsertSourceConsistent(t, t.sources[url].(folderName := folder));
    }
  }

  /** `processSource` as written: both of its inserts are the REPLACE statement. */
  function ProcessedSourceAsWritten(t: FeedStore.Tables, title: string, url: string, folder: Option<string>): FeedStore.Tables {
    if url !in t.sources then
      match FeedStore.InsertSourceReplace(t, Source(url, title, None, folder))
      case Ok(t') => t'
      case Err(_) => t
    else if folder.Some? && t.sources[url].folderName != folder then
      match FeedStore.InsertSourceReplace(t, t.sources[url].(folderName := folder))
      case Ok(t') => t'
      case Err(_) => t
    else t
  }

  /** As written, moving a stored source to another existing folder deletes
      every article of it; the folder and source rows, and every other case,
      agree with `ProcessedSource`. */
  lemma ProcessSourceAsWrittenLoss(t: FeedStore.Tables, title: string, url: string, folder: Option<string>)
    requires FeedStore.Consistent(t)
    ensures var w, c := ProcessedSourceAsWritten(t, title, url, folder), ProcessedSource(t, title, url, folder);
      && w.folders == c.folders && w.sources == c.sources
      && if url in t.sources && folder.Some? && t.sources[url].folderName != folder && folder.value in t.folders
         then w.articles == FeedStore.DeleteSource(t, url).articles
         else w == c
  {
    FeedStore.ReplaceIsUpsertThenCascade(t, Source(url, title, None, folder));
    if url in t.sources {
      FeedStore.ReplaceIsUpsertThenCascade(t, t.sources[url].(folderName := folder));
    }
  }

  /** After a folder item every one of its children is stored and filed under
      the folder; no source, folder or article is lost. */
  lemma {:induction false} ImportChildrenEffect(t: FeedStore.Tables, cs: seq<Opml.OpmlSource>, folder: string)
    requires FeedStore.Consistent(t) && folder in t.folders
    ensures var t' := ImportChildren(t, cs, folder);
      && (forall i :: 0 <= i < |cs| ==> cs[i].xmlUrl in t'.sources && t'.sources[cs[i].xmlUrl].folderName == Some(folder))
      && t.sources.Keys <= t'.sources.Keys && t'.folders == t.folders && t'.articles == t.articles
      && (forall u :: u in t.sources && (forall i :: 0 <= i < |cs| ==> cs[i].xmlUrl != u) ==> t'.sources[u] == t.sources[u])
    decreases |cs|
  {
    if |cs| > 0 {
      var t1 := ProcessedSource(t, cs[0].title, cs[0].xmlUrl, Some(folder));
      ProcessSourceEffect(t, cs[0].title, cs[0].xmlUrl, Some(folder));
      ProcessSourceConsistent(t, cs[0].title, cs[0].xmlUrl, Some(folder));
      ImportChildrenEffect(t1, cs[1..], folder);
      var t' := ImportChildren(t1, cs[1..], folder);
      forall i | 0 <= i < |cs|
        ensures cs[i].xmlUrl in t'.sources && t'.sources[cs[i].xmlUrl].folderName == Some(folder)
      {
        if i > 0 {
          assert cs[1..][i - 1] == cs[i];
        } else if forall j :: 0 <= j < |cs[1..]| ==> cs[1..][j].xmlUrl != cs[0].xmlUrl {
        } else {
          var j :| 0 <= j < |cs[1..]| && cs[1..][j].xmlUrl == cs[0].xmlUrl;
          assert cs[1..][j] == cs[j + 1];
        }
      }
      forall u | u in t.sources && (forall i :: 0 <= i < |cs| ==> cs[i].xmlUrl != u)
        ensures t'.sources[u] == t.sources[u]
      {
        assert cs[0].xmlUrl != u;
        assert forall j :: 0 <= j < |cs[1..]| ==> cs[1..][j] == cs[j + 1];
      }
    }
  }

  lemma {:induction false} ImportChildrenConsistent(t: FeedStore.Tables, cs: seq<Opml.OpmlSource>, folder: string)
    requires FeedStore.Consistent(t)
    ensures FeedStore.Consistent(ImportChildren(t, cs, folder))
    decreases |cs|
  {
    if |cs| > 0 {
      ProcessSourceConsistent(t, cs[0].title, cs[0].xmlUrl, Some(folder));
      ImportChildrenConsistent(ProcessedSource(t, cs[0].title, cs[0].xmlUrl, Some(folder)), cs[1..], folder);
    }
  }

  /** The whole import keeps the tables consistent, never loses a source, a
      folder or an article, and stores every item's url. */
  lemma {:induction false} ImportItemsEffect(t: FeedStore.Tables, items: seq<Opml.OpmlItem>)
    requires FeedStore.Consistent(t)
    ensures var t' := ImportItems(t, items);
      && FeedStore.Consistent(t')
      && t.sources.Keys <= t'.sources.Keys && t.folders <= t'.folders && t'.articles == t.articles
      && (forall i :: 0 <= i < |items| && items[i].SourceItem? ==> items[i].source.xmlUrl in t'.sources)
      && (forall i :: 0 <= i < |items| && items[i].FolderItem? ==> items[i].title in t'.folders)
      && (forall i, j :: 0 <= i < |items| && items[i].FolderItem? && 0 <= j < |items[i].children| ==>
            items[i].children[j].xmlUrl in t'.sources)
    decreases |items|
  {
    if |items| > 0 {
      var t1 := ImportItem(t, items[0]);
      if items[0].FolderItem? {
        var title, cs := items[0].title, items[0].children;
        FeedStore.FolderUpdatesConsistent(t, title, title);
        ImportChildrenEffect(FeedStore.InsertFolder(t, title), cs, title);
        ImportChildrenConsistent(FeedStore.InsertFolder(t, title), cs, title);
        assert t1 == ImportChildren(FeedStore.InsertFolder(t, title), cs, title);
        assert title in t1.folders;
      } else {
        var s := items[0].source;
        ProcessSourceEffect(t, s.title, s.xmlUrl, None);
        ProcessSourceConsistent(t, s.title, s.xmlUrl, None);
      }
      ImportItemsEffect(t1, items[1..]);
      var t' := ImportItems(t1, items[1..]);
      forall i | 0 <= i < |items| && items[i].FolderItem?
        ensures items[i].title in t'.folders
      {
        if i > 0 {
          assert items[1..][i - 1] == items[i];
        }
      }
      forall i, j | 0 <= i < |items| && items[i].FolderItem? && 0 <= j < |items[i].children|
        ensures items[i].children[j].xmlUrl in t'.sources
      {
        if i > 0 {
          assert items[1..][i - 1] == items[i];
          assert items[1..][i - 1].children[j].xmlUrl in t'.sources;
        } else {
          assert items[0].children[j].xmlUrl in t1.sources;
        }
      }
      forall i | 0 <= i < |items| && items[i].SourceItem?
        ensures items[i].source.xmlUrl in t'.sources
      {
        if i > 0 {
          assert items[1..][i - 1] == items[i];
        }
      }
    }
  }

  /** `processSource` against the DAO. */
  method ProcessSource(dao: Dao.FeedDao, title: string, url: string, folder: Option<string>)
    requires dao.Valid()
    modifies dao
    ensures dao.Valid()
    ensures dao.Snapshot() == ProcessedSource(old(dao.Snapshot()), title, url, folder)
  {
    var existing := dao.GetSourceByUrl(url);
    if existing.None? {
      var _ := dao.UpsertSource(Source(url, title, None, folder));
    } else if folder.Some? && existing.value.folderName != folder {
      var _ := dao.UpsertSource(existing.value.(folderName := folder));
    }
  }

  /** `importOpml`: the items in order, a folder's children after the folder. */
  method ImportOpml(dao: Dao.FeedDao, items: seq<Opml.OpmlItem>)
    requires dao.Valid()
    modifies dao
    ensures dao.Valid()
    ensures dao.Snapshot() == ImportItems(old(dao.Snapshot()), items)
  {
    var i := 0;
    while i < |items|
      invariant 0 <= i <= |items| && dao.Valid()
      invariant ImportItems(dao.Snapshot(), items[i..]) == ImportItems(old(dao.Snapshot()), items)
    {
      assert items[i..][1..] == items[i + 1..];
      match items[i] {
        case FolderItem(title, cs) =>
          ghost var t0 := dao.Snapshot();
          dao.InsertFolder(title);
          var j := 0;
          while j < |cs|
            invariant 0 <= j <= |cs| && dao.Valid()
            invariant ImportChildren(dao.Snapshot(), cs[j..], title) == ImportItem(t0, items[i])
          {
            assert cs[j..][1..] == cs[j + 1..];
            ProcessSource(dao, cs[j].title, cs[j].xmlUrl, Some(title));
            j := j + 1;
          }
          assert cs[j..] == [];
        case SourceItem(s) =>
          ProcessSource(dao, s.title, s.xmlUrl, None);
      }
      i := i + 1;
    }
    assert items[i..] == [];
  }

  // ---------------------------------------------------------------------------
  // deleteFolder

  /** `deleteFolder`: note the sources filed under the folder, delete the
      folder locally (which cascades to them), then delete each of them from
      the cloud. */
  method DeleteFolder(dao: Dao.FeedDao, name: string) returns (ops: seq<CloudOp>)
    requires dao.Valid()
    modifies dao
    ensures dao.Valid()
    ensures dao.Snapshot() == FeedStore.DeleteFolder(old(dao.Snapshot()), name)
    ensures forall op :: op in ops <==> op.DeleteSourceOp? && op.url in old(dao.sources) && old(dao.sources)[op.url].folderName == Some(name)
  {
    var all := dao.GetAllSources();
    var inFolder := [];
    var i := 0;
    while i < |all|
      invariant 0 <= i <= |all|
      invariant forall s :: s in inFolder <==> s in all[..i] && s.folderName == Some(name)
    {
      assert all[..i + 1] == all[..i] + [all[i]];
      if all[i].folderName == Some(name) {
        inFolder := inFolder + [all[i]];
      }
      i := i + 1;
    }
    assert all[..i] == all;
    dao.DeleteFolder(name);
    ops := [];
    var k := 0;
    while k < |inFolder|
      invariant 0 <= k <= |inFolder|
      invariant forall op :: op in ops <==> exists s :: s in inFolder[..k] && op == DeleteSourceOp(s.url)
    {
      assert inFolder[..k + 1] == inFolder[..k] + [inFolder[k]];
      ops := ops + [DeleteSourceOp(inFolder[k].url)];
      k := k + 1;
    }
    assert inFolder[..k] == inFolder;
  }
}
