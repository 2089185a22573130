/** The main view model of the second generation of the application. It
    differs from the newest one in its article list (a loading state until
    the first refresh ends, and a separate search mode), in hiding a link as
    soon as it is read, in marking a whole view read, and in its feed search,
    which scans the candidate sites itself. */
module RiffleViewModel {
  import opened Wrappers
  import opened Strings
  import opened Entities
  import opened Lists
  import opened Selection
  import opened FeedDiscovery
  import FeedStore
  import Dao

  /** What the article list shows. */
  datatype FeedUiState = Loading | Success(articles: seq<Article>)

  /** The rows the list reads: in search mode, nothing for a blank query and
      the search query's rows otherwise; else the selected view's rows. */
  function ListRows(searching: bool, query: string, searchRows: seq<Article>, viewRows: seq<Article>): seq<Article> {
    if searching && IsBlank(query) then []
    else if searching then searchRows
    else viewRows
  }

  /** `uiState`: loading until the first refresh ends; then the rows, all of
      them in search mode and in the saved view and only those not hidden
      elsewhere, at most `limit` of them. */
  function UiState(initialSync: bool, selector: Option<string>, hidden: set<string>, limit: nat,
                   searching: bool, query: string, searchRows: seq<Article>, viewRows: seq<Article>): FeedUiState
  {
    if initialSync then Loading
    else
      var rows := ListRows(searching, query, searchRows, viewRows);
      var visible := (a: Article) => a.link !in hidden;
      var kept := if selector == Some("saved") || searching then rows else Filter(rows, visible);
      Success(Take(kept, limit))
  }

  /** The list state: loading whatever is selected until the first refresh
      ends; after it, at most `limit` rows; none for a blank search; in
      search mode and in the saved view the rows as read; elsewhere never a
      hidden link, and every visible row when fewer than `limit` are shown. */
  lemma UiStateMeaning(initialSync: bool, selector: Option<string>, hidden: set<string>, limit: nat,
                       searching: bool, query: string, searchRows: seq<Article>, viewRows: seq<Article>)
    ensures var s := UiState(initialSync, selector, hidden, limit, searching, query, searchRows, viewRows);
      && (s.Loading? <==> initialSync)
      && (s.Success? ==> |s.articles| <= limit)
      && (s.Success? && searching && IsBlank(query) ==> s.articles == [])
      && (s.Success? && searching && !IsBlank(query) ==> s.articles == Take(searchRows, limit))
      && (s.Success? && !searching && selector == Some("saved") ==> s.articles == Take(viewRows, limit))
      && (s.Success? && !searching && selector != Some("saved") ==>
            && (forall a :: a in s.articles ==> a in viewRows && a.link !in hidden)
            && (|s.articles| < limit ==> forall a :: a in viewRows && a.link !in hidden ==> a in s.articles))
  {
  }

  // ---------------------------------------------------------------------------
  // Feed search

  /** The candidate domains: the suggested ones (when the service is asked),
      with the query itself put first when it is not among them, followed,
      when it has no ".", by "<query>.es" and "<query>.com". */
  function DomainsToTry(cleanQuery: string, ss: seq<Suggestion>): seq<string> {
    var suggested := if ConsultsSuggestions(cleanQuery) then SuggestedDomains(ss) else [];
    if cleanQuery in suggested then suggested
    else [cleanQuery] + suggested + (if !Contains(cleanQuery, ".") then [cleanQuery + ".es", cleanQuery + ".com"] else [])
  }

  /** The query is always a candidate, and every suggested domain is one.
      When the query is among the suggestions the list is the suggestions
      alone; otherwise the query comes first, and without a "." it is
      followed at the end by "<query>.es" and "<query>.com". */
  lemma DomainsToTryShape(cleanQuery: string, ss: seq<Suggestion>)
    ensures var ds := DomainsToTry(cleanQuery, ss);
      var asked := ConsultsSuggestions(cleanQuery);
      && cleanQuery in ds
      && (asked ==> forall s :: s in ss ==> s.domain in ds)
      && (forall d :: d in ds ==>
            (d == cleanQuery || d == cleanQuery + ".es" || d == cleanQuery + ".com" || (asked && exists s :: s in ss && s.domain == d)))
      && (asked && (exists s :: s in ss && s.domain == cleanQuery) ==> ds == SuggestedDomains(ss))
      && (!(asked && exists s :: s in ss && s.domain == cleanQuery) ==>
            && ds[0] == cleanQuery
            && (!Contains(cleanQuery, ".") ==> ds[|ds| - 2..] == [cleanQuery + ".es", cleanQuery + ".com"]))
  {
    var suggested := if ConsultsSuggestions(cleanQuery) then SuggestedDomains(ss) else [];
    forall d | d in suggested ensures ConsultsSuggestions(cleanQuery) && exists s :: s in ss && s.domain == d {
      var i :| 0 <= i < |suggested| && suggested[i] == d;
      assert ss[i] in ss;
    }
    if ConsultsSuggestions(cleanQuery) {
      forall s | s in ss ensures s.domain in suggested {
        var i :| 0 <= i < |ss| && ss[i] == s;
        assert suggested[i] == s.domain;
      }
    }
  }

  /** The usual feed paths probed when no page lists a feed. */
  const CommonPaths: seq<string> := ["/feed", "/rss", "/rss.xml", "/index.xml"]

  /** The feeds one domain yields: those of the first page listing any, else
      the usual paths that answer with XML at the domain's host. */
  function DomainFeeds(domain: string, page: string -> seq<Link>, isXml: string -> bool, host: string -> string,
                       icon: Option<string>, name: Option<string>): seq<DiscoveredFeed>
  {
    var found := PageFeeds(domain, page, icon, name);
    if found != [] then found else Probes(HostOf(domain, host), CommonPaths, isXml, "Feed: ", icon, name)
  }

  /** One iteration of the domain loop. */
  method SearchDomain(domain: string, page: string -> seq<Link>, isXml: string -> bool, host: string -> string,
                      icon: Option<string>, name: Option<string>) returns (results: seq<DiscoveredFeed>)
    ensures results == DomainFeeds(domain, page, isXml, host, icon, name)
  {
    results := ScanPages(domain, page, icon, name);
    if results == [] {
      results := ProbePaths(HostOf(domain, host), CommonPaths, isXml, "Feed: ", icon, name);
    }
  }

  class MainViewModel {
    var selected: Option<string>
    var limit: nat
    var hidden: set<string>
    /** `_isInitialSync`: the first refresh has not ended yet. */
    var initialSync: bool
    var refreshing: bool
    /** `_isArticleSearching` and `_articleSearchQuery`. */
    var searching: bool
    var query: string
    var discovered: seq<DiscoveredFeed>

    constructor()
      ensures selected.None? && limit == 20 && hidden == {} && initialSync && !refreshing
      ensures !searching && query == "" && discovered == []
    {
      selected, limit, hidden, initialSync, refreshing := None, 20, {}, true, false;
      searching, query, discovered := false, "", [];
    }

    method UpdateHiddenArticles(dao: Dao.FeedDao)
      modifies this`hidden
      ensures hidden == set l | l in dao.articles && dao.articles[l].isRead
    {
      var links := dao.GetReadArticleLinks();
      hidden := set l | l in links;
    }

    /** The end of a refresh, whether or not it succeeded: the list stops
        loading and the refresh indicator goes off; after a success the
        hidden links are read again. */
    method FinishSync(dao: Dao.FeedDao, succeeded: bool)
      modifies this`refreshing, this`initialSync, this`hidden
      ensures !refreshing && !initialSync
      ensures succeeded ==> hidden == set l | l in dao.articles && dao.articles[l].isRead
      ensures !succeeded ==> hidden == old(hidden)
    {
      if succeeded {
        UpdateHiddenArticles(dao);
      }
      refreshing := false;
      initialSync := false;
    }

    /** `markAsRead`: the article is marked read and its link hidden at once. */
    method MarkAsRead(dao: Dao.FeedDao, link: string)
      requires dao.Valid()
      modifies dao, this`hidden
      ensures dao.Valid() && dao.Snapshot() == FeedStore.MarkArticleRead(old(dao.Snapshot()), link)
      ensures hidden == old(hidden) + {link}
    {
      dao.MarkArticleAsRead(link);
      hidden := hidden + {link};
    }

    /** `markAllAsRead`: nothing in the saved view; otherwise every article
        of the view is marked read and the hidden links are read again (the
        refresh that follows is not part of this method). */
    method MarkAllAsRead(dao: Dao.FeedDao)
      requires dao.Valid()
      modifies dao, this`hidden
      ensures dao.Valid()
      ensures MarkAllScope(selected).None? ==> dao.Snapshot() == old(dao.Snapshot()) && hidden == old(hidden)
      ensures MarkAllScope(selected).Some? ==>
        && dao.Snapshot() == FeedStore.MarkRead(old(dao.Snapshot()), MarkAllScope(selected).value)
        && hidden == set l | l in dao.articles && dao.articles[l].isRead
    {
      var sc := MarkAllScope(selected);
      if sc.None? {
        return;
      }
      dao.MarkScopeAsRead(sc.value);
      UpdateHiddenArticles(dao);
    }

    method SelectSource(dao: Dao.FeedDao, url: Option<string>)
      modifies this`limit, this`hidden, this`selected
      ensures limit == 20 && selected == url
      ensures hidden == set l | l in dao.articles && dao.articles[l].isRead
    {
      limit := 20;
      UpdateHiddenArticles(dao);
      selected := url;
    }

    method SelectSaved()
      modifies this`limit, this`selected
      ensures limit == 20 && ViewOf(selected) == SavedView
    {
      limit := 20;
      selected := Some("saved");
    }

    method SelectFolder(dao: Dao.FeedDao, name: string)
      modifies this`limit, this`hidden, this`selected
      ensures limit == 20 && ViewOf(selected) == FolderView(name)
      ensures hidden == set l | l in dao.articles && dao.articles[l].isRead
    {
      limit := 20;
      UpdateHiddenArticles(dao);
      selected := Some(FolderPrefix + name);
      ViewRoundTrip(FolderView(name));
    }

    method LoadMore()
      modifies this`limit
      ensures limit == old(limit) + 20
    {
      limit := limit + 20;
    }

    method StartArticleSearch()
      modifies this`searching
      ensures searching
    {
      searching := true;
    }

    /** Leaving search mode also forgets the query. */
    method StopArticleSearch()
      modifies this`searching, this`query
      ensures !searching && query == ""
    {
      searching := false;
      query := "";
    }

    method UpdateArticleSearchQuery(q: string)
      modifies this`query
      ensures query == q
    {
      query := q;
    }

    method DeleteSource(dao: Dao.FeedDao, url: string)
      requires dao.Valid()
      modifies dao, this`selected
      ensures dao.Valid() && dao.Snapshot() == FeedStore.DeleteSource(old(dao.Snapshot()), url)
      ensures selected == AfterSourceDeleted(old(selected), url)
    {
      dao.DeleteSource(url);
      if selected == Some(url) {
        selected := None;
      }
    }

    method DeleteFolder(dao: Dao.FeedDao, name: string)
      requires dao.Valid()
      modifies dao, this`selected
      ensures dao.Valid() && dao.Snapshot() == FeedStore.DeleteFolder(old(dao.Snapshot()), name)
      ensures selected == AfterFolderDeleted(old(selected), name)
    {
      dao.DeleteFolder(name);
      if selected == Some(FolderPrefix + name) {
        selected := None;
      }
    }

    method RenameFolder(dao: Dao.FeedDao, oldName: string, newName: string) returns (err: Option<FeedStore.DbError>)
      requires dao.Valid()
      modifies dao, this`selected
      ensures dao.Valid()
      ensures match FeedStore.RenameFolder(old(dao.Snapshot()), oldName, newName)
        case Ok(t) => err.None? && dao.Snapshot() == t && selected == AfterFolderRenamed(old(selected), oldName, newName)
        case Err(e) => err == Some(e) && dao.Snapshot() == old(dao.Snapshot()) && selected == old(selected)
    {
      err := dao.RenameFolder(oldName, newName);
      if err.None? && selected == Some(FolderPrefix + oldName) {
        selected := Some(FolderPrefix + newName);
      }
    }

    /** `searchFeeds`: the candidate domains in order, stopping at the first
        that yields a feed; that domain's feeds are kept, one per url. */
    method SearchFeeds(q: string, ss: seq<Suggestion>, page: string -> seq<Link>, isXml: string -> bool, host: string -> string)
      modifies this`discovered
      ensures var cq := CleanQuery(q);
        var feedsOf := (d: string) => DomainFeeds(d, page, isXml, host, SiteIcon(cq, ss), SiteName(cq, ss));
        discovered == DistinctBy(FirstNonEmpty(DomainsToTry(cq, ss), feedsOf), (f: DiscoveredFeed) => f.url)
    {
      var cq := CleanQuery(q);
      var icon, name := SiteIcon(cq, ss), SiteName(cq, ss);
      var domains := DomainsToTry(cq, ss);
      var feedsOf := (d: string) => DomainFeeds(d, page, isXml, host, icon, name);
      var results := [];
      var i := 0;
      while i < |domains| && results == []
        invariant 0 <= i <= |domains|
        invariant results == [] ==> FirstNonEmpty(domains[i..], feedsOf) == FirstNonEmpty(domains, feedsOf)
        invariant results != [] ==> results == FirstNonEmpty(domains, feedsOf)
      {
        assert domains[i..][1..] == domains[i + 1..];
        results := SearchDomain(domains[i], page, isXml, host, icon, name);
        i := i + 1;
      }
      discovered := DistinctBy(results, (f: DiscoveredFeed) => f.url);
    }
  }
}
