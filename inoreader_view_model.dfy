/** The main view model of the first generation of the application. Its
    article list has no length cap and no search, reading a single article
    leaves the list alone, and its feed search probes more usual paths, at
    the bare host and at its "www." form. */
module InoreaderViewModel {
  import opened Wrappers
  import opened Strings
  import opened Entities
  import opened Lists
  import opened Selection
  import opened FeedDiscovery
  import FeedStore
  import Dao

  /** `uiState`: in the saved view every row of the view, elsewhere the rows
      whose link is not hidden; no cap on the length. */
  function Shown(selector: Option<string>, hidden: set<string>, viewRows: seq<Article>): seq<Article> {
    if selector == Some("saved") then viewRows else Filter(viewRows, NotHidden(hidden))
  }

  /** A row whose link is not hidden. */
  function NotHidden(hidden: set<string>): Article -> bool {
    (a: Article) => a.link !in hidden
  }

  /** Outside the saved view exactly the rows not hidden are shown; the
      saved view shows all its rows. */
  lemma ShownMeaning(selector: Option<string>, hidden: set<string>, viewRows: seq<Article>)
    ensures selector == Some("saved") ==> Shown(selector, hidden, viewRows) == viewRows
    ensures selector != Some("saved") ==>
      forall a :: a in Shown(selector, hidden, viewRows) <==> a in viewRows && a.link !in hidden
  {
    if selector != Some("saved") {
      var sh := Shown(selector, hidden, viewRows);
      assert sh == Filter(viewRows, NotHidden(hidden));
      forall a ensures a in sh <==> a in viewRows && a.link !in hidden {
        assert NotHidden(hidden)(a) <==> a.link !in hidden;
      }
    }
  }

  /** The shown rows keep the view's order. */
  lemma ShownInOrder(selector: Option<string>, hidden: set<string>, viewRows: seq<Article>, i: int, j: int)
    requires 0 <= i < j < |Shown(selector, hidden, viewRows)|
    ensures var r := Shown(selector, hidden, viewRows);
      exists a, b :: 0 <= a < b < |viewRows| && viewRows[a] == r[i] && viewRows[b] == r[j]
  {
    var r := Shown(selector, hidden, viewRows);
    if selector == Some("saved") {
      assert viewRows[i] == r[i] && viewRows[j] == r[j];
    } else {
      FilterOrder(viewRows, NotHidden(hidden), i, j);
    }
  }

  // ---------------------------------------------------------------------------
  // Feed search

  /** The candidate domains: the suggested ones (when the service is asked),
      with the query itself put first when it is not among them. */
  function DomainsToTry(cleanQuery: string, ss: seq<Suggestion>): seq<string> {
    var suggested := if ConsultsSuggestions(cleanQuery) then SuggestedDomains(ss) else [];
    if cleanQuery in suggested then suggested else [cleanQuery] + suggested
  }

  /** The query is always a candidate and, when it was not suggested, the
      first one; the other candidates are the suggested domains. */
  lemma DomainsToTryShape(cleanQuery: string, ss: seq<Suggestion>)
    ensures var ds := DomainsToTry(cleanQuery, ss);
      var asked := ConsultsSuggestions(cleanQuery);
      && cleanQuery in ds
      && (forall d :: d in ds <==> d == cleanQuery || (asked && exists s :: s in ss && s.domain == d))
      && (!(asked && exists s :: s in ss && s.domain == cleanQuery) ==> ds[0] == cleanQuery)
  {
    var suggested := if ConsultsSuggestions(cleanQuery) then SuggestedDomains(ss) else [];
    forall d ensures d in suggested <==> ConsultsSuggestions(cleanQuery) && exists s :: s in ss && s.domain == d {
      if d in suggested {
        var i :| 0 <= i < |suggested| && suggested[i] == d;
        assert ss[i] in ss;
      }
      if ConsultsSuggestions(cleanQuery) && exists s :: s in ss && s.domain == d {
        var s :| s in ss && s.domain == d;
        var i :| 0 <= i < |ss| && ss[i] == s;
        assert suggested[i] == d;
      }
    }
  }

  /** The usual feed paths probed when no page lists a feed. */
  const CommonPaths: seq<string> := ["/feed", "/rss", "/rss.xml", "/index.xml", "/atom.xml", "/feed.xml"]

  /** The hosts probed for a domain: its host without a leading "www.", then
      that host with "www." put back. */
  function ProbeHosts(domain: string, host: string -> string): (hs: seq<string>)
    ensures |hs| == 2 && hs[1] == "www." + hs[0]
    ensures HostOf(domain, host) in hs
    ensures StartsWith(HostOf(domain, host), "www.") <==> hs[1] == HostOf(domain, host)
  {
    var h := RemovePrefix(HostOf(domain, host), "www.");
    [h, "www." + h]
  }

  /** The feeds one domain yields: those of the first page listing any, else
      the usual paths answering with XML at the first probed host where any
      does. */
  function DomainFeeds(domain: string, page: string -> seq<Link>, isXml: string -> bool, host: string -> string,
                       icon: Option<string>, name: Option<string>): seq<DiscoveredFeed>
  {
    var found := PageFeeds(domain, page, icon, name);
    if found != [] then found
    else FirstNonEmpty(ProbeHosts(domain, host), (h: string) => Probes(h, CommonPaths, isXml, "Direct Feed: ", icon, name))
  }

  /** One iteration of the domain loop: the pages, then the probes host by
      host until one answers. */
  method SearchDomain(domain: string, page: string -> seq<Link>, isXml: string -> bool, host: string -> string,
                      icon: Option<string>, name: Option<string>) returns (results: seq<DiscoveredFeed>)
    ensures results == DomainFeeds(domain, page, isXml, host, icon, name)
  {
    results := ScanPages(domain, page, icon, name);
    if results == [] {
      var hosts := ProbeHosts(domain, host);
      var probe := (h: string) => Probes(h, CommonPaths, isXml, "Direct Feed: ", icon, name);
      var k := 0;
      while k < |hosts| && results == []
        invariant 0 <= k <= |hosts|
        invariant results == [] ==> FirstNonEmpty(hosts[k..], probe) == FirstNonEmpty(hosts, probe)
        invariant results != [] ==> results == FirstNonEmpty(hosts, probe)
      {
        assert hosts[k..][1..] == hosts[k + 1..];
        results := ProbePaths(hosts[k], CommonPaths, isXml, "Direct Feed: ", icon, name);
        k := k + 1;
      }
    }
  }

  class MainViewModel {
    var selected: Option<string>
    var hidden: set<string>
    var refreshing: bool
    var discovered: seq<DiscoveredFeed>

    constructor()
      ensures selected.None? && hidden == {} && !refreshing && discovered == []
    {
      selected, hidden, refreshing, discovered := None, {}, false, [];
    }

    method UpdateHiddenArticles(dao: Dao.FeedDao)
      modifies this`hidden
      ensures hidden == set l | l in dao.articles && dao.articles[l].isRead
    {
      var links := dao.GetReadArticleLinks();
      hidden := set l | l in links;
    }

    /** The end of a refresh: the indicator goes off, and after a success
        the hidden links are read again. */
    method FinishSync(dao: Dao.FeedDao, succeeded: bool)
      modifies this`refreshing, this`hidden
      ensures !refreshing
      ensures succeeded ==> hidden == set l | l in dao.articles && dao.articles[l].isRead
      ensures !succeeded ==> hidden == old(hidden)
    {
      if succeeded {
        UpdateHiddenArticles(dao);
      }
      refreshing := false;
    }

    method SelectSource(dao: Dao.FeedDao, url: Option<string>)
      modifies this`hidden, this`selected
      ensures selected == url
      ensures hidden == set l | l in dao.articles && dao.articles[l].isRead
    {
      UpdateHiddenArticles(dao);
      selected := url;
    }

    method SelectSaved()
      modifies this`selected
      ensures ViewOf(selected) == SavedView
    {
      selected := Some("saved");
    }

    method SelectFolder(dao: Dao.FeedDao, name: string)
      modifies this`hidden, this`selected
      ensures ViewOf(selected) == FolderView(name)
      ensures hidden == set l | l in dao.articles && dao.articles[l].isRead
    {
      UpdateHiddenArticles(dao);
      selected := Some(FolderPrefix + name);
      ViewRoundTrip(FolderView(name));
    }

    /** `markAsRead`: the article is marked read but stays in the list
        until the hidden links are next read. */
    method MarkAsRead(dao: Dao.FeedDao, link: string)
      requires dao.Valid()
      modifies dao
      ensures dao.Valid() && dao.Snapshot() == FeedStore.MarkArticleRead(old(dao.Snapshot()), link)
    {
      dao.MarkArticleAsRead(link);
    }

    method ToggleSaveArticle(dao: Dao.FeedDao, link: string, isSaved: bool)
      requires dao.Valid()
      modifies dao
      ensures dao.Valid() && dao.Snapshot() == FeedStore.SetSaved(old(dao.Snapshot()), link, !isSaved)
    {
      dao.UpdateArticleSavedStatus(link, !isSaved);
    }

    /** `markAllAsRead`: nothing in the saved view; otherwise every article
        of the view is marked read and the hidden links are read again (the
        refresh that follows is not part of this method). */
    method MarkAllAsRead(dao: Dao.FeedDao)
      requires dao.Valid()
      modifies dao, this`hidden
      ensures dao.Valid()
      ensures MarkAllScope(selected).None? ==> dao.Snapshot() == old(dao.Snapshot()) && hidden == old(hidden)
      ensures MarkAllScope(selected).Some? ==>
        && dao.Snapshot() == FeedStore.MarkRead(old(dao.Snapshot()), MarkAllScope(selected).value)
        && hidden == set l | l in dao.articles && dao.articles[l].isRead
    {
      var sc := MarkAllScope(selected);
      if sc.None? {
        return;
      }
      dao.MarkScopeAsRead(sc.value);
      UpdateHiddenArticles(dao);
    }

    method DeleteSource(dao: Dao.FeedDao, url: string)
      requires dao.Valid()
      modifies dao, this`selected
      ensures dao.Valid() && dao.Snapshot() == FeedStore.DeleteSource(old(dao.Snapshot()), url)
      ensures selected == AfterSourceDeleted(old(selected), url)
    {
      dao.DeleteSource(url);
      if selected == Some(url) {
        selected := None;
      }
    }

    method DeleteFolder(dao: Dao.FeedDao, name: string)
      requires dao.Valid()
      modifies dao, this`selected
      ensures dao.Valid() && dao.Snapshot() == FeedStore.DeleteFolder(old(dao.Snapshot()), name)
      ensures selected == AfterFolderDeleted(old(selected), name)
    {
      dao.DeleteFolder(name);
      if selected == Some(FolderPrefix + name) {
        selected := None;
      }
    }

    method RenameFolder(dao: Dao.FeedDao, oldName: string, newName: string) returns (err: Option<FeedStore.DbError>)
      requires dao.Valid()
      modifies dao, this`selected
      ensures dao.Valid()
      ensures match FeedStore.RenameFolder(old(dao.Snapshot()), oldName, newName)
        case Ok(t) => err.None? && dao.Snapshot() == t && selected == AfterFolderRenamed(old(selected), oldName, newName)
        case Err(e) => err == Some(e) && dao.Snapshot() == old(dao.Snapshot()) && selected == old(selected)
    {
      err := dao.RenameFolder(oldName, newName);
      if err.None? && selected == Some(FolderPrefix + oldName) {
        selected := Some(FolderPrefix + newName);
      }
    }

    /** `searchFeeds`: the candidate domains in order, stopping at the first
        that yields a feed, whose feeds are kept one per url. */
    method SearchFeeds(q: string, ss: seq<Suggestion>, page: string -> seq<Link>, isXml: string -> bool, host: string -> string)
      modifies this`discovered
      ensures var cq := CleanQuery(q);
        var feedsOf := (d: string) => DomainFeeds(d, page, isXml, host, SiteIcon(cq, ss), SiteName(cq, ss));
        discovered == DistinctBy(FirstNonEmpty(DomainsToTry(cq, ss), feedsOf), (f: DiscoveredFeed) => f.url)
    {
      var cq := CleanQuery(q);
      var icon, name := SiteIcon(cq, ss), SiteName(cq, ss);
      var domains := DomainsToTry(cq, ss);
      var feedsOf := (d: string) => DomainFeeds(d, page, isXml, host, icon, name);
      var results := [];
      var i := 0;
      while i < |domains| && results == []
        invariant 0 <= i <= |domains|
        invariant results == [] ==> FirstNonEmpty(domains[i..], feedsOf) == FirstNonEmpty(domains, feedsOf)
        invariant results != [] ==> results == FirstNonEmpty(domains, feedsOf)
      {
        assert domains[i..][1..] == domains[i + 1..];
        results := SearchDomain(domains[i], page, isXml, host, icon, name);
        i := i + 1;
      }
      discovered := DistinctBy(results, (f: DiscoveredFeed) => f.url);
    }
  }
}
