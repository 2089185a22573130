/** The main screen's view model: which articles the list shows, how the
    selection reacts to sources and folders being deleted or renamed, the
    health badge of each feed, the AI summary with its fallback between
    models, and the search for new feeds. The AI service, the company-name
    suggestion service and the feed-search service appear as parameters
    giving their answers. */
module ViewModel {
  import opened Wrappers
  import opened Strings
  import opened Entities
  import opened Lists
  import opened Selection
  import opened FeedDiscovery
  import Numbers
  import FeedStore
  import Dao
  import Repository

  // ---------------------------------------------------------------------------
  // Feed health

  /** How recently a feed published. */
  datatype FeedHealth = Good | Warning | Bad | Dead | Unknown

  const DayMillis := 24 * 60 * 60 * 1000

  /** The badge for a feed whose newest article is dated `lastPubDate`, the
      age being computed in `Long` arithmetic. */
  function Health(now: int, lastPubDate: int): (h: FeedHealth)
    ensures h != Unknown
  {
    var age := Numbers.WrapLong(now - lastPubDate);
    if age <= 5 * DayMillis then Good
    else if age <= 10 * DayMillis then Warning
    else if age <= 50 * DayMillis then Bad
    else Dead
  }

  /** Worse badges rank higher. */
  function Rank(h: FeedHealth): nat {
    match h
    case Good => 0
    case Warning => 1
    case Bad => 2
    case Dead => 3
    case Unknown => 4
  }

  /** For an age that fits a `Long`, the badge is fixed by which of the
      bands (0, 5], (5, 10], (10, 50] days or beyond the age falls in. */
  lemma HealthBands(now: int, lastPubDate: int)
    requires Numbers.IsLong(now - lastPubDate)
    ensures var age := now - lastPubDate;
      && (Health(now, lastPubDate) == Good <==> age <= 5 * DayMillis)
      && (Health(now, lastPubDate) == Warning <==> 5 * DayMillis < age <= 10 * DayMillis)
      && (Health(now, lastPubDate) == Bad <==> 10 * DayMillis < age <= 50 * DayMillis)
      && (Health(now, lastPubDate) == Dead <==> 50 * DayMillis < age)
  {
  }

  /** A feed that published later never has a worse badge. */
  lemma HealthMonotone(now: int, older: int, newer: int)
    requires Numbers.IsLong(now - older) && Numbers.IsLong(now - newer)
    requires older <= newer
    ensures Rank(Health(now, newer)) <= Rank(Health(now, older))
  {
  }

  /** A row of `getLastArticleDates`: a source and its newest article's date. */
  datatype LastDate = LastDate(sourceUrl: string, lastPubDate: int)

  /** `feedHealthState`: `associate` over the rows, a later row of the same
      source replacing an earlier one. */
  function HealthMap(now: int, dates: seq<LastDate>): (m: map<string, FeedHealth>)
    ensures forall u :: u in m <==> exists i :: 0 <= i < |dates| && dates[i].sourceUrl == u
    decreases |dates|
  {
    if |dates| == 0 then map[]
    else
      var d := dates[|dates| - 1];
      var m := HealthMap(now, dates[..|dates| - 1]);
      assert forall i :: 0 <= i < |dates| - 1 ==> dates[..|dates| - 1][i] == dates[i];
      m[d.sourceUrl := Health(now, d.lastPubDate)]
  }

  /** Each source's badge is the one of its last row. */
  lemma {:induction false} HealthMapLastRow(now: int, dates: seq<LastDate>, i: int)
    requires 0 <= i < |dates|
    requires forall j :: i < j < |dates| ==> dates[j].sourceUrl != dates[i].sourceUrl
    ensures HealthMap(now, dates)[dates[i].sourceUrl] == Health(now, dates[i].lastPubDate)
    decreases |dates|
  {
    if i < |dates| - 1 {
      var init := dates[..|dates| - 1];
      assert init[i] == dates[i];
      HealthMapLastRow(now, init, i);
    }
  }

  // ---------------------------------------------------------------------------
  // The article list

  /** The list shown for the rows `articles` of the selected view: with a
      search query, the rows whose title contains it ignoring case; else, in
      the saved view every row, and in the others the rows not hidden; at
      most `limit` of them. */
  function Shown(articles: seq<Article>, selector: Option<string>, hidden: set<string>, limit: nat, query: string): seq<Article> {
    var matching := (a: Article) => ContainsIgnoreCase(a.title, query);
    var visible := (a: Article) => a.link !in hidden;
    var kept :=
      if query != "" then Filter(articles, matching)
      else if selector == Some("saved") then articles
      else Filter(articles, visible);
    Take(kept, limit)
  }

  /** What the shown list holds: never more than `limit` rows, all of them
      rows of the view, in their order; with a query only matching titles;
      without one, no hidden link outside the saved view; and when fewer than
      `limit` are shown, every qualifying row is. */
  lemma ShownMeaning(articles: seq<Article>, selector: Option<string>, hidden: set<string>, limit: nat, query: string)
    ensures var r := Shown(articles, selector, hidden, limit, query);
      && |r| <= limit
      && (forall a :: a in r ==> a in articles)
      && (query != "" ==> forall a :: a in r ==> ContainsIgnoreCase(a.title, query))
      && (query == "" && selector != Some("saved") ==> forall a :: a in r ==> a.link !in hidden)
      && (query == "" && selector == Some("saved") ==> r == Take(articles, limit))
      && (|r| < limit ==> forall a :: a in articles ==>
            (a in r <==> (if query != "" then ContainsIgnoreCase(a.title, query)
                          else selector == Some("saved") || a.link !in hidden)))
  {
  }

  /** The rows of the shown list keep the order of the view's rows. */
  lemma ShownInOrder(articles: seq<Article>, selector: Option<string>, hidden: set<string>, limit: nat, query: string, i: int, j: int)
    requires 0 <= i < j < |Shown(articles, selector, hidden, limit, query)|
    ensures var r := Shown(articles, selector, hidden, limit, query);
      exists a, b :: 0 <= a < b < |articles| && articles[a] == r[i] && articles[b] == r[j]
  {
    var matching := (a: Article) => ContainsIgnoreCase(a.title, query);
    var visible := (a: Article) => a.link !in hidden;
    var r := Shown(articles, selector, hidden, limit, query);
    if query != "" {
      FilterOrder(articles, matching, i, j);
    } else if selector == Some("saved") {
      assert articles[i] == r[i] && articles[j] == r[j];
    } else {
      FilterOrder(articles, visible, i, j);
    }
  }

  // ---------------------------------------------------------------------------
  // The AI summary

  /** What one model answered: a text (possibly null), or an error with its
      message (possibly null). */
  datatype ModelReply = Reply(text: Option<string>) | Failure(message: Option<string>)

  /** What the summary area shows. */
  datatype SummaryState =
    | NoSummary
    | Summary(text: Option<string>)
    | ApiKeyError
    | OverloadedError
    | ConnectionError(detail: string)

  /** The models tried, in order. */
  const FallbackModels: seq<string> := ["gemini-2.5-flash", "gemini-2.5-flash-lite", "gemini-3-flash"]

  /** An error message naming a spent quota: "429", "quota" or "exhausted". */
  predicate IsQuotaError(message: Option<string>) {
    var m := Lower(message.GetOr(""));
    Contains(m, "429") || Contains(m, "quota") || Contains(m, "exhausted")
  }

  /** An error message naming an overloaded service: "503", "overloaded" or "capacity". */
  predicate IsOverloaded(message: Option<string>) {
    var m := Lower(message.GetOr(""));
    Contains(m, "503") || Contains(m, "overloaded") || Contains(m, "capacity")
  }

  predicate QuotaFailure(r: ModelReply) {
    r.Failure? && IsQuotaError(r.message)
  }

  /** Where the fallback stopped: the model statuses, the text of the model
      that answered (if one did), and the message of the last error (if any). */
  datatype Attempts = Attempts(statuses: map<string, string>, text: Option<Option<string>>, lastError: Option<Option<string>>)

  /** Trying `models` in order: an answer marks its model "available" and
      ends the search; a quota error marks its model "exhausted" and moves
      on; any other error ends the search. */
  function Fallback(models: seq<string>, reply: string -> ModelReply, statuses: map<string, string>,
                    lastError: Option<Option<string>>): Attempts
    decreases |models|
  {
    if |models| == 0 then Attempts(statuses, None, lastError)
    else
      var m := models[0];
      match reply(m)
      case Reply(t) => Attempts(statuses[m := "available"], Some(t), lastError)
      case Failure(msg) =>
        if IsQuotaError(msg) then Fallback(models[1..], reply, statuses[m := "exhausted"], Some(msg))
        else Attempts(statuses, None, Some(msg))
  }

  /** The summary shown once the fallback is over. */
  function Outcome(a: Attempts): SummaryState {
    if a.text.Some? then Summary(a.text.value)
    else
      var message := if a.lastError.Some? then a.lastError.value else None;
      if IsOverloaded(message) then OverloadedError
      else ConnectionError(message.GetOr("Unknown error"))
  }

  /** Some model answers exactly when one does after nothing but quota
      errors from the models before it. */
  lemma {:induction false} FallbackSucceeds(models: seq<string>, reply: string -> ModelReply, statuses: map<string, string>,
                                            lastError: Option<Option<string>>)
    ensures Fallback(models, reply, statuses, lastError).text.Some? <==>
      exists k :: 0 <= k < |models| && reply(models[k]).Reply? && forall j :: 0 <= j < k ==> QuotaFailure(reply(models[j]))
    decreases |models|
  {
    if |models| > 0 {
      var m := models[0];
      if QuotaFailure(reply(m)) {
        FallbackSucceeds(models[1..], reply, statuses[m := "exhausted"], Some(reply(m).message));
        if exists k :: 0 <= k < |models[1..]| && reply(models[1..][k]).Reply? && forall j :: 0 <= j < k ==> QuotaFailure(reply(models[1..][j])) {
          var k :| 0 <= k < |models[1..]| && reply(models[1..][k]).Reply? && forall j :: 0 <= j < k ==> QuotaFailure(reply(models[1..][j]));
          assert forall j :: 0 <= j < k + 1 ==> QuotaFailure(reply(models[j])) by {
            forall j | 0 <= j < k + 1 ensures QuotaFailure(reply(models[j])) {
              if j > 0 { assert models[j] == models[1..][j - 1]; }
            }
          }
          assert reply(models[k + 1]).Reply?;
        }
        if exists k :: 0 <= k < |models| && reply(models[k]).Reply? && forall j :: 0 <= j < k ==> QuotaFailure(reply(models[j])) {
          var k :| 0 <= k < |models| && reply(models[k]).Reply? && forall j :: 0 <= j < k ==> QuotaFailure(reply(models[j]));
          assert k > 0;
          assert forall j :: 0 <= j < k - 1 ==> QuotaFailure(reply(models[1..][j])) by {
            forall j | 0 <= j < k - 1 ensures QuotaFailure(reply(models[1..][j])) {
              assert models[1..][j] == models[j + 1];
            }
          }
          assert models[1..][k - 1] == models[k];
        }
      } else if reply(m).Failure? {
        assert !exists k :: 0 <= k < |models| && reply(models[k]).Reply? && forall j :: 0 <= j < k ==> QuotaFailure(reply(models[j])) by {
          forall k | 0 <= k < |models| && reply(models[k]).Reply?
            ensures exists j :: 0 <= j < k && !QuotaFailure(reply(models[j]))
          {
            assert k != 0;
            assert !QuotaFailure(reply(models[0]));
          }
        }
      }
    }
  }

  /** Every status the fallback writes reflects what that model answered:
      "available" for an answer, "exhausted" for a quota error; statuses of
      models not tried are kept. */
  lemma {:induction false} FallbackStatuses(models: seq<string>, reply: string -> ModelReply, statuses: map<string, string>,
                                            lastError: Option<Option<string>>)
    ensures var st := Fallback(models, reply, statuses, lastError).statuses;
      && st.Keys == statuses.Keys + (st.Keys - statuses.Keys)
      && (forall m :: m in st ==> m in statuses || m in models)
      && (forall m :: m in st && m !in models ==> st[m] == statuses[m])
      && (forall m :: m in st && st[m] == "available" && (m !in statuses || statuses[m] != "available") ==> reply(m).Reply?)
      && (forall m :: m in st && st[m] == "exhausted" && (m !in statuses || statuses[m] != "exhausted") ==> QuotaFailure(reply(m)))
    decreases |models|
  {
    if |models| > 0 {
      var m := models[0];
      if QuotaFailure(reply(m)) {
        FallbackStatuses(models[1..], reply, statuses[m := "exhausted"], Some(reply(m).message));
      }
    }
  }

  // ---------------------------------------------------------------------------
  // Feed search

  /** A feed-search service hit. */
  datatype FeedHit = FeedHit(title: string, url: string, selfUrl: Option<string>, favicon: Option<string>)

  /** A query that contains "." or starts with "http" is searched as it is;
      otherwise the suggested domains, each once in order, or "<query>.com"
      when there are none. */
  function DomainsToSearch(cleanQuery: string, suggestions: seq<string>): (ds: seq<string>)
    ensures |ds| > 0
  {
    if Contains(cleanQuery, ".") || StartsWith(cleanQuery, "http") then [cleanQuery]
    else
      var ds := DistinctBy(suggestions, (d: string) => d);
      if ds == [] then [cleanQuery + ".com"] else ds
  }

  /** A hit found for `domain`: a blank title becomes "Feed from <domain>",
      and the feed's own url is preferred to the page url. */
  function Discover(domain: string, h: FeedHit): DiscoveredFeed {
    DiscoveredFeed(if IsBlank(h.title) then "Feed from " + domain else h.title,
                   h.selfUrl.GetOr(h.url), h.favicon, Some(h.title))
  }

  function DiscoverAll(domain: string, hits: seq<FeedHit>): (r: seq<DiscoveredFeed>)
    ensures forall f :: f in r <==> exists h :: h in hits && f == Discover(domain, h)
    decreases |hits|
  {
    if |hits| == 0 then []
    else
      var init := hits[..|hits| - 1];
      assert hits == init + [hits[|hits| - 1]];
      DiscoverAll(domain, init) + [Discover(domain, hits[|hits| - 1])]
  }

  /** Everything the search service returned for `domains`, in order; a
      failed search returns nothing. */
  function Found(domains: seq<string>, search: string -> seq<FeedHit>): seq<DiscoveredFeed>
    decreases |domains|
  {
    if |domains| == 0 then []
    else Found(domains[..|domains| - 1], search) + DiscoverAll(domains[|domains| - 1], search(domains[|domains| - 1]))
  }

  lemma {:induction false} FoundMeaning(domains: seq<string>, search: string -> seq<FeedHit>, f: DiscoveredFeed)
    ensures f in Found(domains, search) <==> exists d, h :: d in domains && h in search(d) && f == Discover(d, h)
    decreases |domains|
  {
    if |domains| > 0 {
      var init, last := domains[..|domains| - 1], domains[|domains| - 1];
      FoundMeaning(init, search, f);
      assert domains == init + [last];
    }
  }

  /** The search result: at most three domains searched, one feed per url,
      and exactly the urls the searches returned. */
  lemma SearchResultMeaning(query: string, suggestions: seq<string>, search: string -> seq<FeedHit>)
    ensures var domains := Take(DomainsToSearch(CleanQuery(query), suggestions), 3);
      var r := DistinctBy(Found(domains, search), (f: DiscoveredFeed) => f.url);
      && 1 <= |domains| <= 3
      && (forall i, j :: 0 <= i < j < |r| ==> r[i].url != r[j].url)
      && (forall f :: f in r ==> exists d, h :: d in domains && h in search(d) && f == Discover(d, h))
      && (forall d, h :: d in domains && h in search(d) ==> exists f :: f in r && f.url == Discover(d, h).url)
  {
    var domains := Take(DomainsToSearch(CleanQuery(query), suggestions), 3);
    var found := Found(domains, search);
    var url := (f: DiscoveredFeed) => f.url;
    var r := DistinctBy(found, url);
    DistinctByKeys(found, url);
    forall f | f in r
      ensures exists d, h :: d in domains && h in search(d) && f == Discover(d, h)
    {
      FoundMeaning(domains, search, f);
    }
    forall d, h | d in domains && h in search(d)
      ensures exists f :: f in r && f.url == Discover(d, h).url
    {
      FoundMeaning(domains, search, Discover(d, h));
      assert url(Discover(d, h)) in KeysOf(found, url);
      assert url(Discover(d, h)) in KeysOf(r, url);
    }
  }

  /** The suggestions are consulted only for a query with no "." that does
      not start with "http"; without suggestions "<query>.com" is searched. */
  lemma DomainsChoice(cleanQuery: string, suggestions: seq<string>)
    ensures Contains(cleanQuery, ".") || StartsWith(cleanQuery, "http") ==> DomainsToSearch(cleanQuery, suggestions) == [cleanQuery]
    ensures !Contains(cleanQuery, ".") && !StartsWith(cleanQuery, "http") && suggestions == [] ==>
      DomainsToSearch(cleanQuery, suggestions) == [cleanQuery + ".com"]
    ensures !Contains(cleanQuery, ".") && !StartsWith(cleanQuery, "http") && suggestions != [] ==>
      forall d :: d in DomainsToSearch(cleanQuery, suggestions) <==> d in suggestions
  {
    var id := (d: string) => d;
    if suggestions != [] {
      var ds := DistinctBy(suggestions, id);
      DistinctByKeys(suggestions, id);
      forall d ensures d in ds <==> d in suggestions {
        if d in suggestions {
          assert id(d) in KeysOf(suggestions, id);
          assert id(d) in KeysOf(ds, id);
        }
      }
      assert suggestions[0] in ds;
    }
  }

  // ---------------------------------------------------------------------------
  // The view model

  class MainViewModel {
    /** `_selectedSource`: the selector string, or none for every article. */
    var selected: Option<string>
    /** `_articleLimit`: how many articles the list shows. */
    var limit: nat
    /** `_articleSearchQuery`. */
    var query: string
    /** `_hiddenArticleLinks`: the links read as of the last refresh. */
    var hidden: set<string>
    /** `_geminiApiKey`. */
    var apiKey: string
    var summary: SummaryState
    /** `_modelStatuses`: "available" or "exhausted" per model tried. */
    var statuses: map<string, string>
    var discovered: seq<DiscoveredFeed>

    /** A fresh view model shows every article, 20 at a time, with no query;
        the API key comes from the stored preferences. */
    constructor(storedApiKey: string)
      ensures selected.None? && limit == 20 && query == "" && hidden == {}
      ensures apiKey == storedApiKey && summary == NoSummary && statuses == map[] && discovered == []
    {
      selected, limit, query, hidden := None, 20, "", {};
      apiKey, summary, statuses, discovered := storedApiKey, NoSummary, map[], [];
    }

    method SetArticleSearchQuery(q: string)
      modifies this`query
      ensures query == q
    {
      query := q;
    }

    /** `updateHiddenArticles`: hide exactly the links read now. */
    method UpdateHiddenArticles(dao: Dao.FeedDao)
      modifies this`hidden
      ensures hidden == set l | l in dao.articles && dao.articles[l].isRead
    {
      var links := dao.GetReadArticleLinks();
      hidden := set l | l in links;
    }

    /** `selectSource`: every article (no url) or one source, from the top. */
    method SelectSource(dao: Dao.FeedDao, url: Option<string>)
      modifies this`limit, this`hidden, this`selected, this`query
      ensures limit == 20 && selected == url && query == ""
      ensures hidden == set l | l in dao.articles && dao.articles[l].isRead
    {
      limit := 20;
      UpdateHiddenArticles(dao);
      selected := url;
      query := "";
    }

    /** `selectSaved`: the saved list, from the top; the hidden links stay. */
    method SelectSaved()
      modifies this`limit, this`selected, this`query
      ensures limit == 20 && ViewOf(selected) == SavedView && query == ""
    {
      limit := 20;
      selected := Some("saved");
      query := "";
    }

    /** `selectFolder`: one folder's articles, from the top. */
    method SelectFolder(dao: Dao.FeedDao, name: string)
      modifies this`limit, this`hidden, this`selected, this`query
      ensures limit == 20 && ViewOf(selected) == FolderView(name) && query == ""
      ensures hidden == set l | l in dao.articles && dao.articles[l].isRead
    {
      limit := 20;
      UpdateHiddenArticles(dao);
      selected := Some(FolderPrefix + name);
      ViewRoundTrip(FolderView(name));
      query := "";
    }

    /** `loadMore`: twenty more. */
    method LoadMore()
      modifies this`limit
      ensures limit == old(limit) + 20
    {
      limit := limit + 20;
    }

    /** `uiState`: the selected view's rows, newest first, filtered and cut
        as `Shown` says. */
    method UiState(dao: Dao.FeedDao) returns (r: seq<Article>)
      requires dao.Valid()
      ensures exists rows ::
        && FeedStore.ByDateDesc(rows)
        && (forall a :: a in rows <==> FeedStore.Selected(dao.Snapshot(), ScopeOf(ViewOf(selected)), a))
        && r == Shown(rows, selected, hidden, limit, query)
    {
      var rows := dao.SelectArticles(ScopeOf(ViewOf(selected)));
      r := Shown(rows, selected, hidden, limit, query);
    }

    /** `deleteSource`: delete the source (and, by cascade, its articles)
        through the repository, which mirrors the deletion to the cloud;
        then repair the selection. */
    method DeleteSource(dao: Dao.FeedDao, url: string) returns (ops: seq<Repository.CloudOp>)
      requires dao.Valid()
      modifies dao, this`selected
      ensures dao.Valid() && dao.Snapshot() == FeedStore.DeleteSource(old(dao.Snapshot()), url)
      ensures ops == [Repository.DeleteSourceOp(url)]
      ensures selected == AfterSourceDeleted(old(selected), url)
    {
      dao.DeleteSource(url);
      ops := [Repository.DeleteSourceOp(url)];
      if selected == Some(url) {
        selected := None;
      }
    }

    /** `deleteFolder`: delete the folder through the repository, then
        repair the selection. */
    method DeleteFolder(dao: Dao.FeedDao, name: string) returns (ops: seq<Repository.CloudOp>)
      requires dao.Valid()
      modifies dao, this`selected
      ensures dao.Valid() && dao.Snapshot() == FeedStore.DeleteFolder(old(dao.Snapshot()), name)
      ensures forall op :: op in ops <==> op.DeleteSourceOp? && op.url in old(dao.sources) && old(dao.sources)[op.url].folderName == Some(name)
      ensures selected == AfterFolderDeleted(old(selected), name)
    {
      ops := Repository.DeleteFolder(dao, name);
      if selected == Some(FolderPrefix + name) {
        selected := None;
      }
    }

    /** `renameFolder`: a rename that the database refuses throws before the
        selection is looked at. */
    method RenameFolder(dao: Dao.FeedDao, oldName: string, newName: string) returns (err: Option<FeedStore.DbError>)
      requires dao.Valid()
      modifies dao, this`selected
      ensures dao.Valid()
      ensures match FeedStore.RenameFolder(old(dao.Snapshot()), oldName, newName)
        case Ok(t) => err.None? && dao.Snapshot() == t && selected == AfterFolderRenamed(old(selected), oldName, newName)
        case Err(e) => err == Some(e) && dao.Snapshot() == old(dao.Snapshot()) && selected == old(selected)
    {
      err := dao.RenameFolder(oldName, newName);
      if err.None? && selected == Some(FolderPrefix + oldName) {
        selected := Some(FolderPrefix + newName);
      }
    }

    /** `toggleSaveArticle`: store the opposite of the flag the screen shows. */
    method ToggleSaveArticle(dao: Dao.FeedDao, link: string, isSaved: bool)
      requires dao.Valid()
      modifies dao
      ensures dao.Valid() && dao.Snapshot() == FeedStore.SetSaved(old(dao.Snapshot()), link, !isSaved)
    {
      dao.UpdateArticleSavedStatus(link, !isSaved);
    }

    /** `markAsRead`: the article is marked read. */
    method MarkAsRead(dao: Dao.FeedDao, link: string)
      requires dao.Valid()
      modifies dao
      ensures dao.Valid() && dao.Snapshot() == FeedStore.MarkArticleRead(old(dao.Snapshot()), link)
    {
      dao.MarkArticleAsRead(link);
    }

    /** `summarizeArticle`: with a blank key, an error and no model tried;
        otherwise the models in order, as `Fallback` says, each status
        recorded as it is learnt. */
    method SummarizeArticle(reply: string -> ModelReply)
      modifies this`summary, this`statuses
      ensures IsBlank(apiKey) ==> summary == ApiKeyError && statuses == old(statuses)
      ensures !IsBlank(apiKey) ==>
        var a := Fallback(FallbackModels, reply, old(statuses), None);
        summary == Outcome(a) && statuses == a.statuses
    {
      if IsBlank(apiKey) {
        summary := ApiKeyError;
        return;
      }
      summary := NoSummary;
      ghost var goal := Fallback(FallbackModels, reply, statuses, None);
      var models := FallbackModels;
      var st := statuses;
      var text: Option<Option<string>> := None;
      var last: Option<Option<string>> := None;
      var stop := false;
      var i := 0;
      while i < |models| && !stop
        invariant 0 <= i <= |models|
        invariant !stop ==> Fallback(models[i..], reply, st, last) == goal
        invariant stop ==> Attempts(st, text, last) == goal
        invariant !stop ==> text.None?
      {
        var m := models[i];
        assert models[i..][0] == m;
        assert models[i..][1..] == models[i + 1..];
        match reply(m) {
          case Reply(t) =>
            st := st[m := "available"];
            text := Some(t);
            stop := true;
          case Failure(msg) =>
            last := Some(msg);
            if IsQuotaError(msg) {
              st := st[m := "exhausted"];
            } else {
              stop := true;
            }
        }
        statuses := st;
        i := i + 1;
      }
      statuses := st;
      summary := Outcome(Attempts(st, text, last));
    }

    /** `searchFeeds`: the domains to search, at most three, each searched in
        turn, and the feeds found, one per url. */
    method SearchFeeds(q: string, suggestions: seq<string>, search: string -> seq<FeedHit>)
      modifies this`discovered
      ensures discovered == DistinctBy(Found(Take(DomainsToSearch(CleanQuery(q), suggestions), 3), search), (f: DiscoveredFeed) => f.url)
    {
      var domains := Take(DomainsToSearch(CleanQuery(q), suggestions), 3);
      var results := [];
      var i := 0;
      while i < |domains|
        invariant 0 <= i <= |domains|
        invariant results == Found(domains[..i], search)
      {
        assert domains[..i + 1][..i] == domains[..i];
        results := results + DiscoverAll(domains[i], search(domains[i]));
        i := i + 1;
      }
      assert domains[..i] == domains;
      discovered := DistinctBy(results, (f: DiscoveredFeed) => f.url);
    }
  }
}
