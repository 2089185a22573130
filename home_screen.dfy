/** The main screen's own logic: the unread badges of the drawer and of the
    header, the drawer's grouping of sources under folders, the article
    list's mark-as-read-on-scroll and load-more triggers, and the read-later
    toggle of the saved view. */
module HomeScreen {
  import opened Wrappers
  import opened Entities
  import opened Selection
  import FeedStore
  import Dao
  import ViewModel

  // ---------------------------------------------------------------------------
  // Unread counts

  /** `unreadCounts.values.sum()`. */
  ghost function TotalUnread(counts: map<string, nat>): nat
    decreases |counts.Keys|
  {
    if counts.Keys == {} then 0
    else
      var k :| k in counts.Keys;
      assert (counts - {k}).Keys == counts.Keys - {k};
      counts[k] + TotalUnread(counts - {k})
  }

  /** The total does not depend on which key is taken first. */
  lemma {:induction false} TotalRemove(counts: map<string, nat>, k: string)
    requires k in counts
    ensures TotalUnread(counts) == counts[k] + TotalUnread(counts - {k})
    decreases |counts.Keys|
  {
    var j :| j in counts.Keys && TotalUnread(counts) == counts[j] + TotalUnread(counts - {j});
    if j != k {
      var withoutJ, withoutK := counts - {j}, counts - {k};
      assert withoutJ.Keys == counts.Keys - {j} && k in withoutJ && withoutJ[k] == counts[k];
      assert withoutK.Keys == counts.Keys - {k} && j in withoutK && withoutK[j] == counts[j];
      assert withoutJ - {k} == withoutK - {j};
      TotalRemove(withoutJ, k);
      TotalRemove(withoutK, j);
    }
  }

  /** `unreadCounts[url] ?: 0`. */
  function CountOf(counts: map<string, nat>, url: string): nat {
    if url in counts then counts[url] else 0
  }

  /** `sumOf { unreadCounts[it.url] ?: 0 }`. */
  function SumOver(xs: seq<Source>, counts: map<string, nat>): nat
    decreases |xs|
  {
    if |xs| == 0 then 0 else SumOver(xs[..|xs| - 1], counts) + CountOf(counts, xs[|xs| - 1].url)
  }

  /** The urls of some sources. */
  function Urls(xs: seq<Source>): set<string> {
    set s | s in xs :: s.url
  }

  predicate DistinctUrls(xs: seq<Source>) {
    forall i, j :: 0 <= i < j < |xs| ==> xs[i].url != xs[j].url
  }

  lemma SumOverSnoc(xs: seq<Source>, s: Source, counts: map<string, nat>)
    ensures SumOver(xs + [s], counts) == SumOver(xs, counts) + CountOf(counts, s.url)
  {
    assert (xs + [s])[..|xs|] == xs;
  }

  /** The last source's url is not among the others', and the others' urls
      stay distinct. */
  lemma DistinctSnoc(xs: seq<Source>)
    requires DistinctUrls(xs) && |xs| > 0
    ensures var init := xs[..|xs| - 1];
      && DistinctUrls(init)
      && xs[|xs| - 1].url !in Urls(init)
      && Urls(xs) == Urls(init) + {xs[|xs| - 1].url}
  {
    var init, last := xs[..|xs| - 1], xs[|xs| - 1];
    assert xs == init + [last];
    forall s | s in init
      ensures s.url != last.url
    {
      var i :| 0 <= i < |init| && init[i] == s;
      assert xs[i] == s;
    }
  }

  /** The sources a view's list comes from: every source for all feeds, a
      folder's for a folder, the one source for a source, none for the
      saved articles. */
  predicate Covers(v: View, s: Source) {
    match v
    case SavedView => false
    case AllView => true
    case FolderView(n) => s.folderName == Some(n)
    case SourceView(u) => s.url == u
  }

  /** The sources a view covers, in drawer order. */
  function SourcesIn(v: View, xs: seq<Source>): (r: seq<Source>)
    ensures forall s :: s in r <==> s in xs && Covers(v, s)
    decreases |xs|
  {
    if |xs| == 0 then []
    else
      var init, last := xs[..|xs| - 1], xs[|xs| - 1];
      assert xs == init + [last];
      SourcesIn(v, init) + (if Covers(v, last) then [last] else [])
  }

  /** The header's count: none for the saved articles, the grand total for
      all feeds, the folder's sources' counts summed for a folder, the
      source's count for a source. */
  ghost function HeaderUnread(selector: Option<string>, sources: seq<Source>, counts: map<string, nat>): nat {
    match ViewOf(selector)
    case SavedView => 0
    case AllView => TotalUnread(counts)
    case FolderView(n) => SumOver(SourcesIn(FolderView(n), sources), counts)
    case SourceView(u) => CountOf(counts, u)
  }

  lemma {:induction false} SumOverIgnores(xs: seq<Source>, counts: map<string, nat>, u: string)
    requires u !in Urls(xs)
    ensures SumOver(xs, counts - {u}) == SumOver(xs, counts)
    decreases |xs|
  {
    if |xs| > 0 {
      var init := xs[..|xs| - 1];
      assert forall s :: s in init ==> s in xs;
      SumOverIgnores(init, counts, u);
    }
  }

  /** When every counted url is a source's and no url is listed twice, the
      grand total is the sum of the sources' counts. */
  lemma {:induction false} TotalIsSumOverSources(xs: seq<Source>, counts: map<string, nat>)
    requires DistinctUrls(xs) && counts.Keys <= Urls(xs)
    ensures TotalUnread(counts) == SumOver(xs, counts)
    decreases |xs|
  {
    if |xs| == 0 {
      assert counts.Keys == {};
    } else {
      var init, last := xs[..|xs| - 1], xs[|xs| - 1];
      DistinctSnoc(xs);
      var rest := counts - {last.url};
      TotalIsSumOverSources(init, rest);
      SumOverIgnores(init, counts, last.url);
      if last.url in counts {
        TotalRemove(counts, last.url);
      } else {
        assert rest == counts;
      }
    }
  }

  /** The sum over the sources named `u`: that source's count, or nothing
      when no source has that url. */
  lemma {:induction false} SumOverOneSource(xs: seq<Source>, counts: map<string, nat>, u: string)
    requires DistinctUrls(xs)
    ensures SumOver(SourcesIn(SourceView(u), xs), counts) == if u in Urls(xs) then CountOf(counts, u) else 0
    decreases |xs|
  {
    if |xs| > 0 {
      var init, last := xs[..|xs| - 1], xs[|xs| - 1];
      DistinctSnoc(xs);
      SumOverOneSource(init, counts, u);
      var r := SourcesIn(SourceView(u), init);
      if last.url == u {
        assert SourcesIn(SourceView(u), xs) == r + [last];
        SumOverSnoc(r, last, counts);
      } else {
        assert SourcesIn(SourceView(u), xs) == r + [];
        assert r + [] == r;
      }
    }
  }

  lemma {:induction false} NothingSaved(xs: seq<Source>)
    ensures SourcesIn(SavedView, xs) == []
    decreases |xs|
  {
    if |xs| > 0 {
      NothingSaved(xs[..|xs| - 1]);
    }
  }

  /** Whatever the selector, the header shows the sum of the counts of the
      sources the view covers. */
  lemma HeaderCountsShownSources(selector: Option<string>, sources: seq<Source>, counts: map<string, nat>)
    requires DistinctUrls(sources) && counts.Keys <= Urls(sources)
    ensures HeaderUnread(selector, sources, counts) == SumOver(SourcesIn(ViewOf(selector), sources), counts)
  {
    match ViewOf(selector)
    case SavedView =>
      NothingSaved(sources);
    case AllView =>
      assert SourcesIn(AllView, sources) == sources by {
        AllCovered(sources);
      }
      TotalIsSumOverSources(sources, counts);
    case FolderView(n) =>
    case SourceView(u) =>
      SumOverOneSource(sources, counts, u);
  }

  lemma {:induction false} AllCovered(xs: seq<Source>)
    ensures SourcesIn(AllView, xs) == xs
    decreases |xs|
  {
    if |xs| > 0 {
      AllCovered(xs[..|xs| - 1]);
    }
  }

  // ---------------------------------------------------------------------------
  // The drawer

  /** A folder's drawer entry: its sources and its unread badge. */
  datatype FolderEntry = FolderEntry(name: string, sources: seq<Source>, unread: nat)

  /** The drawer's folder entries, in folder order. */
  function DrawerFolders(folders: seq<string>, sources: seq<Source>, counts: map<string, nat>): (r: seq<FolderEntry>)
    ensures |r| == |folders|
    ensures forall i :: 0 <= i < |r| ==>
      && r[i].name == folders[i]
      && (forall s :: s in r[i].sources <==> s in sources && s.folderName == Some(folders[i]))
      && r[i].unread == SumOver(r[i].sources, counts)
  {
    seq(|folders|, i requires 0 <= i < |folders| =>
      var own := SourcesIn(FolderView(folders[i]), sources);
      FolderEntry(folders[i], own, SumOver(own, counts)))
  }

  /** The sources listed under "uncategorized": those without a folder. */
  function Orphans(xs: seq<Source>): (r: seq<Source>)
    ensures forall s :: s in r <==> s in xs && s.folderName.None?
    decreases |xs|
  {
    if |xs| == 0 then []
    else
      var init, last := xs[..|xs| - 1], xs[|xs| - 1];
      assert xs == init + [last];
      Orphans(init) + (if last.folderName.None? then [last] else [])
  }

  /** The badges of some folder entries, added up. */
  function BadgeSum(es: seq<FolderEntry>): nat {
    if |es| == 0 then 0 else es[0].unread + BadgeSum(es[1..])
  }

  predicate DistinctNames(folders: seq<string>) {
    forall i, j :: 0 <= i < j < |folders| ==> folders[i] != folders[j]
  }

  /** Every source's folder is listed. */
  predicate FoldersListed(folders: seq<string>, sources: seq<Source>) {
    forall s :: s in sources && s.folderName.Some? ==> s.folderName.value in folders
  }

  lemma SourcesInSnoc(v: View, xs: seq<Source>, s: Source)
    ensures SourcesIn(v, xs + [s]) == SourcesIn(v, xs) + (if Covers(v, s) then [s] else [])
  {
    assert (xs + [s])[..|xs|] == xs;
  }

  lemma OrphansSnoc(xs: seq<Source>, s: Source)
    ensures Orphans(xs + [s]) == Orphans(xs) + (if s.folderName.None? then [s] else [])
  {
    assert (xs + [s])[..|xs|] == xs;
  }

  /** One folder's badge over the sources plus one. */
  lemma BadgeSnoc(f: string, xs: seq<Source>, s: Source, counts: map<string, nat>)
    ensures SumOver(SourcesIn(FolderView(f), xs + [s]), counts) ==
      SumOver(SourcesIn(FolderView(f), xs), counts) + (if s.folderName == Some(f) then CountOf(counts, s.url) else 0)
  {
    SourcesInSnoc(FolderView(f), xs, s);
    if s.folderName == Some(f) {
      SumOverSnoc(SourcesIn(FolderView(f), xs), s, counts);
    } else {
      assert SourcesIn(FolderView(f), xs) + [] == SourcesIn(FolderView(f), xs);
    }
  }

  /** The folders' badges over the sources plus one: one more count when
      the new source sits in one of the folders. */
  lemma {:induction false} BadgesSnoc(folders: seq<string>, xs: seq<Source>, s: Source, counts: map<string, nat>)
    requires DistinctNames(folders)
    ensures BadgeSum(DrawerFolders(folders, xs + [s], counts)) ==
      BadgeSum(DrawerFolders(folders, xs, counts)) +
      (if s.folderName.Some? && s.folderName.value in folders then CountOf(counts, s.url) else 0)
    decreases |folders|
  {
    if |folders| > 0 {
      var f := folders[0];
      var rest := folders[1..];
      assert DistinctNames(rest);
      BadgesSnoc(rest, xs, s, counts);
      BadgeSnoc(f, xs, s, counts);
      assert DrawerFolders(folders, xs + [s], counts)[1..] == DrawerFolders(rest, xs + [s], counts);
      assert DrawerFolders(folders, xs, counts)[1..] == DrawerFolders(rest, xs, counts);
      assert s.folderName == Some(f) ==> f !in rest;
      assert s.folderName.Some? && s.folderName.value != f ==> (s.folderName.value in folders <==> s.folderName.value in rest);
    }
  }

  /** The folder badges and the uncategorized sources' counts add up to
      the sum over all sources: each source is counted under exactly one
      heading. */
  lemma {:induction false} DrawerPartitionsCounts(folders: seq<string>, xs: seq<Source>, counts: map<string, nat>)
    requires DistinctNames(folders) && FoldersListed(folders, xs)
    ensures BadgeSum(DrawerFolders(folders, xs, counts)) + SumOver(Orphans(xs), counts) == SumOver(xs, counts)
    decreases |xs|
  {
    if |xs| == 0 {
      BadgesEmpty(folders, counts);
    } else {
      var init, last := xs[..|xs| - 1], xs[|xs| - 1];
      assert xs == init + [last];
      assert FoldersListed(folders, init);
      DrawerPartitionsCounts(folders, init, counts);
      BadgesSnoc(folders, init, last, counts);
      OrphansSnoc(init, last);
      SumOverSnoc(init, last, counts);
      if last.folderName.None? {
        SumOverSnoc(Orphans(init), last, counts);
      } else {
        assert Orphans(init) + [] == Orphans(init);
      }
    }
  }

  lemma {:induction false} BadgesEmpty(folders: seq<string>, counts: map<string, nat>)
    ensures BadgeSum(DrawerFolders(folders, [], counts)) == 0
    decreases |folders|
  {
    if |folders| > 0 {
      assert DrawerFolders(folders, [], counts)[1..] == DrawerFolders(folders[1..], [], counts);
      BadgesEmpty(folders[1..], counts);
    }
  }

  /** With the database's invariants (distinct urls and folder names, every
      source's folder listed, every count a source's), the "all feeds"
      badge is the folder badges plus the uncategorized sources' counts. */
  lemma AllFeedsBadge(folders: seq<string>, sources: seq<Source>, counts: map<string, nat>)
    requires DistinctUrls(sources) && counts.Keys <= Urls(sources)
    requires DistinctNames(folders) && FoldersListed(folders, sources)
    ensures TotalUnread(counts) == BadgeSum(DrawerFolders(folders, sources, counts)) + SumOver(Orphans(sources), counts)
  {
    TotalIsSumOverSources(sources, counts);
    DrawerPartitionsCounts(folders, sources, counts);
  }

  // ---------------------------------------------------------------------------
  // The article list

  /** The links of the unread articles at positions `start` up to (not
      including) `stop` that exist, in order. */
  function UnreadBetween(articles: seq<Article>, start: nat, stop: nat): seq<string>
    decreases stop
  {
    if stop <= start then []
    else
      UnreadBetween(articles, start, stop - 1) +
      (if stop - 1 < |articles| && !articles[stop - 1].isRead then [articles[stop - 1].link] else [])
  }

  /** A link is marked exactly when an unread article with that link sits
      in the range. */
  lemma {:induction false} UnreadBetweenMeaning(articles: seq<Article>, start: nat, stop: nat, l: string)
    ensures l in UnreadBetween(articles, start, stop) <==>
      exists i :: start <= i < stop && i < |articles| && !articles[i].isRead && articles[i].link == l
    decreases stop
  {
    if stop > start {
      UnreadBetweenMeaning(articles, start, stop - 1, l);
      var k := stop - 1;
      if k < |articles| && !articles[k].isRead && articles[k].link == l {
        assert start <= k < stop;
      }
    }
  }

  /** Scrolling past a range in two steps marks what one step would. */
  lemma {:induction false} UnreadBetweenSplit(articles: seq<Article>, x: nat, y: nat, z: nat)
    requires x <= y <= z
    ensures UnreadBetween(articles, x, y) + UnreadBetween(articles, y, z) == UnreadBetween(articles, x, z)
    decreases z
  {
    if z > y {
      UnreadBetweenSplit(articles, x, y, z - 1);
    } else {
      assert UnreadBetween(articles, y, z) == [];
    }
  }

  /** `ArticleList`'s scroll state: the first position already handled, and
      the last visible position reported to the load-more trigger. */
  class ArticleList {
    var lastProcessed: nat
    var lastVisibleSeen: Option<Option<nat>>

    constructor(firstVisible: nat)
      ensures lastProcessed == firstVisible && lastVisibleSeen.None?
    {
      lastProcessed := firstVisible;
      lastVisibleSeen := None;
    }

    /** A new article list: the handled position restarts at the first
        visible one. */
    method OnArticlesChanged(firstVisible: nat)
      modifies this`lastProcessed
      ensures lastProcessed == firstVisible
    {
      lastProcessed := firstVisible;
    }

    /** A new first visible position. With the option on, outside the
        read-later view and not while refreshing: a forward scroll marks
        the unread articles from the handled position up to the new one,
        and the handled position always follows the new one, backwards
        included. Otherwise nothing happens. */
    method OnFirstVisibleChanged(articles: seq<Article>, current: nat, scrolling: bool,
                                 markOnScroll: bool, readLaterView: bool, refreshing: bool)
      returns (marked: seq<string>)
      modifies this`lastProcessed
      ensures var active := markOnScroll && !readLaterView && !refreshing;
        && marked == (if active && scrolling && current > old(lastProcessed)
                      then UnreadBetween(articles, old(lastProcessed), current) else [])
        && lastProcessed == (if active then current else old(lastProcessed))
    {
      marked := [];
      if !(markOnScroll && !readLaterView) || refreshing {
        return;
      }
      if scrolling && current > lastProcessed {
        var i := lastProcessed;
        while i < current
          invariant lastProcessed <= i <= current
          invariant marked == UnreadBetween(articles, lastProcessed, i)
        {
          if i < |articles| {
            var article := articles[i];
            if !article.isRead {
              marked := marked + [article.link];
            }
          }
          i := i + 1;
        }
      }
      lastProcessed := current;
    }

    /** A new last visible position: a position that differs from the one
        reported before asks for more articles when it is within five of
        the end of the list. */
    method OnLastVisibleChanged(lastIndex: Option<nat>, size: nat) returns (loadMore: bool)
      modifies this`lastVisibleSeen
      ensures loadMore <==> old(lastVisibleSeen) != Some(lastIndex) && lastIndex.Some? && lastIndex.value >= size - 5
      ensures lastVisibleSeen == Some(lastIndex)
    {
      loadMore := false;
      if lastVisibleSeen != Some(lastIndex) {
        lastVisibleSeen := Some(lastIndex);
        loadMore := lastIndex.Some? && lastIndex.value >= size - 5;
      }
    }
  }

  /** The read-later toggle of an article row: the saved flag flips, and
      taking an article out of read-later while the saved view is shown
      also marks it read. */
  method OnToggleSave(vm: ViewModel.MainViewModel, dao: Dao.FeedDao, link: string, isSaved: bool)
    requires dao.Valid()
    modifies dao
    ensures dao.Valid()
    ensures dao.Snapshot() ==
      if vm.selected == Some("saved") && isSaved
      then FeedStore.MarkArticleRead(FeedStore.SetSaved(old(dao.Snapshot()), link, false), link)
      else FeedStore.SetSaved(old(dao.Snapshot()), link, !isSaved)
  {
    vm.ToggleSaveArticle(dao, link, isSaved);
    if vm.selected == Some("saved") && isSaved {
      vm.MarkAsRead(dao, link);
    }
  }

  /** Leaving read-later from the saved view leaves a stored article
      unsaved and read, with nothing else changed. */
  lemma UnsaveFromSavedView(t: FeedStore.Tables, link: string)
    requires link in t.articles
    ensures var t' := FeedStore.MarkArticleRead(FeedStore.SetSaved(t, link, false), link);
      && t'.articles.Keys == t.articles.Keys
      && t'.articles[link] == t.articles[link].(isSaved := false, isRead := true)
      && (forall l :: l in t.articles && l != link ==> t'.articles[l] == t.articles[l])
      && t'.sources == t.sources && t'.folders == t.folders
  {
  }
}
