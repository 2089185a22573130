/** Cloud synchronisation: how the snapshots of the user's cloud documents are
    reconciled with the local database, and how read marks are queued and
    uploaded. The cloud documents arrive as values (a field that is absent or
    of another type reads as `None`); listeners, authentication, the debounce
    job and the network writes are not modelled, and each write the helper
    would send is returned instead. */
module FirestoreSync {
  import opened Wrappers
  import opened Strings
  import opened Entities
  import opened Lists
  import Numbers
  import FeedStore
  import Dao
  import Preferences

  // ---------------------------------------------------------------------------
  // `chunked(n)`

  /** Kotlin's `chunked(n)`: consecutive pieces of `n` elements, the last one
      possibly shorter. */
  function Chunked<T>(xs: seq<T>, n: nat): (r: seq<seq<T>>)
    requires n > 0
    ensures forall i :: 0 <= i < |r| ==> 0 < |r[i]| <= n
    decreases |xs|
  {
    if |xs| == 0 then [] else if |xs| <= n then [xs] else [xs[..n]] + Chunked(xs[n..], n)
  }

  function Flatten<T>(xss: seq<seq<T>>): seq<T>
    decreases |xss|
  {
    if |xss| == 0 then [] else xss[0] + Flatten(xss[1..])
  }

  /** The pieces, put back together, are the list. */
  lemma {:induction false} ChunkedFlatten<T>(xs: seq<T>, n: nat)
    requires n > 0
    ensures Flatten(Chunked(xs, n)) == xs
    decreases |xs|
  {
    if |xs| > n {
      var r := Chunked(xs, n);
      ChunkedFlatten(xs[n..], n);
      assert r[1..] == Chunked(xs[n..], n);
      assert xs[..n] + xs[n..] == xs;
    } else if |xs| > 0 {
      assert Flatten(Chunked(xs, n)) == xs + Flatten([]);
    }
  }

  lemma {:induction false} FlattenSnoc<T>(xss: seq<seq<T>>, x: seq<T>)
    ensures Flatten(xss + [x]) == Flatten(xss) + x
    decreases |xss|
  {
    if |xss| == 0 {
      assert Flatten([x]) == x + Flatten([]);
    } else {
      assert (xss + [x])[1..] == xss[1..] + [x];
      FlattenSnoc(xss[1..], x);
    }
  }

  // ---------------------------------------------------------------------------
  // The feeds listener

  /** A document of the `feeds` collection. */
  datatype FeedDoc = FeedDoc(url: Option<string>, title: Option<string>, folderName: Option<string>, iconUrl: Option<string>)

  /** The urls the snapshot names. */
  function RemoteUrls(docs: seq<FeedDoc>): set<string> {
    set d | d in docs && d.url.Some? :: d.url.value
  }

  /** The non-blank folder names the snapshot names. */
  function RemoteFolders(docs: seq<FeedDoc>): set<string> {
    set d | d in docs && d.folderName.Some? && !IsBlank(d.folderName.value) :: d.folderName.value
  }

  /** A remote feed unknown locally: its title, or its url when it has none. */
  function NewFromDoc(url: string, d: FeedDoc): Source {
    Source(url, d.title.GetOr(url), d.iconUrl, d.folderName)
  }

  /** A stored source is rewritten when the folder or the title differ (a
      missing remote title always differs) or a remote icon differs. */
  predicate NeedsUpdate(existing: Source, d: FeedDoc) {
    existing.folderName != d.folderName || Some(existing.title) != d.title
    || (d.iconUrl.Some? && existing.iconUrl != d.iconUrl)
  }

  /** The rewrite: the remote folder, and the remote title and icon unless
      they are missing. */
  function Updated(existing: Source, d: FeedDoc): Source {
    existing.(folderName := d.folderName, title := d.title.GetOr(existing.title),
              iconUrl := if d.iconUrl.Some? then d.iconUrl else existing.iconUrl)
  }

  /** The tables after some statements, and the error that stopped them. */
  datatype Step = Step(tables: FeedStore.Tables, error: Option<FeedStore.DbError>)

  function Attempt(t: FeedStore.Tables, r: Result<FeedStore.Tables, FeedStore.DbError>): Step {
    match r
    case Ok(t1) => Step(t1, None)
    case Err(e) => Step(t, Some(e))
  }

  /** One document: its folder is inserted when it is not blank; then a url
      that was not stored when the snapshot arrived is inserted, and a stored
      one rewritten if it needs it. `local` holds the urls stored then. */
  function ApplyFeedDoc(t: FeedStore.Tables, local: set<string>, d: FeedDoc): Step {
    var t1 := if d.folderName.Some? && !IsBlank(d.folderName.value) then FeedStore.InsertFolder(t, d.folderName.value) else t;
    if d.url.None? then Step(t1, None)
    else if d.url.value !in local then Attempt(t1, FeedStore.UpsertSource(t1, NewFromDoc(d.url.value, d)))
    else if d.url.value in t1.sources && NeedsUpdate(t1.sources[d.url.value], d)
    then Attempt(t1, FeedStore.UpsertSource(t1, Updated(t1.sources[d.url.value], d)))
    else Step(t1, None)
  }

  /** The documents in order; a failed insert ends the listener's coroutine. */
  function ApplyFeedDocs(t: FeedStore.Tables, local: set<string>, docs: seq<FeedDoc>): Step
    decreases |docs|
  {
    if |docs| == 0 then Step(t, None)
    else
      var s := ApplyFeedDoc(t, local, docs[0]);
      if s.error.Some? then s else ApplyFeedDocs(s.tables, local, docs[1..])
  }

  /** Each source in `urls` deleted, with its articles. */
  function DeleteSources(t: FeedStore.Tables, urls: set<string>): FeedStore.Tables {
    FeedStore.Tables(t.folders,
                     map u | u in t.sources && u !in urls :: t.sources[u],
                     map l | l in t.articles && t.articles[l].sourceUrl !in urls :: t.articles[l])
  }

  lemma DeleteSourcesStep(t: FeedStore.Tables, urls: set<string>, u: string)
    ensures FeedStore.DeleteSource(DeleteSources(t, urls), u) == DeleteSources(t, urls + {u})
  {
  }

  lemma DeleteSourcesNone(t: FeedStore.Tables)
    ensures DeleteSources(t, {}) == t
  {
    assert DeleteSources(t, {}).sources == t.sources;
    assert DeleteSources(t, {}).articles == t.articles;
  }

  /** The whole listener: every document, then every source stored before the
      snapshot and absent from it deleted. */
  function ReconcileFeeds(t: FeedStore.Tables, docs: seq<FeedDoc>): Step {
    var s := ApplyFeedDocs(t, t.sources.Keys, docs);
    if s.error.Some? then s else Step(DeleteSources(s.tables, t.sources.Keys - RemoteUrls(docs)), None)
  }

  /** What a document leaves under its url: a new source, the stored one
      rewritten or not, or nothing when the url was stored and has gone. */
  function DocResult(sources: map<string, Source>, local: set<string>, d: FeedDoc): Option<Source>
    requires d.url.Some?
  {
    var u := d.url.value;
    if u !in local then Some(NewFromDoc(u, d))
    else if u in sources then Some(if NeedsUpdate(sources[u], d) then Updated(sources[u], d) else sources[u])
    else None
  }

  /** The urls of the snapshot, each named by one document. */
  predicate DistinctUrls(docs: seq<FeedDoc>) {
    forall i, j :: 0 <= i < j < |docs| && docs[i].url.Some? && docs[j].url.Some? ==> docs[i].url.value != docs[j].url.value
  }

  /** A document names a url and a blank folder: the only way an insert fails. */
  predicate BlankFolderDoc(d: FeedDoc) {
    d.url.Some? && d.folderName.Some? && IsBlank(d.folderName.value)
  }

  /** Each source row is stored under its own url. */
  predicate KeysMatch(sources: map<string, Source>) {
    forall u :: u in sources ==> sources[u].url == u
  }

  lemma ApplyFeedDocEffect(t: FeedStore.Tables, local: set<string>, d: FeedDoc)
    requires KeysMatch(t.sources)
    ensures var s := ApplyFeedDoc(t, local, d);
      && KeysMatch(s.tables.sources)
      && (s.error.Some? ==> BlankFolderDoc(d))
      && s.tables.articles == t.articles
      && (s.error.None? ==>
            && s.tables.folders == t.folders + (if d.folderName.Some? && !IsBlank(d.folderName.value) then {d.folderName.value} else {})
            && (d.url.Some? ==> (d.url.value in s.tables.sources <==> DocResult(t.sources, local, d).Some?))
            && (d.url.Some? && d.url.value in s.tables.sources ==> s.tables.sources[d.url.value] == DocResult(t.sources, local, d).value)
            && (forall u :: u in t.sources && (d.url.None? || u != d.url.value) ==> u in s.tables.sources && s.tables.sources[u] == t.sources[u])
            && (forall u :: u in s.tables.sources ==> u in t.sources || (d.url.Some? && u == d.url.value)))
  {
    var t1 := if d.folderName.Some? && !IsBlank(d.folderName.value) then FeedStore.InsertFolder(t, d.folderName.value) else t;
    if d.url.Some? {
      var u := d.url.value;
      if u !in local {
        FeedStore.UpsertSourceEffect(t1, NewFromDoc(u, d));
      } else if u in t1.sources && NeedsUpdate(t1.sources[u], d) {
        FeedStore.UpsertSourceEffect(t1, Updated(t1.sources[u], d));
      }
    }
  }

  /** The documents in order, with distinct urls: the articles are untouched;
      the non-blank folders are added; other stored sources are kept and no
      url outside the snapshot appears; and an error means some document named
      a url and a blank folder. */
  lemma {:induction false} ApplyFeedDocsEffect(t: FeedStore.Tables, local: set<string>, docs: seq<FeedDoc>)
    requires KeysMatch(t.sources) && DistinctUrls(docs)
    ensures var s := ApplyFeedDocs(t, local, docs);
      && KeysMatch(s.tables.sources)
      && (s.error.Some? ==> exists d :: d in docs && BlankFolderDoc(d))
      && s.tables.articles == t.articles
      && (s.error.None? ==>
            && s.tables.folders == t.folders + RemoteFolders(docs)
            && (forall u :: u in t.sources && u !in RemoteUrls(docs) ==> u in s.tables.sources && s.tables.sources[u] == t.sources[u])
            && (forall u :: u in s.tables.sources ==> u in t.sources || u in RemoteUrls(docs)))
    decreases |docs|
  {
    if |docs| > 0 {
      ApplyFeedDocEffect(t, local, docs[0]);
      var s1 := ApplyFeedDoc(t, local, docs[0]);
      if s1.error.None? {
        DocsTail(docs);
        ApplyFeedDocsEffect(s1.tables, local, docs[1..]);
      }
    }
  }

  /** Without an error, a document's url holds what `DocResult` says of it
      against the sources before the snapshot. */
  lemma {:induction false} ApplyFeedDocsResult(t: FeedStore.Tables, local: set<string>, docs: seq<FeedDoc>, d: FeedDoc)
    requires KeysMatch(t.sources) && DistinctUrls(docs)
    requires ApplyFeedDocs(t, local, docs).error.None?
    requires d in docs && d.url.Some?
    ensures var s := ApplyFeedDocs(t, local, docs);
      && (d.url.value in s.tables.sources <==> DocResult(t.sources, local, d).Some?)
      && (d.url.value in s.tables.sources ==> s.tables.sources[d.url.value] == DocResult(t.sources, local, d).value)
    decreases |docs|
  {
    var d0, rest := docs[0], docs[1..];
    ApplyFeedDocEffect(t, local, d0);
    var s1 := ApplyFeedDoc(t, local, d0);
    DocsTail(docs);
    if d == d0 {
      ApplyFeedDocsEffect(s1.tables, local, rest);
    } else {
      assert d in rest && d.url.value in RemoteUrls(rest);
      ApplyFeedDocsResult(s1.tables, local, rest, d);
    }
  }

  /** What the first document and the others name, apart. */
  lemma DocsTail(docs: seq<FeedDoc>)
    requires |docs| > 0 && DistinctUrls(docs)
    ensures DistinctUrls(docs[1..])
    ensures forall x :: x in docs <==> x == docs[0] || x in docs[1..]
    ensures RemoteFolders(docs) == (if docs[0].folderName.Some? && !IsBlank(docs[0].folderName.value) then {docs[0].folderName.value} else {}) + RemoteFolders(docs[1..])
    ensures RemoteUrls(docs) == (if docs[0].url.Some? then {docs[0].url.value} else {}) + RemoteUrls(docs[1..])
    ensures docs[0].url.Some? ==> docs[0].url.value !in RemoteUrls(docs[1..])
  {
    var d, rest := docs[0], docs[1..];
    forall i, j | 0 <= i < j < |rest| && rest[i].url.Some? && rest[j].url.Some?
      ensures rest[i].url.value != rest[j].url.value
    {
      assert rest[i] == docs[i + 1] && rest[j] == docs[j + 1];
    }
    assert forall x :: x in docs <==> x == d || x in rest;
    if d.url.Some? {
      forall x | x in rest && x.url.Some? ensures x.url.value != d.url.value {
        var j :| 0 <= j < |rest| && rest[j] == x;
        assert docs[j + 1] == x;
      }
    }
  }

  /** The listener on a consistent store, when the snapshot names each url
      once: afterwards the stored sources are exactly the remote ones, each
      holding what its document says; the articles of the deleted sources are
      gone and every other article is untouched; the non-blank remote folders
      exist. It fails only if a document names a blank folder. */
  lemma ReconcileFeedsEffect(t: FeedStore.Tables, docs: seq<FeedDoc>)
    requires FeedStore.Consistent(t) && DistinctUrls(docs)
    ensures var s := ReconcileFeeds(t, docs);
      && (s.error.Some? ==> exists d :: d in docs && BlankFolderDoc(d))
      && (s.error.None? ==>
            && s.tables.sources.Keys == RemoteUrls(docs)
            && (forall d :: d in docs && d.url.Some? ==> s.tables.sources[d.url.value] == DocResult(t.sources, t.sources.Keys, d).value)
            && s.tables.articles == (map l | l in t.articles && t.articles[l].sourceUrl in RemoteUrls(docs) :: t.articles[l])
            && s.tables.folders == t.folders + RemoteFolders(docs))
  {
    ApplyFeedDocsEffect(t, t.sources.Keys, docs);
    var s := ApplyFeedDocs(t, t.sources.Keys, docs);
    if s.error.None? {
      forall d | d in docs && d.url.Some?
        ensures d.url.value in s.tables.sources <==> DocResult(t.sources, t.sources.Keys, d).Some?
        ensures d.url.value in s.tables.sources ==> s.tables.sources[d.url.value] == DocResult(t.sources, t.sources.Keys, d).value
      {
        ApplyFeedDocsResult(t, t.sources.Keys, docs, d);
      }
      var gone := t.sources.Keys - RemoteUrls(docs);
      var r := DeleteSources(s.tables, gone);
      forall d | d in docs && d.url.Some? ensures DocResult(t.sources, t.sources.Keys, d).Some? {
      }
      assert r.sources.Keys == RemoteUrls(docs) by {
        forall u | u in RemoteUrls(docs) ensures u in r.sources {
          var d :| d in docs && d.url.Some? && d.url.value == u;
        }
      }
    }
  }

  /** One document as the program writes it: both inserts are the REPLACE
      statement. */
  function ApplyFeedDocAsWritten(t: FeedStore.Tables, local: set<string>, d: FeedDoc): Step {
    var t1 := if d.folderName.Some? && !IsBlank(d.folderName.value) then FeedStore.InsertFolder(t, d.folderName.value) else t;
    if d.url.None? then Step(t1, None)
    else if d.url.value !in local then Attempt(t1, FeedStore.InsertSourceReplace(t1, NewFromDoc(d.url.value, d)))
    else if d.url.value in t1.sources && NeedsUpdate(t1.sources[d.url.value], d)
    then Attempt(t1, FeedStore.InsertSourceReplace(t1, Updated(t1.sources[d.url.value], d)))
    else Step(t1, None)
  }

  /** The document writes its source row. */
  predicate WritesSource(t: FeedStore.Tables, local: set<string>, d: FeedDoc) {
    d.url.Some? && (d.url.value !in local || (d.url.value in t.sources && NeedsUpdate(t.sources[d.url.value], d)))
  }

  /** As written, a document that writes a source row deletes every article of
      that url; the folder and source rows, the error, and every document that
      writes no row agree with `ApplyFeedDoc`. */
  lemma ApplyFeedDocAsWrittenLoss(t: FeedStore.Tables, local: set<string>, d: FeedDoc)
    requires KeysMatch(t.sources)
    ensures var w, c := ApplyFeedDocAsWritten(t, local, d), ApplyFeedDoc(t, local, d);
      && w.error == c.error && w.tables.folders == c.tables.folders && w.tables.sources == c.tables.sources
      && if WritesSource(t, local, d) && c.error.None?
         then w.tables.articles == FeedStore.DeleteSource(t, d.url.value).articles
         else w == c
  {
    var t1 := if d.folderName.Some? && !IsBlank(d.folderName.value) then FeedStore.InsertFolder(t, d.folderName.value) else t;
    assert t1.sources == t.sources && t1.articles == t.articles;
    if d.url.Some? {
      assert FeedStore.DeleteSource(t1, d.url.value).articles == FeedStore.DeleteSource(t, d.url.value).articles;
      FeedStore.ReplaceIsUpsertThenCascade(t1, NewFromDoc(d.url.value, d));
      if d.url.value in t1.sources {
        FeedStore.ReplaceIsUpsertThenCascade(t1, Updated(t1.sources[d.url.value], d));
      }
    }
  }

  /** A stored source whose remote document has no title always needs an
      update, so every snapshot rewrites it. As written the rewrite leaves the
      same row yet deletes its articles, read and saved ones included; the
      upsert leaves the tables as they were. */
  lemma MissingTitleLoss(t: FeedStore.Tables, local: set<string>, d: FeedDoc)
    requires KeysMatch(t.sources)
    requires d.url.Some? && d.url.value in local && d.url.value in t.sources
    requires d.title.None? && d.folderName.None? && d.iconUrl.None?
    requires t.sources[d.url.value].folderName.None?
    ensures NeedsUpdate(t.sources[d.url.value], d)
    ensures var w := ApplyFeedDocAsWritten(t, local, d);
      && w.error.None? && w.tables.sources == t.sources && w.tables.folders == t.folders
      && w.tables.articles == FeedStore.DeleteSource(t, d.url.value).articles
    ensures ApplyFeedDoc(t, local, d) == Step(t, None)
  {
    ApplyFeedDocAsWrittenLoss(t, local, d);
    var u := d.url.value;
    assert Updated(t.sources[u], d) == t.sources[u];
    assert FeedStore.UpsertSource(t, t.sources[u]) == Ok(t) by {
      assert t.sources[u := t.sources[u]] == t.sources;
    }
  }

  // ---------------------------------------------------------------------------
  // The read-state listener

  /** An element of the `items` array of the read-state document. */
  datatype ReadItem =
    | LinkItem(link: string)                            // the older format: the link itself
    | StampedItem(u: Option<string>, t: Option<int>)    // `{"u": link, "t": millis}`
    | OtherItem                                         // any other value

  /** How long a stamped read mark is kept: 14 days, in milliseconds. */
  const RetentionMillis: int := 14 * 24 * 60 * 60 * 1000

  /** The oldest stamp kept, computed in `Long` arithmetic. */
  function RetentionLimit(now: int): int {
    Numbers.WrapLong(now - RetentionMillis)
  }

  /** The link an item names, if any. */
  function ItemLink(x: ReadItem): Option<string> {
    match x
    case LinkItem(l) => Some(l)
    case StampedItem(u, _) => u
    case OtherItem => None
  }

  /** A stamped item with a link whose stamp (0 when missing) is older than the limit. */
  predicate Expired(x: ReadItem, limit: int) {
    x.StampedItem? && x.u.Some? && x.t.GetOr(0) < limit
  }

  /** An item that counts as a read mark. */
  predicate Live(x: ReadItem, limit: int) {
    ItemLink(x).Some? && !Expired(x, limit)
  }

  function ValidLinks(items: seq<ReadItem>, limit: int): set<string> {
    set x | x in items && Live(x, limit) :: ItemLink(x).value
  }

  /** The stamped items older than the limit, in order. */
  function ExpiredItems(items: seq<ReadItem>, limit: int): seq<ReadItem> {
    Filter(items, ExpiredAt(limit))
  }

  /** `Expired` as a filter. */
  function ExpiredAt(limit: int): ReadItem -> bool {
    x => Expired(x, limit)
  }

  /** An item naming a link that is not stored, as a filter. */
  function Unstored(localLinks: set<string>): ReadItem -> bool {
    x => ItemLink(x).Some? && ItemLink(x).value !in localLinks
  }

  /** The items whose link is not among the stored articles' — unless nothing
      is stored, when nothing is pruned. */
  function PruneItems(items: seq<ReadItem>, localLinks: set<string>): seq<ReadItem> {
    if localLinks == {} then [] else Filter(items, Unstored(localLinks))
  }

  /** A link is valid exactly when an old-format item names it or a stamped
      item names it with a stamp no older than the limit. */
  lemma ValidLinksMeaning(items: seq<ReadItem>, limit: int, l: string)
    ensures l in ValidLinks(items, limit) <==>
      LinkItem(l) in items || exists s :: StampedItem(Some(l), s) in items && s.GetOr(0) >= limit
  {
    if l in ValidLinks(items, limit) {
      var x :| x in items && Live(x, limit) && ItemLink(x).value == l;
      if x.StampedItem? {
        assert StampedItem(Some(l), x.t) in items;
      }
    }
    if LinkItem(l) in items {
      assert Live(LinkItem(l), limit);
    }
  }

  /** Pruning happens only when the store holds an article, and then removes
      exactly the items naming a link that is not stored. */
  lemma PruneMeaning(items: seq<ReadItem>, localLinks: set<string>)
    ensures localLinks == {} ==> PruneItems(items, localLinks) == []
    ensures localLinks != {} ==> forall x :: x in PruneItems(items, localLinks) <==>
      x in items && ItemLink(x).Some? && ItemLink(x).value !in localLinks
  {
  }

  /** `UPDATE ... WHERE link IN` over two lists of links is one update over both. */
  lemma MarkLinksReadUnion(t: FeedStore.Tables, a: set<string>, b: set<string>)
    ensures FeedStore.MarkLinksRead(FeedStore.MarkLinksRead(t, a), b) == FeedStore.MarkLinksRead(t, a + b)
  {
  }

  /** Saving links in turn, one update each. */
  function SaveLinks(t: FeedStore.Tables, links: set<string>): FeedStore.Tables {
    t.(articles := map l | l in t.articles :: if l in links then t.articles[l].(isSaved := true) else t.articles[l])
  }

  /** Unsaving links in turn, one update each. */
  function UnsaveLinks(t: FeedStore.Tables, links: set<string>): FeedStore.Tables {
    t.(articles := map l | l in t.articles :: if l in links then t.articles[l].(isSaved := false) else t.articles[l])
  }

  lemma UnsaveLinksStep(t: FeedStore.Tables, links: set<string>, l: string)
    ensures FeedStore.SetSaved(UnsaveLinks(t, links), l, false) == UnsaveLinks(t, links + {l})
  {
  }

  lemma SaveLinksStep(t: FeedStore.Tables, links: set<string>, l: string)
    ensures FeedStore.SetSaved(SaveLinks(t, links), l, true) == SaveLinks(t, links + {l})
  {
  }

  /** The elements of a list, as a set. */
  function Elems(xs: seq<string>): set<string> {
    set l | l in xs
  }

  lemma ElemsAppend(a: seq<string>, b: seq<string>)
    ensures Elems(a + b) == Elems(a) + Elems(b)
  {
  }

  /** `markArticlesAsRead` over `links.chunked(900)`: together one update over all of them. */
  method MarkReadInChunks(dao: Dao.FeedDao, links: seq<string>)
    requires dao.Valid()
    modifies dao
    ensures dao.Valid() && dao.Snapshot() == FeedStore.MarkLinksRead(old(dao.Snapshot()), Elems(links))
  {
    var chunks := Chunked(links, 900);
    ChunkedFlatten(links, 900);
    ghost var t0 := dao.Snapshot();
    assert FeedStore.MarkLinksRead(t0, {}) == t0;
    var k := 0;
    while k < |chunks|
      invariant 0 <= k <= |chunks| && dao.Valid()
      invariant dao.Snapshot() == FeedStore.MarkLinksRead(t0, Elems(Flatten(chunks[..k])))
    {
      assert chunks[..k + 1] == chunks[..k] + [chunks[k]];
      FlattenSnoc(chunks[..k], chunks[k]);
      ElemsAppend(Flatten(chunks[..k]), chunks[k]);
      MarkLinksReadUnion(t0, Elems(Flatten(chunks[..k])), Elems(chunks[k]));
      dao.MarkArticlesAsRead(Elems(chunks[k]));
      k := k + 1;
    }
    assert chunks[..k] == chunks;
  }

  /** The items, chunked by 500, each chunk one `arrayRemove` write. */
  function RemovalWrites(items: seq<ReadItem>): seq<seq<ReadItem>> {
    Chunked(items, 500)
  }

  // ---------------------------------------------------------------------------
  // The saved-articles listener

  /** A document of the `saved_articles` collection. */
  datatype SavedDoc = SavedDoc(
    link: Option<string>,
    title: Option<string>,
    description: Option<string>,
    pubDate: Option<int>,
    sourceUrl: Option<string>,
    sourceTitle: Option<string>,
    imageUrl: Option<string>,
    isRead: Option<bool>)

  /** The row a document describes: saved, dated now when it has no date,
      with an empty title and source when those are missing. */
  function DocArticle(d: SavedDoc, now: int): (a: Article)
    requires d.link.Some?
    ensures a.isSaved && a.link == d.link.value
  {
    Article(d.link.value, d.title.GetOr(""), d.description, d.pubDate.GetOr(now), d.sourceUrl.GetOr(""),
            d.imageUrl, d.isRead.GetOr(false), true)
  }

  /** The source row created for a saved article whose source is not stored. */
  function Placeholder(url: string, d: SavedDoc): Source {
    NewSource(url, d.sourceTitle.GetOr("Unknown Source"), None)
  }

  /** One document: an unknown link with a source url is inserted (its source
      first, as a placeholder, when missing); a stored link becomes saved. A
      failed statement is caught and skipped. */
  function ApplySavedDoc(t: FeedStore.Tables, now: int, d: SavedDoc): FeedStore.Tables {
    if d.link.None? then t
    else if d.link.value in t.articles then FeedStore.SetSaved(t, d.link.value, true)
    else
      var src := d.sourceUrl.GetOr("");
      if src == "" then t
      else
        var t1 := if src in t.sources then t else Attempt(t, FeedStore.UpsertSource(t, Placeholder(src, d))).tables;
        Attempt(t1, FeedStore.InsertArticles(t1, [DocArticle(d, now)])).tables
  }

  function ApplySavedDocs(t: FeedStore.Tables, now: int, docs: seq<SavedDoc>): FeedStore.Tables
    decreases |docs|
  {
    if |docs| == 0 then t else ApplySavedDocs(ApplySavedDoc(t, now, docs[0]), now, docs[1..])
  }

  /** The links the snapshot names. */
  function SavedLinksOf(docs: seq<SavedDoc>): set<string> {
    set d | d in docs && d.link.Some? :: d.link.value
  }

  /** Every stored article outside `keep` unsaved. */
  function UnsaveMissing(t: FeedStore.Tables, keep: set<string>): FeedStore.Tables {
    t.(articles := map l | l in t.articles :: if l !in keep then t.articles[l].(isSaved := false) else t.articles[l])
  }

  function SyncSaved(t: FeedStore.Tables, now: int, docs: seq<SavedDoc>): FeedStore.Tables {
    UnsaveMissing(ApplySavedDocs(t, now, docs), SavedLinksOf(docs))
  }

  /** A document of the saved snapshot that is inserted when it is not stored. */
  predicate Insertable(d: SavedDoc) {
    d.link.Some? && d.sourceUrl.Some? && d.sourceUrl.value != ""
  }

  lemma ApplySavedDocEffect(t: FeedStore.Tables, now: int, d: SavedDoc)
    requires FeedStore.Consistent(t)
    ensures var r := ApplySavedDoc(t, now, d);
      && FeedStore.Consistent(r) && r.folders == t.folders
      && (forall u :: u in t.sources ==> u in r.sources && r.sources[u] == t.sources[u])
      && (forall l :: l in t.articles ==>
            (l in r.articles && r.articles[l] == t.articles[l].(isSaved := t.articles[l].isSaved || Some(l) == d.link)))
      && (forall l :: l in r.articles && l !in t.articles ==> Some(l) == d.link && r.articles[l].isSaved)
      && (Insertable(d) ==> d.link.value in r.articles)
  {
    if d.link.Some? && d.link.value !in t.articles && d.sourceUrl.GetOr("") != "" {
      var src := d.sourceUrl.value;
      var t1 := if src in t.sources then t else Attempt(t, FeedStore.UpsertSource(t, Placeholder(src, d))).tables;
      if src !in t.sources {
        FeedStore.UpsertSourceEffect(t, Placeholder(src, d));
        FeedStore.InsertSourceConsistent(t, Placeholder(src, d));
      }
      var batch := [DocArticle(d, now)];
      assert src in t1.sources;
      FeedStore.InsertArticleRowsFails(t1.sources, t1.articles, batch);
      assert FeedStore.InsertArticles(t1, batch).Ok?;
      FeedStore.InsertArticlesConsistent(t1, batch);
      FeedStore.InsertArticleRowsKeeps(t1.sources, t1.articles, batch);
    }
  }

  lemma {:induction false} ApplySavedDocsEffect(t: FeedStore.Tables, now: int, docs: seq<SavedDoc>)
    requires FeedStore.Consistent(t)
    ensures var r := ApplySavedDocs(t, now, docs);
      && FeedStore.Consistent(r) && r.folders == t.folders
      && (forall u :: u in t.sources ==> u in r.sources && r.sources[u] == t.sources[u])
      && (forall l :: l in t.articles ==>
            (l in r.articles && r.articles[l] == t.articles[l].(isSaved := t.articles[l].isSaved || l in SavedLinksOf(docs))))
      && (forall l :: l in r.articles && l !in t.articles ==> l in SavedLinksOf(docs) && r.articles[l].isSaved)
      && (forall d :: d in docs && Insertable(d) ==> d.link.value in r.articles)
    decreases |docs|
  {
    if |docs| > 0 {
      var d := docs[0];
      ApplySavedDocEffect(t, now, d);
      var t1 := ApplySavedDoc(t, now, d);
      ApplySavedDocsEffect(t1, now, docs[1..]);
      assert forall x :: x in docs <==> x == d || x in docs[1..];
      assert SavedLinksOf(docs) == (if d.link.Some? then {d.link.value} else {}) + SavedLinksOf(docs[1..]);
    }
  }

  /** The saved listener on a consistent store: afterwards an article is saved
      exactly when the snapshot names it; stored articles change in nothing
      but that flag; an article the snapshot names with a source url is
      stored; no source is lost and no folder changes. */
  lemma SyncSavedEffect(t: FeedStore.Tables, now: int, docs: seq<SavedDoc>)
    requires FeedStore.Consistent(t)
    ensures var r := SyncSaved(t, now, docs);
      && FeedStore.Consistent(r) && r.folders == t.folders
      && (forall u :: u in t.sources ==> u in r.sources && r.sources[u] == t.sources[u])
      && (forall l :: l in r.articles ==> (r.articles[l].isSaved <==> l in SavedLinksOf(docs)))
      && (forall l :: l in t.articles ==> l in r.articles && r.articles[l] == t.articles[l].(isSaved := l in SavedLinksOf(docs)))
      && (forall l :: l in r.articles ==> l in t.articles || l in SavedLinksOf(docs))
      && (forall d :: d in docs && Insertable(d) ==> d.link.value in r.articles)
  {
    ApplySavedDocsEffect(t, now, docs);
  }

  // ---------------------------------------------------------------------------
  // The settings listener

  /** The fields of the settings document; absent or of another type is `None`. */
  datatype SettingsDoc = SettingsDoc(theme: Option<int>, language: Option<string>, syncInterval: Option<int>, markOnScroll: Option<bool>)

  /** Each setting present is applied; dark mode when the theme, narrowed to
      `Int`, is 1. */
  method ApplySettings(prefs: Preferences.PreferencesManager, doc: SettingsDoc)
    modifies prefs
    ensures prefs.darkMode == if doc.theme.Some? then Numbers.LongToInt(doc.theme.value) == 1 else old(prefs.darkMode)
    ensures prefs.language == doc.language.GetOr(old(prefs.language))
    ensures prefs.syncInterval == doc.syncInterval.GetOr(old(prefs.syncInterval))
    ensures prefs.markOnScroll == doc.markOnScroll.GetOr(old(prefs.markOnScroll))
    ensures prefs.apiKey == old(prefs.apiKey) && prefs.dismissed == old(prefs.dismissed)
  {
    if doc.theme.Some? {
      prefs.SetDarkMode(Numbers.LongToInt(doc.theme.value) == 1);
    }
    if doc.language.Some? {
      prefs.SetLanguage(doc.language.value);
    }
    if doc.syncInterval.Some? {
      prefs.SetSyncInterval(doc.syncInterval.value);
    }
    if doc.markOnScroll.Some? {
      prefs.SetMarkAsReadOnScroll(doc.markOnScroll.value);
    }
  }

  // ---------------------------------------------------------------------------
  // Uploading read marks

  /** One element written to the read-state document. */
  datatype ReadUpload = ReadUpload(u: string, t: int)

  // ---------------------------------------------------------------------------
  // The listeners' statements, one document or one list at a time

  /** The elements of a set as a list, each once, in some order (`toList()`
      of a hash set, or its `forEach`). */
  method ListOf(s: set<string>) returns (r: seq<string>)
    ensures forall i, j :: 0 <= i < j < |r| ==> r[i] != r[j]
    ensures forall l :: l in r <==> l in s
  {
    r := [];
    var pending := s;
    while pending != {}
      invariant pending <= s
      invariant forall i, j :: 0 <= i < j < |r| ==> r[i] != r[j]
      invariant forall l :: l in r <==> l in s - pending
      decreases |pending|
    {
      var l :| l in pending;
      assert l !in r;
      r := r + [l];
      pending := pending - {l};
    }
  }

  /** One feed document's statements. */
  method ApplyFeedDocTo(dao: Dao.FeedDao, local: set<string>, d: FeedDoc) returns (err: Option<FeedStore.DbError>)
    requires dao.Valid()
    modifies dao
    ensures dao.Valid()
    ensures var s := ApplyFeedDoc(old(dao.Snapshot()), local, d); dao.Snapshot() == s.tables && err == s.error
  {
    if d.folderName.Some? && !IsBlank(d.folderName.value) {
      dao.InsertFolder(d.folderName.value);
    }
    err := None;
    if d.url.Some? && d.url.value !in local {
      err := dao.UpsertSource(NewFromDoc(d.url.value, d));
    } else if d.url.Some? {
      var existing := dao.GetSourceByUrl(d.url.value);
      if existing.Some? && NeedsUpdate(existing.value, d) {
        err := dao.UpsertSource(Updated(existing.value, d));
      }
    }
  }

  /** `deleteSource` for each url of a set. */
  method DeleteAll(dao: Dao.FeedDao, urls: set<string>)
    requires dao.Valid()
    modifies dao
    ensures dao.Valid() && dao.Snapshot() == DeleteSources(old(dao.Snapshot()), urls)
  {
    ghost var t0 := dao.Snapshot();
    DeleteSourcesNone(t0);
    var keys := urls;
    while keys != {}
      invariant keys <= urls && dao.Valid()
      invariant dao.Snapshot() == DeleteSources(t0, urls - keys)
      decreases |keys|
    {
      var u :| u in keys;
      DeleteSourcesStep(t0, urls - keys, u);
      dao.DeleteSource(u);
      assert (urls - keys) + {u} == urls - (keys - {u});
      keys := keys - {u};
    }
  }

  lemma ValidLinksSnoc(xs: seq<ReadItem>, x: ReadItem, limit: int)
    ensures ValidLinks(xs + [x], limit) == ValidLinks(xs, limit) + (if Live(x, limit) then {ItemLink(x).value} else {})
  {
    assert forall y :: y in xs + [x] <==> y in xs || y == x;
  }

  /** The first pass over the items: the valid links, and the expired items
      to remove. */
  method ClassifyReadItems(items: seq<ReadItem>, limit: int) returns (validLinks: set<string>, itemsToRemove: seq<ReadItem>)
    ensures validLinks == ValidLinks(items, limit)
    ensures itemsToRemove == ExpiredItems(items, limit)
  {
    validLinks := {};
    itemsToRemove := [];
    var i := 0;
    while i < |items|
      invariant 0 <= i <= |items|
      invariant validLinks == ValidLinks(items[..i], limit)
      invariant itemsToRemove == ExpiredItems(items[..i], limit)
    {
      assert items[..i + 1] == items[..i] + [items[i]];
      FilterSnoc(items[..i], items[i], ExpiredAt(limit));
      ValidLinksSnoc(items[..i], items[i], limit);
      var item := items[i];
      match item {
        case LinkItem(l) =>
          validLinks := validLinks + {l};
        case StampedItem(u, t) =>
          if u.Some? {
            if t.GetOr(0) < limit {
              itemsToRemove := itemsToRemove + [item];
            } else {
              validLinks := validLinks + {u.value};
            }
          }
        case OtherItem =>
      }
      i := i + 1;
    }
    assert items[..i] == items;
  }

  /** The valid links not in the cache, as a list. */
  method NewLinks(valid: set<string>, cached: set<string>) returns (r: seq<string>)
    ensures Elems(r) == valid - cached
  {
    var validList := ListOf(valid);
    r := Filter(validList, l => l !in cached);
  }

  /** The pruning pass, run only when some article is stored. */
  method PruneList(items: seq<ReadItem>, localLinks: set<string>) returns (itemsToPrune: seq<ReadItem>)
    ensures itemsToPrune == PruneItems(items, localLinks)
  {
    itemsToPrune := [];
    if localLinks != {} {
      var j := 0;
      while j < |items|
        invariant 0 <= j <= |items|
        invariant itemsToPrune == Filter(items[..j], Unstored(localLinks))
      {
        assert items[..j + 1] == items[..j] + [items[j]];
        FilterSnoc(items[..j], items[j], Unstored(localLinks));
        var url := ItemLink(items[j]);
        if url.Some? && url.value !in localLinks {
          itemsToPrune := itemsToPrune + [items[j]];
        }
        j := j + 1;
      }
      assert items[..j] == items;
    }
  }

  /** One saved document's statements; a failing statement is caught. */
  method ApplySavedDocTo(dao: Dao.FeedDao, d: SavedDoc, now: int)
    requires dao.Valid()
    modifies dao
    ensures dao.Valid() && dao.Snapshot() == ApplySavedDoc(old(dao.Snapshot()), now, d)
  {
    if d.link.Some? {
      var existing := dao.GetArticleByLink(d.link.value);
      if existing.None? {
        var src := d.sourceUrl.GetOr("");
        var sourceExists := dao.GetSourceByUrl(src);
        if sourceExists.None? && src != "" {
          var ignored := dao.UpsertSource(Placeholder(src, d));
        }
        if src != "" {
          var ignored := dao.InsertArticles([DocArticle(d, now)]);
        }
      } else if !existing.value.isSaved {
        dao.UpdateArticleSavedStatus(d.link.value, true);
      } else {
        assert existing.value.(isSaved := true) == existing.value;
      }
    }
  }

  /** The second pass: every saved article the snapshot does not name is unsaved. */
  method UnsaveAll(dao: Dao.FeedDao, current: set<string>)
    requires dao.Valid()
    modifies dao
    ensures dao.Valid() && dao.Snapshot() == UnsaveMissing(old(dao.Snapshot()), current)
  {
    ghost var t1 := dao.Snapshot();
    var localSaved := dao.GetSavedArticlesList();
    ghost var done: set<string> := {};
    assert UnsaveLinks(t1, {}) == t1;
    var k := 0;
    while k < |localSaved|
      invariant 0 <= k <= |localSaved| && dao.Valid()
      invariant dao.Snapshot() == UnsaveLinks(t1, done)
      invariant forall l :: l in done ==> l !in current
      invariant forall j :: 0 <= j < k && localSaved[j].link !in current ==> localSaved[j].link in done
    {
      if localSaved[k].link !in current {
        UnsaveLinksStep(t1, done, localSaved[k].link);
        dao.UpdateArticleSavedStatus(localSaved[k].link, false);
        done := done + {localSaved[k].link};
      }
      k := k + 1;
    }
    forall l | l in t1.articles && l !in current && t1.articles[l].isSaved
      ensures l in done
    {
      assert FeedStore.Selected(t1, FeedStore.Saved, t1.articles[l]);
      assert t1.articles[l] in localSaved;
      var j :| 0 <= j < |localSaved| && localSaved[j] == t1.articles[l];
    }
    assert UnsaveLinks(t1, done) == UnsaveMissing(t1, current);
  }

  /** `updateArticleSavedStatus(link, true)` for each link of a set. */
  method SaveAll(dao: Dao.FeedDao, links: set<string>)
    requires dao.Valid()
    modifies dao
    ensures dao.Valid() && dao.Snapshot() == SaveLinks(old(dao.Snapshot()), links)
  {
    ghost var t1 := dao.Snapshot();
    assert SaveLinks(t1, {}) == t1;
    var saved := links;
    while saved != {}
      invariant saved <= links && dao.Valid()
      invariant dao.Snapshot() == SaveLinks(t1, links - saved)
      decreases |saved|
    {
      var l :| l in saved;
      SaveLinksStep(t1, links - saved, l);
      dao.UpdateArticleSavedStatus(l, true);
      assert (links - saved) + {l} == links - (saved - {l});
      saved := saved - {l};
    }
  }

  /** A list of links, each stamped with one time. */
  function Stamp(links: seq<string>, now: int): (r: seq<ReadUpload>)
    ensures |r| == |links| && forall i :: 0 <= i < |r| ==> r[i] == ReadUpload(links[i], now)
  {
    seq(|links|, i requires 0 <= i < |links| => ReadUpload(links[i], now))
  }

  /** The helper's own state: the read and saved links last seen in the cloud,
      the counts shown on the profile, and the links waiting to be uploaded. */
  class FirestoreHelper {
    var remoteReadLinks: set<string>
    var remoteSavedLinks: set<string>
    var readCount: int
    var savedCount: int
    var readQueue: set<string>

    constructor()
      ensures remoteReadLinks == {} && remoteSavedLinks == {} && readQueue == {}
      ensures readCount == 0 && savedCount == 0
    {
      remoteReadLinks, remoteSavedLinks, readQueue := {}, {}, {};
      readCount, savedCount := 0, 0;
    }

    /** The feeds listener. It reports whether a remote feed was new, which
        asks for a background sync. */
    method OnFeeds(dao: Dao.FeedDao, docs: seq<FeedDoc>) returns (err: Option<FeedStore.DbError>, hasNewFeeds: bool)
      requires dao.Valid()
      modifies dao
      ensures dao.Valid()
      ensures var s := ReconcileFeeds(old(dao.Snapshot()), docs); dao.Snapshot() == s.tables && err == s.error
      ensures err.None? ==> (hasNewFeeds <==> exists d :: d in docs && d.url.Some? && d.url.value !in old(dao.sources))
    {
      var remoteUrls := set d | d in docs && d.url.Some? :: d.url.value;
      var localSources := dao.GetAllSources();
      var localUrls := set s | s in localSources :: s.url;
      assert localUrls == dao.sources.Keys by {
        forall u | u in dao.sources ensures u in localUrls {
          assert dao.sources[u] in localSources;
        }
      }
      ghost var t0 := dao.Snapshot();
      hasNewFeeds := false;
      var i := 0;
      while i < |docs|
        invariant 0 <= i <= |docs| && dao.Valid()
        invariant ApplyFeedDocs(dao.Snapshot(), localUrls, docs[i..]) == ApplyFeedDocs(t0, localUrls, docs)
        invariant hasNewFeeds <==> exists j :: 0 <= j < i && docs[j].url.Some? && docs[j].url.value !in localUrls
      {
        assert docs[i..][1..] == docs[i + 1..];
        err := ApplyFeedDocTo(dao, localUrls, docs[i]);
        if err.Some? {
          return;
        }
        if docs[i].url.Some? && docs[i].url.value !in localUrls {
          hasNewFeeds := true;
        }
        i := i + 1;
      }
      assert docs[i..] == [];
      assert hasNewFeeds <==> exists d :: d in docs && d.url.Some? && d.url.value !in localUrls;
      DeleteAll(dao, localUrls - remoteUrls);
      err := None;
    }

    /** The read-state listener: marks read the valid links not seen before
        (in chunks of 900), replaces the cache by the valid links, and returns
        the removal writes: the items naming links not stored (only when some
        article is stored), then the expired ones, each list in chunks of 500. */
    method OnReadStates(dao: Dao.FeedDao, items: seq<ReadItem>, now: int) returns (removals: seq<seq<ReadItem>>)
      requires dao.Valid()
      modifies this, dao
      ensures dao.Valid()
      ensures var valid := ValidLinks(items, RetentionLimit(now));
        && dao.Snapshot() == FeedStore.MarkLinksRead(old(dao.Snapshot()), valid - old(remoteReadLinks))
        && remoteReadLinks == valid && readCount == |valid|
      ensures removals == RemovalWrites(PruneItems(items, old(dao.articles).Keys)) + RemovalWrites(ExpiredItems(items, RetentionLimit(now)))
      ensures remoteSavedLinks == old(remoteSavedLinks) && savedCount == old(savedCount) && readQueue == old(readQueue)
    {
      var limit := RetentionLimit(now);
      var validLinks, itemsToRemove := ClassifyReadItems(items, limit);
      var newLinks := NewLinks(validLinks, remoteReadLinks);
      remoteReadLinks := validLinks;
      ghost var t0 := dao.Snapshot();
      if |newLinks| > 0 {
        MarkReadInChunks(dao, newLinks);
      } else {
        assert FeedStore.MarkLinksRead(t0, {}) == t0;
      }
      readCount := |remoteReadLinks|;
      assert dao.articles.Keys == t0.articles.Keys;
      var itemsToPrune := PruneList(items, dao.articles.Keys);
      removals := Chunked(itemsToPrune, 500) + Chunked(itemsToRemove, 500);
    }

    /** The saved-articles listener: reconciles the saved flags and replaces
        the cache of saved links. */
    method OnSavedArticles(dao: Dao.FeedDao, docs: seq<SavedDoc>, now: int)
      requires dao.Valid()
      modifies this, dao
      ensures dao.Valid() && dao.Snapshot() == SyncSaved(old(dao.Snapshot()), now, docs)
      ensures remoteSavedLinks == SavedLinksOf(docs) && savedCount == |remoteSavedLinks|
      ensures remoteReadLinks == old(remoteReadLinks) && readCount == old(readCount) && readQueue == old(readQueue)
    {
      ghost var t0 := dao.Snapshot();
      var current: set<string> := {};
      var i := 0;
      while i < |docs|
        modifies dao
        invariant 0 <= i <= |docs| && dao.Valid()
        invariant ApplySavedDocs(dao.Snapshot(), now, docs[i..]) == ApplySavedDocs(t0, now, docs)
        invariant current == SavedLinksOf(docs[..i])
      {
        assert docs[i..][1..] == docs[i + 1..];
        assert forall x :: x in docs[..i + 1] <==> x in docs[..i] || x == docs[i];
        if docs[i].link.Some? {
          current := current + {docs[i].link.value};
        }
        ApplySavedDocTo(dao, docs[i], now);
        i := i + 1;
      }
      assert docs[i..] == [] && docs[..i] == docs;
      UnsaveAll(dao, current);
      remoteSavedLinks := current;
      savedCount := |remoteSavedLinks|;
    }

    /** `applyRemoteStates`: the cached read links marked read (in chunks of
        900), then each cached saved link saved. */
    method ApplyRemoteStates(dao: Dao.FeedDao)
      requires dao.Valid()
      modifies dao
      ensures dao.Valid()
      ensures dao.Snapshot() == SaveLinks(FeedStore.MarkLinksRead(old(dao.Snapshot()), remoteReadLinks), remoteSavedLinks)
    {
      var readCopy := ListOf(remoteReadLinks);
      assert Elems(readCopy) == remoteReadLinks;
      ghost var t0 := dao.Snapshot();
      if |readCopy| > 0 {
        MarkReadInChunks(dao, readCopy);
      } else {
        assert FeedStore.MarkLinksRead(t0, {}) == t0;
      }
      SaveAll(dao, remoteSavedLinks);
    }

    /** `markReadInCloud`: with a signed-in user the link joins the queue
        (a set, so a link marked twice is uploaded once). */
    method MarkReadInCloud(link: string, signedIn: bool)
      modifies this
      ensures readQueue == if signedIn then old(readQueue) + {link} else old(readQueue)
      ensures remoteReadLinks == old(remoteReadLinks) && remoteSavedLinks == old(remoteSavedLinks)
      ensures readCount == old(readCount) && savedCount == old(savedCount)
    {
      if signedIn {
        readQueue := readQueue + {link};
      }
    }

    /** `flushReadQueue`: empties the queue and uploads each non-blank queued
        link once, all stamped `now`, in chunks of at most 500. */
    method FlushReadQueue(now: int) returns (uploads: seq<seq<ReadUpload>>)
      modifies this
      ensures readQueue == {}
      ensures forall c :: c in uploads ==> 0 < |c| <= 500
      ensures var flat := Flatten(uploads);
        && (forall i :: 0 <= i < |flat| ==> flat[i].t == now)
        && (forall i, j :: 0 <= i < j < |flat| ==> flat[i].u != flat[j].u)
        && (forall l :: (exists i :: 0 <= i < |flat| && flat[i].u == l) <==> l in old(readQueue) && !IsBlank(l))
      ensures remoteReadLinks == old(remoteReadLinks) && remoteSavedLinks == old(remoteSavedLinks)
      ensures readCount == old(readCount) && savedCount == old(savedCount)
    {
      var toAdd := ListOf(readQueue);
      readQueue := {};
      if |toAdd| == 0 {
        return [];
      }
      var notBlank: string -> bool := l => !IsBlank(l);
      var validItems := Filter(toAdd, notBlank);
      FilterDistinct(toAdd, notBlank);
      if |validItems| == 0 {
        return [];
      }
      var objects := Stamp(validItems, now);
      uploads := Chunked(objects, 500);
      ChunkedFlatten(objects, 500);
      assert Flatten(uploads) == objects;
      forall i, j | 0 <= i < j < |objects| ensures objects[i].u != objects[j].u {
        assert objects[i].u == validItems[i] && objects[j].u == validItems[j];
      }
      forall l ensures (exists i :: 0 <= i < |objects| && objects[i].u == l) <==> l in old(readQueue) && !IsBlank(l) {
        if l in old(readQueue) && !IsBlank(l) {
          assert l in validItems;
          var i :| 0 <= i < |validItems| && validItems[i] == l;
          assert objects[i].u == l;
        }
        if exists i :: 0 <= i < |objects| && objects[i].u == l {
          var i :| 0 <= i < |objects| && objects[i].u == l;
          assert validItems[i] in validItems;
        }
      }
    }
  }
}
