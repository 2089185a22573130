/** Backup and restore: the export captures the folders, the sources, the saved
    articles and five settings; the import restores the settings, then the
    folders, then the sources, then the saved articles. The JSON encoding is
    not modelled; a backup is its decoded value. */
module Backup {
  import opened Wrappers
  import opened Entities
  import FeedStore
  import Dao
  import Preferences

  /** A decoded preference value: JSON booleans, strings, numbers (as the
      whole number `toLong` gives) and null. */
  datatype PrefValue = BoolValue(b: bool) | TextValue(s: string) | NumberValue(whole: int) | NullValue

  datatype BackupData = BackupData(
    timestamp: int,
    preferences: map<string, PrefValue>,
    folders: seq<string>,
    sources: seq<Source>,
    savedArticles: seq<Article>)

  /** Why an import stops: a preference of the wrong JSON type (a failed
      cast), or a rejected statement. */
  datatype ImportError = WrongType(key: string) | Store(error: FeedStore.DbError)

  /** The five settings a backup carries. */
  datatype Settings = Settings(darkMode: bool, markOnScroll: bool, apiKey: string, language: string, syncInterval: int)

  function SettingsOf(p: Preferences.PreferencesManager): Settings
    reads p
  {
    Settings(p.darkMode, p.markOnScroll, p.apiKey, p.language, p.syncInterval)
  }

  /** The preference map the export writes. */
  function PrefsMap(s: Settings): (m: map<string, PrefValue>)
    ensures m.Keys == {"isDarkMode", "markAsReadOnScroll", "geminiApiKey", "language", "syncInterval"}
  {
    map["isDarkMode" := BoolValue(s.darkMode),
        "markAsReadOnScroll" := BoolValue(s.markOnScroll),
        "geminiApiKey" := TextValue(s.apiKey),
        "language" := TextValue(s.language),
        "syncInterval" := NumberValue(s.syncInterval)]
  }

  /** A key counts as present when it maps to a non-null value. */
  predicate Present(m: map<string, PrefValue>, k: string) {
    k in m && !m[k].NullValue?
  }

  /** `syncInterval`: a number as a whole number, anything else 1. */
  function IntervalOf(v: PrefValue): int {
    if v.NumberValue? then v.whole else 1
  }

  /** The settings after restoring, in the order the import sets them, with the
      first key whose value has the wrong type, if any: the settings set
      before it stay set and nothing after it runs. */
  function RestoreSettings(cur: Settings, m: map<string, PrefValue>): (Settings, Option<string>) {
    if Present(m, "isDarkMode") && !m["isDarkMode"].BoolValue? then (cur, Some("isDarkMode"))
    else RestoreFromScroll(if Present(m, "isDarkMode") then cur.(darkMode := m["isDarkMode"].b) else cur, m)
  }

  /** The rest of the restore, from `markAsReadOnScroll` on. */
  function RestoreFromScroll(cur: Settings, m: map<string, PrefValue>): (Settings, Option<string>) {
    if Present(m, "markAsReadOnScroll") && !m["markAsReadOnScroll"].BoolValue? then (cur, Some("markAsReadOnScroll"))
    else RestoreFromApiKey(if Present(m, "markAsReadOnScroll") then cur.(markOnScroll := m["markAsReadOnScroll"].b) else cur, m)
  }

  /** The rest of the restore, from `geminiApiKey` on. */
  function RestoreFromApiKey(cur: Settings, m: map<string, PrefValue>): (Settings, Option<string>) {
    if Present(m, "geminiApiKey") && !m["geminiApiKey"].TextValue? then (cur, Some("geminiApiKey"))
    else RestoreFromLanguage(if Present(m, "geminiApiKey") then cur.(apiKey := m["geminiApiKey"].s) else cur, m)
  }

  /** The rest of the restore, from `language` on; `syncInterval` cannot fail. */
  function RestoreFromLanguage(cur: Settings, m: map<string, PrefValue>): (Settings, Option<string>) {
    if Present(m, "language") && !m["language"].TextValue? then (cur, Some("language"))
    else
      (RestoreInterval(if Present(m, "language") then cur.(language := m["language"].s) else cur, m), None)
  }

  /** The last step of the restore. */
  function RestoreInterval(cur: Settings, m: map<string, PrefValue>): Settings {
    if Present(m, "syncInterval") then cur.(syncInterval := IntervalOf(m["syncInterval"])) else cur
  }

  /** Restoring what was exported gives the exported settings back. */
  lemma SettingsRoundTrip(cur: Settings, s: Settings)
    ensures RestoreSettings(cur, PrefsMap(s)) == (s, None)
  {
  }

  /** A setting missing from the backup keeps its current value, and
      `syncInterval` becomes the number given or 1 for any other value. */
  lemma RestoreSettingsMissing(cur: Settings, m: map<string, PrefValue>)
    requires RestoreSettings(cur, m).1.None?
    ensures var s := RestoreSettings(cur, m).0;
      && (!Present(m, "isDarkMode") ==> s.darkMode == cur.darkMode)
      && (!Present(m, "markAsReadOnScroll") ==> s.markOnScroll == cur.markOnScroll)
      && (!Present(m, "geminiApiKey") ==> s.apiKey == cur.apiKey)
      && (!Present(m, "language") ==> s.language == cur.language)
      && (!Present(m, "syncInterval") ==> s.syncInterval == cur.syncInterval)
      && (Present(m, "syncInterval") && m["syncInterval"].NumberValue? ==> s.syncInterval == m["syncInterval"].whole)
      && (Present(m, "syncInterval") && !m["syncInterval"].NumberValue? ==> s.syncInterval == 1)
  {
  }

  // ---------------------------------------------------------------------------
  // The tables

  /** What a restore did to the tables, and the error that stopped it. */
  datatype Outcome = Outcome(tables: FeedStore.Tables, error: Option<FeedStore.DbError>)

  function InsertFolders(t: FeedStore.Tables, fs: seq<string>): FeedStore.Tables
    decreases |fs|
  {
    if |fs| == 0 then t else InsertFolders(FeedStore.InsertFolder(t, fs[0]), fs[1..])
  }

  /** One insert per source, stopping at the first that fails. */
  function UpsertSources(t: FeedStore.Tables, ss: seq<Source>): Outcome
    decreases |ss|
  {
    if |ss| == 0 then Outcome(t, None)
    else match FeedStore.UpsertSource(t, ss[0])
      case Err(e) => Outcome(t, Some(e))
      case Ok(t1) => UpsertSources(t1, ss[1..])
  }

  /** Folders, then sources, then (when there are any) the saved articles. */
  function RestoreTables(t: FeedStore.Tables, data: BackupData): Outcome {
    var t1 := InsertFolders(t, data.folders);
    var o := UpsertSources(t1, data.sources);
    if o.error.Some? || |data.savedArticles| == 0 then o
    else match FeedStore.InsertArticles(o.tables, data.savedArticles)
      case Ok(t3) => Outcome(t3, None)
      case Err(e) => Outcome(o.tables, Some(e))
  }

  lemma {:induction false} InsertFoldersEffect(t: FeedStore.Tables, fs: seq<string>)
    ensures var t' := InsertFolders(t, fs);
      t'.folders == t.folders + (set f | f in fs) && t'.sources == t.sources && t'.articles == t.articles
    decreases |fs|
  {
    if |fs| > 0 {
      InsertFoldersEffect(FeedStore.InsertFolder(t, fs[0]), fs[1..]);
      assert (set f | f in fs) == {fs[0]} + (set f | f in fs[1..]);
    }
  }

  /** The urls of a list of sources. */
  function Urls(ss: seq<Source>): set<string> {
    set s | s in ss :: s.url
  }

  /** Sources whose folders all exist are all stored, each overwriting the row
      of its url; nothing else changes. */
  lemma {:induction false} UpsertSourcesEffect(t: FeedStore.Tables, ss: seq<Source>)
    requires forall s :: s in ss ==> FeedStore.FolderExists(t, s.folderName)
    requires forall i, j :: 0 <= i < j < |ss| ==> ss[i].url != ss[j].url
    ensures var o := UpsertSources(t, ss);
      && o.error.None?
      && (forall s :: s in ss ==> s.url in o.tables.sources && o.tables.sources[s.url] == s)
      && o.tables.sources.Keys == t.sources.Keys + Urls(ss)
      && (forall u :: u in t.sources && u !in Urls(ss) ==> o.tables.sources[u] == t.sources[u])
      && o.tables.folders == t.folders && o.tables.articles == t.articles
    decreases |ss|
  {
    if |ss| > 0 {
      FeedStore.UpsertSourceEffect(t, ss[0]);
      var t1 := FeedStore.UpsertSource(t, ss[0]).value;
      SourcesTail(ss);
      UpsertSourcesEffect(t1, ss[1..]);
    }
  }

  /** What the first source and the others name, apart. */
  lemma SourcesTail(ss: seq<Source>)
    requires |ss| > 0
    requires forall i, j :: 0 <= i < j < |ss| ==> ss[i].url != ss[j].url
    ensures var rest := ss[1..];
      && (forall i, j :: 0 <= i < j < |rest| ==> rest[i].url != rest[j].url)
      && (forall s :: s in ss <==> s == ss[0] || s in rest)
      && Urls(ss) == {ss[0].url} + Urls(rest)
      && ss[0].url !in Urls(rest)
  {
    var rest := ss[1..];
    assert forall s :: s in ss <==> s == ss[0] || s in rest;
    forall i, j | 0 <= i < j < |rest| ensures rest[i].url != rest[j].url {
      assert rest[i] == ss[i + 1] && rest[j] == ss[j + 1];
    }
    forall s | s in rest ensures s.url != ss[0].url {
      var j :| 0 <= j < |rest| && rest[j] == s;
      assert ss[j + 1] == s;
    }
  }

  /** The saved rows of a table, keyed by link. */
  function SavedRows(arts: map<string, Article>): map<string, Article> {
    map l | l in arts && arts[l].isSaved :: arts[l]
  }

  /** A batch with distinct links, all of known sources, inserted into an empty
      article table is stored exactly, keyed by link. */
  lemma InsertIntoEmpty(sources: map<string, Source>, batch: seq<Article>)
    requires forall i :: 0 <= i < |batch| ==> batch[i].sourceUrl in sources
    requires forall i, j :: 0 <= i < j < |batch| ==> batch[i].link != batch[j].link
    ensures FeedStore.InsertArticleRows(sources, map[], batch).Ok?
    ensures var r := FeedStore.InsertArticleRows(sources, map[], batch).value;
      r.Keys == (set i | 0 <= i < |batch| :: batch[i].link)
      && forall i :: 0 <= i < |batch| ==> r[batch[i].link] == batch[i]
  {
    FeedStore.InsertArticleRowsFails(sources, map[], batch);
    FeedStore.InsertArticleRowsKeeps(sources, map[], batch);
    FeedStore.InsertArticleRowsSources(sources, map[], batch);
    var r := FeedStore.InsertArticleRows(sources, map[], batch).value;
    forall i | 0 <= i < |batch| ensures r[batch[i].link] == batch[i] {
      var l := batch[i].link;
      var j :| 0 <= j < |batch| && batch[j] == r[l];
      assert batch[j].link == l;
    }
    forall l | l in r ensures l in (set i | 0 <= i < |batch| :: batch[i].link) {
      var j :| 0 <= j < |batch| && batch[j] == r[l];
    }
  }

  /** Folders and sources restored into an empty store are the exported ones. */
  lemma RestoreStructure(t: FeedStore.Tables, data: BackupData)
    requires FeedStore.Consistent(t)
    requires forall f :: f in data.folders <==> f in t.folders
    requires forall i, j :: 0 <= i < j < |data.sources| ==> data.sources[i].url != data.sources[j].url
    requires forall s :: s in data.sources <==> s.url in t.sources && t.sources[s.url] == s
    ensures UpsertSources(InsertFolders(FeedStore.Empty, data.folders), data.sources) == Outcome(FeedStore.Tables(t.folders, t.sources, map[]), None)
  {
    var t1 := InsertFolders(FeedStore.Empty, data.folders);
    assert t1 == FeedStore.Tables(t.folders, map[], map[]) by {
      InsertFoldersEffect(FeedStore.Empty, data.folders);
    }
    forall s | s in data.sources ensures FeedStore.FolderExists(t1, s.folderName) {
      assert s.url in t.sources && t.sources[s.url] == s;
    }
    UpsertSourcesEffect(t1, data.sources);
    var o := UpsertSources(t1, data.sources);
    assert o.tables.sources == t.sources by {
      forall u | u in t.sources ensures u in o.tables.sources && o.tables.sources[u] == t.sources[u] {
        assert t.sources[u] in data.sources;
      }
      forall u | u in o.tables.sources ensures u in t.sources {
        var src :| src in data.sources && src.url == u;
      }
    }
  }

  /** The saved articles, inserted into an empty article table, are the saved
      rows of the exported store. */
  lemma RestoreSaved(t: FeedStore.Tables, batch: seq<Article>)
    requires FeedStore.Consistent(t)
    requires FeedStore.DistinctLinks(batch)
    requires forall a :: a in batch <==> FeedStore.Selected(t, FeedStore.Saved, a)
    ensures FeedStore.InsertArticleRows(t.sources, map[], batch) == Ok(SavedRows(t.articles))
  {
    forall i | 0 <= i < |batch| ensures batch[i].sourceUrl in t.sources {
      assert batch[i] in batch;
    }
    InsertIntoEmpty(t.sources, batch);
    var r := FeedStore.InsertArticleRows(t.sources, map[], batch).value;
    forall l | l in SavedRows(t.articles) ensures l in r && r[l] == t.articles[l] {
      assert FeedStore.Selected(t, FeedStore.Saved, t.articles[l]);
      var i :| 0 <= i < |batch| && batch[i] == t.articles[l];
    }
    forall l | l in r ensures l in SavedRows(t.articles) {
      var i :| 0 <= i < |batch| && batch[i].link == l;
      assert batch[i] in batch;
    }
    assert r.Keys == SavedRows(t.articles).Keys;
    assert r == SavedRows(t.articles);
  }

  /** The export of a consistent store, restored into an empty one, gives back
      every folder, every source and every saved article, and no error: each
      source's folder is restored before it and each article's source too. */
  lemma RestoreRoundTrip(t: FeedStore.Tables, data: BackupData)
    requires FeedStore.Consistent(t)
    requires forall f :: f in data.folders <==> f in t.folders
    requires forall i, j :: 0 <= i < j < |data.sources| ==> data.sources[i].url != data.sources[j].url
    requires forall s :: s in data.sources <==> s.url in t.sources && t.sources[s.url] == s
    requires FeedStore.DistinctLinks(data.savedArticles)
    requires forall a :: a in data.savedArticles <==> FeedStore.Selected(t, FeedStore.Saved, a)
    ensures RestoreTables(FeedStore.Empty, data) == Outcome(FeedStore.Tables(t.folders, t.sources, SavedRows(t.articles)), None)
  {
    RestoreStructure(t, data);
    RestoreSaved(t, data.savedArticles);
  }

  /** Restoring the sources, successful or not, leaves the folders and the
      articles as they were. */
  lemma {:induction false} UpsertSourcesKeeps(t: FeedStore.Tables, ss: seq<Source>)
    ensures UpsertSources(t, ss).tables.articles == t.articles
    ensures UpsertSources(t, ss).tables.folders == t.folders
    decreases |ss|
  {
    if |ss| > 0 && FeedStore.UpsertSource(t, ss[0]).Ok? {
      UpsertSourcesKeeps(FeedStore.UpsertSource(t, ss[0]).value, ss[1..]);
    }
  }

  /** A restore into a store that already holds data never overwrites an
      article already there, so its read and saved flags stay as they are,
      and never removes a folder. */
  lemma RestoreKeepsStored(t: FeedStore.Tables, data: BackupData)
    ensures var o := RestoreTables(t, data);
      && t.folders <= o.tables.folders
      && forall l :: l in t.articles ==> l in o.tables.articles && o.tables.articles[l] == t.articles[l]
  {
    var t1 := InsertFolders(t, data.folders);
    InsertFoldersEffect(t, data.folders);
    UpsertSourcesKeeps(t1, data.sources);
    var o := UpsertSources(t1, data.sources);
    if o.error.None? && |data.savedArticles| > 0 && FeedStore.InsertArticleRows(o.tables.sources, o.tables.articles, data.savedArticles).Ok? {
      FeedStore.InsertArticleRowsKeeps(o.tables.sources, o.tables.articles, data.savedArticles);
    }
  }

  /** The sources of a restore as the program writes them: each row goes
      through the REPLACE statement. */
  function ReplaceSources(t: FeedStore.Tables, ss: seq<Source>): Outcome
    decreases |ss|
  {
    if |ss| == 0 then Outcome(t, None)
    else match FeedStore.InsertSourceReplace(t, ss[0])
      case Err(e) => Outcome(t, Some(e))
      case Ok(t1) => ReplaceSources(t1, ss[1..])
  }

  /** The source inserts never read the article table. */
  lemma {:induction false} UpsertSourcesIgnoresArticles(t: FeedStore.Tables, a: map<string, Article>, ss: seq<Source>)
    ensures var o := UpsertSources(t, ss);
      UpsertSources(t.(articles := a), ss) == Outcome(o.tables.(articles := a), o.error)
    decreases |ss|
  {
    if |ss| > 0 && FeedStore.UpsertSource(t, ss[0]).Ok? {
      var t1 := FeedStore.UpsertSource(t, ss[0]).value;
      assert FeedStore.UpsertSource(t.(articles := a), ss[0]) == Ok(t1.(articles := a));
      UpsertSourcesIgnoresArticles(t1, a, ss[1..]);
    }
  }

  /** Restoring the sources as written stores the same folder and source rows
      as the upsert and stops at the same error, and it never adds or changes
      an article; but it deletes every stored article of each url it restores,
      where the upsert keeps them all. */
  lemma {:induction false} ReplaceSourcesLoss(t: FeedStore.Tables, ss: seq<Source>)
    ensures var w, c := ReplaceSources(t, ss), UpsertSources(t, ss);
      && w.error == c.error && w.tables.folders == c.tables.folders && w.tables.sources == c.tables.sources
      && (forall l :: l in w.tables.articles ==> l in t.articles && w.tables.articles[l] == t.articles[l])
      && (forall l :: l in t.articles && t.articles[l].sourceUrl !in Urls(ss) ==> l in w.tables.articles)
      && (c.error.None? ==> forall l :: l in t.articles && t.articles[l].sourceUrl in Urls(ss) ==> l !in w.tables.articles)
    decreases |ss|
  {
    if |ss| > 0 {
      FeedStore.ReplaceIsUpsertThenCascade(t, ss[0]);
      if FeedStore.UpsertSource(t, ss[0]).Ok? {
        var c1 := FeedStore.UpsertSource(t, ss[0]).value;
        var w1 := FeedStore.InsertSourceReplace(t, ss[0]).value;
        var rest := ss[1..];
        assert forall s :: s in ss <==> s == ss[0] || s in rest;
        assert Urls(ss) == {ss[0].url} + Urls(rest);
        ReplaceSourcesLoss(w1, rest);
        UpsertSourcesIgnoresArticles(c1, w1.articles, rest);
        assert w1 == c1.(articles := w1.articles);
      }
    }
  }

  /** A restore as the program writes it: folders, then sources through the
      REPLACE statement, then the saved articles. */
  function RestoreTablesAsWritten(t: FeedStore.Tables, data: BackupData): Outcome {
    var t1 := InsertFolders(t, data.folders);
    var o := ReplaceSources(t1, data.sources);
    if o.error.Some? || |data.savedArticles| == 0 then o
    else match FeedStore.InsertArticles(o.tables, data.savedArticles)
      case Ok(t3) => Outcome(t3, None)
      case Err(e) => Outcome(o.tables, Some(e))
  }

  /** As written, a restore over a store that already holds one of the
      backup's sources keeps none of that source's stored articles: each
      survives only as the backup's saved row, so an unsaved article and the
      read flags the backup does not hold are lost. */
  lemma RestoreAsWrittenLoss(t: FeedStore.Tables, data: BackupData)
    ensures var o := RestoreTablesAsWritten(t, data);
      o.error.None? ==>
        forall l :: l in t.articles && t.articles[l].sourceUrl in Urls(data.sources) && l in o.tables.articles ==>
          exists i :: 0 <= i < |data.savedArticles| && data.savedArticles[i] == o.tables.articles[l]
  {
    var t1 := InsertFolders(t, data.folders);
    InsertFoldersEffect(t, data.folders);
    ReplaceSourcesLoss(t1, data.sources);
    UpsertSourcesKeeps(t1, data.sources);
    var o := ReplaceSources(t1, data.sources);
    if o.error.None? && |data.savedArticles| > 0 && FeedStore.InsertArticleRows(o.tables.sources, o.tables.articles, data.savedArticles).Ok? {
      FeedStore.InsertArticleRowsKeeps(o.tables.sources, o.tables.articles, data.savedArticles);
    }
  }

  // ---------------------------------------------------------------------------
  // The two operations

  /** `exportBackup`: the settings, every folder, every source and every saved
      article, each once, stamped with the clock. */
  method ExportBackup(dao: Dao.FeedDao, prefs: Preferences.PreferencesManager, now: int) returns (data: BackupData)
    requires dao.Valid()
    ensures data.timestamp == now && data.preferences == PrefsMap(SettingsOf(prefs))
    ensures forall f :: f in data.folders <==> f in dao.folders
    ensures forall i, j :: 0 <= i < j < |data.sources| ==> data.sources[i].url != data.sources[j].url
    ensures forall s :: s in data.sources <==> s.url in dao.sources && dao.sources[s.url] == s
    ensures FeedStore.DistinctLinks(data.savedArticles)
    ensures forall a :: a in data.savedArticles <==> FeedStore.Selected(dao.Snapshot(), FeedStore.Saved, a)
  {
    var sources := dao.GetAllSources();
    var folders := dao.GetAllFolders();
    var saved := dao.GetSavedArticlesList();
    data := BackupData(now, PrefsMap(SettingsOf(prefs)), folders, sources, saved);
  }

  /** `importBackup`. A wrong-typed preference stops the import before any
      table is touched; a rejected source stops it before the articles. */
  method ImportBackup(dao: Dao.FeedDao, prefs: Preferences.PreferencesManager, data: BackupData)
    returns (err: Option<ImportError>)
    requires dao.Valid()
    modifies dao, prefs
    ensures dao.Valid()
    ensures SettingsOf(prefs) == RestoreSettings(old(SettingsOf(prefs)), data.preferences).0
    ensures prefs.dismissed == old(prefs.dismissed)
    ensures RestoreSettings(old(SettingsOf(prefs)), data.preferences).1.Some? ==>
      err == Some(WrongType(RestoreSettings(old(SettingsOf(prefs)), data.preferences).1.value))
      && dao.Snapshot() == old(dao.Snapshot())
    ensures RestoreSettings(old(SettingsOf(prefs)), data.preferences).1.None? ==>
      var o := RestoreTables(old(dao.Snapshot()), data);
      dao.Snapshot() == o.tables && (err.None? <==> o.error.None?) && (o.error.Some? ==> err == Some(Store(o.error.value)))
  {
    var bad := RestorePreferences(prefs, data.preferences);
    if bad.Some? {
      return Some(WrongType(bad.value));
    }
    var i := 0;
    while i < |data.folders|
      modifies dao
      invariant 0 <= i <= |data.folders| && dao.Valid()
      invariant InsertFolders(dao.Snapshot(), data.folders[i..]) == InsertFolders(old(dao.Snapshot()), data.folders)
    {
      assert data.folders[i..][1..] == data.folders[i + 1..];
      dao.InsertFolder(data.folders[i]);
      i := i + 1;
    }
    assert data.folders[i..] == [];
    ghost var t1 := dao.Snapshot();
    var j := 0;
    while j < |data.sources|
      modifies dao
      invariant 0 <= j <= |data.sources| && dao.Valid()
      invariant UpsertSources(dao.Snapshot(), data.sources[j..]) == UpsertSources(t1, data.sources)
    {
      assert data.sources[j..][1..] == data.sources[j + 1..];
      var e := dao.UpsertSource(data.sources[j]);
      if e.Some? {
        return Some(Store(e.value));
      }
      j := j + 1;
    }
    assert data.sources[j..] == [];
    if |data.savedArticles| > 0 {
      var e := dao.InsertArticles(data.savedArticles);
      if e.Some? {
        return Some(Store(e.value));
      }
    }
    err := None;
  }

  /** The preference half of `importBackup`, returning the key whose cast failed. */
  method RestorePreferences(prefs: Preferences.PreferencesManager, m: map<string, PrefValue>) returns (bad: Option<string>)
    modifies prefs
    ensures (SettingsOf(prefs), bad) == RestoreSettings(old(SettingsOf(prefs)), m)
    ensures prefs.dismissed == old(prefs.dismissed)
  {
    if Present(m, "isDarkMode") {
      if !m["isDarkMode"].BoolValue? {
        return Some("isDarkMode");
      }
      prefs.SetDarkMode(m["isDarkMode"].b);
    }
    bad := RestoreScrollOn(prefs, m);
  }

  /** `markAsReadOnScroll` and the keys after it. */
  method RestoreScrollOn(prefs: Preferences.PreferencesManager, m: map<string, PrefValue>) returns (bad: Option<string>)
    modifies prefs
    ensures (SettingsOf(prefs), bad) == RestoreFromScroll(old(SettingsOf(prefs)), m)
    ensures prefs.dismissed == old(prefs.dismissed)
  {
    if Present(m, "markAsReadOnScroll") {
      if !m["markAsReadOnScroll"].BoolValue? {
        return Some("markAsReadOnScroll");
      }
      prefs.SetMarkAsReadOnScroll(m["markAsReadOnScroll"].b);
    }
    bad := RestoreApiKeyOn(prefs, m);
  }

  /** `geminiApiKey` and the keys after it. */
  method RestoreApiKeyOn(prefs: Preferences.PreferencesManager, m: map<string, PrefValue>) returns (bad: Option<string>)
    modifies prefs
    ensures (SettingsOf(prefs), bad) == RestoreFromApiKey(old(SettingsOf(prefs)), m)
    ensures prefs.dismissed == old(prefs.dismissed)
  {
    if Present(m, "geminiApiKey") {
      if !m["geminiApiKey"].TextValue? {
        return Some("geminiApiKey");
      }
      prefs.SetGeminiApiKey(m["geminiApiKey"].s);
    }
    bad := RestoreLanguageOn(prefs, m);
  }

  /** `language`, then `syncInterval`. */
  method RestoreLanguageOn(prefs: Preferences.PreferencesManager, m: map<string, PrefValue>) returns (bad: Option<string>)
    modifies prefs
    ensures (SettingsOf(prefs), bad) == RestoreFromLanguage(old(SettingsOf(prefs)), m)
    ensures prefs.dismissed == old(prefs.dismissed)
  {
    if Present(m, "language") {
      if !m["language"].TextValue? {
        return Some("language");
      }
      prefs.SetLanguage(m["language"].s);
    }
    if Present(m, "syncInterval") {
      prefs.SetSyncInterval(IntervalOf(m["syncInterval"]));
    }
    bad := None;
  }
}
