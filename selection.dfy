/** The article list a main screen shows is chosen by a selector string:
    `"saved"`, no selector (every article), `"folder:<name>"` or a source url.
    All three generations of the main view model read and repair the
    selector the same way. */
module Selection {
  import opened Wrappers
  import opened Strings
  import FeedStore

  const FolderPrefix := "folder:"

  /** What a selector stands for. */
  datatype View = SavedView | AllView | FolderView(name: string) | SourceView(url: string)

  /** The `when` on the selector: `"saved"` first, then no selector, then a
      `folder:` prefix (removed to give the folder name), else a source url. */
  function ViewOf(selector: Option<string>): (v: View)
    ensures v.SourceView? ==> selector == Some(v.url) && v.url != "saved" && !StartsWith(v.url, FolderPrefix)
    ensures v.FolderView? ==> selector == Some(FolderPrefix + v.name)
    ensures v == SavedView <==> selector == Some("saved")
    ensures v == AllView <==> selector.None?
  {
    match selector
    case None => AllView
    case Some(s) =>
      if s == "saved" then SavedView
      else if StartsWith(s, FolderPrefix) then
        assert s == FolderPrefix + s[|FolderPrefix|..];
        FolderView(s[|FolderPrefix|..])
      else SourceView(s)
  }

  /** The selector each `select*` call stores for a view. */
  function SelectorOf(v: View): Option<string> {
    match v
    case SavedView => Some("saved")
    case AllView => None
    case FolderView(n) => Some(FolderPrefix + n)
    case SourceView(u) => Some(u)
  }

  /** Reading a selector and writing its view back gives the same selector. */
  lemma SelectorRoundTrip(selector: Option<string>)
    ensures SelectorOf(ViewOf(selector)) == selector
  {
  }

  /** Writing a view and reading it back gives the same view, except for a
      source whose url is itself `"saved"` or starts with `folder:`, which is
      read as the saved list or as a folder. */
  lemma ViewRoundTrip(v: View)
    ensures ViewOf(SelectorOf(v)) == v <==>
      !(v.SourceView? && (v.url == "saved" || StartsWith(v.url, FolderPrefix)))
  {
    if v.FolderView? {
      var s := FolderPrefix + v.name;
      assert s[..|FolderPrefix|] == FolderPrefix && s[|FolderPrefix|..] == v.name;
    }
  }

  /** The query each view reads: the saved articles, every article, a
      folder's articles (through its sources) or one source's. */
  function ScopeOf(v: View): (sc: FeedStore.Scope)
    ensures v.SavedView? <==> sc.Saved?
    ensures v.FolderView? ==> sc == FeedStore.OfFolder(v.name)
    ensures v.SourceView? ==> sc == FeedStore.OfSource(v.url)
  {
    match v
    case SavedView => FeedStore.Saved
    case AllView => FeedStore.AllArticles
    case FolderView(n) => FeedStore.OfFolder(n)
    case SourceView(u) => FeedStore.OfSource(u)
  }

  /** `markAllAsRead`: nothing in the saved view, else the view's own scope. */
  function MarkAllScope(selector: Option<string>): (sc: Option<FeedStore.Scope>)
    ensures sc.None? <==> selector == Some("saved")
    ensures sc.Some? ==> sc.value == ScopeOf(ViewOf(selector)) && !sc.value.Saved?
  {
    var v := ViewOf(selector);
    if v.SavedView? then None else Some(ScopeOf(v))
  }

  // ---------------------------------------------------------------------------
  // Keeping the selector valid when sources and folders change

  /** After deleting the source `url`: a selector naming it falls back to
      every article. */
  function AfterSourceDeleted(selector: Option<string>, url: string): Option<string> {
    if selector == Some(url) then None else selector
  }

  /** After deleting the folder `name`. */
  function AfterFolderDeleted(selector: Option<string>, name: string): Option<string> {
    if selector == Some(FolderPrefix + name) then None else selector
  }

  /** After renaming the folder `oldName` to `newName`. */
  function AfterFolderRenamed(selector: Option<string>, oldName: string, newName: string): Option<string> {
    if selector == Some(FolderPrefix + oldName) then Some(FolderPrefix + newName) else selector
  }

  /** The repaired selector never names the deleted source or folder, a
      selected folder follows its rename, and any other selector is kept. */
  lemma RepairEffect(selector: Option<string>, url: string, name: string, oldName: string, newName: string)
    ensures AfterSourceDeleted(selector, url) != Some(url)
    ensures selector != Some(url) ==> AfterSourceDeleted(selector, url) == selector
    ensures ViewOf(AfterFolderDeleted(selector, name)) != FolderView(name)
    ensures ViewOf(selector) != FolderView(name) ==> AfterFolderDeleted(selector, name) == selector
    ensures ViewOf(selector) == FolderView(oldName) ==> ViewOf(AfterFolderRenamed(selector, oldName, newName)) == FolderView(newName)
    ensures ViewOf(selector) != FolderView(oldName) ==> AfterFolderRenamed(selector, oldName, newName) == selector
  {
    ViewRoundTrip(FolderView(newName));
    ViewRoundTrip(FolderView(name));
    ViewRoundTrip(FolderView(oldName));
  }
}
