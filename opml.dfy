/** OPML import and export (OPML 2.0, "Subscription lists"): subscriptions are
    `outline` elements carrying `xmlUrl`, optionally inside one level of
    folder outlines. */
module Opml {
  import opened Wrappers
  import opened Xml
  import opened Entities
  import opened Lists

  datatype OpmlSource = OpmlSource(title: string, xmlUrl: string, htmlUrl: Option<string>)

  /** One top-level entry of an imported list. */
  datatype OpmlItem =
    | FolderItem(title: string, children: seq<OpmlSource>)
    | SourceItem(source: OpmlSource)

  // ---------------------------------------------------------------------------
  // Import over the element tree

  /** The outline's title: the `title` attribute, else `text`, else "". */
  function OutlineTitle(attrs: seq<Attr>): string {
    AttributeValue(attrs, "title").GetOr(AttributeValue(attrs, "text").GetOr(""))
  }

  /** `readOutline`: with `xmlUrl` a subscription (children ignored), without
      it a folder of the subscriptions among its direct outline children. */
  function OutlineOf(n: Node): OpmlItem
    requires n.Element?
    decreases n, 1
  {
    match AttributeValue(n.attrs, "xmlUrl")
    case Some(u) => SourceItem(OpmlSource(OutlineTitle(n.attrs), u, AttributeValue(n.attrs, "htmlUrl")))
    case None => FolderItem(OutlineTitle(n.attrs), FolderChildren(n.children))
  }

  /** The subscriptions read from the children of a folder outline; nested
      folders are read and dropped. */
  function FolderChildren(cs: seq<Node>): seq<OpmlSource>
    decreases cs, 0
  {
    if |cs| == 0 then []
    else if cs[0].Element? && cs[0].name == "outline" && OutlineOf(cs[0]).SourceItem? then
      [OutlineOf(cs[0]).source] + FolderChildren(cs[1..])
    else FolderChildren(cs[1..])
  }

  /** `readBody`: one item per `outline` child. */
  function BodyItems(cs: seq<Node>): seq<OpmlItem> {
    if |cs| == 0 then []
    else if cs[0].Element? && cs[0].name == "outline" then [OutlineOf(cs[0])] + BodyItems(cs[1..])
    else BodyItems(cs[1..])
  }

  /** The children of `opml`: the items of every `body`, in order. */
  function OpmlChildren(cs: seq<Node>): seq<OpmlItem> {
    if |cs| == 0 then []
    else if cs[0].Element? && cs[0].name == "body" then BodyItems(cs[0].children) + OpmlChildren(cs[1..])
    else OpmlChildren(cs[1..])
  }

  /** `readOpml` on the root element; a root other than `opml` throws. */
  function OpmlOf(root: Node): Result<seq<OpmlItem>, XmlError>
    requires root.Element?
  {
    if root.name == "opml" then Ok(OpmlChildren(root.children)) else Err(WrongRoot)
  }

  /** A folder keeps exactly the subscriptions among its direct outline
      children, in order: each comes from such a child, and every such child
      that carries `xmlUrl` is kept. */
  lemma {:induction false} FolderChildrenDirect(cs: seq<Node>)
    ensures forall s :: s in FolderChildren(cs) ==>
                 exists i :: 0 <= i < |cs| && cs[i].Element? && cs[i].name == "outline" && OutlineOf(cs[i]) == SourceItem(s)
    ensures forall i ::
              (0 <= i < |cs| && cs[i].Element? && cs[i].name == "outline" && AttributeValue(cs[i].attrs, "xmlUrl").Some?)
              ==> OutlineOf(cs[i]).source in FolderChildren(cs)
  {
    if |cs| > 0 {
      FolderChildrenDirect(cs[1..]);
      forall s | s in FolderChildren(cs)
        ensures exists i :: 0 <= i < |cs| && cs[i].Element? && cs[i].name == "outline" && OutlineOf(cs[i]) == SourceItem(s)
      {
        if s in FolderChildren(cs[1..]) {
          var i :| 0 <= i < |cs[1..]| && cs[1..][i].Element? && cs[1..][i].name == "outline" && OutlineOf(cs[1..][i]) == SourceItem(s);
          assert cs[i + 1] == cs[1..][i];
        }
      }
      forall i | 0 <= i < |cs| && cs[i].Element? && cs[i].name == "outline" && AttributeValue(cs[i].attrs, "xmlUrl").Some?
        ensures OutlineOf(cs[i]).source in FolderChildren(cs)
      {
        if i > 0 {
          assert cs[1..][i - 1] == cs[i];
        }
      }
    }
  }

  // ---------------------------------------------------------------------------
  // Import over the event stream

  lemma FolderChildrenStep(cs: seq<Node>, k: int)
    requires 0 <= k < |cs|
    ensures FolderChildren(cs[k..]) ==
      if cs[k].Element? && cs[k].name == "outline" && OutlineOf(cs[k]).SourceItem?
      then [OutlineOf(cs[k]).source] + FolderChildren(cs[k + 1..])
      else FolderChildren(cs[k + 1..])
  {
    assert cs[k..][0] == cs[k] && cs[k..][1..] == cs[k + 1..];
  }

  lemma BodyItemsStep(cs: seq<Node>, k: int)
    requires 0 <= k < |cs|
    ensures BodyItems(cs[k..]) ==
      if cs[k].Element? && cs[k].name == "outline" then [OutlineOf(cs[k])] + BodyItems(cs[k + 1..]) else BodyItems(cs[k + 1..])
  {
    assert cs[k..][0] == cs[k] && cs[k..][1..] == cs[k + 1..];
  }

  lemma OpmlChildrenStep(cs: seq<Node>, k: int)
    requires 0 <= k < |cs|
    ensures OpmlChildren(cs[k..]) ==
      if cs[k].Element? && cs[k].name == "body" then BodyItems(cs[k].children) + OpmlChildren(cs[k + 1..]) else OpmlChildren(cs[k + 1..])
  {
    assert cs[k..][0] == cs[k] && cs[k..][1..] == cs[k + 1..];
  }

  /** `readOutline`, from the START_TAG of an `outline`; the result index is
      its END_TAG. */
  method ReadOutline(ev: seq<Event>, p: nat, ghost n: Node) returns (item: OpmlItem, q: nat)
    requires n.Element? && At(ev, p, Ser(n))
    ensures item == OutlineOf(n)
    ensures q == p + |Ser(n)| - 1
    decreases n
  {
    AtElement(ev, p, n);
    var attrs := ev[p].attrs;
    var title := OutlineTitle(attrs);
    var xmlUrl := AttributeValue(attrs, "xmlUrl");
    var htmlUrl := AttributeValue(attrs, "htmlUrl");
    if xmlUrl.Some? {
      var s := Skip(ev, p, n);
      return SourceItem(OpmlSource(title, xmlUrl.value, htmlUrl)), s.value;
    }
    ghost var cs := n.children;
    var children: seq<OpmlSource> := [];
    q := p + 1;
    ghost var k := 0;
    assert cs[k..] == cs;
    AtChildren(ev, q, cs, k, n.name);
    while !ev[q].EndTag?
      invariant 0 <= k <= |cs| && p < q
      invariant At(ev, q, SerAll(cs[k..]) + [EndTag(n.name)])
      invariant ev[q].EndTag? <==> k == |cs|
      invariant q + |SerAll(cs[k..])| == p + 1 + |SerAll(cs)|
      invariant children + FolderChildren(cs[k..]) == FolderChildren(cs)
      decreases |cs| - k
    {
      ghost var c, q0 := cs[k], q;
      NextChild(ev, q, cs, k, n.name);
      FolderChildrenStep(cs, k);
      if ev[q].StartTag? {
        if ev[q].name == "outline" {
          var child, q' := ReadOutline(ev, q, c);
          if child.SourceItem? {
            Assoc(children, [child.source], FolderChildren(cs[k + 1..]));
            children := children + [child.source];
          }
          q := q';
        } else {
          var s := Skip(ev, q, c);
          q := s.value;
        }
      }
      q := q + 1;
      ChildDone(ev, q0, q, cs, k, n.name);
      k := k + 1;
    }
    assert cs[k..] == [];
    assert Ser(n) == [StartTag(n.name, n.attrs)] + SerAll(cs) + [EndTag(n.name)];
    item := FolderItem(title, children);
  }

  /** `readBody`, from the START_TAG of `body`. */
  method ReadBody(ev: seq<Event>, p: nat, ghost n: Node) returns (items: seq<OpmlItem>, q: nat)
    requires n.Element? && At(ev, p, Ser(n))
    ensures items == BodyItems(n.children)
    ensures q == p + |Ser(n)| - 1
  {
    ghost var cs := n.children;
    items := [];
    AtElement(ev, p, n);
    q := p + 1;
    ghost var k := 0;
    assert cs[k..] == cs;
    AtChildren(ev, q, cs, k, n.name);
    while !ev[q].EndTag?
      invariant 0 <= k <= |cs| && p < q
      invariant At(ev, q, SerAll(cs[k..]) + [EndTag(n.name)])
      invariant ev[q].EndTag? <==> k == |cs|
      invariant q + |SerAll(cs[k..])| == p + 1 + |SerAll(cs)|
      invariant items + BodyItems(cs[k..]) == BodyItems(cs)
      decreases |cs| - k
    {
      ghost var c, q0 := cs[k], q;
      NextChild(ev, q, cs, k, n.name);
      BodyItemsStep(cs, k);
      if ev[q].StartTag? {
        if ev[q].name == "outline" {
          var item, q' := ReadOutline(ev, q, c);
          Assoc(items, [item], BodyItems(cs[k + 1..]));
          items := items + [item];
          q := q';
        } else {
          var s := Skip(ev, q, c);
          q := s.value;
        }
      }
      q := q + 1;
      ChildDone(ev, q0, q, cs, k, n.name);
      k := k + 1;
    }
    assert cs[k..] == [];
    assert Ser(n) == [StartTag(n.name, n.attrs)] + SerAll(cs) + [EndTag(n.name)];
  }

  /** `readOpml` over the events of a whole document whose root is `root`. */
  method ReadOpml(ev: seq<Event>, ghost root: Node) returns (r: Result<seq<OpmlItem>, XmlError>)
    requires root.Element? && ev == Ser(root)
    ensures r == OpmlOf(root)
  {
    assert At(ev, 0, Ser(root));
    AtElement(ev, 0, root);
    if ev[0].name != "opml" {
      assert OpmlOf(root) == Err(WrongRoot);
      return Err(WrongRoot);
    }
    ghost var cs := root.children;
    var items: seq<OpmlItem> := [];
    var q := 1;
    ghost var k := 0;
    assert cs[k..] == cs;
    AtChildren(ev, q, cs, k, root.name);
    while !ev[q].EndTag?
      invariant 0 <= k <= |cs| && 0 < q
      invariant At(ev, q, SerAll(cs[k..]) + [EndTag(root.name)])
      invariant ev[q].EndTag? <==> k == |cs|
      invariant items + OpmlChildren(cs[k..]) == OpmlChildren(cs)
      decreases |cs| - k
    {
      ghost var c, q0 := cs[k], q;
      NextChild(ev, q, cs, k, root.name);
      OpmlChildrenStep(cs, k);
      if ev[q].StartTag? {
        if ev[q].name == "body" {
          var body, q' := ReadBody(ev, q, c);
          Assoc(items, body, OpmlChildren(cs[k + 1..]));
          items := items + body;
          q := q';
        } else {
          var s := Skip(ev, q, c);
          q := s.value;
        }
      }
      q := q + 1;
      ChildDone(ev, q0, q, cs, k, root.name);
      k := k + 1;
    }
    assert cs[k..] == [];
    assert OpmlChildren(cs[k..]) == [];
    assert items == OpmlChildren(root.children);
    r := Ok(items);
  }

  // ---------------------------------------------------------------------------
  // Export

  /** The sources filed under `folder`, in list order. */
  function InFolder(sources: seq<Source>, folder: Option<string>): seq<Source> {
    if |sources| == 0 then []
    else (if sources[0].folderName == folder then [sources[0]] else []) + InFolder(sources[1..], folder)
  }

  /** The distinct folder keys, in order of first occurrence. */
  function FolderKeys(sources: seq<Source>): (r: seq<Option<string>>)
    ensures forall s :: s in sources ==> s.folderName in r
    ensures DistinctKeys(r)
  {
    if |sources| == 0 then []
    else
      var rest := FolderKeys(sources[1..]);
      var w := Without(rest, sources[0].folderName);
      var r := [sources[0].folderName] + w;
      assert sources[0].folderName !in w;
      WithoutDistinct(rest, sources[0].folderName);
      assert DistinctKeys(r) by {
        forall i, j | 0 <= i < j < |r| ensures r[i] != r[j] {
          if i > 0 {
            assert r[i] == w[i - 1] && r[j] == w[j - 1];
          } else {
            assert r[j] in w;
          }
        }
      }
      assert forall s :: s in sources ==> s.folderName in r by {
        forall s | s in sources ensures s.folderName in r {
          if s != sources[0] {
            assert s in sources[1..];
          }
        }
      }
      r
  }

  /** Every key is some source's folder. */
  lemma {:induction false} FolderKeysFromSources(sources: seq<Source>, k: Option<string>)
    requires k in FolderKeys(sources)
    ensures exists s :: s in sources && s.folderName == k
    decreases |sources|
  {
    if k != sources[0].folderName {
      FolderKeysFromSources(sources[1..], k);
      var s :| s in sources[1..] && s.folderName == k;
      assert s in sources;
    }
  }

  /** `keys` without `k`, order kept. */
  function Without(keys: seq<Option<string>>, k: Option<string>): (r: seq<Option<string>>)
    ensures forall x :: x in r <==> x in keys && x != k
  {
    if |keys| == 0 then []
    else if keys[0] == k then Without(keys[1..], k)
    else [keys[0]] + Without(keys[1..], k)
  }

  predicate DistinctKeys(keys: seq<Option<string>>) {
    forall i, j :: 0 <= i < j < |keys| ==> keys[i] != keys[j]
  }

  lemma {:induction false} WithoutDistinct(keys: seq<Option<string>>, k: Option<string>)
    requires DistinctKeys(keys)
    ensures DistinctKeys(Without(keys, k))
  {
    if |keys| > 0 {
      var rest := keys[1..];
      assert DistinctKeys(rest) by {
        forall i, j | 0 <= i < j < |rest| ensures rest[i] != rest[j] {
          assert rest[i] == keys[i + 1] && rest[j] == keys[j + 1];
        }
      }
      WithoutDistinct(rest, k);
      if keys[0] != k {
        var w := Without(rest, k);
        var r := [keys[0]] + w;
        assert keys[0] !in rest by {
          forall j | 0 <= j < |rest| ensures rest[j] != keys[0] {
            assert rest[j] == keys[j + 1];
          }
        }
        forall i, j | 0 <= i < j < |r| ensures r[i] != r[j] {
          if i > 0 {
            assert r[i] == w[i - 1] && r[j] == w[j - 1];
          } else {
            assert r[j] in w;
          }
        }
      }
    }
  }

  /** Kotlin's `groupBy { it.folderName }`, as the LinkedHashMap it builds:
      each source is appended to its key's group, a new key opening a group
      at the end. */
  function GroupBy(sources: seq<Source>): seq<(Option<string>, seq<Source>)> {
    if |sources| == 0 then []
    else AddToGroup(GroupBy(sources[..|sources| - 1]), sources[|sources| - 1])
  }

  function AddToGroup(groups: seq<(Option<string>, seq<Source>)>, s: Source): seq<(Option<string>, seq<Source>)> {
    if |groups| == 0 then [(s.folderName, [s])]
    else if groups[0].0 == s.folderName then [(groups[0].0, groups[0].1 + [s])] + groups[1..]
    else [groups[0]] + AddToGroup(groups[1..], s)
  }

  /** The groups listed by first occurrence: key `k` holds exactly the sources
      whose folder is `k`, in list order. */
  function Grouped(sources: seq<Source>): seq<(Option<string>, seq<Source>)> {
    GroupsFor(sources, FolderKeys(sources))
  }

  /** The group of each key, in key order. */
  function GroupsFor(sources: seq<Source>, keys: seq<Option<string>>): seq<(Option<string>, seq<Source>)> {
    if |keys| == 0 then [] else [(keys[0], InFolder(sources, keys[0]))] + GroupsFor(sources, keys[1..])
  }

  /** Keys of `a + [s]`: those of `a`, then `s`'s folder if it is new. */
  lemma {:induction false} FolderKeysSnoc(a: seq<Source>, s: Source)
    ensures FolderKeys(a + [s]) == if s.folderName in FolderKeys(a) then FolderKeys(a) else FolderKeys(a) + [s.folderName]
    decreases |a|
  {
    if |a| == 0 {
      assert a + [s] == [s];
      assert FolderKeys([s][1..]) == [];
    } else {
      var t, k0 := a[1..], a[0].folderName;
      assert (a + [s])[0] == a[0] && (a + [s])[1..] == t + [s];
      FolderKeysSnoc(t, s);
      ConsWithoutSnoc(FolderKeys(t), k0, s.folderName);
    }
  }

  /** The step of `FolderKeysSnoc`: a head key `k0` before the others
      without it, when `x` joins the others at the end. */
  lemma ConsWithoutSnoc(rest: seq<Option<string>>, k0: Option<string>, x: Option<string>)
    ensures var full := [k0] + Without(rest, k0);
      [k0] + Without(if x in rest then rest else rest + [x], k0) == if x in full then full else full + [x]
  {
    var w := Without(rest, k0);
    if x !in rest {
      WithoutSnoc(rest, k0, x);
      if x != k0 {
        assert x !in [k0] + w;
        assert [k0] + (w + [x]) == [k0] + w + [x];
      }
    } else if x != k0 {
      assert x in w;
      assert x in [k0] + w;
    }
  }

  lemma {:induction false} WithoutSnoc(keys: seq<Option<string>>, k: Option<string>, x: Option<string>)
    ensures Without(keys + [x], k) == if x == k then Without(keys, k) else Without(keys, k) + [x]
  {
    if |keys| == 0 {
      assert keys + [x] == [x];
      assert Without([x][1..], k) == [];
    } else {
      assert (keys + [x])[1..] == keys[1..] + [x];
      WithoutSnoc(keys[1..], k, x);
    }
  }

  lemma {:induction false} InFolderSnoc(a: seq<Source>, s: Source, k: Option<string>)
    ensures InFolder(a + [s], k) == InFolder(a, k) + (if s.folderName == k then [s] else [])
    decreases |a|
  {
    var tail := if s.folderName == k then [s] else [];
    if |a| == 0 {
      assert a + [s] == [s];
      assert InFolder([s][1..], k) == [];
      assert InFolder([s], k) == tail + [];
    } else {
      var t := a[1..];
      var h := if a[0].folderName == k then [a[0]] else [];
      assert (a + [s])[0] == a[0] && (a + [s])[1..] == t + [s];
      InFolderSnoc(t, s, k);
      assert InFolder(a + [s], k) == h + (InFolder(t, k) + tail);
      assert InFolder(a, k) == h + InFolder(t, k);
      assert h + (InFolder(t, k) + tail) == (h + InFolder(t, k)) + tail;
    }
  }

  /** Groups of keys other than `s`'s folder do not see `s`. */
  lemma {:induction false} GroupsForOther(a: seq<Source>, s: Source, keys: seq<Option<string>>)
    requires s.folderName !in keys
    ensures GroupsFor(a + [s], keys) == GroupsFor(a, keys)
  {
    if |keys| > 0 {
      InFolderSnoc(a, s, keys[0]);
      assert s.folderName !in keys[1..] by {
        assert forall x :: x in keys[1..] ==> x in keys;
      }
      GroupsForOther(a, s, keys[1..]);
      assert keys[0] != s.folderName;
      assert InFolder(a + [s], keys[0]) == InFolder(a, keys[0]);
    }
  }

  /** `AddToGroup` on the groups of distinct keys appends `s` to its key's group. */
  lemma {:induction false} AddToGroupsForOld(a: seq<Source>, s: Source, keys: seq<Option<string>>)
    requires DistinctKeys(keys)
    requires s.folderName in keys
    ensures AddToGroup(GroupsFor(a, keys), s) == GroupsFor(a + [s], keys)
  {
    var rest := keys[1..];
    InFolderSnoc(a, s, keys[0]);
    if keys[0] == s.folderName {
      assert s.folderName !in rest by {
        forall j | 0 <= j < |rest| ensures rest[j] != s.folderName {
          assert rest[j] == keys[j + 1];
        }
      }
      GroupsForOther(a, s, rest);
    } else {
      assert s.folderName in rest by {
        assert keys == [keys[0]] + rest;
      }
      assert DistinctKeys(rest) by {
        forall i, j | 0 <= i < j < |rest| ensures rest[i] != rest[j] {
          assert rest[i] == keys[i + 1] && rest[j] == keys[j + 1];
        }
      }
      AddToGroupsForOld(a, s, rest);
      var g := GroupsFor(a, keys);
      assert g == [(keys[0], InFolder(a, keys[0]))] + GroupsFor(a, rest);
      assert g[0].0 != s.folderName && g[1..] == GroupsFor(a, rest);
      assert AddToGroup(g, s) == [g[0]] + AddToGroup(g[1..], s);
      assert InFolder(a + [s], keys[0]) == InFolder(a, keys[0]);
    }
  }

  /** `AddToGroup` on the groups of keys without `s`'s folder opens a group at the end. */
  lemma {:induction false} AddToGroupsForNew(a: seq<Source>, s: Source, keys: seq<Option<string>>)
    requires s.folderName !in keys && InFolder(a, s.folderName) == []
    ensures AddToGroup(GroupsFor(a, keys), s) == GroupsFor(a + [s], keys + [s.folderName])
  {
    InFolderSnoc(a, s, s.folderName);
    if |keys| == 0 {
      assert keys + [s.folderName] == [s.folderName] && [s.folderName][1..] == [];
      assert InFolder(a + [s], s.folderName) == [s];
      assert GroupsFor(a + [s], [s.folderName]) == [(s.folderName, InFolder(a + [s], s.folderName))] + GroupsFor(a + [s], []);
    } else {
      var rest := keys[1..];
      InFolderSnoc(a, s, keys[0]);
      assert s.folderName !in rest by {
        assert keys == [keys[0]] + rest;
      }
      AddToGroupsForNew(a, s, rest);
      var g := GroupsFor(a, keys);
      assert g == [(keys[0], InFolder(a, keys[0]))] + GroupsFor(a, rest);
      assert g[0].0 != s.folderName && g[1..] == GroupsFor(a, rest);
      assert AddToGroup(g, s) == [g[0]] + AddToGroup(g[1..], s);
      assert InFolder(a + [s], keys[0]) == InFolder(a, keys[0]);
      var keys' := keys + [s.folderName];
      assert keys'[0] == keys[0] && keys'[1..] == rest + [s.folderName];
      assert GroupsFor(a + [s], keys') == [(keys[0], InFolder(a + [s], keys[0]))] + GroupsFor(a + [s], rest + [s.folderName]);
    }
  }

  lemma {:induction false} InFolderNone(a: seq<Source>, k: Option<string>)
    requires forall s :: s in a ==> s.folderName != k
    ensures InFolder(a, k) == []
  {
    if |a| > 0 {
      assert forall s :: s in a[1..] ==> s in a;
      InFolderNone(a[1..], k);
    }
  }

  /** The LinkedHashMap built by `groupBy` is the reference grouping. */
  lemma {:induction false} GroupByIsGrouped(sources: seq<Source>)
    ensures GroupBy(sources) == Grouped(sources)
    decreases |sources|
  {
    if |sources| > 0 {
      var a, s := sources[..|sources| - 1], sources[|sources| - 1];
      assert sources == a + [s];
      GroupByIsGrouped(a);
      FolderKeysSnoc(a, s);
      if s.folderName in FolderKeys(a) {
        AddToGroupsForOld(a, s, FolderKeys(a));
      } else {
        InFolderNone(a, s.folderName);
        AddToGroupsForNew(a, s, FolderKeys(a));
      }
    }
  }

  /** The outline written for one source. */
  function SourceOutline(s: Source): Node {
    Element("outline", [Attr("type", "rss"), Attr("text", s.title), Attr("title", s.title), Attr("xmlUrl", s.url)], [])
  }

  /** Each source of a folder, preceded by indentation. */
  function SourceLines(sources: seq<Source>, indent: string): seq<Node> {
    if |sources| == 0 then [] else [Text(indent), SourceOutline(sources[0])] + SourceLines(sources[1..], indent)
  }

  /** The outline written for one folder group. */
  function FolderOutline(name: string, sources: seq<Source>): Node {
    Element("outline", [Attr("text", name), Attr("title", name)], SourceLines(sources, "\n      ") + [Text("\n    ")])
  }

  /** One folder outline per non-null group, in group order. */
  function FolderLines(groups: seq<(Option<string>, seq<Source>)>): seq<Node> {
    if |groups| == 0 then []
    else if groups[0].0.Some? then [Text("\n    "), FolderOutline(groups[0].0.value, groups[0].1)] + FolderLines(groups[1..])
    else FolderLines(groups[1..])
  }

  /** The sources of the null group, or none. */
  function Orphans(groups: seq<(Option<string>, seq<Source>)>): seq<Source> {
    if |groups| == 0 then [] else if groups[0].0.None? then groups[0].1 else Orphans(groups[1..])
  }

  /** The document `generate` writes. */
  function ExportTree(sources: seq<Source>): Node {
    var groups := GroupBy(sources);
    var head := Element("head", [], [Text("\n    "), Element("title", [], [Text("Riffle Export")]), Text("\n  ")]);
    var body := Element("body", [], FolderLines(groups) + SourceLines(Orphans(groups), "\n    ") + [Text("\n  ")]);
    Element("opml", [Attr("version", "1.0")], [Text("\n  "), head, Text("\n  "), body, Text("\n")])
  }

  /** `writeSourceOutline`: type="rss", text = title = the source title, xmlUrl = the url. */
  method WriteSourceOutline(out: seq<Event>, s: Source) returns (out': seq<Event>)
    ensures out' == out + Ser(SourceOutline(s))
  {
    out' := out + [StartTag("outline", [Attr("type", "rss"), Attr("text", s.title), Attr("title", s.title), Attr("xmlUrl", s.url)])];
    out' := out' + [EndTag("outline")];
    assert SerAll([]) == [];
  }

  lemma SerPair(a: Node, b: Node)
    ensures SerAll([a, b]) == Ser(a) + Ser(b)
  {
    assert [a, b][1..] == [b];
    assert [b][1..] == [];
    assert SerAll([b]) == Ser(b) + SerAll([]);
    assert SerAll([a, b]) == Ser(a) + SerAll([b]);
  }

  lemma SerAllAppend(a: seq<Node>, b: seq<Node>)
    ensures SerAll(a + b) == SerAll(a) + SerAll(b)
  {
    if |a| == 0 {
      assert a + b == b;
    } else {
      assert (a + b)[1..] == a[1..] + b;
      SerAllAppend(a[1..], b);
    }
  }

  lemma SourceLinesSnoc(sources: seq<Source>, k: int, indent: string)
    requires 0 <= k < |sources|
    ensures SourceLines(sources[..k + 1], indent) == SourceLines(sources[..k], indent) + [Text(indent), SourceOutline(sources[k])]
  {
    if k > 0 {
      assert sources[..k + 1][1..] == sources[1..][..k];
      assert sources[..k][1..] == sources[1..][..k - 1];
      SourceLinesSnoc(sources[1..], k - 1, indent);
    }
  }

  /** Writes each source of a list as an indented outline. */
  method WriteSources(out: seq<Event>, sources: seq<Source>, indent: string) returns (out': seq<Event>)
    ensures out' == out + SerAll(SourceLines(sources, indent))
  {
    out' := out;
    var i := 0;
    while i < |sources|
      invariant 0 <= i <= |sources|
      invariant out' == out + SerAll(SourceLines(sources[..i], indent))
    {
      out' := out' + [TextEvent(indent)];
      out' := WriteSourceOutline(out', sources[i]);
      SourceLinesSnoc(sources, i, indent);
      SerPair(Text(indent), SourceOutline(sources[i]));
      SerAllAppend(SourceLines(sources[..i], indent), [Text(indent), SourceOutline(sources[i])]);
      i := i + 1;
    }
    assert sources[..i] == sources;
  }

  lemma FolderLinesSnoc(groups: seq<(Option<string>, seq<Source>)>, k: int)
    requires 0 <= k < |groups|
    ensures FolderLines(groups[..k + 1]) == FolderLines(groups[..k])
      + (if groups[k].0.Some? then [Text("\n    "), FolderOutline(groups[k].0.value, groups[k].1)] else [])
  {
    if k > 0 {
      assert groups[..k + 1][1..] == groups[1..][..k];
      assert groups[..k][1..] == groups[1..][..k - 1];
      FolderLinesSnoc(groups[1..], k - 1);
    }
  }

  /** Writes one folder group as an indented folder outline. */
  method WriteFolder(out: seq<Event>, name: string, sources: seq<Source>) returns (out': seq<Event>)
    ensures out' == out + SerAll([Text("\n    "), FolderOutline(name, sources)])
  {
    out' := out + [TextEvent("\n    "), StartTag("outline", [Attr("text", name), Attr("title", name)])];
    out' := WriteSources(out', sources, "\n      ");
    out' := out' + [TextEvent("\n    "), EndTag("outline")];
    ghost var lines := SourceLines(sources, "\n      ");
    SerAllAppend(lines, [Text("\n    ")]);
    assert SerAll([Text("\n    ")]) == [TextEvent("\n    ")];
    SerPair(Text("\n    "), FolderOutline(name, sources));
  }

  lemma SerAllCons(n: Node, ns: seq<Node>)
    ensures SerAll([n] + ns) == Ser(n) + SerAll(ns)
  {
    assert ([n] + ns)[1..] == ns;
  }

  lemma HeadEvents()
    ensures Ser(Element("head", [], [Text("\n    "), Element("title", [], [Text("Riffle Export")]), Text("\n  ")]))
      == [StartTag("head", []), TextEvent("\n    "), StartTag("title", []), TextEvent("Riffle Export"), EndTag("title"),
          TextEvent("\n  "), EndTag("head")]
  {
    var title := Element("title", [], [Text("Riffle Export")]);
    SerAllCons(Text("Riffle Export"), []);
    SerAllCons(Text("\n  "), []);
    SerAllCons(title, [Text("\n  ")]);
    SerAllCons(Text("\n    "), [title, Text("\n  ")]);
  }

  lemma BodyEvents(folders: seq<Node>, orphans: seq<Node>)
    ensures Ser(Element("body", [], folders + orphans + [Text("\n  ")]))
      == [StartTag("body", [])] + SerAll(folders) + SerAll(orphans) + [TextEvent("\n  "), EndTag("body")]
  {
    SerAllAppend(folders, orphans);
    SerAllAppend(folders + orphans, [Text("\n  ")]);
    SerAllCons(Text("\n  "), []);
  }

  /** The events before the first folder, and after the last unfiled source. */
  const ExportPrefix: seq<Event> :=
    [StartTag("opml", [Attr("version", "1.0")]), TextEvent("\n  "),
     StartTag("head", []), TextEvent("\n    "),
     StartTag("title", []), TextEvent("Riffle Export"), EndTag("title"),
     TextEvent("\n  "), EndTag("head"),
     TextEvent("\n  "), StartTag("body", [])]
  const ExportSuffix: seq<Event> := [TextEvent("\n  "), EndTag("body"), TextEvent("\n"), EndTag("opml")]

  lemma Regroup<T>(x: seq<T>, h: seq<T>, y: seq<T>, sb: seq<T>, f: seq<T>, o: seq<T>, t: seq<T>, z: seq<T>)
    ensures x + h + y + (sb + f + o + t) + z == (x + h + y + sb) + f + o + (t + z)
  {
  }

  /** The events of the export document, section by section. */
  lemma ExportEvents(sources: seq<Source>)
    ensures var groups := GroupBy(sources);
      Ser(ExportTree(sources))
      == ExportPrefix + SerAll(FolderLines(groups)) + SerAll(SourceLines(Orphans(groups), "\n    ")) + ExportSuffix
  {
    var groups := GroupBy(sources);
    var folders, orphans := FolderLines(groups), SourceLines(Orphans(groups), "\n    ");
    var head := Element("head", [], [Text("\n    "), Element("title", [], [Text("Riffle Export")]), Text("\n  ")]);
    var body := Element("body", [], folders + orphans + [Text("\n  ")]);
    assert [StartTag("opml", [Attr("version", "1.0")]), TextEvent("\n  ")] + Ser(head) + [TextEvent("\n  ")] + [StartTag("body", [])]
      == ExportPrefix by {
      HeadEvents();
    }
    assert Ser(body) == [StartTag("body", [])] + SerAll(folders) + SerAll(orphans) + [TextEvent("\n  "), EndTag("body")] by {
      BodyEvents(folders, orphans);
    }
    assert [TextEvent("\n  "), EndTag("body")] + [TextEvent("\n"), EndTag("opml")] == ExportSuffix;
    RootEvents(head, body);
    Regroup([StartTag("opml", [Attr("version", "1.0")]), TextEvent("\n  ")], Ser(head), [TextEvent("\n  ")],
      [StartTag("body", [])], SerAll(folders), SerAll(orphans), [TextEvent("\n  "), EndTag("body")], [TextEvent("\n"), EndTag("opml")]);
  }

  lemma RootEvents(head: Node, body: Node)
    ensures Ser(Element("opml", [Attr("version", "1.0")], [Text("\n  "), head, Text("\n  "), body, Text("\n")]))
      == [StartTag("opml", [Attr("version", "1.0")]), TextEvent("\n  ")] + Ser(head) + [TextEvent("\n  ")]
         + Ser(body) + [TextEvent("\n"), EndTag("opml")]
  {
    SerAllCons(Text("\n"), []);
    SerAllCons(body, [Text("\n")]);
    SerAllCons(Text("\n  "), [body, Text("\n")]);
    SerAllCons(head, [Text("\n  "), body, Text("\n")]);
    SerAllCons(Text("\n  "), [head, Text("\n  "), body, Text("\n")]);
  }

  /** Writes the folder groups in order; the unfiled group writes nothing here. */
  method WriteFolders(out: seq<Event>, groups: seq<(Option<string>, seq<Source>)>) returns (out': seq<Event>)
    ensures out' == out + SerAll(FolderLines(groups))
  {
    out' := out;
    var i := 0;
    while i < |groups|
      invariant 0 <= i <= |groups|
      invariant out' == out + SerAll(FolderLines(groups[..i]))
    {
      FolderLinesSnoc(groups, i);
      if groups[i].0.Some? {
        ghost var line := [Text("\n    "), FolderOutline(groups[i].0.value, groups[i].1)];
        ghost var done := SerAll(FolderLines(groups[..i]));
        out' := WriteFolder(out', groups[i].0.value, groups[i].1);
        SerAllAppend(FolderLines(groups[..i]), line);
        Assoc(out, done, SerAll(line));
      } else {
        assert FolderLines(groups[..i]) + [] == FolderLines(groups[..i]);
      }
      i := i + 1;
    }
    assert groups[..i] == groups;
  }

  /** `generate`: writes the export document for the sources, as events. */
  method Generate(sources: seq<Source>) returns (out: seq<Event>)
    ensures out == Ser(ExportTree(sources))
  {
    out := [StartTag("opml", [Attr("version", "1.0")]), TextEvent("\n  ")];
    out := out + [StartTag("head", []), TextEvent("\n    ")];
    out := out + [StartTag("title", []), TextEvent("Riffle Export"), EndTag("title")];
    out := out + [TextEvent("\n  "), EndTag("head")];
    out := out + [TextEvent("\n  "), StartTag("body", [])];
    assert out == ExportPrefix;
    var groups := GroupBy(sources);
    out := WriteFolders(out, groups);
    out := WriteSources(out, Orphans(groups), "\n    ");
    ghost var body := out;
    out := out + [TextEvent("\n  "), EndTag("body")];
    out := out + [TextEvent("\n"), EndTag("opml")];
    Assoc(body, [TextEvent("\n  "), EndTag("body")], [TextEvent("\n"), EndTag("opml")]);
    ExportEvents(sources);
  }

  // ---------------------------------------------------------------------------
  // Export, then import

  /** What importing a written subscription gives back: no `htmlUrl` is written. */
  function Exported(s: Source): OpmlSource {
    OpmlSource(s.title, s.url, None)
  }

  function ExportedAll(sources: seq<Source>): (r: seq<OpmlSource>)
    ensures |r| == |sources| && forall i :: 0 <= i < |sources| ==> r[i] == Exported(sources[i])
  {
    if |sources| == 0 then [] else [Exported(sources[0])] + ExportedAll(sources[1..])
  }

  /** A folder per non-null key, holding that folder's sources. */
  function FolderItems(sources: seq<Source>, keys: seq<Option<string>>): seq<OpmlItem> {
    if |keys| == 0 then []
    else if keys[0].Some? then [FolderItem(keys[0].value, ExportedAll(InFolder(sources, keys[0])))] + FolderItems(sources, keys[1..])
    else FolderItems(sources, keys[1..])
  }

  function SourceItems(sources: seq<Source>): seq<OpmlItem> {
    if |sources| == 0 then [] else [SourceItem(Exported(sources[0]))] + SourceItems(sources[1..])
  }

  /** The items an export reads back as: the folders in order of first use,
      then the unfiled sources. */
  function ExportedItems(sources: seq<Source>): seq<OpmlItem> {
    FolderItems(sources, FolderKeys(sources)) + SourceItems(InFolder(sources, None))
  }

  lemma SourceOutlineRead(s: Source)
    ensures OutlineOf(SourceOutline(s)) == SourceItem(Exported(s))
  {
    var attrs := SourceOutline(s).attrs;
    var a1, a2, a3 := attrs[1..], attrs[1..][1..], attrs[1..][1..][1..];
    assert a3 == [Attr("xmlUrl", s.url)];
    assert AttributeValue(a3, "xmlUrl") == Some(s.url);
    assert AttributeValue(a2, "xmlUrl") == Some(s.url);
    assert AttributeValue(a1, "xmlUrl") == Some(s.url);
    assert AttributeValue(a2, "title") == Some(s.title);
    assert AttributeValue(a1, "title") == Some(s.title);
    assert AttributeValue(attrs, "htmlUrl") == None;
  }

  lemma {:induction false} SourceLinesRead(sources: seq<Source>, indent: string)
    ensures FolderChildren(SourceLines(sources, indent)) == ExportedAll(sources)
    ensures BodyItems(SourceLines(sources, indent)) == SourceItems(sources)
  {
    if |sources| > 0 {
      var lines := SourceLines(sources, indent);
      SourceOutlineRead(sources[0]);
      SourceLinesRead(sources[1..], indent);
      assert lines[1..][1..] == SourceLines(sources[1..], indent);
    }
  }

  lemma {:induction false} FolderChildrenAppend(a: seq<Node>, b: seq<Node>)
    ensures FolderChildren(a + b) == FolderChildren(a) + FolderChildren(b)
  {
    if |a| == 0 {
      assert a + b == b;
    } else {
      assert (a + b)[1..] == a[1..] + b;
      FolderChildrenAppend(a[1..], b);
    }
  }

  lemma {:induction false} BodyItemsAppend(a: seq<Node>, b: seq<Node>)
    ensures BodyItems(a + b) == BodyItems(a) + BodyItems(b)
  {
    if |a| == 0 {
      assert a + b == b;
    } else {
      assert (a + b)[1..] == a[1..] + b;
      BodyItemsAppend(a[1..], b);
    }
  }

  lemma FolderOutlineRead(name: string, sources: seq<Source>)
    ensures OutlineOf(FolderOutline(name, sources)) == FolderItem(name, ExportedAll(sources))
  {
    var n := FolderOutline(name, sources);
    assert AttributeValue(n.attrs, "xmlUrl") == None;
    assert AttributeValue(n.attrs, "title") == Some(name);
    SourceLinesRead(sources, "\n      ");
    FolderChildrenAppend(SourceLines(sources, "\n      "), [Text("\n    ")]);
  }

  lemma {:induction false} FolderLinesRead(sources: seq<Source>, keys: seq<Option<string>>)
    ensures BodyItems(FolderLines(GroupsFor(sources, keys))) == FolderItems(sources, keys)
  {
    if |keys| > 0 {
      var groups := GroupsFor(sources, keys);
      assert groups[0] == (keys[0], InFolder(sources, keys[0])) && groups[1..] == GroupsFor(sources, keys[1..]);
      FolderLinesRead(sources, keys[1..]);
      if keys[0].Some? {
        FolderOutlineRead(keys[0].value, InFolder(sources, keys[0]));
        var lines := FolderLines(groups);
        assert lines[1..][1..] == FolderLines(groups[1..]);
      }
    }
  }

  lemma {:induction false} OrphansOf(sources: seq<Source>, keys: seq<Option<string>>)
    requires None in keys || InFolder(sources, None) == []
    ensures Orphans(GroupsFor(sources, keys)) == InFolder(sources, None)
  {
    if |keys| > 0 {
      var groups := GroupsFor(sources, keys);
      assert groups[0] == (keys[0], InFolder(sources, keys[0])) && groups[1..] == GroupsFor(sources, keys[1..]);
      if keys[0].Some? {
        assert None in keys ==> None in keys[1..] by {
          assert keys == [keys[0]] + keys[1..];
        }
        OrphansOf(sources, keys[1..]);
      }
    }
  }

  lemma RootRead(head: Node, body: Node)
    requires head.Element? && head.name == "head" && body.Element? && body.name == "body"
    ensures OpmlChildren([Text("\n  "), head, Text("\n  "), body, Text("\n")]) == BodyItems(body.children)
  {
    var cs := [Text("\n  "), head, Text("\n  "), body, Text("\n")];
    assert cs[1..][1..][1..][1..][1..] == [];
    assert OpmlChildren(cs[4..]) == [];
    assert OpmlChildren(cs[3..]) == BodyItems(body.children) + OpmlChildren(cs[4..]);
    assert OpmlChildren(cs[1..]) == OpmlChildren(cs[2..]);
  }

  lemma {:induction false} ExportBodyRead(sources: seq<Source>)
    ensures var groups := GroupBy(sources);
      BodyItems(FolderLines(groups) + SourceLines(Orphans(groups), "\n    ") + [Text("\n  ")]) == ExportedItems(sources)
  {
    var keys := FolderKeys(sources);
    var groups := GroupBy(sources);
    GroupByIsGrouped(sources);
    if None !in keys {
      InFolderNone(sources, None);
    }
    OrphansOf(sources, keys);
    FolderLinesRead(sources, keys);
    var folders, orphans := FolderLines(groups), SourceLines(Orphans(groups), "\n    ");
    SourceLinesRead(Orphans(groups), "\n    ");
    BodyItemsAppend(folders, orphans);
    BodyItemsAppend(folders + orphans, [Text("\n  ")]);
    assert BodyItems([Text("\n  ")]) == [];
  }

  /** Importing an export gives back every folder with its sources in order,
      then the unfiled sources, each with its title and url. */
  lemma ExportImport(sources: seq<Source>)
    ensures OpmlOf(ExportTree(sources)) == Ok(ExportedItems(sources))
  {
    var groups := GroupBy(sources);
    var root := ExportTree(sources);
    var body := Element("body", [], FolderLines(groups) + SourceLines(Orphans(groups), "\n    ") + [Text("\n  ")]);
    assert root.children[3] == body;
    RootRead(root.children[1], body);
    ExportBodyRead(sources);
  }
}
