/** The RSS reader: walks the pull-parser events of a feed document and
    collects one article per `item` (RSS 2.0, "Elements of <item>" and
    "<enclosure> sub-element of <item>", plus Media RSS `media:content`).

    Each reading method is proved equal to a function over the element tree;
    the properties of the reader are lemmas about those functions. */
module RssParser {
  import opened Wrappers
  import opened Strings
  import opened Xml
  import opened Entities
  import opened Lists

  /** Texts are cut to this many characters to keep rows small. */
  const MaxTextLength: nat := 100000

  /** What one feed download yields. */
  datatype ParsedFeed = ParsedFeed(articles: seq<Article>, imageUrl: Option<string>, siteUrl: Option<string>)

  const EmptyFeed := ParsedFeed([], None, None)

  /** The fields `readEntry` collects before building the article. */
  datatype EntryFields = EntryFields(
    title: Option<string>,
    link: Option<string>,
    description: Option<string>,
    pubDate: Option<string>,
    imageUrl: Option<string>)

  const NoFields := EntryFields(None, None, None, None, None)

  // ---------------------------------------------------------------------------
  // HTML tag stripping of titles

  /** Index of the first `c` in `s`, or `|s|` when there is none. */
  function IndexOf(s: string, c: char): (i: nat)
    ensures i <= |s| && (i < |s| ==> s[i] == c)
    ensures forall j :: 0 <= j < i ==> s[j] != c
  {
    if |s| == 0 then 0 else if s[0] == c then 0 else 1 + IndexOf(s[1..], c)
  }

  /** `s` holds no match of the pattern `<[^>]*>`: no `<` has a `>` after it. */
  predicate NoTag(s: string) {
    forall i, j :: 0 <= i < j < |s| && s[i] == '<' ==> s[j] != '>'
  }

  /** Removing every match of `<[^>]*>`, leftmost first: a `<` that has a `>`
      after it starts a tag that ends at the first such `>`. */
  function StripTags(s: string): (r: string)
    ensures forall k :: 0 <= k < |r| ==> r[k] in s
    ensures NoTag(r)
    decreases |s|
  {
    if |s| == 0 then []
    else if s[0] == '<' && '>' in s[1..] then
      var r := StripTags(s[1 + IndexOf(s[1..], '>') + 1..]);
      assert forall k :: 0 <= k < |r| ==> r[k] in s by {
        forall k | 0 <= k < |r| ensures r[k] in s {
          var rest := s[1 + IndexOf(s[1..], '>') + 1..];
          assert r[k] in rest;
          var m :| 0 <= m < |rest| && rest[m] == r[k];
          assert s[1 + IndexOf(s[1..], '>') + 1 + m] == r[k];
        }
      }
      r
    else
      var tail := StripTags(s[1..]);
      var r := [s[0]] + tail;
      assert forall k :: 0 <= k < |r| ==> r[k] in s by {
        forall k | 0 <= k < |r| ensures r[k] in s {
          if k > 0 {
            assert r[k] == tail[k - 1];
            assert tail[k - 1] in s[1..];
          }
        }
      }
      assert NoTag(r) by {
        forall i, j | 0 <= i < j < |r| && r[i] == '<' ensures r[j] != '>' {
          if i == 0 {
            assert s[0] == '<' && '>' !in s[1..];
            assert tail[j - 1] in s[1..];
          } else {
            assert r[i] == tail[i - 1] && r[j] == tail[j - 1];
          }
        }
      }
      r
  }

  /** Text already free of tags is left as it is. */
  lemma {:induction false} StripTagsNoTag(s: string)
    requires NoTag(s)
    ensures StripTags(s) == s
    decreases |s|
  {
    if |s| > 0 {
      if s[0] == '<' {
        forall j | 0 <= j < |s| - 1 ensures s[1..][j] != '>' {
          assert s[1..][j] == s[j + 1];
        }
      }
      assert NoTag(s[1..]) by {
        forall i, j | 0 <= i < j < |s[1..]| && s[1..][i] == '<' ensures s[1..][j] != '>' {
          assert s[i + 1] == '<';
        }
      }
      StripTagsNoTag(s[1..]);
    }
  }

  /** `cleanHtmlTags`: strip the tags, then trim. */
  function CleanHtmlTags(html: string): string {
    Trim(StripTags(html))
  }

  /** A cleaned title has no tags left and no surrounding whitespace. */
  lemma CleanHtmlTagsResult(html: string)
    ensures NoTag(CleanHtmlTags(html))
    ensures var r := CleanHtmlTags(html); r == [] || (!IsWhitespace(r[0]) && !IsWhitespace(r[|r| - 1]))
  {
    var s := StripTags(html);
    var r := Trim(s);
    var off :| OccursAt(s, r, off);
    NoTagSlice(s, r, off);
  }

  /** A piece of tag-free text is tag-free. */
  lemma NoTagSlice(s: string, r: string, off: int)
    requires NoTag(s) && OccursAt(s, r, off)
    ensures NoTag(r)
  {
    forall i, j | 0 <= i < j < |r| && r[i] == '<' ensures r[j] != '>' {
      assert r[i] == s[off + i] && r[j] == s[off + j];
    }
  }

  /** Cleaning is idempotent. */
  lemma CleanHtmlTagsIdempotent(html: string)
    ensures CleanHtmlTags(CleanHtmlTags(html)) == CleanHtmlTags(html)
  {
    var r := CleanHtmlTags(html);
    CleanHtmlTagsResult(html);
    StripTagsNoTag(r);
    TrimIdempotent(StripTags(html));
  }

  // ---------------------------------------------------------------------------
  // The reader over the element tree

  /** `substring(0, 100000)` when longer. */
  function Truncate(t: string): (r: string)
    ensures |r| <= MaxTextLength && |r| <= |t|
    ensures r == t[..|r|]
    ensures |t| <= MaxTextLength ==> r == t
  {
    if |t| > MaxTextLength then t[..MaxTextLength] else t
  }

  /** `readText`: an element with no content reads as "", one holding only
      text reads as that text, truncated; any child element throws. */
  function TextOf(n: Node): Result<string, XmlError>
    requires n.Element?
  {
    if |n.children| == 0 then Ok("")
    else if |n.children| == 1 && n.children[0].Text? then Ok(Truncate(n.children[0].text))
    else Err(UnexpectedEvent)
  }

  /** One child of an `item`. */
  function EntryStep(c: Node, st: EntryFields): Result<EntryFields, XmlError> {
    if c.Text? then Ok(st)
    else if c.name == "title" then
      match TextOf(c)
      case Ok(t) => Ok(st.(title := Some(CleanHtmlTags(t))))
      case Err(e) => Err(e)
    else if c.name == "link" then
      match TextOf(c)
      case Ok(t) => Ok(st.(link := Some(t)))
      case Err(e) => Err(e)
    else if c.name == "description" then
      match TextOf(c)
      case Ok(t) => Ok(st.(description := Some(t)))
      case Err(e) => Err(e)
    else if c.name == "pubDate" then
      match TextOf(c)
      case Ok(t) => Ok(st.(pubDate := Some(t)))
      case Err(e) => Err(e)
    else if c.name == "media:content" then
      Ok(st.(imageUrl := AttributeValue(c.attrs, "url")))
    else if c.name == "enclosure" then
      var ty := AttributeValue(c.attrs, "type");
      if ty.Some? && StartsWith(ty.value, "image/") then Ok(st.(imageUrl := AttributeValue(c.attrs, "url")))
      else Ok(st)
    else Ok(st)
  }

  /** The children of an `item`, left to right. */
  function EntryFold(cs: seq<Node>, st: EntryFields): Result<EntryFields, XmlError> {
    if |cs| == 0 then Ok(st)
    else match EntryStep(cs[0], st)
      case Ok(st') => EntryFold(cs[1..], st')
      case Err(e) => Err(e)
  }

  /** The article built from the collected fields, with the source's defaults. */
  function MakeArticle(f: EntryFields, sourceUrl: string, parseDate: Option<string> -> int): Article {
    NewArticle(f.link.GetOr(""), f.title.GetOr("No Title"), Some(f.description.GetOr("")),
               parseDate(f.pubDate), sourceUrl, f.imageUrl)
  }

  function EntryOf(n: Node, sourceUrl: string, parseDate: Option<string> -> int): Result<Article, XmlError>
    requires n.Element?
  {
    match EntryFold(n.children, NoFields)
    case Ok(f) => Ok(MakeArticle(f, sourceUrl, parseDate))
    case Err(e) => Err(e)
  }

  /** `readImage`: the text of the last `url` child, if any. */
  function ImageFold(cs: seq<Node>, url: Option<string>): Result<Option<string>, XmlError> {
    if |cs| == 0 then Ok(url)
    else if cs[0].Element? && cs[0].name == "url" then
      match TextOf(cs[0])
      case Ok(t) => ImageFold(cs[1..], Some(t))
      case Err(e) => Err(e)
    else ImageFold(cs[1..], url)
  }

  /** One child of a `channel` (or of an Atom `feed` root). */
  function ChannelStep(c: Node, st: ParsedFeed, sourceUrl: string, parseDate: Option<string> -> int)
    : Result<ParsedFeed, XmlError>
  {
    if c.Text? then Ok(st)
    else if c.name == "item" then
      match EntryOf(c, sourceUrl, parseDate)
      case Ok(a) => Ok(st.(articles := st.articles + [a]))
      case Err(e) => Err(e)
    else if c.name == "image" then
      match ImageFold(c.children, None)
      case Ok(u) => Ok(st.(imageUrl := u))
      case Err(e) => Err(e)
    else if c.name == "link" then
      match TextOf(c)
      case Ok(t) => Ok(st.(siteUrl := Some(t)))
      case Err(e) => Err(e)
    else Ok(st)
  }

  function ChannelFold(cs: seq<Node>, st: ParsedFeed, sourceUrl: string, parseDate: Option<string> -> int)
    : Result<ParsedFeed, XmlError>
  {
    if |cs| == 0 then Ok(st)
    else match ChannelStep(cs[0], st, sourceUrl, parseDate)
      case Ok(st') => ChannelFold(cs[1..], st', sourceUrl, parseDate)
      case Err(e) => Err(e)
  }

  /** The children of an `rss` root: each `channel` replaces what was read so far. */
  function RssFold(cs: seq<Node>, st: ParsedFeed, sourceUrl: string, parseDate: Option<string> -> int)
    : Result<ParsedFeed, XmlError>
  {
    if |cs| == 0 then Ok(st)
    else if cs[0].Element? && cs[0].name == "channel" then
      match ChannelFold(cs[0].children, EmptyFeed, sourceUrl, parseDate)
      case Ok(ch) => RssFold(cs[1..], ch, sourceUrl, parseDate)
      case Err(e) => Err(e)
    else RssFold(cs[1..], st, sourceUrl, parseDate)
  }

  /** `readFeed` on the root element. */
  function FeedOf(root: Node, sourceUrl: string, parseDate: Option<string> -> int): Result<ParsedFeed, XmlError>
    requires root.Element?
  {
    if root.name == "rss" then RssFold(root.children, EmptyFeed, sourceUrl, parseDate)
    else if root.name == "feed" then
      match ChannelFold(root.children, EmptyFeed, sourceUrl, parseDate)
      case Ok(ch) => Ok(ParsedFeed(ch.articles, ch.imageUrl, None))
      case Err(e) => Err(e)
    else Ok(EmptyFeed)
  }

  // ---------------------------------------------------------------------------
  // Properties of the reader

  /** The articles of the `item` children, in document order. */
  function ItemArticles(cs: seq<Node>, sourceUrl: string, parseDate: Option<string> -> int): seq<Article> {
    if |cs| == 0 then []
    else if cs[0].Element? && cs[0].name == "item" && EntryOf(cs[0], sourceUrl, parseDate).Ok? then
      [EntryOf(cs[0], sourceUrl, parseDate).value] + ItemArticles(cs[1..], sourceUrl, parseDate)
    else ItemArticles(cs[1..], sourceUrl, parseDate)
  }

  /** Number of `item` children. */
  function CountItems(cs: seq<Node>): nat {
    if |cs| == 0 then 0
    else (if cs[0].Element? && cs[0].name == "item" then 1 else 0) + CountItems(cs[1..])
  }

  /** A channel that reads without error lists exactly one article per `item`
      child, in document order, after those it started with; no other element
      (an Atom `entry` included) yields an article. */
  lemma {:induction false} ChannelArticles(cs: seq<Node>, st: ParsedFeed, sourceUrl: string,
                                           parseDate: Option<string> -> int)
    requires ChannelFold(cs, st, sourceUrl, parseDate).Ok?
    ensures ChannelFold(cs, st, sourceUrl, parseDate).value.articles == st.articles + ItemArticles(cs, sourceUrl, parseDate)
    ensures |ItemArticles(cs, sourceUrl, parseDate)| == CountItems(cs)
  {
    if |cs| > 0 {
      var st' := ChannelStep(cs[0], st, sourceUrl, parseDate).value;
      ChannelArticles(cs[1..], st', sourceUrl, parseDate);
      if cs[0].Element? && cs[0].name == "item" {
        var a := EntryOf(cs[0], sourceUrl, parseDate).value;
        assert st'.articles == st.articles + [a];
        Assoc(st.articles, [a], ItemArticles(cs[1..], sourceUrl, parseDate));
      } else {
        assert st'.articles == st.articles;
      }
    }
  }

  /** Every article read is the source's, and starts unread and unsaved. */
  lemma {:induction false} ItemArticlesOwned(cs: seq<Node>, sourceUrl: string, parseDate: Option<string> -> int)
    ensures forall a :: a in ItemArticles(cs, sourceUrl, parseDate) ==> a.sourceUrl == sourceUrl && !a.isRead && !a.isSaved
  {
    if |cs| > 0 {
      ItemArticlesOwned(cs[1..], sourceUrl, parseDate);
    }
  }

  /** Some child of `cs` is an element named `name`. */
  predicate HasChild(cs: seq<Node>, name: string) {
    exists i :: 0 <= i < |cs| && cs[i].Element? && cs[i].name == name
  }

  lemma HasChildCons(cs: seq<Node>, name: string)
    requires |cs| > 0
    ensures HasChild(cs, name) <==> (cs[0].Element? && cs[0].name == name) || HasChild(cs[1..], name)
  {
    if HasChild(cs[1..], name) {
      var i :| 0 <= i < |cs[1..]| && cs[1..][i].Element? && cs[1..][i].name == name;
      assert cs[i + 1] == cs[1..][i];
    }
    if HasChild(cs, name) && !(cs[0].Element? && cs[0].name == name) {
      var i :| 0 <= i < |cs| && cs[i].Element? && cs[i].name == name;
      assert cs[1..][i - 1] == cs[i];
    }
  }

  /** A child that is not a title, link or description element leaves that field alone. */
  lemma EntryStepKeeps(c: Node, st: EntryFields)
    requires EntryStep(c, st).Ok?
    ensures !(c.Element? && c.name == "title") ==> EntryStep(c, st).value.title == st.title
    ensures !(c.Element? && c.name == "link") ==> EntryStep(c, st).value.link == st.link
    ensures !(c.Element? && c.name == "description") ==> EntryStep(c, st).value.description == st.description
  {
  }

  /** A field no child sets keeps its starting value. */
  lemma {:induction false} EntryFoldKeeps(cs: seq<Node>, st: EntryFields)
    requires EntryFold(cs, st).Ok?
    ensures !HasChild(cs, "title") ==> EntryFold(cs, st).value.title == st.title
    ensures !HasChild(cs, "link") ==> EntryFold(cs, st).value.link == st.link
    ensures !HasChild(cs, "description") ==> EntryFold(cs, st).value.description == st.description
  {
    if |cs| > 0 {
      var st' := EntryStep(cs[0], st).value;
      assert EntryFold(cs, st) == EntryFold(cs[1..], st');
      EntryStepKeeps(cs[0], st);
      EntryFoldKeeps(cs[1..], st');
      HasChildCons(cs, "title");
      HasChildCons(cs, "link");
      HasChildCons(cs, "description");
    }
  }

  /** Defaults of an item: a missing title reads "No Title", a missing link
      and description read "", and the article belongs to the given source. */
  lemma EntryDefaults(n: Node, sourceUrl: string, parseDate: Option<string> -> int)
    requires n.Element? && EntryOf(n, sourceUrl, parseDate).Ok?
    ensures var a := EntryOf(n, sourceUrl, parseDate).value;
      && a.sourceUrl == sourceUrl && !a.isRead && !a.isSaved
      && (!HasChild(n.children, "title") ==> a.title == "No Title")
      && (!HasChild(n.children, "link") ==> a.link == "")
      && (!HasChild(n.children, "description") ==> a.description == Some(""))
  {
    EntryFoldKeeps(n.children, NoFields);
  }

  /** The image a child sets, if it sets one: `media:content` always does
      (possibly to null), `enclosure` only with an `image/` type. */
  function ImageSetter(c: Node): Option<Option<string>> {
    if c.Element? && c.name == "media:content" then Some(AttributeValue(c.attrs, "url"))
    else if c.Element? && c.name == "enclosure" then
      var ty := AttributeValue(c.attrs, "type");
      if ty.Some? && StartsWith(ty.value, "image/") then Some(AttributeValue(c.attrs, "url")) else None
    else None
  }

  /** The image of the last child that sets one, scanning from the end. */
  function LastImage(cs: seq<Node>, dflt: Option<string>): Option<string> {
    if |cs| == 0 then dflt
    else match ImageSetter(cs[|cs| - 1])
      case Some(u) => u
      case None => LastImage(cs[..|cs| - 1], dflt)
  }

  lemma {:induction false} LastImageAppend(a: seq<Node>, b: seq<Node>, dflt: Option<string>)
    ensures LastImage(a + b, dflt) == LastImage(b, LastImage(a, dflt))
    decreases |b|
  {
    if |b| == 0 {
      assert a + b == a;
    } else {
      assert (a + b)[..|a + b| - 1] == a + b[..|b| - 1];
      assert (a + b)[|a + b| - 1] == b[|b| - 1];
      LastImageAppend(a, b[..|b| - 1], dflt);
    }
  }

  /** The item's image comes from the last `media:content` or image-typed
      `enclosure` child, whatever came before it. */
  lemma {:induction false} EntryImageIsLast(cs: seq<Node>, st: EntryFields)
    requires EntryFold(cs, st).Ok?
    ensures EntryFold(cs, st).value.imageUrl == LastImage(cs, st.imageUrl)
  {
    if |cs| > 0 {
      var st' := EntryStep(cs[0], st).value;
      EntryImageIsLast(cs[1..], st');
      assert st'.imageUrl == LastImage([cs[0]], st.imageUrl) by {
        assert [cs[0]][..0] == [];
      }
      LastImageAppend([cs[0]], cs[1..], st.imageUrl);
      assert [cs[0]] + cs[1..] == cs;
    }
  }

  /** Root dispatch: an `rss` root reads its channels, a `feed` root is read
      as a channel without a site url, and any other root is an empty feed. */
  lemma FeedRoots(root: Node, sourceUrl: string, parseDate: Option<string> -> int)
    requires root.Element? && FeedOf(root, sourceUrl, parseDate).Ok?
    ensures root.name == "feed" ==> FeedOf(root, sourceUrl, parseDate).value.siteUrl.None?
    ensures root.name == "feed" ==> FeedOf(root, sourceUrl, parseDate).value.articles == ItemArticles(root.children, sourceUrl, parseDate)
    ensures root.name != "rss" && root.name != "feed" ==> FeedOf(root, sourceUrl, parseDate) == Ok(EmptyFeed)
  {
    if root.name == "feed" {
      ChannelArticles(root.children, EmptyFeed, sourceUrl, parseDate);
    }
  }

  // ---------------------------------------------------------------------------
  // The reader over the event stream

  /** `readText`, from the START_TAG of `n`; on success the result index is
      its END_TAG. */
  method ReadText(ev: seq<Event>, p: nat, ghost n: Node) returns (r: Result<string, XmlError>, q: nat)
    requires n.Element? && WellFormed(n) && At(ev, p, Ser(n))
    ensures r == TextOf(n)
    ensures r.Ok? ==> q == p + |Ser(n)| - 1
  {
    ghost var cs := n.children;
    AtElement(ev, p, n);
    q := p + 1;
    var result := "";
    if ev[q].TextEvent? {
      AtChildren(ev, q, cs, 0, n.name);
      AtChild(ev, q, cs, 0, [EndTag(n.name)]);
      AtNode(ev, q, cs[0]);
      result := ev[q].text;
      if |result| > MaxTextLength {
        result := result[..MaxTextLength];
      }
      q := q + 1;
      AtChildren(ev, q, cs, 1, n.name);
      if 1 < |cs| {
        AtChild(ev, q, cs, 1, [EndTag(n.name)]);
        AtNode(ev, q, cs[1]);
      }
    } else {
      AtChildren(ev, q, cs, 0, n.name);
      if 0 < |cs| {
        AtChild(ev, q, cs, 0, [EndTag(n.name)]);
        AtNode(ev, q, cs[0]);
      }
    }
    if !ev[q].EndTag? {
      return Err(UnexpectedEvent), q;
    }
    assert |cs| <= 1;
    assert Ser(n) == [StartTag(n.name, n.attrs)] + SerAll(cs) + [EndTag(n.name)];
    r := Ok(result);
  }

  /** The `when (parser.name)` dispatch of `readEntry` for one child, from its
      first event; on success the result index is its last event. */
  method ReadEntryChild(ev: seq<Event>, q: nat, st: EntryFields, ghost c: Node)
    returns (r: Result<EntryFields, XmlError>, q': nat)
    requires WellFormed(c) && At(ev, q, Ser(c))
    ensures r == EntryStep(c, st)
    ensures r.Ok? ==> q' == q + |Ser(c)| - 1
  {
    AtNode(ev, q, c);
    q' := q;
    r := Ok(st);
    if ev[q].StartTag? {
      var name := ev[q].name;
      if name == "title" {
        var t;
        t, q' := ReadText(ev, q, c);
        if t.Err? { return Err(t.error), q'; }
        r := Ok(st.(title := Some(CleanHtmlTags(t.value))));
      } else if name == "link" {
        var t;
        t, q' := ReadText(ev, q, c);
        if t.Err? { return Err(t.error), q'; }
        r := Ok(st.(link := Some(t.value)));
      } else if name == "description" {
        var t;
        t, q' := ReadText(ev, q, c);
        if t.Err? { return Err(t.error), q'; }
        r := Ok(st.(description := Some(t.value)));
      } else if name == "pubDate" {
        var t;
        t, q' := ReadText(ev, q, c);
        if t.Err? { return Err(t.error), q'; }
        r := Ok(st.(pubDate := Some(t.value)));
      } else if name == "media:content" {
        r := Ok(st.(imageUrl := AttributeValue(ev[q].attrs, "url")));
        var s := Skip(ev, q, c);
        q' := s.value;
      } else if name == "enclosure" {
        var ty := AttributeValue(ev[q].attrs, "type");
        if ty.Some? && StartsWith(ty.value, "image/") {
          r := Ok(st.(imageUrl := AttributeValue(ev[q].attrs, "url")));
        }
        var s := Skip(ev, q, c);
        q' := s.value;
      } else {
        var s := Skip(ev, q, c);
        q' := s.value;
      }
    }
  }

  /** `readEntry`, from the START_TAG of an `item`. */
  method ReadEntry(ev: seq<Event>, p: nat, sourceUrl: string, parseDate: Option<string> -> int, ghost n: Node)
    returns (r: Result<Article, XmlError>, q: nat)
    requires n.Element? && WellFormed(n) && At(ev, p, Ser(n))
    ensures r == EntryOf(n, sourceUrl, parseDate)
    ensures r.Ok? ==> q == p + |Ser(n)| - 1
  {
    ghost var cs := n.children;
    var fields := NoFields;
    AtElement(ev, p, n);
    q := p + 1;
    ghost var k := 0;
    assert cs[k..] == cs;
    AtChildren(ev, q, cs, k, n.name);
    while !ev[q].EndTag?
      invariant 0 <= k <= |cs| && p < q
      invariant At(ev, q, SerAll(cs[k..]) + [EndTag(n.name)])
      invariant ev[q].EndTag? <==> k == |cs|
      invariant q + |SerAll(cs[k..])| == p + 1 + |SerAll(cs)|
      invariant EntryFold(cs, NoFields) == EntryFold(cs[k..], fields)
      decreases |cs| - k
    {
      ghost var c, start := cs[k], q;
      AtChild(ev, q, cs, k, [EndTag(n.name)]);
      assert WellFormed(c);
      assert cs[k..][0] == c && cs[k..][1..] == cs[k + 1..];
      var step, q' := ReadEntryChild(ev, q, fields, c);
      if step.Err? { return Err(step.error), q'; }
      fields := step.value;
      q := q' + 1;
      ChildDone(ev, start, q, cs, k, n.name);
      k := k + 1;
    }
    assert cs[k..] == [];
    assert Ser(n) == [StartTag(n.name, n.attrs)] + SerAll(cs) + [EndTag(n.name)];
    r := Ok(MakeArticle(fields, sourceUrl, parseDate));
  }

  /** `readImage`, from the START_TAG of an `image`. */
  method ReadImage(ev: seq<Event>, p: nat, ghost n: Node) returns (r: Result<Option<string>, XmlError>, q: nat)
    requires n.Element? && WellFormed(n) && At(ev, p, Ser(n))
    ensures r == ImageFold(n.children, None)
    ensures r.Ok? ==> q == p + |Ser(n)| - 1
  {
    ghost var cs := n.children;
    var url: Option<string> := None;
    AtElement(ev, p, n);
    q := p + 1;
    ghost var k := 0;
    assert cs[k..] == cs;
    AtChildren(ev, q, cs, k, n.name);
    while !ev[q].EndTag?
      invariant 0 <= k <= |cs| && p < q
      invariant At(ev, q, SerAll(cs[k..]) + [EndTag(n.name)])
      invariant ev[q].EndTag? <==> k == |cs|
      invariant q + |SerAll(cs[k..])| == p + 1 + |SerAll(cs)|
      invariant ImageFold(cs, None) == ImageFold(cs[k..], url)
      decreases |cs| - k
    {
      ghost var c := cs[k];
      NextChild(ev, q, cs, k, n.name);
      assert WellFormed(c);
      assert cs[k..][0] == c && cs[k..][1..] == cs[k + 1..];
      ghost var start := q;
      if ev[q].StartTag? {
        if ev[q].name == "url" {
          var t, q' := ReadText(ev, q, c);
          if t.Err? { return Err(t.error), q'; }
          url := Some(t.value);
          q := q';
        } else {
          var s := Skip(ev, q, c);
          q := s.value;
        }
      }
      q := q + 1;
      ChildDone(ev, start, q, cs, k, n.name);
      k := k + 1;
    }
    assert cs[k..] == [];
    assert Ser(n) == [StartTag(n.name, n.attrs)] + SerAll(cs) + [EndTag(n.name)];
    r := Ok(url);
  }

  /** `readChannel`, from the START_TAG of a `channel` (or `feed` root). */
  method ReadChannel(ev: seq<Event>, p: nat, sourceUrl: string, parseDate: Option<string> -> int, ghost n: Node)
    returns (r: Result<ParsedFeed, XmlError>, q: nat)
    requires n.Element? && WellFormed(n) && At(ev, p, Ser(n))
    ensures r == ChannelFold(n.children, EmptyFeed, sourceUrl, parseDate)
    ensures r.Ok? ==> q == p + |Ser(n)| - 1
  {
    ghost var cs := n.children;
    var entries: seq<Article> := [];
    var imageUrl: Option<string> := None;
    var siteUrl: Option<string> := None;
    AtElement(ev, p, n);
    q := p + 1;
    ghost var k := 0;
    assert cs[k..] == cs;
    AtChildren(ev, q, cs, k, n.name);
    while !ev[q].EndTag?
      invariant 0 <= k <= |cs| && p < q
      invariant At(ev, q, SerAll(cs[k..]) + [EndTag(n.name)])
      invariant ev[q].EndTag? <==> k == |cs|
      invariant q + |SerAll(cs[k..])| == p + 1 + |SerAll(cs)|
      invariant ChannelFold(cs, EmptyFeed, sourceUrl, parseDate)
        == ChannelFold(cs[k..], ParsedFeed(entries, imageUrl, siteUrl), sourceUrl, parseDate)
      decreases |cs| - k
    {
      ghost var c := cs[k];
      ghost var st := ParsedFeed(entries, imageUrl, siteUrl);
      NextChild(ev, q, cs, k, n.name);
      assert WellFormed(c);
      assert cs[k..][0] == c && cs[k..][1..] == cs[k + 1..];
      ghost var start := q;
      if ev[q].StartTag? {
        var name := ev[q].name;
        if name == "item" {
          var a, q' := ReadEntry(ev, q, sourceUrl, parseDate, c);
          if a.Err? { return Err(a.error), q'; }
          entries := entries + [a.value];
          q := q';
        } else if name == "image" {
          var u, q' := ReadImage(ev, q, c);
          if u.Err? { return Err(u.error), q'; }
          imageUrl := u.value;
          q := q';
        } else if name == "link" {
          var t, q' := ReadText(ev, q, c);
          if t.Err? { return Err(t.error), q'; }
          siteUrl := Some(t.value);
          q := q';
        } else {
          var s := Skip(ev, q, c);
          q := s.value;
        }
      }
      assert ChannelStep(c, st, sourceUrl, parseDate) == Ok(ParsedFeed(entries, imageUrl, siteUrl));
      q := q + 1;
      ChildDone(ev, start, q, cs, k, n.name);
      k := k + 1;
    }
    assert cs[k..] == [];
    assert Ser(n) == [StartTag(n.name, n.attrs)] + SerAll(cs) + [EndTag(n.name)];
    r := Ok(ParsedFeed(entries, imageUrl, siteUrl));
  }

  /** `readFeed` over the events of a whole document whose root is `root`. */
  method ReadFeed(ev: seq<Event>, sourceUrl: string, parseDate: Option<string> -> int, ghost root: Node)
    returns (r: Result<ParsedFeed, XmlError>)
    requires root.Element? && WellFormed(root) && ev == Ser(root)
    ensures r == FeedOf(root, sourceUrl, parseDate)
  {
    assert At(ev, 0, Ser(root));
    AtElement(ev, 0, root);
    var entries: seq<Article> := [];
    var imageUrl: Option<string> := None;
    var siteUrl: Option<string> := None;
    if ev[0].name == "rss" {
      ghost var cs := root.children;
      var q := 1;
      ghost var k := 0;
      AtChildren(ev, q, cs, k, root.name);
      while !ev[q].EndTag?
        invariant 0 <= k <= |cs| && 0 < q
        invariant At(ev, q, SerAll(cs[k..]) + [EndTag(root.name)])
        invariant ev[q].EndTag? <==> k == |cs|
        invariant RssFold(cs, EmptyFeed, sourceUrl, parseDate)
          == RssFold(cs[k..], ParsedFeed(entries, imageUrl, siteUrl), sourceUrl, parseDate)
        decreases |cs| - k
      {
        ghost var c := cs[k];
        NextChild(ev, q, cs, k, root.name);
        assert WellFormed(c);
        assert cs[k..][0] == c && cs[k..][1..] == cs[k + 1..];
        ghost var start := q;
        if ev[q].StartTag? {
          if ev[q].name == "channel" {
            var ch, q' := ReadChannel(ev, q, sourceUrl, parseDate, c);
            if ch.Err? { return Err(ch.error); }
            entries, imageUrl, siteUrl := ch.value.articles, ch.value.imageUrl, ch.value.siteUrl;
            q := q';
          } else {
            var s := Skip(ev, q, c);
            q := s.value;
          }
        }
        q := q + 1;
        ChildDone(ev, start, q, cs, k, root.name);
        k := k + 1;
      }
      assert cs[k..] == [];
    } else if ev[0].name == "feed" {
      var ch, _ := ReadChannel(ev, 0, sourceUrl, parseDate, root);
      if ch.Err? { return Err(ch.error); }
      entries, imageUrl := ch.value.articles, ch.value.imageUrl;
    }
    r := Ok(ParsedFeed(entries, imageUrl, siteUrl));
  }
}
