/** The XML documents the parsers read, as an element tree and as the stream
    of pull-parser events that the tree serialises to. */
module Xml {
  import opened Wrappers

  datatype Attr = Attr(name: string, value: string)

  /** A parsed document: elements with attributes and children, and text runs. */
  datatype Node =
    | Element(name: string, attrs: seq<Attr>, children: seq<Node>)
    | Text(text: string)

  /** The events an XML pull parser reports: START_TAG, END_TAG and TEXT. */
  datatype Event =
    | StartTag(name: string, attrs: seq<Attr>)
    | EndTag(name: string)
    | TextEvent(text: string)

  /** Why a parse throws. */
  datatype XmlError =
    | NotOnStartTag          // `skip` called away from a START_TAG
    | UnexpectedEvent        // `require`/`nextTag` found another event
    | WrongRoot              // a required root element is missing

  /** The events of one node, in document order. */
  function Ser(n: Node): seq<Event>
    decreases n, 1
  {
    match n
    case Text(t) => [TextEvent(t)]
    case Element(name, attrs, cs) => [StartTag(name, attrs)] + SerAll(cs) + [EndTag(name)]
  }

  /** The events of a sequence of sibling nodes. */
  function SerAll(ns: seq<Node>): seq<Event>
    decreases ns, 0
  {
    if |ns| == 0 then [] else Ser(ns[0]) + SerAll(ns[1..])
  }

  /** A pull parser joins adjacent character data into one TEXT event, so no
      element has two text children in a row. */
  predicate WellFormed(n: Node)
    decreases n
  {
    match n
    case Text(_) => true
    case Element(_, _, cs) =>
      (forall i :: 0 <= i < |cs| - 1 ==> !(cs[i].Text? && cs[i + 1].Text?))
      && (forall i :: 0 <= i < |cs| ==> WellFormed(cs[i]))
  }

  /** `parser.getAttributeValue(null, name)`: the first attribute with that name. */
  function AttributeValue(attrs: seq<Attr>, name: string): (r: Option<string>)
    ensures r.None? <==> forall i :: 0 <= i < |attrs| ==> attrs[i].name != name
    ensures r.Some? ==> exists i :: 0 <= i < |attrs| && attrs[i] == Attr(name, r.value)
  {
    if |attrs| == 0 then None
    else if attrs[0].name == name then Some(attrs[0].value)
    else
      var r := AttributeValue(attrs[1..], name);
      assert r.Some? ==> attrs[1..][0..] == attrs[1..];
      r
  }

  /** The events `s` sit in `ev` starting at index `p`. */
  predicate At(ev: seq<Event>, p: int, s: seq<Event>) {
    0 <= p && p + |s| <= |ev| && ev[p..p + |s|] == s
  }

  lemma AtSplit(ev: seq<Event>, p: int, a: seq<Event>, b: seq<Event>)
    requires At(ev, p, a + b)
    ensures At(ev, p, a) && At(ev, p + |a|, b)
  {
    assert ev[p..p + |a|] == (a + b)[..|a|];
    assert ev[p + |a|..p + |a| + |b|] == (a + b)[|a|..];
  }

  /** The events of an element split into its start tag, its children and its end tag. */
  lemma AtElement(ev: seq<Event>, p: int, n: Node)
    requires n.Element? && At(ev, p, Ser(n))
    ensures ev[p] == StartTag(n.name, n.attrs)
    ensures At(ev, p + 1, SerAll(n.children) + [EndTag(n.name)])
  {
    assert Ser(n) == [StartTag(n.name, n.attrs)] + (SerAll(n.children) + [EndTag(n.name)]);
    AtSplit(ev, p, [StartTag(n.name, n.attrs)], SerAll(n.children) + [EndTag(n.name)]);
  }

  /** Past the first `k` children, the next ones follow. */
  lemma AtChild(ev: seq<Event>, p: int, cs: seq<Node>, k: int, tail: seq<Event>)
    requires 0 <= k < |cs| && At(ev, p, SerAll(cs[k..]) + tail)
    ensures At(ev, p, Ser(cs[k]))
    ensures At(ev, p + |Ser(cs[k])|, SerAll(cs[k + 1..]) + tail)
  {
    assert cs[k..][1..] == cs[k + 1..];
    assert SerAll(cs[k..]) + tail == Ser(cs[k]) + (SerAll(cs[k + 1..]) + tail);
    AtSplit(ev, p, Ser(cs[k]), SerAll(cs[k + 1..]) + tail);
  }

  /** What the event at `p` says about the node serialised there. */
  lemma AtNode(ev: seq<Event>, p: int, c: Node)
    requires At(ev, p, Ser(c))
    ensures c.Element? ==> ev[p] == StartTag(c.name, c.attrs)
    ensures c.Text? ==> ev[p] == TextEvent(c.text)
  {
    assert ev[p] == Ser(c)[0];
  }

  /** The loop condition `parser.next() != END_TAG` holds exactly while
      children remain. */
  lemma AtChildren(ev: seq<Event>, q: int, cs: seq<Node>, k: int, name: string)
    requires 0 <= k <= |cs| && At(ev, q, SerAll(cs[k..]) + [EndTag(name)])
    ensures ev[q].EndTag? <==> k == |cs|
  {
    if k < |cs| {
      AtChild(ev, q, cs, k, [EndTag(name)]);
      AtNode(ev, q, cs[k]);
    } else {
      assert cs[k..] == [];
    }
  }

  /** The child at `k` starts at `q`. */
  lemma NextChild(ev: seq<Event>, q: int, cs: seq<Node>, k: int, name: string)
    requires 0 <= k < |cs| && At(ev, q, SerAll(cs[k..]) + [EndTag(name)])
    ensures At(ev, q, Ser(cs[k]))
    ensures cs[k].Element? ==> ev[q] == StartTag(cs[k].name, cs[k].attrs)
    ensures cs[k].Text? ==> ev[q] == TextEvent(cs[k].text) && |Ser(cs[k])| == 1
  {
    AtChild(ev, q, cs, k, [EndTag(name)]);
    AtNode(ev, q, cs[k]);
  }

  /** Past the child at `k`, which started at `q0`: the next child or the end tag. */
  lemma ChildDone(ev: seq<Event>, q0: int, q: int, cs: seq<Node>, k: int, name: string)
    requires 0 <= k < |cs| && At(ev, q0, SerAll(cs[k..]) + [EndTag(name)])
    requires q == q0 + |Ser(cs[k])|
    ensures |SerAll(cs[k..])| == |Ser(cs[k])| + |SerAll(cs[k + 1..])|
    ensures At(ev, q, SerAll(cs[k + 1..]) + [EndTag(name)])
    ensures ev[q].EndTag? <==> k + 1 == |cs|
  {
    assert cs[k..][1..] == cs[k + 1..];
    AtChild(ev, q0, cs, k, [EndTag(name)]);
    AtChildren(ev, q, cs, k + 1, name);
  }

  /** How an event moves the depth counter of `skip`. */
  function Delta(e: Event): int {
    match e
    case StartTag(_, _) => 1
    case EndTag(_) => -1
    case TextEvent(_) => 0
  }

  /** Open start tags minus end tags, counted from the left. */
  function Balance(s: seq<Event>): int {
    if |s| == 0 then 0 else Balance(s[..|s| - 1]) + Delta(s[|s| - 1])
  }

  lemma {:induction false} BalanceAppend(a: seq<Event>, b: seq<Event>)
    ensures Balance(a + b) == Balance(a) + Balance(b)
    decreases |b|
  {
    if |b| == 0 {
      assert a + b == a;
    } else {
      assert (a + b)[..|a + b| - 1] == a + b[..|b| - 1];
      BalanceAppend(a, b[..|b| - 1]);
    }
  }

  /** A text node is balanced; an element is balanced and every nonempty
      proper prefix of it has an unclosed start tag. */
  lemma {:induction false} NodeBalance(n: Node)
    ensures Balance(Ser(n)) == 0
    ensures forall i :: 0 <= i <= |Ser(n)| ==> Balance(Ser(n)[..i]) >= 0
    ensures n.Element? ==> forall i :: 1 <= i < |Ser(n)| ==> Balance(Ser(n)[..i]) >= 1
    decreases n, 1
  {
    match n
    case Text(t) =>
      assert Ser(n)[..0] == [];
      assert Ser(n)[..1] == [TextEvent(t)];
      assert [TextEvent(t)][..0] == [];
    case Element(name, attrs, cs) =>
      var open, body, close := [StartTag(name, attrs)], SerAll(cs), [EndTag(name)];
      AllBalance(cs);
      assert open[..0] == [];
      BalanceAppend(open, body);
      BalanceAppend(open + body, close);
      assert Ser(n) == open + body + close;
      forall i | 1 <= i < |Ser(n)|
        ensures Balance(Ser(n)[..i]) >= 1
      {
        assert Ser(n)[..i] == open + body[..i - 1];
        BalanceAppend(open, body[..i - 1]);
      }
      assert Ser(n)[..0] == [];
      assert Ser(n)[..|Ser(n)|] == Ser(n);
  }

  /** A sequence of siblings is balanced and never closes more than it opened. */
  lemma {:induction false} AllBalance(ns: seq<Node>)
    ensures Balance(SerAll(ns)) == 0
    ensures forall i :: 0 <= i <= |SerAll(ns)| ==> Balance(SerAll(ns)[..i]) >= 0
    decreases ns, 0
  {
    if |ns| == 0 {
    } else {
      var a, b := Ser(ns[0]), SerAll(ns[1..]);
      NodeBalance(ns[0]);
      AllBalance(ns[1..]);
      BalanceAppend(a, b);
      forall i | 0 <= i <= |a + b|
        ensures Balance((a + b)[..i]) >= 0
      {
        if i <= |a| {
          assert (a + b)[..i] == a[..i];
        } else {
          assert (a + b)[..i] == a + b[..i - |a|];
          BalanceAppend(a, b[..i - |a|]);
        }
      }
    }
  }

  /** `skip`: from the START_TAG of an element, advance to its matching
      END_TAG by counting depth; anywhere else it throws. The result is the
      index of that END_TAG, the last event of the element. */
  method Skip(ev: seq<Event>, p: nat, ghost n: Node) returns (r: Result<nat, XmlError>)
    requires At(ev, p, Ser(n))
    ensures r.Ok? <==> n.Element?
    ensures r.Ok? ==> r.value == p + |Ser(n)| - 1
    ensures r.Err? ==> r.error == NotOnStartTag
  {
    if !ev[p].StartTag? {
      return Err(NotOnStartTag);
    }
    ghost var s := Ser(n);
    NodeBalance(n);
    var depth := 1;
    var q := p;
    assert s[..1] == [s[0]];
    assert s[..|s|] == s;
    while depth != 0
      invariant p <= q < p + |s|
      invariant depth == Balance(s[..q + 1 - p])
      decreases p + |s| - q
    {
      q := q + 1;
      assert s[..q + 1 - p][..q - p] == s[..q - p];
      assert ev[q] == s[q - p];
      if ev[q].EndTag? {
        depth := depth - 1;
      } else if ev[q].StartTag? {
        depth := depth + 1;
      }
    }
    r := Ok(q);
  }
}
