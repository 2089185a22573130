/** The article reader's two pieces of logic: the small Markdown subset the
    AI summary is rendered with (bullets and bold runs, line by line), and
    the floating button that hides while the reader scrolls down. */
module ArticleReader {
  import opened Strings

  // ---------------------------------------------------------------------------
  // Markdown text

  /** A run appended to the annotated string, bold or plain. */
  datatype Span = Span(text: string, bold: bool)

  const Bullet := "•  "
  const Marker := "**"
  const Newline := "\n"

  /** The line is a bullet: after trimming it starts with "* ". */
  predicate IsBullet(line: string) {
    StartsWith(Trim(line), "* ")
  }

  /** `processedLine`: the trimmed line, its leading "* " turned into a
      bullet sign. */
  function LineText(line: string): (r: string)
    ensures IsBullet(line) ==> StartsWith(r, Bullet) && r[|Bullet|..] == Trim(line)[2..]
    ensures !IsBullet(line) ==> r == Trim(line)
  {
    var t := Trim(line);
    if StartsWith(t, "* ") then Bullet + t[2..] else t
  }

  /** The texts of some spans. */
  function Texts(spans: seq<Span>): (r: seq<string>)
    ensures |r| == |spans| && forall k :: 0 <= k < |r| ==> r[k] == spans[k].text
  {
    seq(|spans|, k requires 0 <= k < |spans| => spans[k].text)
  }

  /** What the spans read as, styles set aside. */
  function PlainText(spans: seq<Span>): string {
    Concat(Texts(spans))
  }

  /** Pieces of text, every second one bold. */
  function Alternate(parts: seq<string>): (r: seq<Span>)
    ensures |r| == |parts|
    ensures forall k :: 0 <= k < |r| ==> r[k].text == parts[k] && (r[k].bold <==> k % 2 == 1)
  {
    seq(|parts|, k requires 0 <= k < |parts| => Span(parts[k], k % 2 == 1))
  }

  /** One line's spans: the pieces between "**" markers, every second one
      bold. */
  function LineSpans(line: string): seq<Span> {
    Alternate(Split(LineText(line), Marker))
  }

  /** A line gives at least one span; the spans are the pieces between the
      markers, bold exactly at odd positions, and putting the markers back
      between them gives the line. */
  lemma LineSpansMeaning(line: string)
    ensures var r := LineSpans(line);
      && |r| >= 1
      && Texts(r) == Split(LineText(line), Marker)
      && (forall k :: 0 <= k < |r| ==> (r[k].bold <==> k % 2 == 1))
      && Join(Texts(r), Marker) == LineText(line)
  {
    var parts := Split(LineText(line), Marker);
    assert Texts(LineSpans(line)) == parts;
    JoinSplit(LineText(line), Marker);
  }

  /** The spans of every line. */
  function LinesSpans(lines: seq<string>): (r: seq<seq<Span>>)
    ensures |r| == |lines| && forall k :: 0 <= k < |r| ==> r[k] == LineSpans(lines[k])
  {
    seq(|lines|, k requires 0 <= k < |lines| => LineSpans(lines[k]))
  }

  /** The first `n` lines' spans, each followed by a plain line break
      unless it is the last line. */
  function Layout(ls: seq<seq<Span>>, n: int): seq<Span>
    requires 0 <= n <= |ls|
    decreases n
  {
    if n == 0 then []
    else Layout(ls, n - 1) + ls[n - 1] + (if n - 1 < |ls| - 1 then [Span(Newline, false)] else [])
  }

  /** The annotated string `MarkdownText` builds for `text`. */
  function Render(text: string): seq<Span> {
    var lines := Split(text, Newline);
    Layout(LinesSpans(lines), |lines|)
  }

  /** `MarkdownText`: line by line, the line's spans, then a line break
      unless it is the last line. */
  method MarkdownText(text: string) returns (spans: seq<Span>)
    ensures spans == Render(text)
  {
    var lines := Split(text, Newline);
    ghost var rendered := LinesSpans(lines);
    spans := [];
    var index := 0;
    while index < |lines|
      invariant 0 <= index <= |lines|
      invariant spans == Layout(rendered, index)
    {
      var line := AppendLine(lines[index]);
      assert line == rendered[index];
      spans := spans + line;
      if index < |lines| - 1 {
        spans := spans + [Span(Newline, false)];
      }
      index := index + 1;
    }
  }

  /** One line: trimmed, its leading "* " replaced by the bullet sign, then
      cut at the "**" markers. */
  method AppendLine(rawLine: string) returns (line: seq<Span>)
    ensures line == LineSpans(rawLine)
  {
    var processed := Trim(rawLine);
    if StartsWith(processed, "* ") {
      processed := Bullet + processed[2..];
    }
    assert processed == LineText(rawLine);
    var parts := Split(processed, Marker);
    line := AppendParts(parts);
  }

  /** The pieces of one line appended in turn, bold at odd positions. */
  method AppendParts(parts: seq<string>) returns (line: seq<Span>)
    ensures line == Alternate(parts)
  {
    ghost var want := Alternate(parts);
    line := [];
    var partIndex := 0;
    while partIndex < |parts|
      invariant 0 <= partIndex <= |parts|
      invariant line == want[..partIndex]
    {
      assert want[..partIndex + 1] == want[..partIndex] + [want[partIndex]];
      if partIndex % 2 == 1 {
        line := line + [Span(parts[partIndex], true)];
      } else {
        line := line + [Span(parts[partIndex], false)];
      }
      partIndex := partIndex + 1;
    }
    assert want[..partIndex] == want;
  }

  /** Line `l` as read: its pieces with the markers dropped. */
  function LinePlain(l: string): string {
    PlainText(LineSpans(l))
  }

  function Plains(lines: seq<string>): (r: seq<string>)
    ensures |r| == |lines| && forall k :: 0 <= k < |r| ==> r[k] == LinePlain(lines[k])
  {
    seq(|lines|, k requires 0 <= k < |lines| => LinePlain(lines[k]))
  }

  lemma PlainTextAppend(a: seq<Span>, b: seq<Span>)
    ensures PlainText(a + b) == PlainText(a) + PlainText(b)
  {
    assert Texts(a + b) == Texts(a) + Texts(b);
    ConcatAppend(Texts(a), Texts(b));
  }

  lemma PlainBreak()
    ensures PlainText([Span(Newline, false)]) == Newline
  {
    assert Texts([Span(Newline, false)]) == [Newline];
    assert Concat([Newline]) == Newline + Concat([]);
  }

  /** The plain texts of some spans' runs. */
  function PlainsOf(ls: seq<seq<Span>>): (r: seq<string>)
    ensures |r| == |ls| && forall k :: 0 <= k < |r| ==> r[k] == PlainText(ls[k])
  {
    seq(|ls|, k requires 0 <= k < |ls| => PlainText(ls[k]))
  }

  /** The first `n` lines' spans read as their plain texts joined by line
      breaks, with the break that follows line `n` when there is one. */
  lemma {:induction false} LayoutPlain(ls: seq<seq<Span>>, n: int)
    requires 0 <= n <= |ls|
    ensures PlainText(Layout(ls, n)) ==
      Join(PlainsOf(ls)[..n], Newline) + (if 0 < n < |ls| then Newline else [])
    decreases n
  {
    if n > 0 {
      var m := n - 1;
      var tail := if m < |ls| - 1 then [Span(Newline, false)] else [];
      var ps := PlainsOf(ls);
      var prev := PlainText(Layout(ls, m));
      assert PlainText(Layout(ls, n)) == prev + ps[m] + PlainText(tail) by {
        PlainTextAppend(Layout(ls, m), ls[m]);
        PlainTextAppend(Layout(ls, m) + ls[m], tail);
      }
      assert PlainText(tail) == (if 0 < n < |ls| then Newline else []) by {
        PlainBreak();
        assert PlainText([]) == [];
      }
      assert Join(ps[..n], Newline) == if m == 0 then ps[m] else Join(ps[..m], Newline) + Newline + ps[m] by {
        assert ps[..n] == ps[..m] + [ps[m]];
        JoinSnoc(ps[..m], ps[m], Newline);
      }
      var after := if 0 < n < |ls| then Newline else [];
      LayoutPlain(ls, m);
      if m == 0 {
        assert prev == [];
        assert prev + ps[m] + PlainText(tail) == ps[m] + after;
      } else {
        var front := Join(ps[..m], Newline);
        assert prev == front + Newline;
        assert prev + ps[m] + PlainText(tail) == (front + Newline + ps[m]) + after;
      }
    }
  }

  /** The rendered text, read plainly, is the input's lines joined by line
      breaks, each line trimmed, its bullet replaced and its "**" markers
      dropped. */
  lemma RenderPlain(text: string)
    ensures var lines := Split(text, Newline);
      PlainText(Render(text)) == Join(Plains(lines), Newline)
  {
    var lines := Split(text, Newline);
    var ls := LinesSpans(lines);
    LayoutPlain(ls, |lines|);
    assert PlainsOf(ls)[..|lines|] == Plains(lines);
  }

  /** Trimming adds no character. */
  lemma TrimCount(l: string, c: char)
    ensures CountChar(Trim(l), c) <= CountChar(l, c)
  {
    var t := Trim(l);
    var i :| OccursAt(l, t, i);
    CountCharSlice(l, t, i, c);
  }

  /** A slice holds no more of a character than the whole. */
  lemma CountCharSlice(l: string, t: string, i: int, c: char)
    requires OccursAt(l, t, i)
    ensures CountChar(t, c) <= CountChar(l, c)
  {
    var pre, post := l[..i], l[i + |t|..];
    assert l == pre + t + post;
    CountCharAppend(pre, t, c);
    CountCharAppend(pre + t, post, c);
  }

  lemma LineTextNoBreak(l: string)
    requires CountChar(l, '\n') == 0
    ensures CountChar(LineText(l), '\n') == 0
  {
    var t := Trim(l);
    TrimCount(l, '\n');
    if StartsWith(t, "* ") {
      assert t == t[..2] + t[2..];
      CountCharAppend(t[..2], t[2..], '\n');
      CountCharAppend(Bullet, t[2..], '\n');
    }
  }

  /** A line free of line breaks reads without any. */
  lemma LinePlainNoBreak(l: string)
    requires CountChar(l, '\n') == 0
    ensures CountChar(LinePlain(l), '\n') == 0
  {
    LineTextNoBreak(l);
    LineSpansMeaning(l);
    CountCharJoinFree(Texts(LineSpans(l)), Marker, '\n');
  }

  /** The rendered text holds exactly one line break fewer than the input
      has lines. */
  lemma RenderLineBreaks(text: string)
    ensures CountChar(PlainText(Render(text)), '\n') == |Split(text, Newline)| - 1
  {
    var lines := Split(text, Newline);
    RenderPlain(text);
    SplitFromNoDelimiter(text, '\n', []);
    forall k | 0 <= k < |lines| ensures CountChar(Plains(lines)[k], '\n') == 0 {
      LinePlainNoBreak(lines[k]);
    }
    CountCharJoin(Plains(lines), '\n');
  }

  // ---------------------------------------------------------------------------
  // The floating button

  /** The button's visibility and the last scroll offset seen. */
  class Fab {
    var visible: bool
    var previousOffset: int

    constructor()
      ensures visible && previousOffset == 0
    {
      visible := true;
      previousOffset := 0;
    }

    /** A new scroll offset: scrolling down hides the button, scrolling up
        shows it, no movement leaves it; the offset is remembered. */
    method OnScroll(offset: int)
      modifies this
      ensures visible == if offset > old(previousOffset) then false
                         else if offset < old(previousOffset) then true
                         else old(visible)
      ensures previousOffset == offset
    {
      if offset > previousOffset {
        visible := false;
      } else if offset < previousOffset {
        visible := true;
      }
      previousOffset := offset;
    }
  }

  /** The button after a series of offsets, one `OnScroll` each, in order. */
  function AfterScrolls(visible: bool, previous: int, offsets: seq<int>): (bool, int)
    decreases |offsets|
  {
    if |offsets| == 0 then (visible, previous)
    else
      var o := offsets[0];
      var v := if o > previous then false else if o < previous then true else visible;
      AfterScrolls(v, o, offsets[1..])
  }

  /** The direction of the last movement in a series of offsets starting
      from `previous`: 1 down, -1 up, 0 none. */
  function LastMove(previous: int, offsets: seq<int>): (d: int)
    ensures -1 <= d <= 1
    decreases |offsets|
  {
    if |offsets| == 0 then 0
    else
      var before := if |offsets| == 1 then previous else offsets[|offsets| - 2];
      var last := offsets[|offsets| - 1];
      if last > before then 1 else if last < before then -1
      else LastMove(previous, offsets[..|offsets| - 1])
  }

  lemma {:induction false} AfterScrollsSnoc(visible: bool, previous: int, offsets: seq<int>, o: int)
    ensures var (v, p) := AfterScrolls(visible, previous, offsets);
      AfterScrolls(visible, previous, offsets + [o]) ==
        (if o > p then false else if o < p then true else v, o)
    decreases |offsets|
  {
    if |offsets| == 0 {
      assert offsets + [o] == [o];
    } else {
      var o0 := offsets[0];
      var v := if o0 > previous then false else if o0 < previous then true else visible;
      assert (offsets + [o])[1..] == offsets[1..] + [o];
      AfterScrollsSnoc(v, o0, offsets[1..], o);
    }
  }

  lemma {:induction false} AfterScrollsOffset(visible: bool, previous: int, offsets: seq<int>)
    ensures AfterScrolls(visible, previous, offsets).1 ==
      if |offsets| == 0 then previous else offsets[|offsets| - 1]
    decreases |offsets|
  {
    if |offsets| > 0 {
      var init := offsets[..|offsets| - 1];
      assert offsets == init + [offsets[|offsets| - 1]];
      AfterScrollsSnoc(visible, previous, init, offsets[|offsets| - 1]);
    }
  }

  /** After any series of offsets the button is hidden exactly when the
      last movement was downwards, shown when it was upwards, and as it was
      when nothing moved. */
  lemma {:induction false} FabFollowsLastMove(visible: bool, previous: int, offsets: seq<int>)
    ensures AfterScrolls(visible, previous, offsets).0 ==
      if LastMove(previous, offsets) == 1 then false
      else if LastMove(previous, offsets) == -1 then true
      else visible
    decreases |offsets|
  {
    if |offsets| > 0 {
      var init := offsets[..|offsets| - 1];
      var o := offsets[|offsets| - 1];
      assert offsets == init + [o];
      FabFollowsLastMove(visible, previous, init);
      AfterScrollsOffset(visible, previous, init);
      AfterScrollsSnoc(visible, previous, init, o);
    }
  }
}
