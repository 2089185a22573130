/** Kotlin string operations the application relies on, over `seq<char>`. */
module Strings {

  /** Kotlin's `Char.isWhitespace()`: the ASCII controls TAB..CR and FS..US, the
      space separators (including the no-break spaces) and the line and
      paragraph separators. */
  predicate IsWhitespace(c: char) {
    ('\t' <= c <= '\r') || ('\U{1C}' <= c <= ' ') || c == '\U{A0}' || c == '\U{1680}'
    || ('\U{2000}' <= c <= '\U{200A}') || c == '\U{2028}' || c == '\U{2029}'
    || c == '\U{202F}' || c == '\U{205F}' || c == '\U{3000}'
  }

  /** Kotlin's `isBlank()`: empty or whitespace only. */
  predicate IsBlank(s: string) {
    forall i :: 0 <= i < |s| ==> IsWhitespace(s[i])
  }

  /** `s.startsWith(p)`. */
  predicate StartsWith(s: string, p: string) {
    |p| <= |s| && s[..|p|] == p
  }

  /** `t` occurs in `s` at index `i`. */
  predicate OccursAt(s: string, t: string, i: int) {
    0 <= i && i + |t| <= |s| && s[i..i + |t|] == t
  }

  /** `s.contains(t)`, computed by scanning. */
  function Contains(s: string, t: string): (b: bool)
    ensures b <==> exists i :: OccursAt(s, t, i)
    decreases |s|
  {
    if StartsWith(s, t) then
      assert OccursAt(s, t, 0);
      true
    else if |s| == 0 then
      false
    else
      var b := Contains(s[1..], t);
      assert b ==> exists i :: OccursAt(s, t, i) by {
        if b {
          var i :| OccursAt(s[1..], t, i);
          assert s[i + 1..i + 1 + |t|] == s[1..][i..i + |t|];
          assert OccursAt(s, t, i + 1);
        }
      }
      assert (exists i :: OccursAt(s, t, i)) ==> b by {
        if exists i :: OccursAt(s, t, i) {
          var i :| OccursAt(s, t, i);
          assert i != 0;
          assert s[1..][i - 1..i - 1 + |t|] == s[i..i + |t|];
          assert OccursAt(s[1..], t, i - 1);
        }
      }
      b
  }

  /** Kotlin's `trimStart()`. */
  function TrimStart(s: string): (r: string)
    ensures |r| <= |s| && r == s[|s| - |r|..]
    ensures r == [] || !IsWhitespace(r[0])
    ensures forall i :: 0 <= i < |s| - |r| ==> IsWhitespace(s[i])
    decreases |s|
  {
    if |s| > 0 && IsWhitespace(s[0]) then TrimStart(s[1..]) else s
  }

  /** Kotlin's `trimEnd()`. */
  function TrimEnd(s: string): (r: string)
    ensures |r| <= |s| && r == s[..|r|]
    ensures r == [] || !IsWhitespace(r[|r| - 1])
    ensures forall i :: |r| <= i < |s| ==> IsWhitespace(s[i])
    decreases |s|
  {
    if |s| > 0 && IsWhitespace(s[|s| - 1]) then TrimEnd(s[..|s| - 1]) else s
  }

  /** `r` is a contiguous piece of `s`. */
  ghost predicate IsSlice(r: string, s: string) {
    exists i :: OccursAt(s, r, i)
  }

  /** Kotlin's `trim()`: `s` without its leading and trailing whitespace. */
  function Trim(s: string): (r: string)
    ensures r == [] || (!IsWhitespace(r[0]) && !IsWhitespace(r[|r| - 1]))
    ensures IsSlice(r, s)
  {
    var t := TrimStart(s);
    var r := TrimEnd(t);
    assert OccursAt(s, r, |s| - |t|);
    r
  }

  /** Trimming twice is trimming once. */
  lemma TrimIdempotent(s: string)
    ensures Trim(Trim(s)) == Trim(s)
  {
    var r := Trim(s);
    assert TrimStart(r) == r;
    assert TrimEnd(r) == r;
  }

  /** A blank string trims to the empty string and nothing else does. */
  lemma {:induction false} TrimEmptyIffBlank(s: string)
    ensures Trim(s) == [] <==> IsBlank(s)
  {
    var t := TrimStart(s);
    if t != [] {
      assert t[0] == s[|s| - |t|];
      assert TrimEnd(t) != [];
    }
  }

  /** ASCII case fold of one character. */
  function LowerChar(c: char): char {
    if 'A' <= c <= 'Z' then (c as int + 32) as char else c
  }

  /** `lowercase()` restricted to the ASCII letters. */
  function Lower(s: string): (r: string)
    ensures |r| == |s| && forall i :: 0 <= i < |s| ==> r[i] == LowerChar(s[i])
  {
    seq(|s|, i requires 0 <= i < |s| => LowerChar(s[i]))
  }

  /** `s.contains(t, ignoreCase = true)`, with ASCII case folding. */
  predicate ContainsIgnoreCase(s: string, t: string) {
    Contains(Lower(s), Lower(t))
  }

  /** Splitting `s` on the delimiter `d`, `cur` being the part read so far:
      Kotlin's `split(d)`, which cuts at each leftmost non-overlapping occurrence. */
  function SplitFrom(s: string, d: string, cur: string): (r: seq<string>)
    requires |d| > 0
    ensures |r| >= 1
    decreases |s|
  {
    if |s| == 0 then [cur]
    else if StartsWith(s, d) then [cur] + SplitFrom(s[|d|..], d, [])
    else SplitFrom(s[1..], d, cur + [s[0]])
  }

  /** Kotlin's `s.split(d)`. */
  function Split(s: string, d: string): seq<string>
    requires |d| > 0
  {
    SplitFrom(s, d, [])
  }

  /** `parts.joinToString(sep)`. */
  function Join(parts: seq<string>, sep: string): string {
    if |parts| == 0 then []
    else if |parts| == 1 then parts[0]
    else parts[0] + sep + Join(parts[1..], sep)
  }

  /** The parts concatenated with no separator. */
  function Concat(parts: seq<string>): string {
    if |parts| == 0 then [] else parts[0] + Concat(parts[1..])
  }

  /** Joining the parts of a split with the same delimiter gives the input back. */
  lemma {:induction false} JoinSplitFrom(s: string, d: string, cur: string)
    requires |d| > 0
    ensures Join(SplitFrom(s, d, cur), d) == cur + s
    decreases |s|
  {
    if |s| == 0 {
    } else if StartsWith(s, d) {
      JoinSplitFrom(s[|d|..], d, []);
      var rest := SplitFrom(s[|d|..], d, []);
      assert ([cur] + rest)[1..] == rest;
      assert s == d + s[|d|..];
    } else {
      JoinSplitFrom(s[1..], d, cur + [s[0]]);
      assert cur + [s[0]] + s[1..] == cur + s;
    }
  }

  /** `Join(Split(s, d), d) == s`. */
  lemma JoinSplit(s: string, d: string)
    requires |d| > 0
    ensures Join(Split(s, d), d) == s
  {
    JoinSplitFrom(s, d, []);
  }

  /** Number of occurrences of the character `c` in `s`. */
  function CountChar(s: string, c: char): nat {
    if |s| == 0 then 0 else (if s[0] == c then 1 else 0) + CountChar(s[1..], c)
  }

  lemma {:induction false} CountCharAppend(a: string, b: string, c: char)
    ensures CountChar(a + b, c) == CountChar(a, c) + CountChar(b, c)
  {
    if |a| == 0 {
      assert a + b == b;
    } else {
      assert (a + b)[1..] == a[1..] + b;
      CountCharAppend(a[1..], b, c);
    }
  }

  /** No part of a split on a one-character delimiter contains that character,
      provided the part read so far does not. */
  lemma {:induction false} SplitFromNoDelimiter(s: string, c: char, cur: string)
    requires CountChar(cur, c) == 0
    ensures forall k :: 0 <= k < |SplitFrom(s, [c], cur)| ==> CountChar(SplitFrom(s, [c], cur)[k], c) == 0
    decreases |s|
  {
    if |s| == 0 {
    } else if StartsWith(s, [c]) {
      SplitFromNoDelimiter(s[1..], c, []);
    } else {
      assert s[0] != c;
      CountCharAppend(cur, [s[0]], c);
      SplitFromNoDelimiter(s[1..], c, cur + [s[0]]);
    }
  }

  /** Joining `n` parts free of `c` with the separator `c` puts exactly `n - 1` of them in. */
  lemma {:induction false} CountCharJoin(parts: seq<string>, c: char)
    requires |parts| >= 1
    requires forall k :: 0 <= k < |parts| ==> CountChar(parts[k], c) == 0
    ensures CountChar(Join(parts, [c]), c) == |parts| - 1
  {
    if |parts| == 1 {
    } else {
      CountCharJoin(parts[1..], c);
      CountCharAppend(parts[0], [c], c);
      CountCharAppend(parts[0] + [c], Join(parts[1..], [c]), c);
    }
  }

  /** Joining one more part adds the separator and the part. */
  lemma {:induction false} JoinSnoc(parts: seq<string>, x: string, sep: string)
    ensures Join(parts + [x], sep) == if |parts| == 0 then x else Join(parts, sep) + sep + x
  {
    if |parts| > 1 {
      assert (parts + [x])[1..] == parts[1..] + [x];
      JoinSnoc(parts[1..], x, sep);
    } else if |parts| == 1 {
      assert (parts + [x])[1..] == [x];
    }
  }

  lemma {:induction false} ConcatAppend(a: seq<string>, b: seq<string>)
    ensures Concat(a + b) == Concat(a) + Concat(b)
  {
    if |a| == 0 {
      assert a + b == b;
    } else {
      assert (a + b)[1..] == a[1..] + b;
      ConcatAppend(a[1..], b);
    }
  }

  /** A separator free of `c` adds no `c`: the joined parts hold as many as
      the parts themselves. */
  lemma {:induction false} CountCharJoinFree(parts: seq<string>, sep: string, c: char)
    requires CountChar(sep, c) == 0
    ensures CountChar(Join(parts, sep), c) == CountChar(Concat(parts), c)
  {
    if |parts| == 1 {
      assert parts[0] + Concat(parts[1..]) == parts[0];
    } else if |parts| > 1 {
      CountCharJoinFree(parts[1..], sep, c);
      CountCharAppend(parts[0], sep, c);
      CountCharAppend(parts[0] + sep, Join(parts[1..], sep), c);
      CountCharAppend(parts[0], Concat(parts[1..]), c);
    }
  }
}
