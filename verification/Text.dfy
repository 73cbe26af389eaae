/** The string operations the directive parser and the profile reader use. */
module Text {
  import opened Nets

  /** `char::is_whitespace`: the Unicode White_Space code points. */
  predicate IsSpace(c: char) {
    || '\t' <= c <= '\r' || c == ' ' || c == '\U{0085}' || c == '\U{00A0}' || c == '\U{1680}'
    || '\U{2000}' <= c <= '\U{200A}' || c == '\U{2028}' || c == '\U{2029}' || c == '\U{202F}'
    || c == '\U{205F}' || c == '\U{3000}'
  }

  /** Index of the first `c`, or the length of `s`. */
  function Find(s: string, c: char): (i: nat)
    ensures i <= |s| && forall k :: 0 <= k < i ==> s[k] != c
    ensures i < |s| ==> s[i] == c
    ensures i == |s| ==> c !in s
  {
    if s == [] then 0
    else if s[0] == c then 0
    else 1 + Find(s[1..], c)
  }

  /** `str::split(c)`: one piece more than there are separators. */
  function Split(s: string, c: char): (pieces: seq<string>)
    ensures pieces != []
    decreases |s|
  {
    var i := Find(s, c);
    if i == |s| then [s] else [s[..i]] + Split(s[i + 1..], c)
  }

  /** `str::split_once(c)`. */
  function SplitOnce(s: string, c: char): Option<(string, string)> {
    var i := Find(s, c);
    if i == |s| then None else Some((s[..i], s[i + 1..]))
  }

  function TrimStart(s: string): string {
    if s != [] && IsSpace(s[0]) then TrimStart(s[1..]) else s
  }

  function TrimEnd(s: string): string {
    if s != [] && IsSpace(s[|s| - 1]) then TrimEnd(s[..|s| - 1]) else s
  }

  function Trim(s: string): string {
    TrimEnd(TrimStart(s))
  }

  /** Length of the longest prefix of `s` without white space. */
  function WordLength(s: string): (i: nat)
    ensures i <= |s| && forall k :: 0 <= k < i ==> !IsSpace(s[k])
    ensures i < |s| ==> IsSpace(s[i])
  {
    if s == [] || IsSpace(s[0]) then 0 else 1 + WordLength(s[1..])
  }

  /** `str::split_whitespace`. */
  function Words(s: string): seq<string>
    decreases |s|
  {
    if s == [] then []
    else if IsSpace(s[0]) then Words(s[1..])
    else
      var i := WordLength(s);
      [s[..i]] + Words(s[i..])
  }

  predicate Solid(s: string) {
    s != [] && forall i :: 0 <= i < |s| ==> !IsSpace(s[i])
  }

  lemma WordLengthSolid(w: string, rest: string)
    requires Solid(w) && (rest == [] || IsSpace(rest[0]))
    ensures WordLength(w + rest) == |w|
  {
    var s := w + rest;
    assert forall k :: 0 <= k < |w| ==> s[k] == w[k];
    assert rest != [] ==> s[|w|] == rest[0];
  }

  /** A solid word followed by a space is read first. */
  lemma WordsSolid(w: string, rest: string)
    requires Solid(w)
    ensures Words(w) == [w]
    ensures Words(w + " " + rest) == [w] + Words(rest)
  {
    WordLengthSolid(w, "");
    assert w + "" == w && w[|w|..] == [];
    WordLengthSolid(w, " " + rest);
    var s := w + (" " + rest);
    assert w + " " + rest == s && s[..|w|] == w && s[|w|..] == " " + rest;
    assert (" " + rest)[1..] == rest;
  }

  predicate Blank(s: string) {
    forall i :: 0 <= i < |s| ==> IsSpace(s[i])
  }

  /** Nothing to trim. */
  predicate Tight(s: string) {
    s == "" || (!IsSpace(s[0]) && !IsSpace(s[|s| - 1]))
  }

  /** Trimming takes away the white space around a text, and nothing of the text. */
  lemma {:induction false} TrimIs(before: string, s: string, after: string)
    requires Blank(before) && Tight(s) && Blank(after)
    ensures Trim(before + s + after) == s
  {
    if before != [] {
      TrimIs(before[1..], s, after);
      assert before + s + after == [before[0]] + (before[1..] + s + after);
    } else if s == [] {
      TrimStartBlank(after);
      assert before + s + after == after;
    } else {
      assert before + s + after == s + after;
      TrimEndIs(s, after);
    }
  }

  lemma {:induction false} TrimStartBlank(s: string)
    requires Blank(s)
    ensures TrimStart(s) == ""
  {
    if s != [] {
      TrimStartBlank(s[1..]);
    }
  }

  lemma {:induction false} TrimEndIs(s: string, after: string)
    requires s != "" && !IsSpace(s[|s| - 1]) && Blank(after)
    ensures TrimEnd(s + after) == s
  {
    if after != [] {
      var t := s + after;
      TrimEndIs(s, after[..|after| - 1]);
      assert t[..|t| - 1] == s + after[..|after| - 1];
      assert t[|t| - 1] == after[|after| - 1];
    } else {
      assert s + after == s;
    }
  }

  /** The words of a text, one by one: white space in front is skipped, and a run without
      white space that ends at some is a word. */
  lemma {:induction false} WordsAre(gap: string, w: string, rest: string)
    requires Blank(gap) && Solid(w) && (rest == [] || IsSpace(rest[0]))
    ensures Words(gap + w + rest) == [w] + Words(rest)
    decreases |gap|
  {
    if gap != [] {
      WordsAre(gap[1..], w, rest);
      assert gap + w + rest == [gap[0]] + (gap[1..] + w + rest);
    } else {
      assert gap + w + rest == w + rest;
      WordLengthSolid(w, rest);
      assert (w + rest)[..|w|] == w && (w + rest)[|w|..] == rest;
    }
  }

  lemma {:induction false} WordsBlank(gap: string)
    requires Blank(gap)
    ensures Words(gap) == []
  {
    if gap != [] {
      WordsBlank(gap[1..]);
    }
  }

  lemma FindSeparator(a: string, c: char, rest: string)
    requires c !in a
    ensures Find(a + [c] + rest, c) == |a|
  {
    var s := a + [c] + rest;
    assert s[|a|] == c;
    assert forall k :: 0 <= k < |a| ==> s[k] == a[k];
  }

  lemma SplitSeparator(a: string, c: char, rest: string, pieces: seq<string>)
    requires c !in a && Split(rest, c) == pieces
    ensures Split(a + [c] + rest, c) == [a] + pieces
  {
    FindSeparator(a, c, rest);
    var s := a + [c] + rest;
    assert s[..|a|] == a && s[|a| + 1..] == rest;
  }

  lemma SplitOnceSeparator(a: string, c: char, rest: string)
    requires c !in a
    ensures SplitOnce(a + [c] + rest, c) == Some((a, rest))
  {
    FindSeparator(a, c, rest);
    var s := a + [c] + rest;
    assert s[..|a|] == a && s[|a| + 1..] == rest;
  }

  lemma SplitWhole(a: string, c: char)
    requires c !in a
    ensures Split(a, c) == [a]
  {
  }

  /** Lines, each with `c` after it. */
  function Ended(lines: seq<string>, c: char): string {
    if lines == [] then "" else lines[0] + [c] + Ended(lines[1..], c)
  }

  lemma {:induction false} SplitEnded(lines: seq<string>, c: char)
    requires forall i :: 0 <= i < |lines| ==> c !in lines[i]
    ensures Split(Ended(lines, c), c) == lines + [""]
  {
    if lines == [] {
      SplitWhole("", c);
    } else {
      SplitEnded(lines[1..], c);
      EndedCons(lines[0], lines[1..], c, Ended(lines[1..], c));
      assert [lines[0]] + lines[1..] == lines;
    }
  }

  lemma EndedCons(first: string, rest: seq<string>, c: char, tail: string)
    requires c !in first && Split(tail, c) == rest + [""]
    ensures Split(first + [c] + tail, c) == [first] + rest + [""]
  {
    SplitSeparator(first, c, tail, rest + [""]);
    assert [first] + (rest + [""]) == [first] + rest + [""];
  }

  lemma {:induction false} EndedAppend(lines: seq<string>, last: string, c: char)
    ensures Ended(lines + [last], c) == Ended(lines, c) + (last + [c])
  {
    if lines == [] {
      assert [] + [last] == [last] && [last][1..] == [];
      assert last + [c] + "" == "" + (last + [c]);
    } else {
      EndedAppend(lines[1..], last, c);
      assert (lines + [last])[1..] == lines[1..] + [last];
      assert lines[0] + [c] + (Ended(lines[1..], c) + (last + [c]))
          == lines[0] + [c] + Ended(lines[1..], c) + (last + [c]);
    }
  }
}
