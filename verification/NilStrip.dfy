/** Removal of `i:nil="true"` placeholder elements from a profile document. */
module NilStrip {
  import opened Text

  predicate Occurs(needle: string, s: string) {
    needle <= s || (s != [] && Occurs(needle, s[1..]))
  }

  predicate IsNilPlaceholder(tag: string) {
    |tag| >= 2 && tag[|tag| - 2..] == "/>" && (Occurs("i:nil=\"true\"", tag) || Occurs("i:nil='true'", tag))
  }

  /** How a document starts: only data, data before a bracket that is never
      closed, or data before a complete tag. */
  datatype Cut =
    | Plain(data: string)
    | Open(data: string, open: string)
    | Tagged(data: string, tag: string, rest: string)

  /** A bracketed run with no other closing bracket. */
  predicate TagShape(tag: string) {
    |tag| >= 2 && tag[0] == '<' && Find(tag, '>') == |tag| - 1
  }

  predicate Sound(cut: Cut) {
    && '<' !in cut.data
    && match cut
       case Plain(_) => true
       case Open(_, open) => open != [] && open[0] == '<' && '>' !in open
       case Tagged(_, tag, _) => TagShape(tag)
  }

  function Whole(cut: Cut): string {
    match cut
    case Plain(data) => data
    case Open(data, open) => data + open
    case Tagged(data, tag, rest) => data + tag + rest
  }

  /** The scan of one turn: the first opening bracket and the first closing one after it. */
  function FirstCut(xml: string): (cut: Cut)
    ensures Sound(cut) && Whole(cut) == xml
    ensures cut.Tagged? ==> |cut.rest| < |xml|
  {
    var lt := Find(xml, '<');
    if lt == |xml| then Plain(xml) else
    var gt := Find(xml[lt..], '>');
    if gt == |xml[lt..]| then
      SplitAt(xml, lt);
      Open(xml[..lt], xml[lt..])
    else
      TagAt(xml[lt..], gt);
      SplitTwice(xml, lt, gt + 1);
      Tagged(xml[..lt], xml[lt..][..gt + 1], xml[lt..][gt + 1..])
  }

  lemma SplitAt(s: string, k: nat)
    requires k <= |s|
    ensures s[..k] + s[k..] == s
  {
  }

  lemma TagAt(open: string, gt: nat)
    requires gt < |open| && open[0] == '<' && open[gt] == '>' && forall k :: 0 <= k < gt ==> open[k] != '>'
    ensures TagShape(open[..gt + 1])
  {
    FindIs(open[..gt + 1], '>', gt);
  }

  lemma SplitTwice(s: string, lt: nat, gt: nat)
    requires lt <= |s| && gt <= |s[lt..]|
    ensures s[..lt] + s[lt..][..gt] + s[lt..][gt..] == s
  {
  }

  lemma FindIs(s: string, c: char, k: nat)
    requires k < |s| && s[k] == c && forall j :: 0 <= j < k ==> s[j] != c
    ensures Find(s, c) == k
  {
  }

  /** There is only one sound way to cut a document. */
  lemma CutUnique(cut: Cut)
    requires Sound(cut)
    ensures FirstCut(Whole(cut)) == cut
  {
    var xml, data := Whole(cut), cut.data;
    assert forall j :: 0 <= j < |data| ==> xml[j] == data[j];
    match cut {
      case Plain(_) =>
      case Open(_, open) =>
        assert xml[|data|] == open[0];
        FindIs(xml, '<', |data|);
        assert xml[..|data|] == data && xml[|data|..] == open;
      case Tagged(_, tag, rest) =>
        var open := tag + rest;
        assert xml == data + open;
        assert xml[|data|] == open[0];
        FindIs(xml, '<', |data|);
        assert xml[..|data|] == data && xml[|data|..] == open;
        FindIs(open, '>', |tag| - 1);
        assert open[..|tag|] == tag && open[|tag|..] == rest;
    }
  }

  /** Which tags are dropped. */
  type Drops = string -> bool

  /** Character data, a complete tag, or an opening bracket that is never closed. */
  datatype Piece = Data(text: string) | Tag(text: string) | Unclosed(text: string)

  function Pieces(xml: string): seq<Piece>
    decreases |xml|
  {
    match FirstCut(xml)
    case Plain(data) => [Data(data)]
    case Open(data, open) => [Data(data), Unclosed(open)]
    case Tagged(data, tag, rest) => [Data(data), Tag(tag)] + Pieces(rest)
  }

  function Join(pieces: seq<Piece>): string {
    if pieces == [] then "" else pieces[0].text + Join(pieces[1..])
  }

  predicate Kept(drop: Drops, p: Piece) {
    p.Tag? ==> !drop(p.text)
  }

  function Filter(drop: Drops, pieces: seq<Piece>): seq<Piece> {
    if pieces == [] then []
    else (if Kept(drop, pieces[0]) then [pieces[0]] else []) + Filter(drop, pieces[1..])
  }

  predicate NilFree(drop: Drops, xml: string) {
    forall p :: p in Pieces(xml) ==> Kept(drop, p)
  }

  /** The document with its nil placeholders dropped. */
  function Stripped(drop: Drops, xml: string): string {
    Join(Filter(drop, Pieces(xml)))
  }

  // --------------------------------------------------------- one cut at a time

  lemma JoinTwo(a: Piece, b: Piece, rest: seq<Piece>)
    ensures Join([a, b] + rest) == a.text + b.text + Join(rest)
  {
    assert ([a, b] + rest)[1..] == [b] + rest && ([b] + rest)[1..] == rest;
    assert a.text + (b.text + Join(rest)) == a.text + b.text + Join(rest);
  }

  lemma JoinOne(a: Piece, rest: seq<Piece>)
    ensures Join([a] + rest) == a.text + Join(rest)
  {
    assert ([a] + rest)[1..] == rest;
  }

  lemma FilterTwo(drop: Drops, data: Piece, tag: Piece, rest: seq<Piece>)
    requires data.Data?
    ensures Filter(drop, [data, tag] + rest)
         == if Kept(drop, tag) then [data, tag] + Filter(drop, rest) else [data] + Filter(drop, rest)
  {
    assert ([data, tag] + rest)[1..] == [tag] + rest && ([tag] + rest)[1..] == rest;
    assert [data] + ([tag] + Filter(drop, rest)) == [data, tag] + Filter(drop, rest);
    assert [data] + ([] + Filter(drop, rest)) == [data] + Filter(drop, rest);
  }

  /** What a cut contributes. */
  lemma StripCut(drop: Drops, cut: Cut)
    requires Sound(cut)
    ensures Stripped(drop, Whole(cut))
         == match cut
            case Tagged(data, tag, rest) => (if drop(tag) then data else data + tag) + Stripped(drop, rest)
            case _ => Whole(cut)
  {
    CutUnique(cut);
    match cut {
      case Plain(data) =>
        JoinOne(Data(data), []);
        assert Filter(drop, [Data(data)]) == [Data(data)];
      case Open(data, open) =>
        StripPiecesOpen(drop, data, open);
      case Tagged(data, tag, rest) =>
        StripPieces(drop, data, tag, Pieces(rest));
    }
  }

  lemma NilFreeCut(drop: Drops, cut: Cut)
    requires Sound(cut)
    ensures NilFree(drop, Whole(cut)) <==> (cut.Tagged? ==> !drop(cut.tag) && NilFree(drop, cut.rest))
  {
    CutUnique(cut);
    if cut.Tagged? {
      assert Pieces(Whole(cut)) == [Data(cut.data), Tag(cut.tag)] + Pieces(cut.rest);
      assert Tag(cut.tag) in Pieces(Whole(cut));
    }
  }

  lemma StripPiecesOpen(drop: Drops, data: string, open: string)
    ensures Join(Filter(drop, [Data(data), Unclosed(open)])) == data + open
  {
    FilterTwo(drop, Data(data), Unclosed(open), []);
    JoinTwo(Data(data), Unclosed(open), []);
    assert [Data(data), Unclosed(open)] + [] == [Data(data), Unclosed(open)];
  }

  lemma StripPieces(drop: Drops, data: string, tag: string, rest: seq<Piece>)
    ensures Join(Filter(drop, [Data(data), Tag(tag)] + rest))
            == (if drop(tag) then data else data + tag) + Join(Filter(drop, rest))
  {
    FilterTwo(drop, Data(data), Tag(tag), rest);
    JoinTwo(Data(data), Tag(tag), Filter(drop, rest));
    JoinOne(Data(data), Filter(drop, rest));
  }

  function Prefixed(data: string, cut: Cut): Cut {
    match cut
    case Plain(d) => Plain(data + d)
    case Open(d, open) => Open(data + d, open)
    case Tagged(d, tag, rest) => Tagged(data + d, tag, rest)
  }

  /** Data in front of a document is copied and changes nothing else. */
  lemma StripData(drop: Drops, data: string, xml: string)
    requires '<' !in data
    ensures Stripped(drop, data + xml) == data + Stripped(drop, xml)
    ensures NilFree(drop, data + xml) == NilFree(drop, xml)
  {
    var cut := FirstCut(xml);
    StripCut(drop, cut);
    NilFreeCut(drop, cut);
    StripCut(drop, Prefixed(data, cut));
    NilFreeCut(drop, Prefixed(data, cut));
    WholePrefixed(data, cut);
    assert forall b, c :: data + b + c == data + (b + c);
    if cut.Tagged? {
      assert (data + cut.data) + cut.tag + Stripped(drop, cut.rest)
          == data + (cut.data + cut.tag + Stripped(drop, cut.rest));
    }
  }

  lemma WholePrefixed(data: string, cut: Cut)
    ensures Whole(Prefixed(data, cut)) == data + Whole(cut)
  {
  }

  // -------------------------------------------------------------- the results

  /** The pieces are the document: only dropping placeholders can change it. */
  lemma {:induction false} PiecesCover(xml: string)
    ensures Join(Pieces(xml)) == xml
    decreases |xml|
  {
    match FirstCut(xml)
    case Plain(data) => JoinOne(Data(data), []);
    case Open(data, open) =>
      JoinTwo(Data(data), Unclosed(open), []);
      assert [Data(data), Unclosed(open)] + [] == [Data(data), Unclosed(open)];
    case Tagged(data, tag, rest) =>
      PiecesCover(rest);
      JoinTwo(Data(data), Tag(tag), Pieces(rest));
  }

  /** Removing placeholders never creates one, so stripping twice is stripping once;
      and the document is unchanged exactly when it has none. */
  lemma {:induction false} StripIdempotent(drop: Drops, xml: string)
    ensures NilFree(drop, Stripped(drop, xml))
    ensures Stripped(drop, Stripped(drop, xml)) == Stripped(drop, xml)
    ensures |Stripped(drop, xml)| <= |xml|
    ensures Stripped(drop, xml) == xml <==> NilFree(drop, xml)
    decreases |xml|
  {
    var cut := FirstCut(xml);
    StripCut(drop, cut);
    NilFreeCut(drop, cut);
    if cut.Tagged? {
      StripIdempotent(drop, cut.rest);
      if drop(cut.tag) {
        StripData(drop, cut.data, Stripped(drop, cut.rest));
      } else {
        StripCut(drop, Tagged(cut.data, cut.tag, Stripped(drop, cut.rest)));
        NilFreeCut(drop, Tagged(cut.data, cut.tag, Stripped(drop, cut.rest)));
        SameHead(cut.data + cut.tag, Stripped(drop, cut.rest), cut.rest);
      }
    }
  }

  lemma SameHead(head: string, a: string, b: string)
    ensures head + a == head + b <==> a == b
  {
    assert (head + a)[|head|..] == a && (head + b)[|head|..] == b;
  }

  // ------------------------------------------------------------- placeholders

  lemma {:induction false} OccursExactly(needle: string, s: string)
    ensures Occurs(needle, s) <==> exists before, after :: s == before + needle + after
  {
    if needle <= s {
      assert s == "" + needle + s[|needle|..];
    } else if s != [] {
      OccursExactly(needle, s[1..]);
      if Occurs(needle, s[1..]) {
        var before, after :| s[1..] == before + needle + after;
        assert s == ([s[0]] + before) + needle + after;
      }
      if before, after :| s == before + needle + after {
        LaterOccurrence(needle, s, before, after);
      }
    }
  }

  lemma LaterOccurrence(needle: string, s: string, before: string, after: string)
    requires s != [] && !(needle <= s) && s == before + needle + after
    ensures before != [] && s[1..] == before[1..] + needle + after
  {
    assert before == [] ==> s == needle + after;
  }

  /** A tag is dropped exactly when it closes itself and carries the nil attribute, in
      either kind of quotes, somewhere in it. */
  lemma PlaceholderExactly(tag: string)
    ensures IsNilPlaceholder(tag)
       <==> && (exists body :: tag == body + "/>")
            && ((exists before, after :: tag == before + "i:nil=\"true\"" + after)
                || (exists before, after :: tag == before + "i:nil='true'" + after))
  {
    OccursExactly("i:nil=\"true\"", tag);
    OccursExactly("i:nil='true'", tag);
    if |tag| >= 2 && tag[|tag| - 2..] == "/>" {
      assert tag == tag[..|tag| - 2] + "/>";
    }
  }

  // -------------------------------------------------------------- CDATA blocks

  const CDATA := "<![CDATA["
  const CDATA_END := "]]>"

  /** `g` is the index of the first `c` in `s`, or the length of `s`. */
  predicate IsFirst(s: string, c: char, g: nat) {
    g <= |s| && (g < |s| ==> s[g] == c) && forall k :: 0 <= k < g ==> s[k] != c
  }

  /** A run with one closing bracket, its last character. */
  predicate Closes(run: string) {
    run != "" && run[|run| - 1] == '>' && forall i :: 0 <= i < |run| - 1 ==> run[i] != '>'
  }

  /** An opening bracket that nothing has closed yet. */
  predicate Opens(open: string) {
    open != "" && open[0] == '<' && forall i :: 0 <= i < |open| ==> open[i] != '>'
  }

  lemma BracketRun(open: string, run: string)
    requires Opens(open) && Closes(run)
    ensures TagShape(open + run)
  {
    var s := open + run;
    forall i | 0 <= i < |s| - 1 ensures s[i] != '>' {
      assert s[i] == if i < |open| then open[i] else run[i - |open|];
    }
    FindIs(s, '>', |s| - 1);
  }

  lemma TagFirst(drop: Drops, tag: string, rest: string)
    requires TagShape(tag)
    ensures Stripped(drop, tag + rest) == (if drop(tag) then "" else tag) + Stripped(drop, rest)
    ensures NilFree(drop, tag + rest) <==> !drop(tag) && NilFree(drop, rest)
  {
    assert "" + tag == tag;
    StripCut(drop, Tagged("", tag, rest));
    NilFreeCut(drop, Tagged("", tag, rest));
  }

  lemma SplitMiddle(a: string, text: string, k: nat, b: string)
    requires k <= |text|
    ensures a + text + b == a + text[..k] + (text[k..] + b)
  {
  }

  /** The scan takes everything from an opening bracket to the first closing one for
      one tag, wherever the construct it belongs to ends. */
  lemma BlockBroken(drop: Drops, open: string, text: string, k: nat, close: string)
    requires Opens(open) && k <= |text| && Closes(text[..k])
    ensures NilFree(drop, open + text + close) <==> !drop(open + text[..k]) && NilFree(drop, text[k..] + close)
  {
    BracketRun(open, text[..k]);
    TagFirst(drop, open + text[..k], text[k..] + close);
    SplitMiddle(open, text, k, close);
  }

  lemma BlockWhole(drop: Drops, open: string, run: string)
    requires Opens(open) && Closes(run)
    ensures NilFree(drop, open + run) <==> !drop(open + run)
  {
    BracketRun(open, run);
    TagFirst(drop, open + run, "");
    assert open + run + "" == open + run;
    NilFreeCut(drop, Plain(""));
  }

  lemma FirstClosing(text: string, g: nat, close: string)
    requires IsFirst(text, '>', g) && Closes(close)
    ensures if g == |text| then Closes(text + close) else Closes(text[..g + 1])
  {
  }

  lemma {:induction false} OccursAfter(needle: string, p: string, s: string)
    requires needle != "" && needle[0] !in p
    ensures Occurs(needle, p + s) <==> Occurs(needle, s)
  {
    if p == "" {
      assert p + s == s;
    } else {
      OccursAfter(needle, p[1..], s);
      assert (p + s)[1..] == p[1..] + s;
    }
  }

  lemma CdataOpens()
    ensures Opens(CDATA) && CDATA[|CDATA| - 1] == '[' && 'i' !in CDATA && Closes(CDATA_END)
  {
  }

  lemma NilAfterCdata(run: string)
    requires run != ""
    ensures IsNilPlaceholder(CDATA + run) <==> IsNilPlaceholder(run)
  {
    CdataOpens();
    OccursAfter("i:nil=\"true\"", CDATA, run);
    OccursAfter("i:nil='true'", CDATA, run);
    LastTwo(CDATA, run);
  }

  lemma LastTwo(open: string, run: string)
    requires run != "" && open != "" && open[|open| - 1] != '/'
    ensures var s := open + run;
            |s| >= 2 && (s[|s| - 2..] == "/>" <==> |run| >= 2 && run[|run| - 2..] == "/>")
  {
    var s := open + run;
    if |run| >= 2 {
      assert s[|s| - 2..] == run[|run| - 2..];
    } else {
      assert s[|s| - 2..][0] == open[|open| - 1];
    }
  }

  lemma BlockUntouched(drop: Drops, open: string, text: string, g: nat, close: string)
    requires Opens(open) && Closes(close) && IsFirst(text, '>', g) && !drop(open + (text + close))
    ensures NilFree(drop, open + text + close)
            <==> g == |text| || (!drop(open + text[..g + 1]) && NilFree(drop, text[g + 1..] + close))
  {
    FirstClosing(text, g, close);
    if g == |text| {
      BlockWhole(drop, open, text + close);
      Associate(open, text, close);
    } else {
      BlockBroken(drop, open, text, g + 1, close);
    }
  }

  /** A CDATA block passes untouched exactly when its text has no closing bracket, or
      the text up to the first one is not a nil placeholder and nothing after it holds
      one. So blocks do not pass untouched as such. */
  lemma CdataUntouched(text: string, g: nat)
    requires IsFirst(text, '>', g)
    ensures Stripped(IsNilPlaceholder, CDATA + text + CDATA_END) == CDATA + text + CDATA_END
            <==> || g == |text|
                 || (!IsNilPlaceholder(text[..g + 1]) && NilFree(IsNilPlaceholder, text[g + 1..] + CDATA_END))
  {
    CdataOpens();
    EndIsNoNil(CDATA, text);
    BlockUntouched(IsNilPlaceholder, CDATA, text, g, CDATA_END);
    StripIdempotent(IsNilPlaceholder, CDATA + text + CDATA_END);
    if g < |text| {
      NilAfterCdata(text[..g + 1]);
    }
  }

  lemma EndIsNoNil(open: string, text: string)
    ensures !IsNilPlaceholder(open + (text + CDATA_END))
  {
    var s := open + (text + CDATA_END);
    assert s[|s| - 2] == ']';
    assert s[|s| - 2..][0] == ']';
  }

  /** A block that quotes a placeholder loses its opening together with it. */
  lemma CdataLoses(e: string)
    requires TagShape(e) && IsNilPlaceholder(e)
    ensures Stripped(IsNilPlaceholder, CDATA + e + CDATA_END) == CDATA_END
  {
    CdataOpens();
    BracketRun(CDATA, e);
    NilAfterCdata(e);
    TagFirst(IsNilPlaceholder, CDATA + e, CDATA_END);
    StripCut(IsNilPlaceholder, Plain(CDATA_END));
  }

  /** `strip_nil_elements`. */
  method StripNilElements(xml: string) returns (out: string)
    ensures out == Stripped(IsNilPlaceholder, xml)
  {
    out := Strip(IsNilPlaceholder, xml);
  }

  method Strip(drop: Drops, xml: string) returns (out: string)
    ensures out == Stripped(drop, xml)
  {
    out := "";
    var cut := FirstCut(xml);
    while cut.Tagged?
      invariant Sound(cut) && Stripped(drop, xml) == out + Stripped(drop, Whole(cut))
      decreases |Whole(cut)|
    {
      StripCut(drop, cut);
      var text := if drop(cut.tag) then cut.data else cut.data + cut.tag;
      Associate(out, text, Stripped(drop, cut.rest));
      out := out + text;
      cut := FirstCut(cut.rest);
    }
    StripCut(drop, cut);
    out := out + Whole(cut);
  }

  lemma Associate(a: string, b: string, c: string)
    ensures a + (b + c) == a + b + c
  {
  }
}
