/** Split-horizon DNS on macOS: one file per suffix in a directory shared with other
    tools, each of ours marked by its first line. */
module Resolver {
  import opened Nets
  import opened Text

  /** A directory entry: a file and its content, or something that cannot be read. */
  datatype Node = File(content: string) | Unreadable

  type Dir = map<string, Node>

  const MAGIC := "# azvpn split-DNS for "

  /** `read_first_line`: the terminator is dropped, and a carriage return before it. */
  function FirstLine(content: string): string {
    var n := Find(content, '\n');
    if n < |content| && n > 0 && content[n - 1] == '\r' then content[..n - 1] else content[..n]
  }

  predicate IsOurs(node: Node) {
    node.File? && MAGIC <= FirstLine(node.content)
  }

  function ServerLines(servers: seq<string>): string {
    if servers == [] then ""
    else ServerLines(servers[..|servers| - 1]) + ("nameserver " + servers[|servers| - 1] + "\n")
  }

  function Content(suffix: string, servers: seq<string>): string {
    MAGIC + (suffix + "\n" + ServerLines(servers))
  }

  // ---------------------------------------------------------------- suffix names

  datatype Reason =
    | Empty | TooLong | PathUnsafe | TrailingDot | TrailingHyphen
    | MalformedName | CanonicalEmpty | CanonicalPathUnsafe

  datatype Name = Accepted(name: string) | Rejected(reason: Reason)

  /** The DNS library: reads a name and prints its absolute form. */
  type NameParser = string -> Option<string>

  predicate UnsafeChar(c: char) {
    c == '/' || c == '\\' || c == ':' || c == '\0' || c == ' '
  }

  predicate PathSafe(s: string) {
    forall i :: 0 <= i < |s| ==> !UnsafeChar(s[i])
  }

  function TrimDots(s: string): string {
    if s != [] && s[0] == '.' then TrimDots(s[1..]) else s
  }

  predicate EndsWith(s: string, c: char) {
    s != [] && s[|s| - 1] == c
  }

  const MAX_SUFFIX: nat := 253

  /** `canonicalize_suffix`. */
  function Canonicalize(parser: NameParser, raw: string): Name {
    var stripped := TrimDots(raw);
    if stripped == "" then Rejected(Empty)
    else if |stripped| > MAX_SUFFIX then Rejected(TooLong)
    else if !PathSafe(stripped) then Rejected(PathUnsafe)
    else if EndsWith(stripped, '.') then Rejected(TrailingDot)
    else if EndsWith(stripped, '-') then Rejected(TrailingHyphen)
    else
      match parser(stripped)
      case None => Rejected(MalformedName)
      case Some(ascii) =>
        var canon := if EndsWith(ascii, '.') then ascii[..|ascii| - 1] else ascii;
        if canon == "" then Rejected(CanonicalEmpty)
        else if !PathSafe(canon) then Rejected(CanonicalPathUnsafe)
        else Accepted(canon)
  }

  /** The names a batch of suffixes asks for; empty inputs are skipped. */
  function Names(parser: NameParser, input: seq<string>): set<string> {
    set raw | raw in input && raw != "" && Canonicalize(parser, raw).Accepted? :: Canonicalize(parser, raw).name
  }

  predicate AllValid(parser: NameParser, input: seq<string>) {
    forall raw :: raw in input && raw != "" ==> Canonicalize(parser, raw).Accepted?
  }

  datatype UpdateResult =
    | Updated
    | InvalidSuffix(input: string, reason: Reason)
    | Conflict(name: string, firstLine: string)
    | IoError(name: string)

  /** `normalize_suffixes`: the first invalid suffix ends it. */
  method Normalize(parser: NameParser, input: seq<string>) returns (names: set<string>, result: UpdateResult)
    ensures result == Updated || result.InvalidSuffix?
    ensures result.Updated? <==> AllValid(parser, input)
    ensures result.Updated? ==> names == Names(parser, input)
    ensures result.InvalidSuffix? ==>
              result.input in input && Canonicalize(parser, result.input) == Rejected(result.reason)
  {
    names := {};
    for i := 0 to |input|
      invariant AllValid(parser, input[..i]) && names == Names(parser, input[..i])
    {
      assert input[..i + 1] == input[..i] + [input[i]];
      if input[i] != "" {
        match Canonicalize(parser, input[i]) {
          case Accepted(name) => names := names + {name};
          case Rejected(reason) => return names, InvalidSuffix(input[i], reason);
        }
      }
    }
    assert input[..|input|] == input;
    result := Updated;
  }

  // --------------------------------------------------------------- the directory

  /** Absent, or a file of ours. */
  predicate Writable(dir: Dir, name: string) {
    name in dir ==> IsOurs(dir[name])
  }

  /** The directory without those of `names` that are still ours. */
  function WithoutOurs(dir: Dir, names: set<string>): Dir {
    map n | n in dir && !(n in names && IsOurs(dir[n])) :: dir[n]
  }

  function Written(dir: Dir, names: set<string>, servers: seq<string>): Dir {
    dir + map n | n in names :: File(Content(n, servers))
  }

  class Folder {
    var files: Dir

    constructor (files: Dir)
      ensures this.files == files
    {
      this.files := files;
    }

    /** `check_writable`. */
    method CheckWritable(name: string) returns (result: UpdateResult)
      ensures result.Updated? <==> Writable(files, name)
      ensures !result.InvalidSuffix?
      ensures result.Conflict? ==>
                name in files && files[name].File? && result == Conflict(name, FirstLine(files[name].content))
      ensures result.IoError? ==> name in files && files[name].Unreadable? && result.name == name
    {
      if name !in files {
        return Updated;
      }
      match files[name] {
        case Unreadable => return IoError(name);
        case File(content) =>
          var first := FirstLine(content);
          return if MAGIC <= first then Updated else Conflict(name, first);
      }
    }

    /** An atomic replacement of the whole file. */
    method WriteResolverFile(name: string, servers: seq<string>)
      modifies this
      ensures files == old(files)[name := File(Content(name, servers))]
    {
      var body := "";
      for i := 0 to |servers|
        invariant body == ServerLines(servers[..i])
      {
        assert servers[..i + 1][..i] == servers[..i];
        body := body + ("nameserver " + servers[i] + "\n");
      }
      assert servers[..|servers|] == servers;
      files := files[name := File(MAGIC + (name + "\n" + body))];
    }

    /** `remove_if_ours`. */
    method RemoveIfOurs(name: string)
      modifies this
      ensures files == WithoutOurs(old(files), {name})
    {
      if name in files && IsOurs(files[name]) {
        files := files - {name};
      }
    }

    method RemoveAll(names: set<string>)
      modifies this
      ensures files == WithoutOurs(old(files), names)
    {
      ghost var dir := files;
      var left := names;
      while left != {}
        invariant left <= names && files == WithoutOurs(dir, names - left)
      {
        var n :| n in left;
        RemoveIfOurs(n);
        left := left - {n};
      }
    }

    /** `cleanup_orphan_dns`: every marked file goes, whoever's session it was. */
    method Sweep() returns (removed: bool)
      modifies this
      ensures files == WithoutOurs(old(files), old(files).Keys)
      ensures removed <==> exists n :: n in old(files) && IsOurs(old(files)[n])
    {
      removed := exists n :: n in files && IsOurs(files[n]);
      RemoveAll(files.Keys);
    }
  }

  class DnsGuard {
    const folder: Folder
    var written: set<string>

    constructor (folder: Folder)
      ensures this.folder == folder && written == {}
    {
      this.folder, written := folder, {};
    }

    method Remove()
      modifies this, folder
      ensures written == {} && folder.files == WithoutOurs(old(folder.files), old(written))
    {
      var names := written;
      written := {};
      folder.RemoveAll(names);
    }

    /** `update`: checks every target before touching any. */
    method Update(parser: NameParser, suffixes: seq<string>, servers: seq<string>) returns (result: UpdateResult)
      modifies this, folder
      ensures var w := AfterUpdate(parser, World(old(folder.files), old(written)), suffixes, servers);
              folder.files == w.files && written == w.written
      ensures result.Updated? <==> Succeeds(parser, old(folder.files), suffixes, servers)
      ensures result.InvalidSuffix? ==>
                result.input in suffixes && Canonicalize(parser, result.input) == Rejected(result.reason)
      ensures result.Conflict? ==>
                && result.name in Names(parser, suffixes) && result.name in old(folder.files)
                && old(folder.files)[result.name].File?
                && result.firstLine == FirstLine(old(folder.files)[result.name].content)
      ensures result.IoError? ==>
                result.name in Names(parser, suffixes) && result.name in old(folder.files)
                && old(folder.files)[result.name].Unreadable?
    {
      var desired;
      desired, result := Normalize(parser, suffixes);
      if result.InvalidSuffix? {
        return;
      }
      if desired == {} || servers == [] {
        Remove();
        return Updated;
      }
      var left := desired;
      while left != {}
        invariant left <= desired && forall n :: n in desired - left ==> Writable(folder.files, n)
        invariant folder.files == old(folder.files) && written == old(written)
      {
        var n :| n in left;
        result := folder.CheckWritable(n);
        if !result.Updated? {
          return;
        }
        left := left - {n};
      }
      WriteAll(desired, servers);
      folder.RemoveAll(written - desired);
      written := desired;
      result := Updated;
    }

    method WriteAll(names: set<string>, servers: seq<string>)
      modifies folder
      ensures folder.files == Written(old(folder.files), names, servers)
    {
      ghost var dir := folder.files;
      var left := names;
      while left != {}
        invariant left <= names && folder.files == Written(dir, names - left, servers)
      {
        var n :| n in left;
        folder.WriteResolverFile(n, servers);
        left := left - {n};
      }
    }
  }

  // ------------------------------------------------------- the guard as a value

  /** The directory and what the live guard remembers having written. */
  datatype World = World(files: Dir, written: set<string>)

  predicate Succeeds(parser: NameParser, files: Dir, suffixes: seq<string>, servers: seq<string>) {
    AllValid(parser, suffixes)
    && (|| Names(parser, suffixes) == {} || servers == []
        || forall n :: n in Names(parser, suffixes) ==> Writable(files, n))
  }

  function AfterUpdate(parser: NameParser, w: World, suffixes: seq<string>, servers: seq<string>): World {
    var names := Names(parser, suffixes);
    if !Succeeds(parser, w.files, suffixes, servers) then w
    else if names == {} || servers == [] then World(WithoutOurs(w.files, w.written), {})
    else World(WithoutOurs(Written(w.files, names, servers), w.written - names), names)
  }

  datatype Step =
    | Update(suffixes: seq<string>, servers: seq<string>)
    | Remove
    | Restart
    | OthersWrite(name: string, node: Node)
    | OthersDelete(name: string)

  /** A restart loses the guard and sweeps before anything else. */
  function Next(parser: NameParser, w: World, step: Step): World {
    match step
    case Update(suffixes, servers) => AfterUpdate(parser, w, suffixes, servers)
    case Remove => World(WithoutOurs(w.files, w.written), {})
    case Restart => World(WithoutOurs(w.files, w.files.Keys), {})
    case OthersWrite(name, node) => w.(files := w.files[name := node])
    case OthersDelete(name) => w.(files := w.files - {name})
  }

  function Run(parser: NameParser, w: World, steps: seq<Step>): World {
    if steps == [] then w else Next(parser, Run(parser, w, steps[..|steps| - 1]), steps[|steps| - 1])
  }

  // ------------------------------------------------------------------ the marker

  /** A file is ours exactly when it starts with the marker: cutting the first line
      out of it neither adds nor loses anything. */
  lemma OursByPrefix(content: string)
    ensures IsOurs(File(content)) <==> MAGIC <= content
  {
    assert |MAGIC| == 22 && MAGIC[21] == ' ';
    assert forall k :: 0 <= k < 22 ==> MAGIC[k] != '\n' by {
      assert '\n' !in MAGIC;
    }
    var line := FirstLine(content);
    assert line <= content;
    assert MAGIC <= content ==> forall k :: 0 <= k < 22 ==> content[k] == MAGIC[k];
    assert |line| >= 22 ==> line[..22] == content[..22];
  }

  /** Whatever the suffix and servers, a file we write carries the marker. */
  lemma WrittenIsOurs(suffix: string, servers: seq<string>)
    ensures IsOurs(File(Content(suffix, servers)))
  {
    OursByPrefix(Content(suffix, servers));
  }

  // ---------------------------------------------------------------- non-interference

  /** The part of the directory that is not ours. */
  function ForeignView(dir: Dir): Dir {
    map n | n in dir && !IsOurs(dir[n]) :: dir[n]
  }

  /** What others do to that part. */
  function OthersOnly(view: Dir, steps: seq<Step>): Dir {
    if steps == [] then view else
    var before := OthersOnly(view, steps[..|steps| - 1]);
    match steps[|steps| - 1]
    case OthersWrite(name, node) => if IsOurs(node) then before - {name} else before[name := node]
    case OthersDelete(name) => before - {name}
    case _ => before
  }

  lemma UpdateSparesForeign(parser: NameParser, w: World, suffixes: seq<string>, servers: seq<string>)
    ensures ForeignView(AfterUpdate(parser, w, suffixes, servers).files) == ForeignView(w.files)
  {
    var names := Names(parser, suffixes);
    forall n | n in names ensures IsOurs(File(Content(n, servers))) {
      WrittenIsOurs(n, servers);
    }
  }

  /** Over any run, interleaved with other tools in any way, the files that are not
      ours are what the others alone would have made of them. */
  lemma {:induction false} ForeignFilesUntouched(parser: NameParser, w: World, steps: seq<Step>)
    ensures ForeignView(Run(parser, w, steps).files) == OthersOnly(ForeignView(w.files), steps)
  {
    if steps != [] {
      var init, last := steps[..|steps| - 1], steps[|steps| - 1];
      ForeignFilesUntouched(parser, w, init);
      var before := Run(parser, w, init);
      match last
      case Update(suffixes, servers) => UpdateSparesForeign(parser, before, suffixes, servers);
      case OthersWrite(name, node) =>
        assert ForeignView(before.files[name := node]) ==
          if IsOurs(node) then ForeignView(before.files) - {name} else ForeignView(before.files)[name := node];
      case OthersDelete(name) => assert ForeignView(before.files - {name}) == ForeignView(before.files) - {name};
      case _ =>
    }
  }

  // ------------------------------------------------------------ what the guard knows

  function OurNames(dir: Dir): set<string> {
    set n | n in dir && IsOurs(dir[n])
  }

  /** Others do not forge the marker. */
  ghost predicate Honest(steps: seq<Step>) {
    forall i :: 0 <= i < |steps| && steps[i].OthersWrite? ==> !IsOurs(steps[i].node)
  }

  /** A file as a resolver reads it, line by line: the marker naming the suffix, one
      server to a line in order, and nothing after the last line feed. */
  ghost predicate Lists(node: Node, suffix: string, servers: seq<string>) {
    && node.File?
    && var lines := Split(node.content, '\n');
       && |lines| == |servers| + 2
       && lines[0] == "# azvpn split-DNS for " + suffix
       && (forall i :: 0 <= i < |servers| ==> lines[i + 1] == "nameserver " + servers[i])
       && lines[|servers| + 1] == ""
  }

  predicate OneLine(s: string) {
    '\n' !in s
  }

  function ServerLine(server: string): string {
    "nameserver " + server
  }

  function LinesFor(servers: seq<string>): (lines: seq<string>)
    ensures |lines| == |servers| && forall i :: 0 <= i < |servers| ==> lines[i] == "nameserver " + servers[i]
  {
    seq(|servers|, i requires 0 <= i < |servers| => ServerLine(servers[i]))
  }

  lemma {:induction false} ServerLinesEnded(servers: seq<string>)
    ensures ServerLines(servers) == Ended(LinesFor(servers), '\n')
  {
    if servers != [] {
      var init, last := servers[..|servers| - 1], servers[|servers| - 1];
      ServerLinesEnded(init);
      EndedAppend(LinesFor(init), ServerLine(last), '\n');
      assert LinesFor(servers) == LinesFor(init) + [ServerLine(last)];
    }
  }

  lemma ContentEnded(header: string, servers: seq<string>)
    ensures header + ['\n'] + ServerLines(servers) == Ended([header] + LinesFor(servers), '\n')
  {
    ServerLinesEnded(servers);
    assert ([header] + LinesFor(servers))[1..] == LinesFor(servers);
  }

  /** Whatever we write reads back as it should. */
  lemma WrittenLists(suffix: string, servers: seq<string>)
    requires OneLine(suffix) && forall i :: 0 <= i < |servers| ==> OneLine(servers[i])
    ensures Lists(File(Content(suffix, servers)), suffix, servers)
  {
    var magic := MAGIC;
    assert OneLine(magic) && OneLine("nameserver ");
    var lines := [magic + suffix] + LinesFor(servers);
    Regroup(magic, suffix, ServerLines(servers));
    ContentEnded(magic + suffix, servers);
    SplitEnded(lines, '\n');
  }

  lemma Regroup(magic: string, suffix: string, body: string)
    ensures magic + (suffix + "\n" + body) == magic + suffix + ['\n'] + body
  {
  }

  /** When an update goes through: every suffix that is not empty is accepted, and no
      target is a file of others, unless nothing is to be written at all. */
  ghost predicate GoesThrough(parser: NameParser, files: Dir, suffixes: seq<string>, servers: seq<string>) {
    && (forall raw :: raw in suffixes && raw != "" ==> Canonicalize(parser, raw).Accepted?)
    && (servers != [] ==>
          forall raw, name ::
            raw in suffixes && raw != "" && Canonicalize(parser, raw) == Accepted(name) && name in files ==>
            files[name].File? && "# azvpn split-DNS for " <= files[name].content)
  }

  lemma SucceedsMeaning(parser: NameParser, files: Dir, suffixes: seq<string>, servers: seq<string>)
    ensures Succeeds(parser, files, suffixes, servers) <==> GoesThrough(parser, files, suffixes, servers)
  {
    forall node: Node | node.File? ensures IsOurs(node) <==> "# azvpn split-DNS for " <= node.content {
      OursByPrefix(node.content);
    }
    if GoesThrough(parser, files, suffixes, servers) && servers != [] {
      forall n | n in Names(parser, suffixes) ensures Writable(files, n) {
        var raw :| raw in suffixes && raw != "" && Canonicalize(parser, raw) == Accepted(n);
      }
    }
    if Succeeds(parser, files, suffixes, servers) && servers != [] {
      forall raw, name | raw in suffixes && raw != "" && Canonicalize(parser, raw) == Accepted(name) && name in files
        ensures files[name].File? && "# azvpn split-DNS for " <= files[name].content
      {
        assert name in Names(parser, suffixes);
        assert Writable(files, name);
      }
    }
  }

  /** What one update does to a directory whose marked files are all remembered:
      success leaves the marked files equal to the desired set, each reading back as the
      header and the servers in order; failure changes nothing at all. */
  lemma UpdateExact(parser: NameParser, w: World, suffixes: seq<string>, servers: seq<string>)
    requires OurNames(w.files) <= w.written
    ensures var t := AfterUpdate(parser, w, suffixes, servers);
            var desired := if servers == [] then {} else Names(parser, suffixes);
            if GoesThrough(parser, w.files, suffixes, servers)
            then t.written == desired && OurNames(t.files) == desired
                 && forall n :: n in desired ==>
                      && t.files[n] == File(Content(n, servers))
                      && (OneLine(n) && (forall i :: 0 <= i < |servers| ==> OneLine(servers[i]))
                          ==> Lists(t.files[n], n, servers))
            else t == w
  {
    var names := Names(parser, suffixes);
    SucceedsMeaning(parser, w.files, suffixes, servers);
    if Succeeds(parser, w.files, suffixes, servers) && names != {} && servers != [] {
      WrittenExact(w, names, servers);
      forall n | n in names && OneLine(n) && forall i :: 0 <= i < |servers| ==> OneLine(servers[i])
        ensures Lists(File(Content(n, servers)), n, servers)
      {
        WrittenLists(n, servers);
      }
    }
  }

  lemma WrittenExact(w: World, names: set<string>, servers: seq<string>)
    requires OurNames(w.files) <= w.written
    ensures var files := WithoutOurs(Written(w.files, names, servers), w.written - names);
            OurNames(files) == names && forall n :: n in names ==> files[n] == File(Content(n, servers))
  {
    var files := WithoutOurs(Written(w.files, names, servers), w.written - names);
    forall n | n in names ensures n in files && files[n] == File(Content(n, servers)) && IsOurs(files[n]) {
      WrittenIsOurs(n, servers);
    }
    forall n | n in files && n !in names ensures !IsOurs(files[n]) {
      assert n in w.files && files[n] == w.files[n];
      assert IsOurs(w.files[n]) ==> n in OurNames(w.files);
    }
  }

  /** Every marked file is remembered, however updates, removals, restarts and honest
      others interleave; so a removal leaves none. */
  lemma {:induction false} NothingLeaks(parser: NameParser, w: World, steps: seq<Step>)
    requires OurNames(w.files) <= w.written && Honest(steps)
    ensures var t := Run(parser, w, steps);
            OurNames(t.files) <= t.written && OurNames(Next(parser, t, Remove).files) == {}
  {
    if steps != [] {
      var init, last := steps[..|steps| - 1], steps[|steps| - 1];
      NothingLeaks(parser, w, init);
      var before := Run(parser, w, init);
      if last.Update? {
        UpdateExact(parser, before, last.suffixes, last.servers);
      }
    }
  }

  /** A start-up sweep, from any directory, leaves no marked file. */
  lemma SweepCatchesAll(parser: NameParser, w: World)
    ensures var t := Next(parser, w, Restart);
            OurNames(t.files) == {} && ForeignView(t.files) == ForeignView(w.files) && OurNames(t.files) <= t.written
  {
  }

  // ------------------------------------------------------------ accepted suffixes

  /** A suffix without its leading dots. */
  predicate WithoutDots(raw: string, rest: string) {
    && (rest == "" || rest[0] != '.')
    && |rest| <= |raw| && raw[|raw| - |rest|..] == rest
    && forall i :: 0 <= i < |raw| - |rest| ==> raw[i] == '.'
  }

  lemma {:induction false} DotsTrimmed(raw: string, rest: string)
    ensures TrimDots(raw) == rest <==> WithoutDots(raw, rest)
  {
    if raw != "" && raw[0] == '.' {
      DotsTrimmed(raw[1..], rest);
      if WithoutDots(raw, rest) {
        assert |rest| < |raw|;
        assert raw[1..][|raw[1..]| - |rest|..] == rest;
      }
    } else if WithoutDots(raw, rest) {
      assert |rest| == |raw|;
      assert raw[0..] == raw;
    }
  }

  predicate SafeText(s: string) {
    forall c :: c in s ==> c !in {'/', '\\', ':', '\0', ' '}
  }

  /** A suffix is accepted under a name exactly when, without its leading dots, it is not
      empty, no longer than 253, free of path characters and ends in neither a dot nor a
      hyphen, and the DNS library answers with that name, a closing dot or none after it,
      which must itself not be empty or hold a path character. */
  lemma AcceptedExactly(parser: NameParser, raw: string, rest: string, name: string)
    requires WithoutDots(raw, rest)
    ensures Canonicalize(parser, raw) == Accepted(name)
       <==> && rest != "" && |rest| <= 253 && SafeText(rest) && rest[|rest| - 1] !in {'.', '-'}
            && (parser(rest) == Some(name + ".") || (parser(rest) == Some(name) && !EndsWith(name, '.')))
            && name != "" && SafeText(name)
  {
    DotsTrimmed(raw, rest);
    SafeTextIs(rest);
    SafeTextIs(name);
    if parser(rest).Some? && EndsWith(parser(rest).value, '.') {
      var ascii := parser(rest).value;
      assert ascii == ascii[..|ascii| - 1] + ".";
      assert (name + ".")[..|name|] == name;
    }
  }

  lemma SafeTextIs(s: string)
    ensures SafeText(s) <==> PathSafe(s)
  {
    if PathSafe(s) {
      forall c | c in s ensures c !in {'/', '\\', ':', '\0', ' '} {
        assert !UnsafeChar(c);
      }
    } else {
      var i :| 0 <= i < |s| && UnsafeChar(s[i]);
      assert s[i] in s;
    }
  }

  // ----------------------------------------------------------- names as paths

  /** A directory path followed by one more component, as the kernel resolves it. */
  function Descend(dir: seq<string>, component: string): seq<string> {
    if component == "" || component == "." then dir
    else if component == ".." then if dir == [] then [] else dir[..|dir| - 1]
    else dir + [component]
  }

  function DescendAll(dir: seq<string>, components: seq<string>): seq<string> {
    if components == [] then dir
    else Descend(DescendAll(dir, components[..|components| - 1]), components[|components| - 1])
  }

  /** Joined to any directory, `name` is an entry of that directory. */
  ghost predicate StaysInside(name: string) {
    forall dir :: DescendAll(dir, Split(name, '/')) == dir + [name]
  }

  lemma InsideExactly(name: string)
    requires name != "" && '/' !in name
    ensures StaysInside(name) <==> name !in {".", ".."}
  {
    SplitWhole(name, '/');
    assert [name][..0] == [];
    forall dir: seq<string> ensures DescendAll(dir, [name]) == Descend(dir, name) {
      assert DescendAll(dir, []) == dir;
    }
    if name in {".", ".."} {
      assert |Descend([], name)| == 0;
      assert DescendAll([], Split(name, '/')) != [] + [name];
    }
  }

  /** An accepted name is not empty and has no separator, however the DNS library
      rewrites the suffix. But a name of dots only still leaves the directory: the
      accepted name stays inside exactly when the library does not answer with two or
      three dots. */
  lemma NamesStayInside(parser: NameParser, raw: string)
    requires Canonicalize(parser, raw).Accepted?
    ensures var name := Canonicalize(parser, raw).name;
            && name != "" && PathSafe(name)
            && (StaysInside(name) <==> parser(TrimDots(raw)) !in {Some(".."), Some("...")})
  {
    var name, ascii := Canonicalize(parser, raw).name, parser(TrimDots(raw)).value;
    assert '/' !in name by {
      assert PathSafe(name) && UnsafeChar('/');
    }
    InsideExactly(name);
    if EndsWith(ascii, '.') {
      assert ascii == name + ".";
    }
    assert "." + "." == ".." && ".." + "." == "...";
  }

  /** A library that never answers with a leading dot keeps every name inside. */
  lemma NoLeadingDotInside(parser: NameParser, input: seq<string>, name: string)
    requires name in Names(parser, input)
    requires forall s: string :: parser(s).Some? && parser(s).value != "" ==> parser(s).value[0] != '.'
    ensures StaysInside(name)
  {
    var raw :| raw in input && raw != "" && Canonicalize(parser, raw) == Accepted(name);
    NamesStayInside(parser, raw);
  }

  /** The escape is real for a library that is not held to that. */
  lemma DotsEscape()
    ensures ".." in Names(_ => Some("..."), ["x"]) && !StaysInside("..")
  {
    var parser: NameParser := _ => Some("...");
    assert TrimDots("x") == "x" && PathSafe("x");
    assert "..."[..2] == ".." && PathSafe("..");
    assert Canonicalize(parser, "x") == Accepted("..");
    InsideExactly("..");
  }
}
