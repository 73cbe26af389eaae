/** The platform-independent DNS manager of the daemon: what a push asks for, and the
    `/etc/resolver` guard or the NRPT rules behind it. */
module SplitDns {
  import opened Nets
  import opened Push
  import F = Resolver
  import N = Nrpt
  import W = NrptLaws

  /** What the profile lists, and the libraries that read and print names and addresses. */
  datatype Setup = Setup(
    names: F.NameParser, v6: Ipv6Reader, show: Addr -> string, suffixes: seq<string>, servers: seq<string>)

  // ------------------------------------------------------- what a push asks for

  /** The pushed domain joins the suffixes of the profile unless one of them, without
      leading dots, is the same. */
  function Suffixes(setup: Setup, push: PushOptions): seq<string> {
    match push.domain
    case Some(d) =>
      if exists s :: s in setup.suffixes && F.TrimDots(s) == d then setup.suffixes else setup.suffixes + [d]
    case None => setup.suffixes
  }

  function Readable(v6: Ipv6Reader, servers: seq<string>): seq<Addr> {
    if servers == [] then []
    else Readable(v6, servers[..|servers| - 1]) + Listed(ParseIp(v6, servers[|servers| - 1]))
  }

  /** Pushed servers take the place of the profile's. */
  function Servers(setup: Setup, push: PushOptions): seq<string> {
    var addrs := if push.dnsServers == [] then Readable(setup.v6, setup.servers) else push.dnsServers;
    Shown(setup, addrs)
  }

  function Shown(setup: Setup, addrs: seq<Addr>): (shown: seq<string>)
    ensures |shown| == |addrs| && forall i :: 0 <= i < |addrs| ==> shown[i] == setup.show(addrs[i])
  {
    seq(|addrs|, i requires 0 <= i < |addrs| => setup.show(addrs[i]))
  }

  // ------------------------------------------------------------- the two backends

  datatype State = Files(guard: F.World) | Rules(world: W.World)

  /** Where fresh rule ids come from. */
  type Supply = nat -> N.Id

  function Minted(n: nat, previous: seq<N.Id>, supply: Supply): (minted: seq<N.Id>)
    ensures N.EnoughIds(n, previous, minted)
  {
    var chunks := N.ChunkCount(n);
    if chunks > |previous| then seq(chunks - |previous|, supply) else []
  }

  function InstallStep(w: W.World, suffixes: seq<string>, servers: seq<string>, supply: Supply): (step: W.Step)
    ensures step.Install? && N.EnoughIds(|step.suffixes|, N.Owned(w.reg), step.minted)
  {
    W.Install(suffixes, servers, Minted(|suffixes|, N.Owned(w.reg), supply))
  }

  /** Without a suffix or without a server nothing is touched. */
  predicate Asks(setup: Setup, push: PushOptions) {
    Suffixes(setup, push) != [] && Servers(setup, push) != []
  }

  /** `apply_dns`. */
  function AfterApply(setup: Setup, s: State, push: PushOptions, supply: Supply): State {
    if !Asks(setup, push) then s else
    match s
    case Files(w) => Files(F.AfterUpdate(setup.names, w, Suffixes(setup, push), Servers(setup, push)))
    case Rules(w) => Rules(W.Next(w, InstallStep(w, Suffixes(setup, push), Servers(setup, push), supply)))
  }

  /** `clear`. */
  function AfterClear(s: State): State {
    match s
    case Files(w) => Files(F.World(F.WithoutOurs(w.files, w.written), {}))
    case Rules(w) => Rules(W.Next(w, W.Revert))
  }

  /** `clear_orphan_dns`, by a process that knows nothing of the last one. */
  function AfterStartup(s: State): State {
    match s
    case Files(w) => Files(F.World(F.WithoutOurs(w.files, w.files.Keys), {}))
    case Rules(w) => Rules(W.Next(w, W.Revert))
  }

  /** Other programs, on either system. */
  datatype Others =
    | FileWritten(name: string, node: F.Node) | FileDeleted(name: string)
    | LocalRules(rules: map<N.Id, N.Body>) | GpRules(key: Option<map<N.Id, N.Body>>, values: bool)

  function AfterOthers(s: State, o: Others): State {
    match (s, o)
    case (Files(w), FileWritten(name, node)) => Files(w.(files := w.files[name := node]))
    case (Files(w), FileDeleted(name)) => Files(w.(files := w.files - {name}))
    case (Rules(w), LocalRules(rules)) => Rules(W.Next(w, W.OthersLocal(rules)))
    case (Rules(w), GpRules(key, values)) => Rules(W.Next(w, W.OthersGp(key, values)))
    case _ => s
  }

  /** Others forge neither our file header nor our rule ids. */
  ghost predicate Honest(s: State, o: Others) {
    match (s, o)
    case (Files(_), FileWritten(_, node)) => !F.IsOurs(node)
    case (Rules(w), LocalRules(rules)) => W.Possible(w, W.OthersLocal(rules))
    case (Rules(w), GpRules(key, values)) => W.Possible(w, W.OthersGp(key, values))
    case _ => true
  }

  /** The ids an apply would mint are new. */
  ghost predicate FreshIds(setup: Setup, s: State, push: PushOptions, supply: Supply) {
    s.Rules? && Asks(setup, push) ==>
      W.Possible(s.world, InstallStep(s.world, Suffixes(setup, push), Servers(setup, push), supply))
  }

  // ------------------------------------------------------------------ invariants

  /** Everything of ours is on record: with the guard, or on the owner list. */
  ghost predicate Inv(s: State) {
    match s
    case Files(w) => F.OurNames(w.files) <= w.written
    case Rules(w) => W.Inv(w)
  }

  /** No marked file; no rule of ours in either table. */
  ghost predicate Clean(s: State) {
    match s
    case Files(w) => F.OurNames(w.files) == {}
    case Rules(w) => W.Ours(w, w.reg.local) == map[] && W.Ours(w, N.GpRules(w.reg)) == map[]
  }

  /** What is not ours is the same in both. */
  ghost predicate SameForeign(s: State, t: State) {
    match (s, t)
    case (Files(v), Files(w)) => F.ForeignView(v.files) == F.ForeignView(w.files)
    case (Rules(v), Rules(w)) =>
      && W.Foreign(v, v.reg.local) == W.Foreign(w, w.reg.local)
      && W.Foreign(v, N.GpRules(v.reg)) == W.Foreign(w, N.GpRules(w.reg))
    case _ => false
  }

  lemma ApplyKeepsInv(setup: Setup, s: State, push: PushOptions, supply: Supply)
    requires Inv(s) && FreshIds(setup, s, push, supply)
    ensures var t := AfterApply(setup, s, push, supply); Inv(t) && SameForeign(s, t)
  {
    var suffixes, servers := Suffixes(setup, push), Servers(setup, push);
    if Asks(setup, push) {
      match s
      case Files(w) =>
        F.UpdateExact(setup.names, w, suffixes, servers);
        F.UpdateSparesForeign(setup.names, w, suffixes, servers);
      case Rules(w) =>
        var step := InstallStep(w, suffixes, servers, supply);
        W.StepKeepsInv(w, step);
        W.InstallSparesForeign(w, step.suffixes, step.servers, step.minted);
    }
  }

  lemma OthersKeepInv(s: State, o: Others)
    requires Inv(s) && Honest(s, o)
    ensures Inv(AfterOthers(s, o))
  {
    match (s, o)
    case (Rules(w), LocalRules(rules)) => W.StepKeepsInv(w, W.OthersLocal(rules));
    case (Rules(w), GpRules(key, values)) => W.StepKeepsInv(w, W.OthersGp(key, values));
    case _ =>
  }

  /** A clear leaves nothing of ours and everything else. */
  lemma ClearLeavesNone(s: State)
    requires Inv(s)
    ensures var t := AfterClear(s); Clean(t) && Inv(t) && SameForeign(s, t)
  {
    match s
    case Files(w) =>
    case Rules(w) => W.RevertRemovesAll(w, []);
  }

  /** So does a start-up after a crash, whatever the dead process had on record. */
  lemma StartupLeavesNone(s: State)
    requires Inv(s)
    ensures var t := AfterStartup(s); Clean(t) && Inv(t) && SameForeign(s, t)
  {
    match s
    case Files(w) => F.SweepCatchesAll(_ => None, w);
    case Rules(w) => W.RevertRemovesAll(w, []);
  }

  // --------------------------------------------- the request, read off the inputs

  /** `addrs` are the addresses among `servers` that can be read, in order. */
  predicate ReadInOrder(v6: Ipv6Reader, servers: seq<string>, addrs: seq<Addr>) {
    if servers == [] then addrs == [] else
    match ParseIp(v6, servers[0])
    case None => ReadInOrder(v6, servers[1..], addrs)
    case Some(a) => addrs != [] && addrs[0] == a && ReadInOrder(v6, servers[1..], addrs[1..])
  }

  /** What profile and push ask for: the suffixes of the profile, then the pushed domain if
      none of them is it with dots in front; the pushed servers, or where none are pushed
      those of the profile that can be read. */
  ghost predicate AskedFor(setup: Setup, push: PushOptions, suffixes: seq<string>, addrs: seq<Addr>) {
    && (if push.domain.Some? && !exists s :: s in setup.suffixes && F.WithoutDots(s, push.domain.value)
        then suffixes == setup.suffixes + [push.domain.value] else suffixes == setup.suffixes)
    && (if push.dnsServers != [] then addrs == push.dnsServers else ReadInOrder(setup.v6, setup.servers, addrs))
  }

  lemma {:induction false} ReadableFrom(v6: Ipv6Reader, first: string, rest: seq<string>)
    ensures Readable(v6, [first] + rest) == Listed(ParseIp(v6, first)) + Readable(v6, rest)
    decreases |rest|
  {
    var servers := [first] + rest;
    if rest == [] {
      assert servers[..0] == [] && servers[0] == first;
      assert Readable(v6, servers) == Readable(v6, servers[..0]) + Listed(ParseIp(v6, first));
    } else {
      ReadableFrom(v6, first, rest[..|rest| - 1]);
      assert servers[..|servers| - 1] == [first] + rest[..|rest| - 1];
      assert servers[|servers| - 1] == rest[|rest| - 1];
    }
  }

  lemma {:induction false} ReadableIs(v6: Ipv6Reader, servers: seq<string>, addrs: seq<Addr>)
    ensures ReadInOrder(v6, servers, addrs) <==> addrs == Readable(v6, servers)
  {
    if servers != [] {
      ReadableFrom(v6, servers[0], servers[1..]);
      assert [servers[0]] + servers[1..] == servers;
      match ParseIp(v6, servers[0])
      case None =>
        ReadableIs(v6, servers[1..], addrs);
        assert Listed(None) + Readable(v6, servers[1..]) == Readable(v6, servers[1..]);
      case Some(a) =>
        if addrs != [] {
          ReadableIs(v6, servers[1..], addrs[1..]);
          assert addrs == [addrs[0]] + addrs[1..];
        }
    }
  }

  lemma RequestIs(setup: Setup, push: PushOptions, suffixes: seq<string>, addrs: seq<Addr>)
    requires AskedFor(setup, push, suffixes, addrs)
    ensures Suffixes(setup, push) == suffixes && Servers(setup, push) == Shown(setup, addrs)
    ensures Asks(setup, push) <==> suffixes != [] && addrs != []
  {
    if push.domain.Some? {
      forall s | s in setup.suffixes
        ensures F.TrimDots(s) == push.domain.value <==> F.WithoutDots(s, push.domain.value)
      {
        F.DotsTrimmed(s, push.domain.value);
      }
    }
    if push.dnsServers == [] {
      ReadableIs(setup.v6, setup.servers, addrs);
    }
  }

  /** A name or a server that fits on one line. */
  predicate OneLiners(lines: seq<string>) {
    forall i :: 0 <= i < |lines| ==> F.OneLine(lines[i])
  }

  /** `t` is `s` after an apply that asks for these suffixes and servers. Without a suffix
      or without a server nothing is done. On macOS, if the batch goes through, the marked
      files are those of its names, each listing the servers asked for in order; if not,
      nothing changes. On Windows every suffix stands with its dot and the servers asked for
      in its rule. */
  ghost predicate Provides(setup: Setup, s: State, t: State, suffixes: seq<string>, addrs: seq<Addr>) {
    var servers := Shown(setup, addrs);
    if suffixes == [] || addrs == [] then t == s else
    match (s, t)
    case (Files(w), Files(v)) =>
      if F.GoesThrough(setup.names, w.files, suffixes, servers)
      then F.OurNames(v.files) == F.Names(setup.names, suffixes)
           && forall n :: n in F.Names(setup.names, suffixes) && F.OneLine(n) && OneLiners(servers) ==>
                F.Lists(v.files[n], n, servers)
      else t == s
    case (Rules(w), Rules(v)) => W.Serves(v.reg.local, N.Owned(v.reg), suffixes, servers)
    case _ => false
  }

  /** What an apply does follows from profile and push. */
  lemma ApplyFollowsPush(setup: Setup, s: State, push: PushOptions, supply: Supply,
                         suffixes: seq<string>, addrs: seq<Addr>)
    requires Inv(s) && FreshIds(setup, s, push, supply) && AskedFor(setup, push, suffixes, addrs)
    ensures Provides(setup, s, AfterApply(setup, s, push, supply), suffixes, addrs)
  {
    RequestIs(setup, push, suffixes, addrs);
    var servers := Shown(setup, addrs);
    if Asks(setup, push) {
      match s
      case Files(w) => F.UpdateExact(setup.names, w, suffixes, servers);
      case Rules(w) =>
        var step := InstallStep(w, suffixes, servers, supply);
        W.InstallWritesLocal(w, step.suffixes, step.servers, step.minted);
    }
  }

  /** The marked files follow the push exactly when it asks for something and the
      guard accepts it, or they happened to match already. A push that withdraws its
      suffixes or servers leaves the earlier files in place. */
  lemma FilesFollowPush(setup: Setup, w: F.World, push: PushOptions, supply: Supply)
    requires Inv(Files(w))
    ensures var suffixes, servers := Suffixes(setup, push), Servers(setup, push);
            var desired := if servers == [] then {} else F.Names(setup.names, suffixes);
            F.OurNames(AfterApply(setup, Files(w), push, supply).guard.files) == desired
            <==> || (Asks(setup, push) && F.Succeeds(setup.names, w.files, suffixes, servers))
                 || F.OurNames(w.files) == desired
  {
    if Asks(setup, push) {
      F.UpdateExact(setup.names, w, Suffixes(setup, push), Servers(setup, push));
    }
  }

  /** It leaves a file in place when nothing is asked for any more. */
  lemma WithdrawnDnsStays(setup: Setup, name: string, servers: seq<string>, supply: Supply)
    requires setup.suffixes == []
    ensures var w := F.World(map[name := F.File(F.Content(name, servers))], {name});
            && Inv(Files(w)) && Names(setup, DEFAULT_OPTIONS) == {}
            && AfterApply(setup, Files(w), DEFAULT_OPTIONS, supply) == Files(w)
            && F.OurNames(w.files) == {name}
  {
    F.WrittenIsOurs(name, servers);
  }

  /** The names a push and the profile ask for. */
  function Names(setup: Setup, push: PushOptions): set<string> {
    F.Names(setup.names, Suffixes(setup, push))
  }

  // ------------------------------------------------------------------ the manager

  datatype Backend = Darwin(guard: F.DnsGuard) | Windows(nrpt: N.DnsManager)

  class Manager {
    const backend: Backend
    /** Every rule id a process of ours minted; like the foreign routes, known to the model only. */
    var ours: set<N.Id>

    constructor (backend: Backend, ours: set<N.Id>)
      ensures this.backend == backend && this.ours == ours
    {
      this.backend, this.ours := backend, ours;
    }

    ghost function Footprint(): set<object> {
      match backend
      case Darwin(guard) => {guard, guard.folder}
      case Windows(nrpt) => {nrpt, nrpt.hive}
    }

    ghost function View(): State
      reads this, Footprint()
    {
      match backend
      case Darwin(guard) => Files(F.World(guard.folder.files, guard.written))
      case Windows(nrpt) => Rules(W.World(nrpt.hive.reg, ours))
    }

    method Apply(setup: Setup, push: PushOptions, supply: Supply)
      modifies this, Footprint()
      ensures View() == AfterApply(setup, old(View()), push, supply)
    {
      var suffixes, servers := Suffixes(setup, push), Servers(setup, push);
      if suffixes == [] || servers == [] {
        return;
      }
      match backend {
        case Darwin(guard) =>
          var _ := guard.Update(setup.names, suffixes, servers);
        case Windows(nrpt) =>
          var minted := Minted(|suffixes|, N.Owned(nrpt.hive.reg), supply);
          W.WritesAddUp(nrpt.hive.reg, suffixes, servers, minted);
          nrpt.Install(suffixes, servers, minted);
          ours := ours + W.Elems(minted);
      }
    }

    method Clear()
      modifies this, Footprint()
      ensures View() == AfterClear(old(View()))
    {
      match backend {
        case Darwin(guard) =>
          guard.Remove();
        case Windows(nrpt) =>
          W.ExecClear(nrpt.hive.reg);
          nrpt.Revert();
      }
    }

    /** `clear_orphan_dns`: what a new process does before anything else. */
    method ClearOrphans()
      requires backend.Darwin? ==> backend.guard.written == {}
      modifies Footprint()
      ensures View() == AfterStartup(old(View()))
    {
      match backend {
        case Darwin(guard) =>
          var _ := guard.folder.Sweep();
        case Windows(nrpt) =>
          W.ExecClear(nrpt.hive.reg);
          nrpt.Revert();
      }
    }

    /** Other programs act on the directory or the registry. */
    method Disturb(o: Others)
      modifies Footprint()
      ensures View() == AfterOthers(old(View()), o)
    {
      match (backend, o) {
        case (Darwin(guard), FileWritten(name, node)) =>
          guard.folder.files := guard.folder.files[name := node];
        case (Darwin(guard), FileDeleted(name)) =>
          guard.folder.files := guard.folder.files - {name};
        case (Windows(nrpt), LocalRules(rules)) =>
          nrpt.hive.reg := W.Next(W.World(nrpt.hive.reg, ours), W.OthersLocal(rules)).reg;
        case (Windows(nrpt), GpRules(key, values)) =>
          nrpt.hive.reg := W.Next(W.World(nrpt.hive.reg, ours), W.OthersGp(key, values)).reg;
        case _ =>
      }
    }
  }
}
