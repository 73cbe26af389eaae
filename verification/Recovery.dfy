/** Applying a push reply, recording what was installed, and cleaning up after a
    daemon that died; and the host the daemon acts on, step by step. */
module Recovery {
  import opened Nets
  import opened Push
  import opened Routes
  import opened RouteLaws
  import Forwarding

  // ----------------------------------------------------- what a push asks for

  /** `pushed_to_ipnet`: only the prefix is checked, host bits are kept. */
  function PushedToNet(r: PushedRoute): Option<IpNet> {
    if r.prefix <= Width(r.destination.family) then Some(Net(r.destination, r.prefix)) else None
  }

  /** `route_for_apply`. */
  function RouteForApply(r: PushedRoute, hasV6: bool): Option<IpNet> {
    if r.family.V6? && !hasV6 then None else PushedToNet(r)
  }

  function PushedNets(routes: seq<PushedRoute>, hasV6: bool): seq<IpNet> {
    if routes == [] then []
    else Listed(RouteForApply(routes[0], hasV6)) + PushedNets(routes[1..], hasV6)
  }

  function DesiredNets(push: PushOptions): seq<IpNet> {
    PushedNets(push.routes, push.ifconfigIpv6.Some?)
    + (match push.redirectGateway case Some(rg) => Forwarding.RedirectNets(rg) case None => [])
  }

  function Desired(push: PushOptions): set<IpNet> {
    Elems(DesiredNets(push))
  }

  lemma {:induction false} PushedMeaning(routes: seq<PushedRoute>, hasV6: bool, n: IpNet)
    ensures n in PushedNets(routes, hasV6)
       <==> exists r :: r in routes && r.destination == n.addr && r.prefix == n.prefix && (r.family.V6? ==> hasV6)
  {
    if routes != [] {
      PushedMeaning(routes[1..], hasV6, n);
      assert routes == [routes[0]] + routes[1..];
    }
  }

  /** A network is desired exactly when some accepted pushed route names it or the
      redirect covers its family and it is one half of that family's addresses. */
  lemma DesiredMeaning(push: PushOptions, n: IpNet)
    ensures n in Desired(push)
       <==> || (exists r :: r in push.routes && r.destination == n.addr && r.prefix == n.prefix
                            && (r.family.V6? ==> push.ifconfigIpv6.Some?))
            || (push.redirectGateway.Some? && Forwarding.Covers(push.redirectGateway.value, n.addr.family)
                && n in {Forwarding.LowerHalf(n.addr.family), Forwarding.UpperHalf(n.addr.family)})
  {
    PushedMeaning(push.routes, push.ifconfigIpv6.Some?, n);
    if push.redirectGateway.Some? {
      Forwarding.HalvesListed(push.redirectGateway.value, n);
    }
  }

  /** The interface is looked up only when the push carries a tunnel address. */
  function TunnelIfindex(push: PushOptions, found: Option<nat>): Option<nat> {
    if push.ifconfig.Some? then found else None
  }

  /** `apply_routes`: without a route-gateway nothing is touched. */
  function AfterApplyRoutes(os: Os, s: Routing, push: PushOptions, found: Option<nat>, added: set<IpNet>): Routing {
    match push.routeGateway
    case None => s
    case Some(gateway) => AfterApply(os, s, Desired(push), gateway, TunnelIfindex(push, found), added)
  }

  ghost predicate CanAdd(s: Routing, push: PushOptions, added: set<IpNet>) {
    push.routeGateway.Some? ==> added <= ToAdd(s.ledger, Uniform(Desired(push), push.routeGateway.value))
  }

  // ------------------------------------------------------------- the manifest

  datatype Entry = Entry(destination: IpNet, gateway: Addr)

  function Entries(ledger: Ledger): set<Entry> {
    set n | n in ledger :: Entry(n, ledger[n])
  }

  /** The deletes a restarted daemon issues: destination and gateway, no interface. */
  function ManifestRoutes(entries: set<Entry>): set<Route> {
    set e | e in entries :: Route(Canon(e.destination), Some(e.gateway), None)
  }

  function AfterStartup(os: Os, table: set<Route>, manifest: Option<set<Entry>>): set<Route> {
    match manifest
    case None => table
    case Some(entries) => Evict(os, table, ManifestRoutes(entries))
  }

  function Listing(entries: seq<Entry>): set<Entry> {
    set e | e in entries
  }

  datatype File = Absent | Garbage | Holding(entries: seq<Entry>)

  /** The manifest path. A save replaces the whole file by a rename. */
  class ManifestFile {
    var file: File

    constructor ()
      ensures file == Absent
    {
      file := Absent;
    }

    function Recorded(): Option<set<Entry>>
      reads this
    {
      if file.Holding? then Some(Listing(file.entries)) else None
    }

    method Save(entries: seq<Entry>)
      modifies this
      ensures file == Holding(entries)
    {
      file := Holding(entries);
    }

    /** Absent and unreadable are both "nothing recorded". */
    method Load() returns (entries: Option<seq<Entry>>)
      ensures entries == if file.Holding? then Some(file.entries) else None
    {
      entries := if file.Holding? then Some(file.entries) else None;
    }

    method Remove()
      modifies this
      ensures file == Absent
    {
      file := Absent;
    }
  }

  /** `record_cleanup_manifest`: one entry per ledger route, each once. */
  method RecordManifest(manager: RouteManager, manifest: ManifestFile)
    modifies manifest
    ensures manifest.Recorded() == Some(Entries(manager.installed))
    ensures manifest.file.Holding? && |manifest.file.entries| == |manager.installed|
  {
    var left := manager.installed;
    var entries: seq<Entry> := [];
    while left != map[]
      invariant left.Keys <= manager.installed.Keys && forall n :: n in left ==> left[n] == manager.installed[n]
      invariant forall e :: e in entries
                  <==> (e.destination in manager.installed && e.destination !in left
                        && e.gateway == manager.installed[e.destination])
      invariant |entries| + |left| == |manager.installed|
      decreases |left|
    {
      var net :| net in left;
      assert (left - {net}).Keys == left.Keys - {net};
      entries := entries + [Entry(net, left[net])];
      left := left - {net};
    }
    manifest.Save(entries);
    assert Listing(entries) == Entries(manager.installed) by {
      forall e | e in Entries(manager.installed) ensures e in entries {
      }
    }
  }

  /** `tunnel_state`, its routing half: apply, then record whatever stands. */
  method TunnelState(manager: RouteManager, manifest: ManifestFile, push: PushOptions, found: Option<nat>,
                     refuses: IpNet -> bool)
    returns (ghost added: set<IpNet>)
    modifies manager, manager.kernel, manifest
    ensures CanAdd(old(manager.View()), push, added) && forall n :: n in added ==> !refuses(n)
    ensures manager.View() == AfterApplyRoutes(manager.kernel.os, old(manager.View()), push, found, added)
    ensures manifest.Recorded() == Some(Entries(manager.installed))
  {
    added := {};
    if push.routeGateway.Some? {
      var _, done := manager.Apply(DesiredNets(push), push.routeGateway.value, TunnelIfindex(push, found), refuses);
      added := done;
    }
    RecordManifest(manager, manifest);
  }

  /** `run_at_startup`, its routing half. */
  method RunAtStartup(kernel: Kernel, manifest: ManifestFile)
    modifies kernel, manifest
    ensures kernel.table == AfterStartup(kernel.os, old(kernel.table), old(manifest.Recorded()))
    ensures manifest.file == Absent
  {
    var loaded := manifest.Load();
    if loaded.Some? {
      ghost var table := kernel.table;
      var entries := loaded.value;
      for i := 0 to |entries|
        invariant kernel.table == Evict(kernel.os, table, ManifestRoutes(Listing(entries[..i])))
        invariant unchanged(manifest)
      {
        var route := Route(Canon(entries[i].destination), Some(entries[i].gateway), None);
        var _ := kernel.Delete(route);
        DeleteOneMore(kernel.os, table, Listing(entries[..i]), entries[i]);
        assert Listing(entries[..i + 1]) == Listing(entries[..i]) + {entries[i]};
      }
      assert entries[..|entries|] == entries;
    }
    manifest.Remove();
  }

  lemma DeleteOneMore(os: Os, table: set<Route>, entries: set<Entry>, e: Entry)
    ensures Evict(os, Evict(os, table, ManifestRoutes(entries)), {Route(Canon(e.destination), Some(e.gateway), None)})
         == Evict(os, table, ManifestRoutes(entries + {e}))
  {
    var r := Route(Canon(e.destination), Some(e.gateway), None);
    var before, after := ManifestRoutes(entries), ManifestRoutes(entries + {e});
    assert after == before + {r} by {
      assert e in entries + {e};
      forall q | q in before ensures q in after {
        var x :| x in entries && q == Route(Canon(x.destination), Some(x.gateway), None);
        assert x in entries + {e};
      }
    }
    forall q | q in table
      ensures Claims(os, after, q) <==> Claims(os, before, q) || Claims(os, {r}, q)
    {
      assert r in {r} && r in after;
    }
  }

  // ------------------------------------------------------- the host over time

  /** The kernel table split into foreign and own routes, the manager's fields, and
      what the manifest file records. */
  datatype Host = Host(foreign: set<Route>, own: set<Route>, ledger: Ledger, ifindex: Option<nat>,
                       manifest: Option<set<Entry>>)

  function RoutingOf(h: Host): Routing {
    Routing(h.foreign + h.own, h.ledger, h.ifindex)
  }

  /** Reads the host off what the daemon made of the routing: a foreign route that is
      gone from the table is gone, and whatever else is there is ours. */
  function WithRouting(h: Host, s: Routing): (t: Host)
    ensures RoutingOf(t) == s
  {
    h.(foreign := h.foreign * s.table, own := s.table - h.foreign, ledger := s.ledger, ifindex := s.ifindex)
  }

  /** What the world does to the table: it drops routes of ours when their interface
      goes, resolves one onto another interface, or changes foreign ones. */
  datatype Disturbance =
    | RoutesLost(lost: set<Route>)
    | RouteRebound(from: Route, to: Route)
    | ForeignChanged(foreign: set<Route>)

  datatype Step =
    | Connected(push: PushOptions, found: Option<nat>, added: set<IpNet>)
    | Repushed(push: PushOptions, found: Option<nat>, added: set<IpNet>)
    | Outside(disturbance: Disturbance)

  function Recorded(h: Host): Host {
    h.(manifest := Some(Entries(h.ledger)))
  }

  function LeftForeign(foreign: set<Route>, d: Disturbance): set<Route> {
    if d.ForeignChanged? then d.foreign else foreign
  }

  /** Our own routes as the world leaves them; one that equals a foreign route counts
      as foreign. */
  function LeftOwn(h: Host, d: Disturbance): set<Route> {
    match d
    case RoutesLost(lost) => h.own - lost
    case RouteRebound(from, to) => h.own - {from} + {to} - h.foreign
    case ForeignChanged(foreign) => h.own - foreign
  }

  function Disturbed(h: Host, d: Disturbance): Host {
    h.(foreign := LeftForeign(h.foreign, d), own := LeftOwn(h, d))
  }

  function Cleared(os: Os, h: Host): Host {
    WithRouting(h, AfterClear(os, RoutingOf(h)))
  }

  function TunnelApplied(os: Os, h: Host, push: PushOptions, found: Option<nat>, added: set<IpNet>): Host {
    Recorded(WithRouting(h, AfterApplyRoutes(os, RoutingOf(h), push, found, added)))
  }

  /** CONNECTED clears, applies and records; a later push reply only applies and
      records; the rest is the world outside. */
  function Next(os: Os, h: Host, step: Step): Host {
    match step
    case Connected(push, found, added) => TunnelApplied(os, Cleared(os, h), push, found, added)
    case Repushed(push, found, added) => TunnelApplied(os, h, push, found, added)
    case Outside(d) => Disturbed(h, d)
  }

  /** The foreign routes after a step in which only the world touches them. */
  function WorldsForeign(foreign: set<Route>, step: Step): set<Route> {
    if step.Outside? then LeftForeign(foreign, step.disturbance) else foreign
  }

  /** Pushed destinations stay clear of foreign ones, a rebound route keeps its
      destination, and only the daemon creates routes it owns. */
  ghost predicate Possible(os: Os, h: Host, step: Step) {
    match step
    case Connected(push, _, added) => Apart(h.foreign, Desired(push)) && CanAdd(RoutingOf(Cleared(os, h)), push, added)
    case Repushed(push, _, added) => Apart(h.foreign, Desired(push)) && CanAdd(RoutingOf(h), push, added)
    case Outside(d) => PossibleDisturbance(h, d)
  }

  ghost predicate PossibleDisturbance(h: Host, d: Disturbance) {
    match d
    case RoutesLost(_) => true
    case RouteRebound(from, to) => from in h.own && from.dest == to.dest
    case ForeignChanged(foreign) => Apart(foreign, h.ledger.Keys)
  }

  function FreshHost(foreign: set<Route>): Host {
    Host(foreign, {}, map[], None, None)
  }

  ghost predicate PossibleRun(os: Os, h: Host, steps: seq<Step>)
    decreases |steps|
  {
    steps == [] || (Possible(os, h, steps[0]) && PossibleRun(os, Next(os, h, steps[0]), steps[1..]))
  }

  function Run(os: Os, h: Host, steps: seq<Step>): Host
    decreases |steps|
  {
    if steps == [] then h else Run(os, Next(os, h, steps[0]), steps[1..])
  }

  /** The foreign routes after a run in which only the world touches them. */
  function LastForeign(foreign: set<Route>, steps: seq<Step>): set<Route>
    decreases |steps|
  {
    if steps == [] then foreign else LastForeign(WorldsForeign(foreign, steps[0]), steps[1..])
  }
}
