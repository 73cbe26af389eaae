/** The route ledger: `RouteManager` over a kernel routing table.

    A kernel is a set of routes. Windows tells routes apart by destination,
    next hop and interface together; macOS by destination alone. Everything
    else that lives in the table is foreign and must survive. */
module Routes {
  import opened Nets

  datatype Os = Mac | Windows

  datatype Route = Route(dest: IpNet, gateway: Option<Addr>, ifindex: Option<nat>)

  type Ledger = map<IpNet, Addr>

  /** On macOS the gateway is left out when the interface is known. */
  function BuildRoute(os: Os, net: IpNet, gateway: Addr, ifindex: Option<nat>): Route {
    Route(Canon(net), if os.Mac? && ifindex.Some? then None else Some(gateway), ifindex)
  }

  // ---------------------------------------------------------------- kernel

  predicate SameSlot(os: Os, a: Route, b: Route) {
    if os.Mac? then a.dest == b.dest else a == b
  }

  /** Some route of `rs` sits in the slot of `e`. */
  predicate Claims(os: Os, rs: set<Route>, e: Route) {
    exists r :: r in rs && SameSlot(os, r, e)
  }

  /** The table after deleting every route of `rs`; absent routes are no error. */
  function Evict(os: Os, table: set<Route>, rs: set<Route>): set<Route> {
    set e | e in table && !Claims(os, rs, e)
  }

  /** The table after adding every route of `rs`; an occupied slot (EEXIST) is left as it is. */
  function Fill(os: Os, table: set<Route>, rs: set<Route>): set<Route> {
    table + set r | r in rs && !Claims(os, table, r)
  }

  datatype Op = Added(route: Route) | Deleted(route: Route)

  datatype AddOutcome = Ok | AlreadyExists | Refused

  class Kernel {
    const os: Os
    var table: set<Route>
    /** Every request the daemon made, in order. */
    var journal: seq<Op>

    constructor (os: Os, table: set<Route>)
      ensures this.os == os && this.table == table && journal == []
    {
      this.os, this.table, journal := os, table, [];
    }

    method Add(route: Route, refuse: bool) returns (outcome: AddOutcome)
      modifies this
      ensures journal == old(journal) + [Added(route)]
      ensures outcome == if refuse then Refused else if Claims(os, old(table), route) then AlreadyExists else Ok
      ensures table == if outcome.Ok? then old(table) + {route} else old(table)
    {
      journal := journal + [Added(route)];
      if refuse {
        return Refused;
      }
      if Claims(os, table, route) {
        return AlreadyExists;
      }
      table := table + {route};
      return Ok;
    }

    method Delete(route: Route) returns (found: bool)
      modifies this
      ensures journal == old(journal) + [Deleted(route)]
      ensures found == Claims(os, old(table), route)
      ensures table == Evict(os, old(table), {route})
    {
      journal := journal + [Deleted(route)];
      found := Claims(os, table, route);
      table := set e | e in table && !SameSlot(os, route, e);
    }
  }

  // ------------------------------------------------------------------ diff

  function ToRemove(current: Ledger, desired: Ledger): set<IpNet> {
    set n | n in current && (n !in desired || desired[n] != current[n])
  }

  function ToAdd(current: Ledger, desired: Ledger): set<IpNet> {
    set n | n in desired && (n !in current || current[n] != desired[n])
  }

  /** Routes the diff leaves alone. */
  function Kept(current: Ledger, desired: Ledger): set<IpNet> {
    set n | n in current && n in desired && current[n] == desired[n]
  }

  function Elems(nets: seq<IpNet>): set<IpNet> {
    set n | n in nets
  }

  function Uniform(nets: set<IpNet>, gateway: Addr): Ledger {
    map n | n in nets :: gateway
  }

  function Restrict(ledger: Ledger, nets: set<IpNet>): Ledger {
    map n | n in ledger && n in nets :: ledger[n]
  }

  function RoutesOf(os: Os, ledger: Ledger, ifindex: Option<nat>): set<Route> {
    set n | n in ledger :: BuildRoute(os, n, ledger[n], ifindex)
  }

  /** The gateway the route was installed with, not the one just pushed. */
  function GatewayForDelete(installed: Ledger, net: IpNet, fallback: Addr): Addr {
    if net in installed then installed[net] else fallback
  }

  // --------------------------------------------------------- apply and clear

  /** A kernel table together with the manager's two fields. */
  datatype Routing = Routing(table: set<Route>, ledger: Ledger, ifindex: Option<nat>)

  /** What `apply` leaves behind when, of the routes it wanted to add, the
      kernel took exactly `added`. The interface is recorded only on success. */
  function AfterApply(os: Os, s: Routing, desired: set<IpNet>, gateway: Addr, ifindex: Option<nat>,
                      added: set<IpNet>): Routing {
    var want := Uniform(desired, gateway);
    var gone := ToRemove(s.ledger, want);
    Routing(
      Fill(os, Evict(os, s.table, RoutesOf(os, Restrict(s.ledger, gone), s.ifindex)),
           RoutesOf(os, Uniform(added, gateway), ifindex)),
      (s.ledger - gone) + Uniform(added, gateway),
      if added == ToAdd(s.ledger, want) then ifindex else s.ifindex)
  }

  function AfterClear(os: Os, s: Routing): Routing {
    Routing(Evict(os, s.table, RoutesOf(os, s.ledger, s.ifindex)), map[], None)
  }

  datatype ApplyResult = Applied | AddFailed(dest: IpNet)

  /** Requests that re-shape the table: each deletes a route of `gone` or adds one of `want`. */
  ghost predicate OnlyRequests(ops: seq<Op>, gone: set<Route>, want: set<Route>) {
    forall i :: 0 <= i < |ops| ==>
      match ops[i]
      case Deleted(r) => r in gone
      case Added(r) => r in want
  }

  /** The journal grew from `past` by `count` such requests. */
  ghost predicate Requested(past: seq<Op>, now: seq<Op>, count: nat, gone: set<Route>, want: set<Route>) {
    past <= now && |now| == |past| + count && OnlyRequests(now[|past|..], gone, want)
  }

  /** What a request for network `n` must carry: its destination without host bits, the
      interface as given, and the gateway, which macOS leaves out when it has an interface
      and every other system always needs. */
  predicate Carries(os: Os, r: Route, n: IpNet, gateway: Addr, ifindex: Option<nat>) {
    && r.dest == NetworkOf(n.addr, n.prefix)
    && r.ifindex == ifindex
    && (os.Windows? ==> r.gateway == Some(gateway))
    && (os.Mac? ==> (r.gateway == None <==> ifindex.Some?) && (r.gateway.Some? ==> r.gateway.value == gateway))
  }

  /** Each request deletes a network of `gone` the way it was installed, or adds one of
      `todo` through the gateway and interface asked for. */
  ghost predicate WellFormed(os: Os, ops: seq<Op>, gone: Ledger, installedOn: Option<nat>,
                             todo: set<IpNet>, gateway: Addr, ifindex: Option<nat>) {
    forall k :: 0 <= k < |ops| ==>
      match ops[k]
      case Deleted(r) => exists n :: n in gone && Carries(os, r, n, gone[n], installedOn)
      case Added(r) => exists n :: n in todo && Carries(os, r, n, gateway, ifindex)
  }

  /** Deletes alone. */
  ghost predicate WellFormedDeletes(os: Os, ops: seq<Op>, gone: Ledger, installedOn: Option<nat>) {
    forall k :: 0 <= k < |ops| ==>
      ops[k].Deleted? && exists n :: n in gone && Carries(os, ops[k].route, n, gone[n], installedOn)
  }

  /** The journal grew from `past` by deletes of networks of the ledger. */
  ghost predicate DeletedEach(os: Os, past: seq<Op>, now: seq<Op>, gone: Ledger, installedOn: Option<nat>) {
    past <= now && WellFormedDeletes(os, now[|past|..], gone, installedOn)
  }

  lemma DeletesCarry(os: Os, ops: seq<Op>, gone: Ledger, installedOn: Option<nat>)
    requires OnlyRequests(ops, RoutesOf(os, gone, installedOn), {})
    ensures WellFormedDeletes(os, ops, gone, installedOn)
  {
    forall k | 0 <= k < |ops|
      ensures ops[k].Deleted? && exists n :: n in gone && Carries(os, ops[k].route, n, gone[n], installedOn)
    {
      assert ops[k].Deleted? && ops[k].route in RoutesOf(os, gone, installedOn);
      var n :| n in gone && ops[k].route == BuildRoute(os, n, gone[n], installedOn);
      assert Carries(os, ops[k].route, n, gone[n], installedOn);
    }
  }

  lemma RequestsCarry(os: Os, ops: seq<Op>, gone: Ledger, installedOn: Option<nat>,
                      todo: set<IpNet>, gateway: Addr, ifindex: Option<nat>)
    requires OnlyRequests(ops, RoutesOf(os, gone, installedOn), RoutesOf(os, Uniform(todo, gateway), ifindex))
    ensures WellFormed(os, ops, gone, installedOn, todo, gateway, ifindex)
  {
    forall k | 0 <= k < |ops|
      ensures match ops[k]
              case Deleted(r) => exists n :: n in gone && Carries(os, r, n, gone[n], installedOn)
              case Added(r) => exists n :: n in todo && Carries(os, r, n, gateway, ifindex)
    {
      match ops[k]
      case Deleted(r) =>
        var n :| n in gone && r == BuildRoute(os, n, gone[n], installedOn);
        assert Carries(os, r, n, gone[n], installedOn);
      case Added(r) =>
        var n :| n in Uniform(todo, gateway) && r == BuildRoute(os, n, Uniform(todo, gateway)[n], ifindex);
        assert Carries(os, r, n, gateway, ifindex);
    }
  }

  class RouteManager {
    const kernel: Kernel
    var installed: Ledger
    var installedIfindex: Option<nat>

    constructor (kernel: Kernel)
      ensures this.kernel == kernel && installed == map[] && installedIfindex == None
    {
      this.kernel, installed, installedIfindex := kernel, map[], None;
    }

    ghost function View(): Routing
      reads this, kernel
    {
      Routing(kernel.table, installed, installedIfindex)
    }

    /** Replaces the live route set. `refuses` says which adds the kernel turns down. */
    method Apply(desired: seq<IpNet>, gateway: Addr, ifindex: Option<nat>, refuses: IpNet -> bool)
      returns (result: ApplyResult, ghost added: set<IpNet>)
      modifies this, kernel
      ensures added <= ToAdd(old(installed), Uniform(Elems(desired), gateway))
      ensures View() == AfterApply(kernel.os, old(View()), Elems(desired), gateway, ifindex, added)
      ensures forall n :: n in added ==> !refuses(n)
      ensures var todo := ToAdd(old(installed), Uniform(Elems(desired), gateway));
              match result
              case Applied => added == todo
              case AddFailed(dest) => dest in todo - added && refuses(dest)
      ensures var want := Uniform(Elems(desired), gateway);
              var gone := ToRemove(old(installed), want);
              Requested(old(kernel.journal), kernel.journal, |gone| + |added| + (if result.Applied? then 0 else 1),
                        RoutesOf(kernel.os, Restrict(old(installed), gone), old(installedIfindex)),
                        RoutesOf(kernel.os, Uniform(ToAdd(old(installed), want), gateway), ifindex))
      ensures var want := Uniform(Elems(desired), gateway);
              WellFormed(kernel.os, kernel.journal[|old(kernel.journal)|..],
                         Restrict(old(installed), ToRemove(old(installed), want)), old(installedIfindex),
                         ToAdd(old(installed), want), gateway, ifindex)
    {
      var want := Uniform(Elems(desired), gateway);
      var toAdd := ToAdd(installed, want);
      var toRemove := ToRemove(installed, want);
      ghost var past, gone := kernel.journal, RoutesOf(kernel.os, Restrict(installed, toRemove), installedIfindex);
      DeleteStale(toRemove, gateway);
      ghost var mid := kernel.journal;
      result, added := AddMissing(toAdd, gateway, ifindex, refuses);
      RequestsJoin(past, mid, kernel.journal, |toRemove|, |added| + (if result.Applied? then 0 else 1),
                   gone, RoutesOf(kernel.os, Uniform(toAdd, gateway), ifindex));
      RequestsCarry(kernel.os, kernel.journal[|past|..], Restrict(old(installed), toRemove), old(installedIfindex),
                    toAdd, gateway, ifindex);
      if result.Applied? {
        installedIfindex := ifindex;
      }
    }

    /** The first loop of `apply`. */
    method DeleteStale(toRemove: set<IpNet>, gateway: Addr)
      requires toRemove <= installed.Keys
      modifies this`installed, kernel
      ensures installed == old(installed) - toRemove
      ensures kernel.table == Evict(kernel.os, old(kernel.table),
                                    RoutesOf(kernel.os, Restrict(old(installed), toRemove), installedIfindex))
      ensures Requested(old(kernel.journal), kernel.journal, |toRemove|,
                        RoutesOf(kernel.os, Restrict(old(installed), toRemove), installedIfindex), {})
    {
      ghost var table, ledger, past := kernel.table, installed, kernel.journal;
      ghost var routes := RoutesOf(kernel.os, Restrict(ledger, toRemove), installedIfindex);
      ghost var gone: set<IpNet> := {};
      var left := toRemove;
      EvictNothing(kernel.os, table, ledger, installedIfindex);
      while left != {}
        invariant gone !! left && gone + left == toRemove
        invariant installed == ledger - gone
        invariant kernel.table == Evict(kernel.os, table, RoutesOf(kernel.os, Restrict(ledger, gone), installedIfindex))
        invariant Requested(past, kernel.journal, |gone|, routes, {})
        decreases left
      {
        var net :| net in left;
        assert installed[net] == ledger[net] && net in Restrict(ledger, toRemove);
        var route := BuildRoute(kernel.os, net, GatewayForDelete(installed, net, gateway), installedIfindex);
        OneMoreRequest(past, kernel.journal, |gone|, Deleted(route), routes, {});
        var _ := kernel.Delete(route);
        EvictOneMore(kernel.os, table, ledger, gone, net, installedIfindex);
        installed := installed - {net};
        left := left - {net};
        gone := gone + {net};
      }
    }

    /** The second loop of `apply`: stops at the first add the kernel turns down. */
    method AddMissing(toAdd: set<IpNet>, gateway: Addr, ifindex: Option<nat>, refuses: IpNet -> bool)
      returns (result: ApplyResult, ghost added: set<IpNet>)
      modifies this`installed, kernel
      ensures added <= toAdd && forall n :: n in added ==> !refuses(n)
      ensures match result
              case Applied => added == toAdd
              case AddFailed(dest) => dest in toAdd - added && refuses(dest)
      ensures installed == old(installed) + Uniform(added, gateway)
      ensures kernel.table == Fill(kernel.os, old(kernel.table), RoutesOf(kernel.os, Uniform(added, gateway), ifindex))
      ensures Requested(old(kernel.journal), kernel.journal, |added| + (if result.Applied? then 0 else 1),
                        {}, RoutesOf(kernel.os, Uniform(toAdd, gateway), ifindex))
    {
      ghost var table, ledger, past := kernel.table, installed, kernel.journal;
      ghost var routes := RoutesOf(kernel.os, Uniform(toAdd, gateway), ifindex);
      added := {};
      FillNothing(kernel.os, table, gateway, ifindex);
      var left := toAdd;
      while left != {}
        invariant added !! left && added + left == toAdd
        invariant forall n :: n in added ==> !refuses(n)
        invariant installed == ledger + Uniform(added, gateway)
        invariant kernel.table == Fill(kernel.os, table, RoutesOf(kernel.os, Uniform(added, gateway), ifindex))
        invariant Requested(past, kernel.journal, |added|, {}, routes)
        decreases left
      {
        var net :| net in left;
        assert net in Uniform(toAdd, gateway);
        OneMoreRequest(past, kernel.journal, |added|, Added(BuildRoute(kernel.os, net, gateway, ifindex)), {}, routes);
        var outcome := kernel.Add(BuildRoute(kernel.os, net, gateway, ifindex), refuses(net));
        if outcome.Refused? {
          return AddFailed(net), added;
        }
        FillOneMore(kernel.os, table, added, net, gateway, ifindex);
        RecordOneMore(ledger, added, net, gateway);
        installed := installed[net := gateway];
        left := left - {net};
        added := added + {net};
      }
      result := Applied;
    }

    /** Removes every route the ledger lists. */
    method Clear()
      modifies this, kernel
      ensures View() == AfterClear(kernel.os, old(View()))
      ensures DeletedEach(kernel.os, old(kernel.journal), kernel.journal, old(installed), old(installedIfindex))
    {
      ghost var s, past := View(), kernel.journal;
      ghost var routes := RoutesOf(kernel.os, installed, installedIfindex);
      var work, ifindex := installed, installedIfindex;
      installed, installedIfindex := map[], None;
      ghost var gone: set<IpNet> := {};
      EvictNothing(kernel.os, s.table, s.ledger, s.ifindex);
      while work != map[]
        invariant gone <= s.ledger.Keys && work == s.ledger - gone
        invariant kernel.table == Evict(kernel.os, s.table, RoutesOf(kernel.os, Restrict(s.ledger, gone), s.ifindex))
        invariant installed == map[] && installedIfindex == None
        invariant Requested(past, kernel.journal, |gone|, routes, {})
        decreases s.ledger.Keys - gone
      {
        var net :| net in work;
        var route := BuildRoute(kernel.os, net, work[net], ifindex);
        OneMoreRequest(past, kernel.journal, |gone|, Deleted(route), routes, {});
        var _ := kernel.Delete(route);
        EvictOneMore(kernel.os, s.table, s.ledger, gone, net, s.ifindex);
        work := work - {net};
        gone := gone + {net};
      }
      assert Restrict(s.ledger, gone) == s.ledger && gone == s.ledger.Keys by {
        assert forall n :: n in s.ledger && n !in gone ==> n in work;
      }
      DeletesCarry(kernel.os, kernel.journal[|past|..], s.ledger, s.ifindex);
    }
  }

  // --------------------------------------------------- one more loop iteration

  lemma EvictNothing(os: Os, table: set<Route>, ledger: Ledger, ifindex: Option<nat>)
    ensures Evict(os, table, RoutesOf(os, Restrict(ledger, {}), ifindex)) == table
  {
  }

  lemma EvictOneMore(os: Os, table: set<Route>, ledger: Ledger, gone: set<IpNet>, net: IpNet, ifindex: Option<nat>)
    requires net in ledger
    ensures Evict(os, Evict(os, table, RoutesOf(os, Restrict(ledger, gone), ifindex)),
                  {BuildRoute(os, net, ledger[net], ifindex)})
         == Evict(os, table, RoutesOf(os, Restrict(ledger, gone + {net}), ifindex))
  {
    var before, r := RoutesOf(os, Restrict(ledger, gone), ifindex), BuildRoute(os, net, ledger[net], ifindex);
    var after := RoutesOf(os, Restrict(ledger, gone + {net}), ifindex);
    assert after == before + {r} by {
      assert net in Restrict(ledger, gone + {net});
      forall e | e in before ensures e in after {
        var n :| n in Restrict(ledger, gone) && e == BuildRoute(os, n, ledger[n], ifindex);
        assert n in Restrict(ledger, gone + {net});
      }
    }
    forall e | e in table
      ensures Claims(os, after, e) <==> Claims(os, before, e) || Claims(os, {r}, e)
    {
      assert r in {r} && r in after;
      assert forall x :: x in after ==> x in before || x in {r};
    }
  }

  lemma RecordOneMore(ledger: Ledger, added: set<IpNet>, net: IpNet, gateway: Addr)
    ensures (ledger + Uniform(added, gateway))[net := gateway] == ledger + Uniform(added + {net}, gateway)
  {
  }

  lemma OneMoreRequest(past: seq<Op>, now: seq<Op>, count: nat, op: Op, gone: set<Route>, want: set<Route>)
    requires Requested(past, now, count, gone, want)
    requires match op case Deleted(r) => r in gone case Added(r) => r in want
    ensures Requested(past, now + [op], count + 1, gone, want)
  {
    assert (now + [op])[|past|..] == now[|past|..] + [op];
  }

  lemma RequestsJoin(past: seq<Op>, mid: seq<Op>, now: seq<Op>, m: nat, n: nat, gone: set<Route>, want: set<Route>)
    requires Requested(past, mid, m, gone, {}) && Requested(mid, now, n, {}, want)
    ensures Requested(past, now, m + n, gone, want)
  {
    assert now[|past|..] == mid[|past|..] + now[|mid|..];
  }

  lemma FillNothing(os: Os, table: set<Route>, gateway: Addr, ifindex: Option<nat>)
    ensures Fill(os, table, RoutesOf(os, Uniform({}, gateway), ifindex)) == table
  {
  }

  /** Routes through one gateway and interface that share a slot are the same route,
      so the order in which they are added does not matter. */
  lemma FillOneMore(os: Os, table: set<Route>, added: set<IpNet>, net: IpNet, gateway: Addr, ifindex: Option<nat>)
    ensures var r := BuildRoute(os, net, gateway, ifindex);
            var before := Fill(os, table, RoutesOf(os, Uniform(added, gateway), ifindex));
            var after := Fill(os, table, RoutesOf(os, Uniform(added + {net}, gateway), ifindex));
            after == if Claims(os, before, r) then before else before + {r}
  {
    var r := BuildRoute(os, net, gateway, ifindex);
    var some := RoutesOf(os, Uniform(added, gateway), ifindex);
    var more := RoutesOf(os, Uniform(added + {net}, gateway), ifindex);
    assert more == some + {r} by {
      assert net in Uniform(added + {net}, gateway);
      forall e | e in some ensures e in more {
        var n :| n in Uniform(added, gateway) && e == BuildRoute(os, n, gateway, ifindex);
        assert n in Uniform(added + {net}, gateway);
      }
    }
    var before := Fill(os, table, some);
    if Claims(os, before, r) {
      var e :| e in before && SameSlot(os, e, r);
      if e !in table {
        assert e == r;
      }
    }
  }
}
