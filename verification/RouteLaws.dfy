/** What the ledger guarantees about the kernel table: the diff is as good as a
    reinstall, failures converge, and when a clear really clears. */
module RouteLaws {
  import opened Nets
  import opened Routes

  /** No foreign route has the destination of one of `nets`. */
  ghost predicate Apart(foreign: set<Route>, nets: set<IpNet>) {
    forall e, n :: e in foreign && n in nets ==> e.dest != Canon(n)
  }

  /** The table holds the foreign routes and exactly the routes of the ledger. */
  ghost predicate Agrees(os: Os, s: Routing, foreign: set<Route>) {
    s.table == foreign + RoutesOf(os, s.ledger, s.ifindex)
  }

  /** No host bits set in any of `nets`. */
  ghost predicate Canonical(nets: set<IpNet>) {
    forall n :: n in nets ==> Canon(n) == n
  }

  /** The outcome of tearing everything down and adding every desired route. */
  ghost function Reinstalled(os: Os, foreign: set<Route>, desired: set<IpNet>, gateway: Addr,
                             ifindex: Option<nat>): Routing {
    Routing(foreign + RoutesOf(os, Uniform(desired, gateway), ifindex), Uniform(desired, gateway), ifindex)
  }

  /** Whenever the diff deletes a route in the slot of one it means to keep, it
      also adds that destination back. */
  ghost predicate AliasSafe(os: Os, s: Routing, desired: set<IpNet>, gateway: Addr) {
    var want := Uniform(desired, gateway);
    forall n, m :: n in Kept(s.ledger, want) && m in ToRemove(s.ledger, want)
                   && SameSlot(os, BuildRoute(os, m, s.ledger[m], s.ifindex), BuildRoute(os, n, gateway, s.ifindex))
      ==> exists a :: a in ToAdd(s.ledger, want) && Canon(a) == Canon(n)
  }

  // --------------------------------------------------------- set-level helpers

  lemma InRoutesOf(os: Os, ledger: Ledger, ifindex: Option<nat>, n: IpNet)
    requires n in ledger
    ensures BuildRoute(os, n, ledger[n], ifindex) in RoutesOf(os, ledger, ifindex)
  {
  }

  lemma ForeignSurvivesEvict(os: Os, foreign: set<Route>, ledger: Ledger, ifindex: Option<nat>)
    requires Apart(foreign, ledger.Keys)
    ensures forall e :: e in foreign ==> !Claims(os, RoutesOf(os, ledger, ifindex), e)
  {
  }

  lemma RoutesOfUnion(os: Os, a: Ledger, b: Ledger, ifindex: Option<nat>)
    requires a.Keys !! b.Keys
    ensures RoutesOf(os, a + b, ifindex) == RoutesOf(os, a, ifindex) + RoutesOf(os, b, ifindex)
  {
  }

  /** The ledger is what the diff keeps plus what it drops. */
  lemma LedgerSplits(os: Os, ledger: Ledger, want: Ledger, ifindex: Option<nat>)
    ensures RoutesOf(os, ledger, ifindex)
         == RoutesOf(os, Restrict(ledger, Kept(ledger, want)), ifindex)
             + RoutesOf(os, Restrict(ledger, ToRemove(ledger, want)), ifindex)
    ensures ledger - ToRemove(ledger, want) == Restrict(ledger, Kept(ledger, want))
  {
    var kept, gone := Restrict(ledger, Kept(ledger, want)), Restrict(ledger, ToRemove(ledger, want));
    assert kept + gone == ledger;
    RoutesOfUnion(os, kept, gone, ifindex);
  }

  lemma DesiredSplits(os: Os, ledger: Ledger, desired: set<IpNet>, gateway: Addr, ifindex: Option<nat>)
    ensures var want := Uniform(desired, gateway);
            && RoutesOf(os, want, ifindex)
               == RoutesOf(os, Restrict(ledger, Kept(ledger, want)), ifindex)
                   + RoutesOf(os, Uniform(ToAdd(ledger, want), gateway), ifindex)
            && Restrict(ledger, Kept(ledger, want)) + Uniform(ToAdd(ledger, want), gateway) == want
  {
    var want := Uniform(desired, gateway);
    var kept, new_ := Restrict(ledger, Kept(ledger, want)), Uniform(ToAdd(ledger, want), gateway);
    assert kept + new_ == want;
    RoutesOfUnion(os, kept, new_, ifindex);
  }

  lemma UniformUnion(os: Os, a: set<IpNet>, b: set<IpNet>, gateway: Addr, ifindex: Option<nat>)
    ensures RoutesOf(os, Uniform(a + b, gateway), ifindex)
         == RoutesOf(os, Uniform(a, gateway), ifindex) + RoutesOf(os, Uniform(b, gateway), ifindex)
  {
  }

  /** Filling twice with routes of one gateway and interface is filling once. */
  lemma FillTwice(os: Os, table: set<Route>, a: set<IpNet>, b: set<IpNet>, gateway: Addr, ifindex: Option<nat>)
    ensures Fill(os, Fill(os, table, RoutesOf(os, Uniform(a, gateway), ifindex)),
                 RoutesOf(os, Uniform(b, gateway), ifindex))
         == Fill(os, table, RoutesOf(os, Uniform(a + b, gateway), ifindex))
  {
    var ra, rb := RoutesOf(os, Uniform(a, gateway), ifindex), RoutesOf(os, Uniform(b, gateway), ifindex);
    var rab := RoutesOf(os, Uniform(a + b, gateway), ifindex);
    UniformUnion(os, a, b, gateway, ifindex);
    var mid := Fill(os, table, ra);
    forall r | r in rb
      ensures r in Fill(os, mid, rb) <==> r in Fill(os, table, rab)
    {
      if Claims(os, mid, r) && !Claims(os, table, r) {
        var e :| e in mid && SameSlot(os, e, r);
        assert e in ra && e == r;
      }
    }
  }

  // -------------------------------------------------------------- what apply does

  /** The table after any apply, complete or cut short: foreign routes, what the
      diff kept and was not evicted by an alias, and what it added. */
  lemma ApplyShape(os: Os, s: Routing, foreign: set<Route>, desired: set<IpNet>, gateway: Addr, ifindex: Option<nat>,
                   added: set<IpNet>)
    requires Agrees(os, s, foreign) && Apart(foreign, s.ledger.Keys + desired)
    requires added <= ToAdd(s.ledger, Uniform(desired, gateway))
    requires ifindex == s.ifindex || Canonical(s.ledger.Keys + desired)
    ensures var want := Uniform(desired, gateway);
            var gone := RoutesOf(os, Restrict(s.ledger, ToRemove(s.ledger, want)), s.ifindex);
            var kept := RoutesOf(os, Restrict(s.ledger, Kept(s.ledger, want)), s.ifindex);
            AfterApply(os, s, desired, gateway, ifindex, added).table
            == foreign + Evict(os, kept, gone) + RoutesOf(os, Uniform(added, gateway), ifindex)
  {
    var want := Uniform(desired, gateway);
    var goneLedger, keptLedger := Restrict(s.ledger, ToRemove(s.ledger, want)),
        Restrict(s.ledger, Kept(s.ledger, want));
    var gone, kept := RoutesOf(os, goneLedger, s.ifindex), RoutesOf(os, keptLedger, s.ifindex);
    var new_ := RoutesOf(os, Uniform(added, gateway), ifindex);
    LedgerSplits(os, s.ledger, want, s.ifindex);
    ForeignSurvivesEvict(os, foreign, goneLedger, s.ifindex);
    EvictLeaves(os, foreign, kept, gone);
    var cleared := foreign + Evict(os, kept, gone);
    forall r | r in new_ && Claims(os, cleared, r)
      ensures r in cleared
    {
      AddMeetsKept(os, s, foreign, desired, gateway, ifindex, added, r);
    }
  }

  lemma EvictLeaves(os: Os, foreign: set<Route>, kept: set<Route>, gone: set<Route>)
    requires forall e :: e in foreign ==> !Claims(os, gone, e)
    ensures Evict(os, foreign + (kept + gone), gone) == foreign + Evict(os, kept, gone)
  {
    forall r | r in gone ensures Claims(os, gone, r) {
      assert SameSlot(os, r, r);
    }
  }

  /** An add finds its slot taken only by a kept route, which is then the same route. */
  lemma AddMeetsKept(os: Os, s: Routing, foreign: set<Route>, desired: set<IpNet>, gateway: Addr, ifindex: Option<nat>,
                     added: set<IpNet>, r: Route)
    requires Apart(foreign, s.ledger.Keys + desired)
    requires added <= ToAdd(s.ledger, Uniform(desired, gateway))
    requires ifindex == s.ifindex || Canonical(s.ledger.Keys + desired)
    requires r in RoutesOf(os, Uniform(added, gateway), ifindex)
    requires var kept := RoutesOf(os, Restrict(s.ledger, Kept(s.ledger, Uniform(desired, gateway))), s.ifindex);
             var gone := RoutesOf(os, Restrict(s.ledger, ToRemove(s.ledger, Uniform(desired, gateway))), s.ifindex);
             Claims(os, foreign + Evict(os, kept, gone), r)
    ensures var kept := RoutesOf(os, Restrict(s.ledger, Kept(s.ledger, Uniform(desired, gateway))), s.ifindex);
            var gone := RoutesOf(os, Restrict(s.ledger, ToRemove(s.ledger, Uniform(desired, gateway))), s.ifindex);
            r in Evict(os, kept, gone)
  {
    var keptLedger := Restrict(s.ledger, Kept(s.ledger, Uniform(desired, gateway)));
    var gone := RoutesOf(os, Restrict(s.ledger, ToRemove(s.ledger, Uniform(desired, gateway))), s.ifindex);
    var left := Evict(os, RoutesOf(os, keptLedger, s.ifindex), gone);
    var a :| a in Uniform(added, gateway) && r == BuildRoute(os, a, gateway, ifindex);
    var e :| e in foreign + left && SameSlot(os, e, r);
    assert e in left;
    var n :| n in keptLedger && e == BuildRoute(os, n, s.ledger[n], s.ifindex);
    assert n != a && Canon(n) == Canon(a);
    assert ifindex == s.ifindex;
  }

  /** Diffing is as good as reinstalling, exactly when no deletion takes a kept
      alias away: the table and the ledger come out the same. */
  lemma DiffRefinesReinstall(os: Os, s: Routing, foreign: set<Route>, desired: set<IpNet>, gateway: Addr)
    requires Agrees(os, s, foreign) && Apart(foreign, s.ledger.Keys + desired)
    ensures AfterApply(os, s, desired, gateway, s.ifindex, ToAdd(s.ledger, Uniform(desired, gateway)))
         == Reinstalled(os, foreign, desired, gateway, s.ifindex)
       <==> AliasSafe(os, s, desired, gateway)
  {
    var want := Uniform(desired, gateway);
    ApplyShape(os, s, foreign, desired, gateway, s.ifindex, ToAdd(s.ledger, want));
    LedgerSplits(os, s.ledger, want, s.ifindex);
    DesiredSplits(os, s.ledger, desired, gateway, s.ifindex);
    AliasSafeMeaning(os, s, desired, gateway);
    assert Restrict(s.ledger, Kept(s.ledger, want)).Keys <= s.ledger.Keys;
    LossIsEvictedKept(os, foreign,
                      RoutesOf(os, Restrict(s.ledger, Kept(s.ledger, want)), s.ifindex),
                      RoutesOf(os, Restrict(s.ledger, ToRemove(s.ledger, want)), s.ifindex),
                      RoutesOf(os, Uniform(ToAdd(s.ledger, want), gateway), s.ifindex));
  }

  lemma LossIsEvictedKept(os: Os, foreign: set<Route>, kept: set<Route>, gone: set<Route>, new_: set<Route>)
    requires foreign !! kept
    ensures foreign + Evict(os, kept, gone) + new_ == foreign + (kept + new_)
       <==> forall r :: r in kept && Claims(os, gone, r) ==> r in new_
  {
  }

  /** Alias safety, read off the routes instead of the nets. */
  lemma AliasSafeMeaning(os: Os, s: Routing, desired: set<IpNet>, gateway: Addr)
    ensures var want := Uniform(desired, gateway);
            var kept := RoutesOf(os, Restrict(s.ledger, Kept(s.ledger, want)), s.ifindex);
            var gone := RoutesOf(os, Restrict(s.ledger, ToRemove(s.ledger, want)), s.ifindex);
            var new_ := RoutesOf(os, Uniform(ToAdd(s.ledger, want), gateway), s.ifindex);
            AliasSafe(os, s, desired, gateway) <==> forall r :: r in kept && Claims(os, gone, r) ==> r in new_
  {
    var want := Uniform(desired, gateway);
    var goneLedger, keptLedger := Restrict(s.ledger, ToRemove(s.ledger, want)),
        Restrict(s.ledger, Kept(s.ledger, want));
    var gone, kept := RoutesOf(os, goneLedger, s.ifindex), RoutesOf(os, keptLedger, s.ifindex);
    if AliasSafe(os, s, desired, gateway) {
      forall r | r in kept && Claims(os, gone, r)
        ensures r in RoutesOf(os, Uniform(ToAdd(s.ledger, want), gateway), s.ifindex)
      {
        KeptSurvives(os, s, desired, gateway, r);
      }
    } else {
      var n, m :| n in Kept(s.ledger, want) && m in ToRemove(s.ledger, want)
        && SameSlot(os, BuildRoute(os, m, s.ledger[m], s.ifindex), BuildRoute(os, n, gateway, s.ifindex))
        && !exists a :: a in ToAdd(s.ledger, want) && Canon(a) == Canon(n);
      InRoutesOf(os, keptLedger, s.ifindex, n);
      InRoutesOf(os, goneLedger, s.ifindex, m);
      var r := BuildRoute(os, n, gateway, s.ifindex);
      assert r in kept && Claims(os, gone, r);
    }
  }

  lemma KeptSurvives(os: Os, s: Routing, desired: set<IpNet>, gateway: Addr, r: Route)
    requires AliasSafe(os, s, desired, gateway)
    requires r in RoutesOf(os, Restrict(s.ledger, Kept(s.ledger, Uniform(desired, gateway))), s.ifindex)
    requires Claims(os, RoutesOf(os, Restrict(s.ledger, ToRemove(s.ledger, Uniform(desired, gateway))), s.ifindex), r)
    ensures r in RoutesOf(os, Uniform(ToAdd(s.ledger, Uniform(desired, gateway)), gateway), s.ifindex)
  {
  }

  lemma CanonicalIsAliasSafe(os: Os, s: Routing, desired: set<IpNet>, gateway: Addr)
    requires Canonical(s.ledger.Keys)
    ensures AliasSafe(os, s, desired, gateway)
  {
  }

  /** The other case is real: two ledger entries that differ in host bits are one
      kernel route, and dropping the second deletes it. */
  lemma AliasLosesRoute(os: Os, a: IpNet, b: IpNet, gateway: Addr, ifindex: Option<nat>)
    requires a != b && Canon(a) == Canon(b)
    ensures var s := Reinstalled(os, {}, {a, b}, gateway, ifindex);
            && Agrees(os, s, {})
            && AfterApply(os, s, {a}, gateway, ifindex, {}) == Routing({}, Uniform({a}, gateway), ifindex)
  {
    var s := Reinstalled(os, {}, {a, b}, gateway, ifindex);
    var want := Uniform({a}, gateway);
    var r := BuildRoute(os, b, gateway, ifindex);
    AliasDiff(a, b, gateway);
    ApplyShape(os, s, {}, {a}, gateway, ifindex, {});
    var kept, gone := RoutesOf(os, Restrict(s.ledger, {a}), ifindex), RoutesOf(os, Restrict(s.ledger, {b}), ifindex);
    InRoutesOf(os, Restrict(s.ledger, {b}), ifindex, b);
    assert r in gone;
    assert forall e :: e in kept ==> e == r && Claims(os, gone, e);
    assert Evict(os, kept, gone) == {};
    assert RoutesOf(os, Uniform({}, gateway), ifindex) == {};
  }

  lemma AliasDiff(a: IpNet, b: IpNet, gateway: Addr)
    requires a != b
    ensures var both, want := Uniform({a, b}, gateway), Uniform({a}, gateway);
            && ToRemove(both, want) == {b} && ToAdd(both, want) == {} && Kept(both, want) == {a}
            && (both - {b}) + Uniform({}, gateway) == want
  {
  }

  lemma HostBitsAlias()
    ensures var a, b := Net(Addr(V4, 0x0a000000), 31), Net(Addr(V4, 0x0a000001), 31);
            a != b && Canon(a) == Canon(b)
  {
    assert Truncate(0x0a000000, 1) == 2 * Truncate(0x05000000, 0);
    assert Truncate(0x0a000001, 1) == 2 * Truncate(0x05000000, 0);
  }

  // ------------------------------------------------------------ runs of applies

  datatype Request = Request(desired: set<IpNet>, gateway: Addr)

  ghost function ApplyAll(os: Os, s: Routing, ifindex: Option<nat>, requests: seq<Request>): Routing
    decreases |requests|
  {
    if requests == [] then s else
    var q := requests[0];
    ApplyAll(os, AfterApply(os, s, q.desired, q.gateway, ifindex, ToAdd(s.ledger, Uniform(q.desired, q.gateway))),
             ifindex, requests[1..])
  }

  /** Through any series of re-pushes and gateway flips on one interface, the last
      request alone decides the ledger and the table. */
  lemma {:induction false} LastRequestDecides(os: Os, s: Routing, foreign: set<Route>, ifindex: Option<nat>,
                                              requests: seq<Request>)
    requires requests != []
    requires Agrees(os, s, foreign) && Apart(foreign, s.ledger.Keys) && Canonical(s.ledger.Keys)
    requires s.ledger == map[] || s.ifindex == ifindex
    requires forall q :: q in requests ==> Canonical(q.desired) && Apart(foreign, q.desired)
    ensures ApplyAll(os, s, ifindex, requests)
         == Reinstalled(os, foreign, requests[|requests| - 1].desired, requests[|requests| - 1].gateway, ifindex)
    decreases |requests|
  {
    var q := requests[0];
    var t := s.(ifindex := ifindex);
    assert Agrees(os, t, foreign);
    CanonicalIsAliasSafe(os, t, q.desired, q.gateway);
    DiffRefinesReinstall(os, t, foreign, q.desired, q.gateway);
    var todo := ToAdd(s.ledger, Uniform(q.desired, q.gateway));
    if s.ledger == map[] {
      var gone := Restrict(s.ledger, ToRemove(s.ledger, Uniform(q.desired, q.gateway)));
      assert RoutesOf(os, gone, s.ifindex) == RoutesOf(os, gone, ifindex) == {};
    }
    var next := AfterApply(os, s, q.desired, q.gateway, ifindex, todo);
    assert next == AfterApply(os, t, q.desired, q.gateway, ifindex, todo);
    if |requests| > 1 {
      LastRequestDecides(os, next, foreign, ifindex, requests[1..]);
    }
  }

  // ------------------------------------------------------------- failed applies

  /** An add that fails, at whatever point, leaves the ledger listing exactly the
      routes the daemon has in the table. */
  lemma PartialApplyAgrees(os: Os, s: Routing, foreign: set<Route>, desired: set<IpNet>, gateway: Addr,
                           ifindex: Option<nat>, added: set<IpNet>)
    requires Agrees(os, s, foreign) && Apart(foreign, s.ledger.Keys + desired) && Canonical(s.ledger.Keys + desired)
    requires s.ledger == map[] || s.ifindex == ifindex
    requires added <= ToAdd(s.ledger, Uniform(desired, gateway))
    ensures var t := AfterApply(os, s, desired, gateway, ifindex, added);
            t.table == foreign + RoutesOf(os, t.ledger, ifindex)
  {
    var want := Uniform(desired, gateway);
    var keptLedger := Restrict(s.ledger, Kept(s.ledger, want));
    ApplyTwoParts(os, s, foreign, desired, gateway, ifindex, added);
    LedgerSplits(os, s.ledger, want, s.ifindex);
    RoutesOfUnion(os, keptLedger, Uniform(added, gateway), ifindex);
    if s.ledger == map[] {
      assert RoutesOf(os, keptLedger, s.ifindex) == RoutesOf(os, keptLedger, ifindex);
    }
  }

  /** Kept routes stay on the interface they were added on, new ones go to `ifindex`. */
  lemma ApplyTwoParts(os: Os, s: Routing, foreign: set<Route>, desired: set<IpNet>, gateway: Addr,
                      ifindex: Option<nat>, added: set<IpNet>)
    requires Agrees(os, s, foreign) && Apart(foreign, s.ledger.Keys + desired) && Canonical(s.ledger.Keys + desired)
    requires added <= ToAdd(s.ledger, Uniform(desired, gateway))
    ensures var want := Uniform(desired, gateway);
            AfterApply(os, s, desired, gateway, ifindex, added).table
            == foreign + RoutesOf(os, Restrict(s.ledger, Kept(s.ledger, want)), s.ifindex)
                + RoutesOf(os, Uniform(added, gateway), ifindex)
  {
    var want := Uniform(desired, gateway);
    var kept := RoutesOf(os, Restrict(s.ledger, Kept(s.ledger, want)), s.ifindex);
    var gone := RoutesOf(os, Restrict(s.ledger, ToRemove(s.ledger, want)), s.ifindex);
    ApplyShape(os, s, foreign, desired, gateway, ifindex, added);
    assert Evict(os, kept, gone) == kept;
  }

  /** No request is ever made for a destination the diff keeps: neither the routes it
      may delete nor those it may add include it. */
  lemma KeptIsNeverRequested(os: Os, s: Routing, desired: set<IpNet>, gateway: Addr, ifindex: Option<nat>,
                             ops: seq<Op>, n: IpNet)
    requires Canonical(s.ledger.Keys + desired) && n in Kept(s.ledger, Uniform(desired, gateway))
    requires var want := Uniform(desired, gateway);
             OnlyRequests(ops, RoutesOf(os, Restrict(s.ledger, ToRemove(s.ledger, want)), s.ifindex),
                          RoutesOf(os, Uniform(ToAdd(s.ledger, want), gateway), ifindex))
    ensures forall i :: 0 <= i < |ops| ==> ops[i].route.dest != Canon(n)
  {
  }

  /** Retrying after a failure deletes nothing, adds only what is missing, and
      ends where an apply without the failure would have ended. */
  lemma RetryConverges(os: Os, s: Routing, desired: set<IpNet>, gateway: Addr, ifindex: Option<nat>, added: set<IpNet>)
    requires added <= ToAdd(s.ledger, Uniform(desired, gateway))
    ensures var want := Uniform(desired, gateway);
            var todo := ToAdd(s.ledger, want);
            var t := AfterApply(os, s, desired, gateway, ifindex, added);
            && ToRemove(t.ledger, want) == {}
            && ToAdd(t.ledger, want) == todo - added
            && AfterApply(os, t, desired, gateway, ifindex, todo - added)
                == AfterApply(os, s, desired, gateway, ifindex, todo)
  {
    var want := Uniform(desired, gateway);
    var todo := ToAdd(s.ledger, want);
    var gone := ToRemove(s.ledger, want);
    var t := AfterApply(os, s, desired, gateway, ifindex, added);
    RetryLedger(s.ledger, desired, gateway, added);
    EvictNothing(os, t.table, t.ledger, t.ifindex);
    FillTwice(os, Evict(os, s.table, RoutesOf(os, Restrict(s.ledger, gone), s.ifindex)), added, todo - added, gateway,
              ifindex);
    assert added + (todo - added) == todo;
  }

  lemma RetryLedger(ledger: Ledger, desired: set<IpNet>, gateway: Addr, added: set<IpNet>)
    requires added <= ToAdd(ledger, Uniform(desired, gateway))
    ensures var want := Uniform(desired, gateway);
            var todo, gone := ToAdd(ledger, want), ToRemove(ledger, want);
            var after := (ledger - gone) + Uniform(added, gateway);
            && ToRemove(after, want) == {}
            && ToAdd(after, want) == todo - added
            && (after - {}) + Uniform(todo - added, gateway) == (ledger - gone) + Uniform(todo, gateway)
  {
  }

  // ---------------------------------------------------------------------- clear

  /** A clear leaves exactly the foreign routes just when every other route sits in
      the slot of a ledger route. */
  lemma ClearExact(os: Os, s: Routing, foreign: set<Route>, own: set<Route>)
    requires s.table == foreign + own && foreign !! own
    requires Apart(foreign, s.ledger.Keys)
    ensures AfterClear(os, s) == Routing(foreign, map[], None)
       <==> forall e :: e in own ==> Claims(os, RoutesOf(os, s.ledger, s.ifindex), e)
  {
    var routes := RoutesOf(os, s.ledger, s.ifindex);
    ForeignSurvivesEvict(os, foreign, s.ledger, s.ifindex);
    var left := Evict(os, s.table, routes);
    assert forall e :: e in own ==> (e in left <==> !Claims(os, routes, e));
    assert foreign <= left;
    if exists e :: e in own && !Claims(os, routes, e) {
      var e :| e in own && !Claims(os, routes, e);
      assert e in left && e !in foreign;
    } else {
      assert left == foreign;
    }
  }

  ghost predicate RecordMatches(os: Os, s: Routing, desired: set<IpNet>, gateway: Addr, ifindex: Option<nat>,
                                added: set<IpNet>) {
    var want := Uniform(desired, gateway);
    var failed := added != ToAdd(s.ledger, want);
    || os.Mac?
    || s.ifindex == ifindex
    || (if failed then added == {} else Kept(s.ledger, want) == {})
  }

  /** After an apply, whole or cut short, on whatever interface, a clear leaves only
      foreign routes if and only if deletes go by destination, or no surviving
      route is on an interface other than the one the manager has on record. The
      record is the old interface when the apply failed, the new one otherwise. */
  lemma ApplyThenClear(os: Os, s: Routing, foreign: set<Route>, desired: set<IpNet>, gateway: Addr,
                       ifindex: Option<nat>, added: set<IpNet>)
    requires Agrees(os, s, foreign) && Apart(foreign, s.ledger.Keys + desired) && Canonical(s.ledger.Keys + desired)
    requires added <= ToAdd(s.ledger, Uniform(desired, gateway))
    ensures AfterClear(os, AfterApply(os, s, desired, gateway, ifindex, added)) == Routing(foreign, map[], None)
       <==> RecordMatches(os, s, desired, gateway, ifindex, added)
  {
    var want := Uniform(desired, gateway);
    var keptLedger := Restrict(s.ledger, Kept(s.ledger, want));
    var kept, new_ := RoutesOf(os, keptLedger, s.ifindex), RoutesOf(os, Uniform(added, gateway), ifindex);
    var t := AfterApply(os, s, desired, gateway, ifindex, added);
    ApplyTwoParts(os, s, foreign, desired, gateway, ifindex, added);
    assert t.ledger == keptLedger + Uniform(added, gateway) by {
      LedgerSplits(os, s.ledger, want, s.ifindex);
    }
    OwnPartsApart(os, foreign, keptLedger, s.ifindex, Uniform(added, gateway), ifindex);
    ClearExact(os, t, foreign, kept + new_);
    ClaimedOnRecord(os, t.ledger, t.ifindex, keptLedger, s.ifindex);
    ClaimedOnRecord(os, t.ledger, t.ifindex, Uniform(added, gateway), ifindex);
    assert keptLedger.Keys == Kept(s.ledger, want);
    assert Uniform(added, gateway).Keys == added;
  }

  /** A first apply that fails half-way on a kernel keyed by interface: the clear after
      it names no interface and leaves the route that was added, off every record. */
  lemma FailedApplyLeaks(n: IpNet, m: IpNet, gateway: Addr, interface: nat)
    requires n != m && Canonical({n, m})
    ensures var s := AfterApply(Windows, Routing({}, map[], None), {n, m}, gateway, Some(interface), {n});
            AfterClear(Windows, s) == Routing({BuildRoute(Windows, n, gateway, Some(interface))}, map[], None)
  {
    var start := Routing({}, map[], None);
    FreshApply(Windows, {}, None, {n, m}, gateway, Some(interface), {n});
    assert n in Uniform({n}, gateway);
    assert RoutesOf(Windows, Uniform({n}, gateway), Some(interface))
        == {BuildRoute(Windows, n, gateway, Some(interface))};
    assert forall r :: r in RoutesOf(Windows, Uniform({n}, gateway), None) ==> r.ifindex == None;
  }

  /** A whole apply does it too, when it keeps a route that is on another interface. */
  lemma MovedApplyLeaks(n: IpNet, gateway: Addr, before: nat, after: nat)
    requires before != after && Canon(n) == n
    ensures var s := Reinstalled(Windows, {}, {n}, gateway, Some(before));
            var t := AfterApply(Windows, s, {n}, gateway, Some(after), {});
            t.ifindex == Some(after) && AfterClear(Windows, t) != Routing({}, map[], None)
  {
    var s, want := Reinstalled(Windows, {}, {n}, gateway, Some(before)), Uniform({n}, gateway);
    assert n in want && n in Kept(s.ledger, want);
    assert ToAdd(s.ledger, want) == {};
    ApplyThenClear(Windows, s, {}, {n}, gateway, Some(after), {});
  }

  lemma OwnPartsApart(os: Os, foreign: set<Route>, a: Ledger, i: Option<nat>, b: Ledger, j: Option<nat>)
    requires Apart(foreign, a.Keys + b.Keys)
    ensures foreign !! RoutesOf(os, a, i) + RoutesOf(os, b, j)
  {
  }

  /** Routes of a part of the ledger, added on `at`, are found by deletes issued for
      `recorded` exactly when the interfaces match or do not count. */
  lemma ClaimedOnRecord(os: Os, ledger: Ledger, recorded: Option<nat>, part: Ledger, at: Option<nat>)
    requires part.Keys <= ledger.Keys && forall n :: n in part ==> part[n] == ledger[n]
    ensures (forall e :: e in RoutesOf(os, part, at) ==> Claims(os, RoutesOf(os, ledger, recorded), e))
       <==> os.Mac? || recorded == at || part == map[]
  {
    var routes := RoutesOf(os, ledger, recorded);
    if os.Mac? || recorded == at || part == map[] {
      forall e | e in RoutesOf(os, part, at) ensures Claims(os, routes, e) {
        var n :| n in part && e == BuildRoute(os, n, part[n], at);
        InRoutesOf(os, ledger, recorded, n);
        assert SameSlot(os, BuildRoute(os, n, ledger[n], recorded), e);
      }
    } else {
      var n :| n in part;
      InRoutesOf(os, part, at, n);
      assert !Claims(os, routes, BuildRoute(os, n, part[n], at));
    }
  }

  // ------------------------------------------------------- clear, then apply

  /** From a clean ledger every desired route is added and nothing else changes. */
  lemma FreshApply(os: Os, foreign: set<Route>, old_: Option<nat>, desired: set<IpNet>, gateway: Addr,
                   ifindex: Option<nat>, added: set<IpNet>)
    requires Apart(foreign, desired) && added <= desired
    ensures ToAdd(map[], Uniform(desired, gateway)) == desired
    ensures AfterApply(os, Routing(foreign, map[], old_), desired, gateway, ifindex, added)
         == Routing(foreign + RoutesOf(os, Uniform(added, gateway), ifindex), Uniform(added, gateway),
                    if added == desired then ifindex else old_)
  {
    var s, want := Routing(foreign, map[], old_), Uniform(desired, gateway);
    assert ToRemove(s.ledger, want) == {};
    assert ToAdd(s.ledger, want) == desired;
    EvictNothing(os, foreign, s.ledger, old_);
    assert Restrict(s.ledger, {}) == map[];
    forall r | r in RoutesOf(os, Uniform(added, gateway), ifindex) ensures !Claims(os, foreign, r) {
    }
    assert s.ledger - {} + Uniform(added, gateway) == Uniform(added, gateway);
  }

  /** CONNECTED heals: whatever became of the daemon's routes, as long as deletes
      still reach them, clear-then-apply ends at the reinstalled state. */
  lemma ClearThenApplyHeals(os: Os, s: Routing, foreign: set<Route>, own: set<Route>, desired: set<IpNet>,
                            gateway: Addr, ifindex: Option<nat>)
    requires s.table == foreign + own && foreign !! own
    requires Apart(foreign, s.ledger.Keys + desired)
    requires forall e :: e in own ==> Claims(os, RoutesOf(os, s.ledger, s.ifindex), e)
    ensures AfterApply(os, AfterClear(os, s), desired, gateway, ifindex, desired)
            == Reinstalled(os, foreign, desired, gateway, ifindex)
  {
    ClearExact(os, s, foreign, own);
    FreshApply(os, foreign, None, desired, gateway, ifindex, desired);
  }
}
