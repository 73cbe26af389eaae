/** The kernel table and the manifest file over whole runs, on both systems: foreign
    routes are never touched, and exactly when nothing of ours is left behind. */
module RecoveryLaws {
  import opened Nets
  import opened Push
  import opened Routes
  import opened RouteLaws
  import opened Recovery
  import Forwarding

  /** Foreign routes and ours are told apart, and the manifest is the ledger. */
  ghost predicate Accounted(h: Host) {
    && Apart(h.foreign, h.ledger.Keys) && h.foreign !! h.own
    && (h.manifest == Some(Entries(h.ledger)) || (h.manifest == None && h.ledger == map[]))
  }

  /** Every route of ours is in the slot of a ledger route on the recorded interface. */
  ghost predicate Reached(os: Os, h: Host) {
    forall e :: e in h.own ==> Claims(os, RoutesOf(os, h.ledger, h.ifindex), e)
  }

  ghost predicate Inv(os: Os, h: Host) {
    Accounted(h) && Reached(os, h)
  }

  // ------------------------------------------------------- foreign routes survive

  lemma ClearSparesForeign(os: Os, h: Host)
    requires Apart(h.foreign, h.ledger.Keys) && h.foreign !! h.own
    ensures var t := Cleared(os, h);
            t.foreign == h.foreign && t.own <= h.own && t.ledger == map[] && t.ifindex == None
  {
    ForeignSurvivesEvict(os, h.foreign, h.ledger, h.ifindex);
  }

  lemma ApplySparesForeign(os: Os, h: Host, push: PushOptions, found: Option<nat>, added: set<IpNet>)
    requires Apart(h.foreign, h.ledger.Keys + Desired(push)) && h.foreign !! h.own && CanAdd(RoutingOf(h), push, added)
    ensures var t := TunnelApplied(os, h, push, found, added); Accounted(t) && t.foreign == h.foreign
  {
    if push.routeGateway.Some? {
      var gateway := push.routeGateway.value;
      var gone := Restrict(h.ledger, ToRemove(h.ledger, Uniform(Desired(push), gateway)));
      ForeignSurvivesEvict(os, h.foreign, gone, h.ifindex);
      assert AfterApply(os, RoutingOf(h), Desired(push), gateway, TunnelIfindex(push, found), added).ledger.Keys
          <= h.ledger.Keys + Desired(push);
    }
  }

  /** On either system a step of ours keeps the account and touches no foreign route. */
  lemma StepKeepsAccount(os: Os, h: Host, step: Step)
    requires Accounted(h) && Possible(os, h, step)
    ensures var t := Next(os, h, step); Accounted(t) && t.foreign == WorldsForeign(h.foreign, step)
  {
    match step
    case Connected(push, found, added) =>
      ClearSparesForeign(os, h);
      ApplySparesForeign(os, Cleared(os, h), push, found, added);
    case Repushed(push, found, added) => ApplySparesForeign(os, h, push, found, added);
    case _ =>
  }

  lemma {:induction false} RunKeepsAccount(os: Os, h: Host, steps: seq<Step>)
    requires Accounted(h) && PossibleRun(os, h, steps)
    ensures var t := Run(os, h, steps); Accounted(t) && t.foreign == LastForeign(h.foreign, steps)
    decreases |steps|
  {
    if steps != [] {
      StepKeepsAccount(os, h, steps[0]);
      RunKeepsAccount(os, Next(os, h, steps[0]), steps[1..]);
    }
  }

  // -------------------------------------------------------- own routes stay reached

  /** A clear leaves exactly the foreign routes if and only if every route of ours is
      reached by what the manager has on record. */
  lemma ClearedExactly(os: Os, h: Host)
    requires Accounted(h)
    ensures AfterClear(os, RoutingOf(h)) == Routing(h.foreign, map[], None) <==> Reached(os, h)
  {
    ClearExact(os, RoutingOf(h), h.foreign, h.own);
  }

  /** The ledger a fresh apply leaves when the kernel took `added`. */
  function Accepted(push: PushOptions, added: set<IpNet>): Ledger {
    match push.routeGateway
    case None => map[]
    case Some(gateway) => Uniform(added, gateway)
  }

  /** What keeps the next clear exact: an apply whose routes are all on the interface it
      puts on record, and, unless deletes go by destination, a kernel that moves no
      route to another interface. */
  ghost predicate StaysOnRecord(os: Os, h: Host, step: Step) {
    match step
    case Connected(push, found, added) => ApplyOnRecord(os, Cleared(os, h), push, found, added)
    case Repushed(push, found, added) => ApplyOnRecord(os, h, push, found, added)
    case Outside(d) => d.RouteRebound? ==> os.Mac?
  }

  ghost predicate ApplyOnRecord(os: Os, h: Host, push: PushOptions, found: Option<nat>, added: set<IpNet>) {
    push.routeGateway.Some? ==>
      RecordMatches(os, RoutingOf(h), Desired(push), push.routeGateway.value, TunnelIfindex(push, found), added)
  }

  /** CONNECTED heals the table whatever became of the own routes, as long as deletes
      reach them: afterwards they are exactly those the push asked for and the kernel
      took. They are reached again exactly when that apply stays on record. */
  lemma ConnectedHeals(os: Os, h: Host, push: PushOptions, found: Option<nat>, added: set<IpNet>)
    requires Inv(os, h) && Possible(os, h, Connected(push, found, added))
    ensures var t := Next(os, h, Connected(push, found, added));
            && Accounted(t) && t.foreign == h.foreign
            && RoutingOf(t).table == h.foreign + RoutesOf(os, Accepted(push, added), TunnelIfindex(push, found))
            && t.ledger == Accepted(push, added)
            && t.own == RoutesOf(os, Accepted(push, added), TunnelIfindex(push, found))
            && (Reached(os, t) <==> StaysOnRecord(os, h, Connected(push, found, added)))
  {
    ClearedExactly(os, h);
    StepKeepsAccount(os, h, Connected(push, found, added));
    if push.routeGateway.Some? {
      var gateway, ifindex := push.routeGateway.value, TunnelIfindex(push, found);
      var t := Next(os, h, Connected(push, found, added));
      FreshApply(os, h.foreign, None, Desired(push), gateway, ifindex, {});
      FreshApply(os, h.foreign, None, Desired(push), gateway, ifindex, added);
      var own := RoutesOf(os, Uniform(added, gateway), ifindex);
      assert own !! h.foreign;
      assert t.own == own && t.ledger == Uniform(added, gateway);
      ClaimedOnRecord(os, t.ledger, t.ifindex, t.ledger, ifindex);
      assert t.ledger == map[] <==> added == {} by {
        assert t.ledger.Keys == added;
      }
    }
  }

  /** The routes of ours after CONNECTED, field by field: one for each network the kernel
      took, through the pushed gateway on the interface that carries the pushed tunnel
      address, and no interface when the push has no such address. */
  lemma ConnectedRoutes(os: Os, h: Host, push: PushOptions, found: Option<nat>, added: set<IpNet>, gateway: Addr)
    requires Inv(os, h) && Possible(os, h, Connected(push, found, added)) && push.routeGateway == Some(gateway)
    ensures var own := Next(os, h, Connected(push, found, added)).own;
            var ifindex := if push.ifconfig.Some? then found else None;
            && (forall e :: e in own ==> exists n :: n in added && Carries(os, e, n, gateway, ifindex))
            && (forall n :: n in added ==> exists e :: e in own && Carries(os, e, n, gateway, ifindex))
  {
    var ifindex := if push.ifconfig.Some? then found else None;
    assert Next(os, h, Connected(push, found, added)).own == RoutesOf(os, Uniform(added, gateway), ifindex) by {
      ConnectedHeals(os, h, push, found, added);
    }
    UniformRoutes(os, added, gateway, ifindex);
  }

  lemma UniformRoutes(os: Os, added: set<IpNet>, gateway: Addr, ifindex: Option<nat>)
    ensures var routes := RoutesOf(os, Uniform(added, gateway), ifindex);
            && (forall e :: e in routes ==> exists n :: n in added && Carries(os, e, n, gateway, ifindex))
            && (forall n :: n in added ==> exists e :: e in routes && Carries(os, e, n, gateway, ifindex))
  {
    var want := Uniform(added, gateway);
    forall n | n in added ensures exists e :: e in RoutesOf(os, want, ifindex) && Carries(os, e, n, gateway, ifindex) {
      InRoutesOf(os, want, ifindex, n);
      assert Carries(os, BuildRoute(os, n, gateway, ifindex), n, gateway, ifindex);
    }
    forall e | e in RoutesOf(os, want, ifindex) ensures exists n :: n in added && Carries(os, e, n, gateway, ifindex) {
      var n :| n in want && e == BuildRoute(os, n, gateway, ifindex);
      assert Carries(os, e, n, gateway, ifindex);
    }
  }

  /** A route of ours that a diff leaves in the table is still reached afterwards. */
  lemma SurvivorReached(os: Os, s: Routing, own: set<Route>, desired: set<IpNet>, gateway: Addr,
                        ifindex: Option<nat>, added: set<IpNet>, e: Route)
    requires added <= ToAdd(s.ledger, Uniform(desired, gateway))
    requires RecordMatches(os, s, desired, gateway, ifindex, added)
    requires var gone := Restrict(s.ledger, ToRemove(s.ledger, Uniform(desired, gateway)));
             e in Evict(os, own, RoutesOf(os, gone, s.ifindex))
    requires Claims(os, RoutesOf(os, s.ledger, s.ifindex), e)
    ensures var t := AfterApply(os, s, desired, gateway, ifindex, added);
            Claims(os, RoutesOf(os, t.ledger, t.ifindex), e)
  {
    var want := Uniform(desired, gateway);
    var gone := Restrict(s.ledger, ToRemove(s.ledger, want));
    var t := AfterApply(os, s, desired, gateway, ifindex, added);
    var r :| r in RoutesOf(os, s.ledger, s.ifindex) && SameSlot(os, r, e);
    var n :| n in s.ledger && r == BuildRoute(os, n, s.ledger[n], s.ifindex);
    if n in gone {
      InRoutesOf(os, gone, s.ifindex, n);
      assert false;
    }
    assert n in Kept(s.ledger, want) && n in t.ledger && t.ledger[n] == s.ledger[n];
    InRoutesOf(os, t.ledger, t.ifindex, n);
    assert SameSlot(os, BuildRoute(os, n, t.ledger[n], t.ifindex), e);
  }

  lemma AddedReached(os: Os, s: Routing, desired: set<IpNet>, gateway: Addr, ifindex: Option<nat>, added: set<IpNet>,
                     e: Route)
    requires RecordMatches(os, s, desired, gateway, ifindex, added)
    requires e in RoutesOf(os, Uniform(added, gateway), ifindex)
    ensures var t := AfterApply(os, s, desired, gateway, ifindex, added);
            Claims(os, RoutesOf(os, t.ledger, t.ifindex), e)
  {
    var t := AfterApply(os, s, desired, gateway, ifindex, added);
    var n :| n in Uniform(added, gateway) && e == BuildRoute(os, n, gateway, ifindex);
    InRoutesOf(os, t.ledger, t.ifindex, n);
    assert SameSlot(os, BuildRoute(os, n, t.ledger[n], t.ifindex), e);
  }

  lemma ApplyStaysReached(os: Os, h: Host, push: PushOptions, found: Option<nat>, added: set<IpNet>)
    requires Reached(os, h) && CanAdd(RoutingOf(h), push, added) && ApplyOnRecord(os, h, push, found, added)
    ensures Reached(os, TunnelApplied(os, h, push, found, added))
  {
    if push.routeGateway.Some? {
      var s, gateway, ifindex := RoutingOf(h), push.routeGateway.value, TunnelIfindex(push, found);
      var gone := RoutesOf(os, Restrict(s.ledger, ToRemove(s.ledger, Uniform(Desired(push), gateway))), s.ifindex);
      var t := TunnelApplied(os, h, push, found, added);
      forall e | e in t.own ensures Claims(os, RoutesOf(os, t.ledger, t.ifindex), e) {
        if e in Evict(os, h.own, gone) {
          SurvivorReached(os, s, h.own, Desired(push), gateway, ifindex, added, e);
        } else {
          assert e in RoutesOf(os, Uniform(added, gateway), ifindex);
          AddedReached(os, s, Desired(push), gateway, ifindex, added, e);
        }
      }
    }
  }

  lemma StepKeepsInv(os: Os, h: Host, step: Step)
    requires Inv(os, h) && Possible(os, h, step) && StaysOnRecord(os, h, step)
    ensures Inv(os, Next(os, h, step))
  {
    StepKeepsAccount(os, h, step);
    match step
    case Connected(push, found, added) => ConnectedHeals(os, h, push, found, added);
    case Repushed(push, found, added) => ApplyStaysReached(os, h, push, found, added);
    case Outside(d) => DisturbedReached(os, h, d);
  }

  lemma DisturbedReached(os: Os, h: Host, d: Disturbance)
    requires Reached(os, h) && PossibleDisturbance(h, d) && (d.RouteRebound? ==> os.Mac?)
    ensures Reached(os, Disturbed(h, d))
  {
    if d.RouteRebound? {
      var r :| r in RoutesOf(os, h.ledger, h.ifindex) && SameSlot(os, r, d.from);
      assert SameSlot(os, r, d.to);
    }
  }

  ghost predicate SteadyRun(os: Os, h: Host, steps: seq<Step>)
    decreases |steps|
  {
    steps == [] || (StaysOnRecord(os, h, steps[0]) && SteadyRun(os, Next(os, h, steps[0]), steps[1..]))
  }

  /** Where deletes go by destination every run is steady. */
  lemma {:induction false} MacIsSteady(h: Host, steps: seq<Step>)
    ensures SteadyRun(Mac, h, steps)
    decreases |steps|
  {
    if steps != [] {
      MacIsSteady(Next(Mac, h, steps[0]), steps[1..]);
    }
  }

  /** Over any steady run a clear would leave exactly the foreign routes, which are as
      the world alone left them. */
  lemma {:induction false} RunKeepsInv(os: Os, h: Host, steps: seq<Step>)
    requires Inv(os, h) && PossibleRun(os, h, steps) && SteadyRun(os, h, steps)
    ensures var t := Run(os, h, steps);
            && Inv(os, t) && AfterClear(os, RoutingOf(t)) == Routing(LastForeign(h.foreign, steps), map[], None)
    decreases |steps|
  {
    if steps != [] {
      StepKeepsAccount(os, h, steps[0]);
      StepKeepsInv(os, h, steps[0]);
      RunKeepsInv(os, Next(os, h, steps[0]), steps[1..]);
    } else {
      ClearedExactly(os, h);
    }
  }

  /** An apply no add of which is refused, on interface `i`; and a kernel that moves no
      route to another interface. */
  ghost predicate WholeOn(os: Os, h: Host, step: Step, i: nat) {
    match step
    case Connected(push, found, added) => ApplyWholeOn(Cleared(os, h), push, found, added, i)
    case Repushed(push, found, added) => ApplyWholeOn(h, push, found, added, i)
    case Outside(d) => !d.RouteRebound?
  }

  ghost predicate ApplyWholeOn(h: Host, push: PushOptions, found: Option<nat>, added: set<IpNet>, i: nat) {
    push.routeGateway.Some? ==>
      && TunnelIfindex(push, found) == Some(i)
      && added == ToAdd(h.ledger, Uniform(Desired(push), push.routeGateway.value))
  }

  ghost predicate OnInterface(h: Host, i: nat) {
    h.ledger == map[] || h.ifindex == Some(i)
  }

  /** As long as applies are whole and on one interface, everything stays on record. */
  lemma WholeStaysOnRecord(os: Os, h: Host, step: Step, i: nat)
    requires OnInterface(h, i) && WholeOn(os, h, step, i)
    ensures StaysOnRecord(os, h, step) && OnInterface(Next(os, h, step), i)
  {
  }

  // ------------------------------------------------------------- start-up cleanup

  /** Start-up leaves exactly the foreign routes just when every leftover route is in
      the slot of a manifest entry. */
  lemma StartupExact(os: Os, foreign: set<Route>, own: set<Route>, entries: set<Entry>)
    requires foreign !! own
    requires forall e, r :: e in entries && r in foreign ==> r.dest != Canon(e.destination)
    ensures AfterStartup(os, foreign + own, Some(entries)) == foreign
       <==> forall e :: e in own ==> Claims(os, ManifestRoutes(entries), e)
  {
  }

  ghost predicate Named(ledger: Ledger, dest: IpNet) {
    exists n :: n in ledger && Canon(n) == dest
  }

  /** A start-up delete for a ledger entry reaches the route: by destination it is enough
      that the ledger names the network; with the interface in the key the gateway must be
      the same and the route have no interface. */
  ghost predicate Recoverable(os: Os, ledger: Ledger, e: Route) {
    if os.Mac? then Named(ledger, e.dest)
    else e.ifindex == None && exists n :: n in ledger && Canon(n) == e.dest && e.gateway == Some(ledger[n])
  }

  lemma ManifestReach(os: Os, ledger: Ledger, e: Route)
    ensures Claims(os, ManifestRoutes(Entries(ledger)), e) <==> Recoverable(os, ledger, e)
  {
    forall n | n in ledger
      ensures Route(Canon(n), Some(ledger[n]), None) in ManifestRoutes(Entries(ledger))
    {
      assert Entry(n, ledger[n]) in Entries(ledger);
    }
    if Recoverable(os, ledger, e) {
      var n :| n in ledger && Canon(n) == e.dest && (os.Mac? || e.gateway == Some(ledger[n]));
      assert SameSlot(os, Route(Canon(n), Some(ledger[n]), None), e);
    }
  }

  /** Start-up with a ledger's manifest leaves exactly the foreign routes when the
      manifest reaches every other one. */
  lemma StartupReaches(os: Os, foreign: set<Route>, own: set<Route>, ledger: Ledger, manifest: Option<set<Entry>>)
    requires foreign !! own && Apart(foreign, ledger.Keys)
    requires manifest == Some(Entries(ledger)) || (manifest == None && ledger == map[])
    ensures AfterStartup(os, foreign + own, manifest) == foreign
       <==> forall e :: e in own ==> Recoverable(os, ledger, e)
  {
    if manifest.Some? {
      StartupExact(os, foreign, own, Entries(ledger));
      forall e: Route ensures Claims(os, ManifestRoutes(Entries(ledger)), e) <==> Recoverable(os, ledger, e) {
        ManifestReach(os, ledger, e);
      }
    } else {
      assert forall e: Route :: !Recoverable(os, ledger, e);
      assert own != {} ==> exists e :: e in own;
    }
  }

  /** Die at any waiting point of any run on either system: the next start leaves
      exactly the foreign routes, as the world alone left them, if and only if the
      manifest reaches every route of ours in the table. */
  lemma CrashExactly(os: Os, foreign: set<Route>, steps: seq<Step>)
    requires PossibleRun(os, FreshHost(foreign), steps)
    ensures var h := Run(os, FreshHost(foreign), steps);
            AfterStartup(os, RoutingOf(h).table, h.manifest) == LastForeign(foreign, steps)
            <==> forall e :: e in h.own ==> Recoverable(os, h.ledger, e)
  {
    RunKeepsAccount(os, FreshHost(foreign), steps);
    var h := Run(os, FreshHost(foreign), steps);
    StartupReaches(os, h.foreign, h.own, h.ledger, h.manifest);
  }

  lemma ReachedIsRecoverable(h: Host)
    ensures Reached(Mac, h) <==> forall e :: e in h.own ==> Recoverable(Mac, h.ledger, e)
  {
    forall e: Route
      ensures Claims(Mac, RoutesOf(Mac, h.ledger, h.ifindex), e) <==> Named(h.ledger, e.dest)
    {
      NamedIsClaimed(h.ledger, h.ifindex, e);
    }
  }

  lemma NamedIsClaimed(ledger: Ledger, ifindex: Option<nat>, e: Route)
    ensures Named(ledger, e.dest) <==> Claims(Mac, RoutesOf(Mac, ledger, ifindex), e)
  {
    if Named(ledger, e.dest) {
      var n :| n in ledger && Canon(n) == e.dest;
      InRoutesOf(Mac, ledger, ifindex, n);
      assert SameSlot(Mac, BuildRoute(Mac, n, ledger[n], ifindex), e);
    }
  }

  lemma InvRecovers(h: Host)
    requires Inv(Mac, h)
    ensures AfterStartup(Mac, RoutingOf(h).table, h.manifest) == h.foreign
  {
    ReachedIsRecoverable(h);
    StartupReaches(Mac, h.foreign, h.own, h.ledger, h.manifest);
  }

  /** So where deletes go by destination every crash is recovered from. */
  lemma CrashRecovers(foreign: set<Route>, steps: seq<Step>)
    requires PossibleRun(Mac, FreshHost(foreign), steps)
    ensures var h := Run(Mac, FreshHost(foreign), steps);
            AfterStartup(Mac, RoutingOf(h).table, h.manifest) == LastForeign(foreign, steps)
  {
    MacIsSteady(FreshHost(foreign), steps);
    RunKeepsInv(Mac, FreshHost(foreign), steps);
    ReachedIsRecoverable(Run(Mac, FreshHost(foreign), steps));
    CrashExactly(Mac, foreign, steps);
  }

  /** On a kernel keyed by interface too, the same start-up removes none of the routes
      that were added on a known interface. */
  lemma StartupMissesInterfaceRoutes(table: set<Route>, ledger: Ledger)
    requires forall e :: e in table ==> e.ifindex.Some?
    ensures AfterStartup(Windows, table, Some(Entries(ledger))) == table
  {
  }

  // ------------------------------------------------------- before the manifest is saved

  predicate Applies(step: Step) {
    (step.Connected? || step.Repushed?) && step.push.routeGateway.Some?
  }

  /** A crash after the adds of a CONNECTED or of a re-push but before the manifest is
      saved: the next start leaves exactly the foreign routes if and only if the previous
      manifest reaches every route of ours. */
  lemma CrashBeforeSaveExactly(os: Os, h: Host, step: Step)
    requires Accounted(h) && Possible(os, h, step) && Applies(step)
    ensures var t := Next(os, h, step);
            AfterStartup(os, RoutingOf(t).table, h.manifest) == h.foreign
            <==> forall e :: e in t.own ==> Recoverable(os, h.ledger, e)
  {
    var t := Next(os, h, step);
    StepKeepsAccount(os, h, step);
    StartupReaches(os, t.foreign, t.own, h.ledger, h.manifest);
  }

  /** A destination that was added is in the table, whoever put it there. */
  lemma AddedInTable(s: Routing, desired: set<IpNet>, gateway: Addr, ifindex: Option<nat>, added: set<IpNet>, n: IpNet)
    requires n in added
    ensures exists e :: e in AfterApply(Mac, s, desired, gateway, ifindex, added).table && e.dest == Canon(n)
  {
    var gone := Restrict(s.ledger, ToRemove(s.ledger, Uniform(desired, gateway)));
    var table := Evict(Mac, s.table, RoutesOf(Mac, gone, s.ifindex));
    var r := BuildRoute(Mac, n, gateway, ifindex);
    InRoutesOf(Mac, Uniform(added, gateway), ifindex, n);
    if Claims(Mac, table, r) {
      var e :| e in table && SameSlot(Mac, e, r);
      assert e in Fill(Mac, table, RoutesOf(Mac, Uniform(added, gateway), ifindex));
    }
  }

  /** The host an apply starts from: CONNECTED clears first. */
  function BeforeApply(os: Os, h: Host, step: Step): Host {
    if step.Connected? then Cleared(os, h) else h
  }

  /** What is ours in the table after an apply was named by the ledger before it or
      has just been added. */
  lemma OwnWasNamed(h: Host, step: Step, e: Route)
    requires Inv(Mac, h) && Possible(Mac, h, step) && Applies(step) && e in Next(Mac, h, step).own
    ensures Named(h.ledger, e.dest) || exists n :: n in step.added && Canon(n) == e.dest
  {
    var s, added := BeforeApply(Mac, h, step), Uniform(step.added, step.push.routeGateway.value);
    ReachedIsRecoverable(h);
    ClearSparesForeign(Mac, h);
    if e !in s.own {
      var n :| n in added && e == BuildRoute(Mac, n, added[n], TunnelIfindex(step.push, step.found));
    }
  }

  /** Every destination added is in the table, and is ours. */
  lemma AddedIsOwn(h: Host, step: Step, n: IpNet)
    requires Accounted(h) && Possible(Mac, h, step) && Applies(step) && n in step.added
    ensures exists e :: e in Next(Mac, h, step).own && e.dest == Canon(n)
  {
    var s, t := RoutingOf(BeforeApply(Mac, h, step)), Next(Mac, h, step);
    AddedInTable(s, Desired(step.push), step.push.routeGateway.value, TunnelIfindex(step.push, step.found),
                 step.added, n);
    StepKeepsAccount(Mac, h, step);
    var e :| e in RoutingOf(t).table && e.dest == Canon(n);
    assert n in Desired(step.push) && e !in h.foreign;
  }

  /** By destination, that is when the previous manifest already named every
      destination added; on a first connect, only when nothing was added. */
  lemma CrashBeforeSave(h: Host, step: Step)
    requires Inv(Mac, h) && Possible(Mac, h, step) && Applies(step)
    ensures var t := Next(Mac, h, step);
            AfterStartup(Mac, RoutingOf(t).table, h.manifest) == h.foreign
            <==> forall n :: n in step.added ==> Named(h.ledger, Canon(n))
  {
    var t := Next(Mac, h, step);
    CrashBeforeSaveExactly(Mac, h, step);
    forall e | e in t.own ensures Named(h.ledger, e.dest) || exists n :: n in step.added && Canon(n) == e.dest {
      OwnWasNamed(h, step, e);
    }
    forall n | n in step.added ensures exists e :: e in t.own && e.dest == Canon(n) {
      AddedIsOwn(h, step, n);
    }
  }

  // ------------------------------------------------------------------- failing runs

  /** A push of IPv4 networks through a gateway, with a tunnel address. */
  function PushOf(nets: seq<IpNet>, gateway: Addr, local: Addr): PushOptions {
    DEFAULT_OPTIONS.(
      routes := seq(|nets|, i requires 0 <= i < |nets| => PushedRoute(nets[i].addr, nets[i].prefix, None, V4)),
      routeGateway := Some(gateway), ifconfig := Some(Ifconfig(local, "")))
  }

  lemma PushedAre(nets: seq<IpNet>, gateway: Addr, local: Addr)
    ensures Desired(PushOf(nets, gateway, local)) == Elems(nets)
  {
    var push := PushOf(nets, gateway, local);
    forall n: IpNet ensures n in Desired(push) <==> n in nets {
      DesiredMeaning(push, n);
      if n in nets {
        var i :| 0 <= i < |nets| && nets[i] == n;
        assert push.routes[i] in push.routes;
      }
    }
  }

  /** A first CONNECTED that adds some of what was pushed. */
  lemma FirstConnect(os: Os, nets: seq<IpNet>, gateway: Addr, local: Addr, found: Option<nat>, added: set<IpNet>)
    requires added <= Elems(nets)
    ensures var step := Connected(PushOf(nets, gateway, local), found, added);
            var t := Next(os, FreshHost({}), step);
            && Possible(os, FreshHost({}), step)
            && t.foreign == {} && RoutingOf(t).table == t.own == RoutesOf(os, Uniform(added, gateway), found)
            && t.ledger == Uniform(added, gateway) && t.manifest == Some(Entries(t.ledger))
  {
    var push := PushOf(nets, gateway, local);
    PushedAre(nets, gateway, local);
    ClearSparesForeign(os, FreshHost({}));
    FreshApply(os, {}, None, Elems(nets), gateway, found, added);
    ConnectedHeals(os, FreshHost({}), push, found, added);
  }

  /** The first CONNECTED, cut off before the save: nothing names the route that was
      added, and the next start leaves it, on either system. */
  lemma FirstConnectLost(os: Os, n: IpNet, gateway: Addr, local: Addr, found: Option<nat>)
    ensures var step := Connected(PushOf([n], gateway, local), found, {n});
            && Possible(os, FreshHost({}), step)
            && AfterStartup(os, RoutingOf(Next(os, FreshHost({}), step)).table, FreshHost({}).manifest)
               == {BuildRoute(os, n, gateway, found)}
  {
    FirstConnect(os, [n], gateway, local, found, {n});
    OneRoute(os, n, gateway, found);
  }

  /** The first CONNECTED on an interface-keyed kernel, cut off after the save: the
      manifest lists the route, and the next start still leaves it. */
  lemma WindowsCrashLeaks(n: IpNet, gateway: Addr, local: Addr, interface: nat)
    ensures var step := Connected(PushOf([n], gateway, local), Some(interface), {n});
            var h := Next(Windows, FreshHost({}), step);
            && Possible(Windows, FreshHost({}), step) && h.manifest == Some({Entry(n, gateway)})
            && AfterStartup(Windows, RoutingOf(h).table, h.manifest)
               == {BuildRoute(Windows, n, gateway, Some(interface))}
  {
    FirstConnect(Windows, [n], gateway, local, Some(interface), {n});
    OneRoute(Windows, n, gateway, Some(interface));
    assert n in Uniform({n}, gateway);
    assert Entries(Uniform({n}, gateway)) == {Entry(n, gateway)};
    StartupMissesInterfaceRoutes(RoutesOf(Windows, Uniform({n}, gateway), Some(interface)), Uniform({n}, gateway));
  }

  /** A first CONNECTED on an interface-keyed kernel whose second add is refused: the
      clear after it leaves the first. */
  lemma FailedConnectLeaks(n: IpNet, m: IpNet, gateway: Addr, local: Addr, interface: nat)
    requires n != m && Canonical({n, m})
    ensures var step := Connected(PushOf([n, m], gateway, local), Some(interface), {n});
            && Possible(Windows, FreshHost({}), step)
            && RoutingOf(Cleared(Windows, Next(Windows, FreshHost({}), step)))
               == Routing({BuildRoute(Windows, n, gateway, Some(interface))}, map[], None)
  {
    FirstConnect(Windows, [n, m], gateway, local, Some(interface), {n});
    PushedAre([n, m], gateway, local);
    assert Elems([n, m]) == {n, m};
    ClearSparesForeign(Windows, FreshHost({}));
    assert RoutingOf(Cleared(Windows, FreshHost({}))) == Routing({}, map[], None);
    FailedApplyLeaks(n, m, gateway, interface);
  }

  lemma OneRoute(os: Os, n: IpNet, gateway: Addr, ifindex: Option<nat>)
    ensures RoutesOf(os, Uniform({n}, gateway), ifindex) == {BuildRoute(os, n, gateway, ifindex)}
  {
    assert n in Uniform({n}, gateway);
  }
}
