/** What an attempt, or any number of them, leaves outside the process: on both
    systems, whatever the run and however it ends. */
module TeardownLaws {
  import opened Nets
  import opened Push
  import opened Attempt
  import opened AttemptLaws
  import R = Routes
  import RouteLaws
  import V = Recovery
  import L = RecoveryLaws
  import D = SplitDns
  import N = NetMon

  // ------------------------------------------------------------------- one turn

  /** What a turn does to the host, as a step of the run model. */
  function HostStep(l: Loop, input: Input): Option<V.Step> {
    if !l.running then None else
    match input
    case StateEvent(state, _, a) =>
      if state.Connected? then Some(V.Connected(l.push, a.found, a.added)) else None
    case PushReply(opts, ok, a) =>
      if ok && l.haveConnected then Some(V.Repushed(opts, a.found, a.added)) else None
    case World(d) => Some(V.Outside(d))
    case _ => None
  }

  lemma TurnHost(env: Env, l: Loop, input: Input)
    ensures After(env, l, input).host
         == match HostStep(l, input) case Some(step) => V.Next(env.os, l.host, step) case None => l.host
  {
  }

  lemma TurnDns(env: Env, l: Loop, input: Input)
    ensures After(env, l, input).dns
         == if !l.running then l.dns else
            match input
            case StateEvent(state, _, a) =>
              if state.Connected? then D.AfterApply(env.setup, l.dns, l.push, a.supply) else l.dns
            case PushReply(opts, ok, a) =>
              if ok && l.haveConnected then D.AfterApply(env.setup, l.dns, opts, a.supply) else l.dns
            case Others(o) => D.AfterOthers(l.dns, o)
            case _ => l.dns
  {
  }

  /** Fresh rule ids are new, and nobody else forges what marks our DNS state. */
  ghost predicate PossibleDns(env: Env, l: Loop, input: Input) {
    match input
    case StateEvent(state, _, a) => state.Connected? ==> D.FreshIds(env.setup, l.dns, l.push, a.supply)
    case PushReply(opts, ok, a) => ok && l.haveConnected ==> D.FreshIds(env.setup, l.dns, opts, a.supply)
    case Others(o) => D.Honest(l.dns, o)
    case _ => true
  }

  /** Pushed destinations keep clear of foreign ones and adds are adds of missing routes. */
  ghost predicate Possible(env: Env, l: Loop, input: Input) {
    var step := HostStep(l, input);
    (step.Some? ==> V.Possible(env.os, l.host, step.value)) && (l.running ==> PossibleDns(env, l, input))
  }

  /** The turn leaves the next clear exact: see `StaysOnRecord`. */
  ghost predicate Steady(env: Env, l: Loop, input: Input) {
    var step := HostStep(l, input);
    step.Some? ==> L.StaysOnRecord(env.os, l.host, step.value)
  }

  /** The first `i` inputs are possible when they come. */
  ghost predicate PossibleRun(env: Env, l: Loop, inputs: seq<Input>, i: nat)
    requires i <= |inputs|
  {
    i == 0 || (PossibleRun(env, l, inputs, i - 1) && Possible(env, At(env, l, inputs, i - 1), inputs[i - 1]))
  }

  /** Where deletes go by destination, every run; otherwise a run of steady turns. */
  ghost predicate SteadyRun(env: Env, l: Loop, inputs: seq<Input>, i: nat)
    requires i <= |inputs|
  {
    env.os.Mac? || i == 0
    || (SteadyRun(env, l, inputs, i - 1) && Steady(env, At(env, l, inputs, i - 1), inputs[i - 1]))
  }

  lemma MacTurnIsSteady(env: Env, l: Loop, input: Input)
    requires env.os.Mac?
    ensures Steady(env, l, input)
  {
  }

  /** The foreign routes after a turn in which only the world touches them. */
  function WorldsForeign(foreign: set<R.Route>, step: Option<V.Step>): set<R.Route> {
    if step.Some? then V.WorldsForeign(foreign, step.value) else foreign
  }

  lemma TurnKeepsAccount(env: Env, l: Loop, input: Input)
    requires L.Accounted(l.host) && Possible(env, l, input)
    ensures var t := After(env, l, input);
            L.Accounted(t.host) && t.host.foreign == WorldsForeign(l.host.foreign, HostStep(l, input))
  {
    TurnHost(env, l, input);
    if HostStep(l, input).Some? {
      L.StepKeepsAccount(env.os, l.host, HostStep(l, input).value);
    }
  }

  lemma TurnKeepsInv(env: Env, l: Loop, input: Input)
    requires L.Inv(env.os, l.host) && Possible(env, l, input) && Steady(env, l, input)
    ensures L.Inv(env.os, After(env, l, input).host)
  {
    TurnHost(env, l, input);
    if HostStep(l, input).Some? {
      L.StepKeepsInv(env.os, l.host, HostStep(l, input).value);
    }
  }

  /** A turn keeps everything of ours in DNS on record, and leaves to others what is
      theirs. */
  lemma TurnKeepsDns(env: Env, l: Loop, input: Input)
    requires D.Inv(l.dns) && Possible(env, l, input)
    ensures var t := After(env, l, input); D.Inv(t.dns) && (input.Others? || D.SameForeign(l.dns, t.dns))
  {
    TurnDns(env, l, input);
    if l.running {
      match input
      case StateEvent(state, _, a) =>
        if state.Connected? {
          D.ApplyKeepsInv(env.setup, l.dns, l.push, a.supply);
        }
      case PushReply(opts, ok, a) =>
        if ok && l.haveConnected {
          D.ApplyKeepsInv(env.setup, l.dns, opts, a.supply);
        }
      case Others(o) => D.OthersKeepInv(l.dns, o);
      case _ =>
    }
  }

  // ------------------------------------------------------------------ whole runs

  /** The foreign routes before input `i`, if only the world touched them. */
  function ForeignAt(env: Env, l: Loop, inputs: seq<Input>, i: nat): set<R.Route>
    requires i <= |inputs|
  {
    if i == 0 then l.host.foreign
    else WorldsForeign(ForeignAt(env, l, inputs, i - 1), HostStep(At(env, l, inputs, i - 1), inputs[i - 1]))
  }

  /** Before every turn, on either system: the manifest is the ledger, and no foreign
      route was touched by us. */
  lemma {:induction false} LoopKeepsAccount(env: Env, l: Loop, inputs: seq<Input>, i: nat)
    requires i <= |inputs| && L.Accounted(l.host) && PossibleRun(env, l, inputs, i)
    ensures var h := At(env, l, inputs, i).host; L.Accounted(h) && h.foreign == ForeignAt(env, l, inputs, i)
  {
    if i > 0 {
      LoopKeepsAccount(env, l, inputs, i - 1);
      TurnKeepsAccount(env, At(env, l, inputs, i - 1), inputs[i - 1]);
    }
  }

  /** Before every turn of a steady run a clear would reach every route of ours. */
  lemma {:induction false} LoopKeepsInv(env: Env, l: Loop, inputs: seq<Input>, i: nat)
    requires i <= |inputs| && L.Inv(env.os, l.host) && PossibleRun(env, l, inputs, i) && SteadyRun(env, l, inputs, i)
    ensures L.Inv(env.os, At(env, l, inputs, i).host)
  {
    if i > 0 {
      LoopKeepsInv(env, l, inputs, i - 1);
      if env.os.Mac? {
        MacTurnIsSteady(env, At(env, l, inputs, i - 1), inputs[i - 1]);
      }
      TurnKeepsInv(env, At(env, l, inputs, i - 1), inputs[i - 1]);
    }
  }

  /** Before every turn everything of ours in DNS is on record. */
  lemma {:induction false} LoopKeepsDns(env: Env, l: Loop, inputs: seq<Input>, i: nat)
    requires i <= |inputs| && D.Inv(l.dns) && PossibleRun(env, l, inputs, i)
    ensures D.Inv(At(env, l, inputs, i).dns)
  {
    if i > 0 {
      LoopKeepsDns(env, l, inputs, i - 1);
      TurnKeepsDns(env, At(env, l, inputs, i - 1), inputs[i - 1]);
    }
  }

  /** Every apply is whole and on one interface, and no route is moved to another. */
  ghost predicate WholeRun(env: Env, l: Loop, inputs: seq<Input>, i: nat, interface: nat)
    requires i <= |inputs|
  {
    i == 0
    || (&& WholeRun(env, l, inputs, i - 1, interface)
        && var before := At(env, l, inputs, i - 1);
           var step := HostStep(before, inputs[i - 1]);
           step.Some? ==> L.WholeOn(env.os, before.host, step.value, interface))
  }

  /** Such a run is steady, on either system. */
  lemma {:induction false} WholeIsSteady(env: Env, l: Loop, inputs: seq<Input>, i: nat, interface: nat)
    requires i <= |inputs| && L.OnInterface(l.host, interface) && WholeRun(env, l, inputs, i, interface)
    ensures SteadyRun(env, l, inputs, i) && L.OnInterface(At(env, l, inputs, i).host, interface)
  {
    if i > 0 {
      var before := At(env, l, inputs, i - 1);
      WholeIsSteady(env, l, inputs, i - 1, interface);
      TurnHost(env, before, inputs[i - 1]);
      if HostStep(before, inputs[i - 1]).Some? {
        L.WholeStaysOnRecord(env.os, before.host, HostStep(before, inputs[i - 1]).value, interface);
      }
    }
  }

  // ------------------------------------------------------------------- teardown

  /** However the loop ends, on either system: the attempt returns with no route of its
      own in the table, an empty ledger, no manifest and every foreign route as the world
      alone left it, if and only if what the manager has on record reaches every route of
      ours when the loop ends. */
  lemma AttemptLeavesExactly(env: Env, site: Site, mon: Option<N.Mon>, reconnects: nat, inputs: seq<Input>,
                             waited: Option<Option<int>>)
    requires L.Accounted(site.host) && PossibleRun(env, Start(site, mon, reconnects), inputs, |inputs|)
    ensures var start := Start(site, mon, reconnects);
            var l := Fold(env, start, inputs);
            Finish(env, l, waited).site.host == V.FreshHost(ForeignAt(env, start, inputs, |inputs|))
            <==> L.Reached(env.os, l.host)
  {
    var start := Start(site, mon, reconnects);
    LoopKeepsAccount(env, start, inputs, |inputs|);
    AtEnd(env, start, inputs);
    ClearedIsFresh(env.os, Fold(env, start, inputs).host);
  }

  lemma ClearedIsFresh(os: R.Os, h: V.Host)
    requires L.Accounted(h)
    ensures ClearedHost(os, h) == V.FreshHost(h.foreign) <==> L.Reached(os, h)
  {
    L.ClearedExactly(os, h);
    var s := R.AfterClear(os, V.RoutingOf(h));
    assert V.RoutingOf(V.Cleared(os, h)) == s;
  }

  /** So nothing is left, on macOS after every run and on Windows after every steady one. */
  lemma AttemptLeavesNothing(env: Env, site: Site, mon: Option<N.Mon>, reconnects: nat, inputs: seq<Input>,
                             waited: Option<Option<int>>)
    requires L.Inv(env.os, site.host) && PossibleRun(env, Start(site, mon, reconnects), inputs, |inputs|)
    requires SteadyRun(env, Start(site, mon, reconnects), inputs, |inputs|)
    ensures var start := Start(site, mon, reconnects);
            Finish(env, Fold(env, start, inputs), waited).site.host
            == V.FreshHost(ForeignAt(env, start, inputs, |inputs|))
  {
    var start := Start(site, mon, reconnects);
    LoopKeepsInv(env, start, inputs, |inputs|);
    AtEnd(env, start, inputs);
    AttemptLeavesExactly(env, site, mon, reconnects, inputs, waited);
  }

  /** A push of two networks, a CONNECTED at which the kernel refuses the second, and
      the user cancels. */
  function RefusedThenCancelled(n: IpNet, m: IpNet, gateway: Addr, local: Addr, a: Answer): seq<Input> {
    [PushReply(L.PushOf([n, m], gateway, local), true, a), StateEvent(Connected, None, a), Cancel]
  }

  lemma RefusedStates(env: Env, start: Loop, n: IpNet, m: IpNet, gateway: Addr, local: Addr, a: Answer)
    requires start.running && !start.haveConnected
    ensures var push := L.PushOf([n, m], gateway, local);
            var inputs := RefusedThenCancelled(n, m, gateway, local, a);
            var l1, l2, l3 := At(env, start, inputs, 1), At(env, start, inputs, 2), At(env, start, inputs, 3);
            && l1.running && l1.push == push && l1.host == start.host && l1.dns == start.dns
            && l2.running && l2.host == V.Next(env.os, start.host, V.Connected(push, a.found, a.added))
            && l3.host == l2.host
  {
    var inputs := RefusedThenCancelled(n, m, gateway, local, a);
    assert At(env, start, inputs, 0) == start;
    TurnHost(env, start, inputs[0]);
    var l1 := At(env, start, inputs, 1);
    assert l1 == After(env, start, inputs[0]);
    TurnHost(env, l1, inputs[1]);
    var l2 := At(env, start, inputs, 2);
    assert l2 == After(env, l1, inputs[1]);
    TurnHost(env, l2, inputs[2]);
    assert At(env, start, inputs, 3) == After(env, l2, inputs[2]);
  }

  /** A Windows attempt that leaves a route behind: the second of two adds is refused,
      then the user cancels. */
  lemma WindowsAttemptLeaks(env: Env, dns: D.State, mon: Option<N.Mon>, n: IpNet, m: IpNet, gateway: Addr, local: Addr,
                            interface: nat, a: Answer)
    requires env.os.Windows? && env.setup.suffixes == [] && n != m && RouteLaws.Canonical({n, m})
    requires a.found == Some(interface) && a.added == {n}
    ensures var start := Start(Site(V.FreshHost({}), dns), mon, 0);
            var inputs := RefusedThenCancelled(n, m, gateway, local, a);
            && PossibleRun(env, start, inputs, |inputs|)
            && Finish(env, Fold(env, start, inputs), Some(Some(0))).site.host.own
               == {R.BuildRoute(R.Windows, n, gateway, Some(interface))}
  {
    var start := Start(Site(V.FreshHost({}), dns), mon, 0);
    var inputs := RefusedThenCancelled(n, m, gateway, local, a);
    L.FailedConnectLeaks(n, m, gateway, local, interface);
    RefusedStates(env, start, n, m, gateway, local, a);
    AtEnd(env, start, inputs);
    RefusedIsPossible(env, start, At(env, start, inputs, 1), At(env, start, inputs, 2), n, m, gateway, local, a);
    assert PossibleRun(env, start, inputs, 1) && PossibleRun(env, start, inputs, 2);
  }

  lemma RefusedIsPossible(env: Env, l0: Loop, l1: Loop, l2: Loop, n: IpNet, m: IpNet, gateway: Addr, local: Addr,
                          a: Answer)
    requires env.setup.suffixes == [] && !l0.haveConnected && l1.push == L.PushOf([n, m], gateway, local)
    requires V.Possible(env.os, l1.host, V.Connected(l1.push, a.found, a.added))
    ensures var inputs := RefusedThenCancelled(n, m, gateway, local, a);
            Possible(env, l0, inputs[0]) && Possible(env, l1, inputs[1]) && Possible(env, l2, inputs[2])
  {
    assert !D.Asks(env.setup, l1.push);
  }

  /** Nor does it leave a marked file or a rule of its own, on either system; what
      others have there is as the loop left it. */
  lemma AttemptClearsDns(env: Env, site: Site, mon: Option<N.Mon>, reconnects: nat, inputs: seq<Input>,
                         waited: Option<Option<int>>)
    requires D.Inv(site.dns) && PossibleRun(env, Start(site, mon, reconnects), inputs, |inputs|)
    ensures var l := Fold(env, Start(site, mon, reconnects), inputs);
            var dns := Finish(env, l, waited).site.dns;
            D.Clean(dns) && D.Inv(dns) && D.SameForeign(l.dns, dns)
  {
    var start := Start(site, mon, reconnects);
    LoopKeepsDns(env, start, inputs, |inputs|);
    AtEnd(env, start, inputs);
    D.ClearLeavesNone(Fold(env, start, inputs).dns);
  }

  /** A crash between any two turns of the loop, on either system: the next start leaves
      exactly the foreign routes as the world alone left them if and only if the manifest
      reaches every route of ours; and it leaves nothing of ours in DNS. */
  lemma CrashExactly(env: Env, site: Site, mon: Option<N.Mon>, reconnects: nat, inputs: seq<Input>, i: nat)
    requires L.Accounted(site.host) && D.Inv(site.dns)
    requires i <= |inputs| && PossibleRun(env, Start(site, mon, reconnects), inputs, i)
    ensures var start := Start(site, mon, reconnects);
            var l := At(env, start, inputs, i);
            && (V.AfterStartup(env.os, V.RoutingOf(l.host).table, l.host.manifest) == ForeignAt(env, start, inputs, i)
                <==> forall e :: e in l.host.own ==> L.Recoverable(env.os, l.host.ledger, e))
            && D.Clean(D.AfterStartup(l.dns)) && D.SameForeign(l.dns, D.AfterStartup(l.dns))
  {
    var start := Start(site, mon, reconnects);
    LoopKeepsAccount(env, start, inputs, i);
    LoopKeepsDns(env, start, inputs, i);
    var l := At(env, start, inputs, i);
    L.StartupReaches(env.os, l.host.foreign, l.host.own, l.host.ledger, l.host.manifest);
    D.StartupLeavesNone(l.dns);
  }

  /** So where deletes go by destination a crash anywhere is recovered from. */
  lemma CrashAnywhere(env: Env, site: Site, mon: Option<N.Mon>, reconnects: nat, inputs: seq<Input>, i: nat)
    requires env.os.Mac? && L.Inv(R.Mac, site.host) && D.Inv(site.dns)
    requires i <= |inputs| && PossibleRun(env, Start(site, mon, reconnects), inputs, i)
    ensures var start := Start(site, mon, reconnects);
            var l := At(env, start, inputs, i);
            V.AfterStartup(R.Mac, V.RoutingOf(l.host).table, l.host.manifest) == ForeignAt(env, start, inputs, i)
  {
    var start := Start(site, mon, reconnects);
    LoopKeepsInv(env, start, inputs, i);
    L.ReachedIsRecoverable(At(env, start, inputs, i).host);
    CrashExactly(env, site, mon, reconnects, inputs, i);
  }

  // --------------------------------------------------------- the push in force

  /** Input `k` is handled and is a push that is accepted. */
  predicate TakesPush(env: Env, l: Loop, inputs: seq<Input>, k: nat)
    requires k < |inputs|
  {
    At(env, l, inputs, k).running && inputs[k].PushReply? && inputs[k].acceptable
  }

  lemma TurnPush(env: Env, l: Loop, input: Input)
    ensures After(env, l, input).push
         == if l.running && input.PushReply? && input.acceptable then input.opts else l.push
  {
  }

  lemma {:induction false} LastPush(env: Env, l: Loop, inputs: seq<Input>, i: nat, k: nat)
    requires k < i <= |inputs| && TakesPush(env, l, inputs, k)
    requires forall j :: k < j < i ==> !TakesPush(env, l, inputs, j)
    ensures At(env, l, inputs, i).push == inputs[k].opts
    decreases i
  {
    TurnPush(env, At(env, l, inputs, i - 1), inputs[i - 1]);
    if k < i - 1 {
      LastPush(env, l, inputs, i - 1, k);
      assert !TakesPush(env, l, inputs, i - 1);
    }
  }

  /** A CONNECTED puts the push accepted last into force: our routes are then one for each
      network the kernel took, through the gateway of that push, on the interface that
      carries its tunnel address; and DNS is what that push and the profile ask for. */
  lemma ConnectedFollowsPush(env: Env, site: Site, mon: Option<N.Mon>, reconnects: nat, inputs: seq<Input>, i: nat,
                             k: nat, gateway: Addr, suffixes: seq<string>, addrs: seq<Addr>)
    requires L.Inv(env.os, site.host) && D.Inv(site.dns) && k < i < |inputs|
    requires var start := Start(site, mon, reconnects);
             && PossibleRun(env, start, inputs, i + 1) && SteadyRun(env, start, inputs, i)
             && ConnectsAt(env, start, inputs, i) && TakesPush(env, start, inputs, k)
             && forall j :: k < j < i ==> !TakesPush(env, start, inputs, j)
    requires inputs[k].opts.routeGateway == Some(gateway) && D.AskedFor(env.setup, inputs[k].opts, suffixes, addrs)
    ensures var start := Start(site, mon, reconnects);
            var push, a := inputs[k].opts, inputs[i].answer;
            var s, t := At(env, start, inputs, i), At(env, start, inputs, i + 1);
            var ifindex := if push.ifconfig.Some? then a.found else None;
            && t.push == push
            && (forall e :: e in t.host.own ==> exists n :: n in a.added && R.Carries(env.os, e, n, gateway, ifindex))
            && (forall n :: n in a.added ==> exists e :: e in t.host.own && R.Carries(env.os, e, n, gateway, ifindex))
            && D.Provides(env.setup, s.dns, t.dns, suffixes, addrs)
  {
    var start := Start(site, mon, reconnects);
    var push, a, s := inputs[k].opts, inputs[i].answer, At(env, start, inputs, i);
    LastPush(env, start, inputs, i, k);
    TurnPush(env, s, inputs[i]);
    TurnHost(env, s, inputs[i]);
    TurnDns(env, s, inputs[i]);
    LoopKeepsInv(env, start, inputs, i);
    LoopKeepsDns(env, start, inputs, i);
    L.ConnectedRoutes(env.os, s.host, push, a.found, a.added, gateway);
    D.ApplyFollowsPush(env.setup, s.dns, push, a.supply, suffixes, addrs);
  }

  // ------------------------------------------------------------------- lifetimes

  ghost predicate PossibleLife(env: Env, site: Site, reconnects: nat, scripts: seq<Script>)
    decreases |scripts|
  {
    |scripts| == 0
    || (&& PossibleRun(env, Start(site, scripts[0].mon, reconnects), scripts[0].inputs, |scripts[0].inputs|)
        && SteadyRun(env, Start(site, scripts[0].mon, reconnects), scripts[0].inputs, |scripts[0].inputs|)
        && var e := Play(env, site, reconnects, scripts[0]); PossibleLife(env, e.site, e.reconnects, scripts[1..]))
  }

  /** The foreign routes after all attempts, if only the world touched them. */
  function LifeForeign(env: Env, site: Site, reconnects: nat, scripts: seq<Script>): set<R.Route>
    decreases |scripts|
  {
    if |scripts| == 0 then site.host.foreign else
    var s := scripts[0];
    var e := Play(env, site, reconnects, s);
    var left := e.site.host.(foreign := ForeignAt(env, Start(site, s.mon, reconnects), s.inputs, |s.inputs|));
    LifeForeign(env, e.site.(host := left), e.reconnects, scripts[1..])
  }

  /** Attempts never inherit anything from one another but the reconnect counter, and
      no number of them leaves anything behind: on macOS, or on Windows when their runs
      are steady. */
  lemma {:induction false} LifeLeavesNothing(env: Env, site: Site, reconnects: nat, scripts: seq<Script>)
    requires site.host == V.FreshHost(site.host.foreign) && D.Inv(site.dns) && D.Clean(site.dns)
    requires PossibleLife(env, site, reconnects, scripts)
    ensures var last := PlayAll(PlayerFor(env), site, reconnects, scripts).0;
            && last.host == V.FreshHost(LifeForeign(env, site, reconnects, scripts))
            && D.Inv(last.dns) && D.Clean(last.dns)
    decreases |scripts|
  {
    if |scripts| > 0 {
      var s := scripts[0];
      AttemptLeavesNothing(env, site, s.mon, reconnects, s.inputs, s.waited);
      AttemptClearsDns(env, site, s.mon, reconnects, s.inputs, s.waited);
      var e := Play(env, site, reconnects, s);
      LifeLeavesNothing(env, e.site, e.reconnects, scripts[1..]);
    }
  }
}
