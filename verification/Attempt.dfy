/** One connection attempt: the event loop between openvpn, the network monitor and
    the routing table, and the teardown every exit goes through. */
module Attempt {
  import opened Nets
  import opened Push
  import R = Routes
  import V = Recovery
  import D = SplitDns
  import N = NetMon
  import opened Retry

  /** The system the attempt runs on, and what its profile says about DNS. */
  datatype Env = Env(os: R.Os, setup: D.Setup)

  datatype VpnState =
    | Connecting | Resolve | TcpConnect | Wait | Auth | GetConfig | AssignIp | AddRoutes
    | Connected | Reconnecting | Exiting | Unknown(name: string)

  datatype Status =
    | Idle | Starting | OpenVpn(state: VpnState, localIp: Option<Addr>) | Exited(code: Option<int>) | Failed

  datatype ByteSample = ByteSample(rx: nat, tx: nat, at: nat)

  /** Requests sent to openvpn. A restart records the time of the trigger it answers. */
  datatype Signal = Sigusr1(at: nat) | Sigterm

  /** What the outside answers while an event is handled: the clocks, the tunnel
      interface, the adds the kernel took, the fresh ids it has for DNS rules. */
  datatype Answer = Answer(now: nat, wall: int, found: Option<nat>, added: set<IpNet>, supply: D.Supply)

  datatype Input =
    | Cancel
    | Network(sample: N.Sample, now: nat)
    | WatchdogTick(stuck: bool)
    | ReadError
    | StateEvent(state: VpnState, localIp: Option<Addr>, answer: Answer)
    | Hold(released: bool)
    | VerificationFailed
    | FatalEvent
    | PushReply(opts: PushOptions, acceptable: bool, answer: Answer)
    | ByteCount(rx: nat, tx: nat, at: nat)
    | Quiet
    | World(disturbance: V.Disturbance)
    | Others(others: D.Others)

  /** The loop's locals and what they act on. */
  datatype Loop = Loop(
    status: Status, haveConnected: bool, push: PushOptions, mon: Option<N.Mon>,
    prev: Option<ByteSample>, lastRx: Option<nat>, reconnects: nat,
    host: V.Host, dns: D.State, signals: seq<Signal>, running: bool, outcome: Option<Outcome>)

  const FRESH_BYTES: nat := 10_000
  const RECENT_RX: nat := 60_000

  predicate IsConnected(s: Status) {
    s.OpenVpn? && s.state.Connected?
  }

  /** `link_appears_healthy`. */
  predicate Healthy(status: Status, prev: Option<ByteSample>, lastRx: Option<nat>, now: nat) {
    && IsConnected(status)
    && prev.Some? && now - prev.value.at < FRESH_BYTES
    && lastRx.Some? && now - lastRx.value < RECENT_RX
  }

  predicate IsReconnectEdge(wasConnected: bool, state: VpnState) {
    wasConnected && state.Reconnecting?
  }

  function SaturatingInc(n: nat): nat {
    if n < U32_MAX then n + 1 else n
  }

  function Register(mon: Option<N.Mon>, ip: Option<Addr>, a: Answer): Option<N.Mon> {
    if mon.Some? && ip.Some? then Some(N.AfterSelfIps(mon.value, [ip.value], a.now, a.wall)) else mon
  }

  function Stop(l: Loop, outcome: Outcome): Loop {
    l.(running := false, outcome := Some(outcome))
  }

  function Sent(l: Loop, signal: Signal): Loop {
    l.(signals := l.signals + [signal])
  }

  /** Published as failed; openvpn is told to go unless it goes by itself. */
  function Failing(l: Loop, tell: bool, outcome: Outcome): Loop {
    var failed := l.(status := Failed);
    Stop(if tell then Sent(failed, Sigterm) else failed, outcome)
  }

  function AfterNetwork(l: Loop, s: N.Sample, now: nat): Loop {
    if !l.haveConnected || l.mon.None? then l else
    var heard := l.(mon := Some(N.AfterSample(l.mon.value, s)));
    if N.Emits(l.mon.value, s) && !Healthy(l.status, l.prev, l.lastRx, now)
    then Sent(heard, Sigusr1(s.at)) else heard
  }

  /** The status published, and an outage counted. */
  function Published(l: Loop, state: VpnState, ip: Option<Addr>): Loop {
    var next := OpenVpn(state, ip);
    l.(status := next,
       reconnects := if l.status != next && IsReconnectEdge(IsConnected(l.status), state)
                     then SaturatingInc(l.reconnects) else l.reconnects)
  }

  function AfterConnected(env: Env, l: Loop, ip: Option<Addr>, a: Answer): Loop {
    l.(haveConnected := true, mon := Register(l.mon, ip, a),
       host := V.Next(env.os, l.host, V.Connected(l.push, a.found, a.added)),
       dns := D.AfterApply(env.setup, l.dns, l.push, a.supply))
  }

  function AfterState(env: Env, l: Loop, state: VpnState, ip: Option<Addr>, a: Answer): Loop {
    if state.Connected? then AfterConnected(env, Published(l, state, ip), ip, a)
    else if state.Exiting? then Published(l, state, ip).(running := false)
    else Published(l, state, ip)
  }

  /** Push options remembered, and the tunnel address they carry. */
  function Remembered(l: Loop, opts: PushOptions, a: Answer): Loop {
    l.(push := opts, mon := Register(l.mon, if opts.ifconfig.Some? then Some(opts.ifconfig.value.local) else None, a))
  }

  function AfterRepush(env: Env, l: Loop, a: Answer): Loop {
    l.(host := V.Next(env.os, l.host, V.Repushed(l.push, a.found, a.added)),
       dns := D.AfterApply(env.setup, l.dns, l.push, a.supply))
  }

  function AfterPush(env: Env, l: Loop, opts: PushOptions, acceptable: bool, a: Answer): Loop {
    if !acceptable then Failing(l, true, Fatal)
    else if l.haveConnected then AfterRepush(env, Remembered(l, opts, a), a)
    else Remembered(l, opts, a)
  }

  function AfterBytes(l: Loop, rx: nat, tx: nat, at: nat): Loop {
    l.(prev := Some(ByteSample(rx, tx, at)),
       lastRx := if l.prev.Some? && rx > l.prev.value.rx then Some(at) else l.lastRx)
  }

  /** One turn of the loop; nothing is handled after it has ended. */
  function After(env: Env, l: Loop, input: Input): Loop {
    if !l.running then l else
    match input
    case Cancel => Stop(Sent(l, Sigterm), Completed)
    case Network(s, now) => AfterNetwork(l, s, now)
    case WatchdogTick(stuck) => if stuck then Stop(Sent(l, Sigterm), Transient) else l
    case ReadError => Stop(l, Transient)
    case StateEvent(state, ip, a) => AfterState(env, l, state, ip, a)
    case Hold(released) => if released then l else Stop(l, Transient)
    case VerificationFailed => Failing(l, true, Fatal)
    case FatalEvent => Failing(l, false, Transient)
    case PushReply(opts, acceptable, a) => AfterPush(env, l, opts, acceptable, a)
    case ByteCount(rx, tx, at) => AfterBytes(l, rx, tx, at)
    case Quiet => l
    case World(d) => l.(host := V.Disturbed(l.host, d))
    case Others(o) => l.(dns := D.AfterOthers(l.dns, o))
  }

  function Fold(env: Env, l: Loop, inputs: seq<Input>): Loop {
    if |inputs| == 0 then l else After(env, Fold(env, l, inputs[..|inputs| - 1]), inputs[|inputs| - 1])
  }

  /** The state outside the process that an attempt shares with the next one. */
  datatype Site = Site(host: V.Host, dns: D.State)

  function Start(site: Site, mon: Option<N.Mon>, reconnects: nat): Loop {
    Loop(Starting, false, DEFAULT_OPTIONS, mon, None, None, reconnects, site.host, site.dns, [], true, None)
  }

  // -------------------------------------------------------------- the way out

  datatype Ending = Ending(site: Site, status: Status, reconnects: nat, outcome: Outcome)

  function ClearedHost(os: R.Os, h: V.Host): V.Host {
    V.Cleared(os, h).(manifest := None)
  }

  function ClearedSite(env: Env, l: Loop): Site {
    Site(ClearedHost(env.os, l.host), D.AfterClear(l.dns))
  }

  function FinalStatus(l: Loop, waited: Option<Option<int>>): Status {
    if waited.Some? then Exited(waited.value) else l.status
  }

  /** An outcome set by the loop wins over the exit code; a failed wait wins over both. */
  function FinalOutcome(l: Loop, waited: Option<Option<int>>): Outcome {
    match waited
    case None => Transient
    case Some(code) =>
      if l.outcome.Some? then l.outcome.value
      else if code == None || code == Some(0) then Completed else Transient
  }

  function Finish(env: Env, l: Loop, waited: Option<Option<int>>): Ending {
    Ending(ClearedSite(env, l), FinalStatus(l, waited), l.reconnects, FinalOutcome(l, waited))
  }

  // ------------------------------------------------------- the loop as it is run

  /** The adds a method call made, put in the place of the adds the kernel was ready
      to take. */
  function Heard(input: Input, added: set<IpNet>): Input {
    match input
    case StateEvent(state, ip, a) => StateEvent(state, ip, a.(added := added))
    case PushReply(opts, ok, a) => PushReply(opts, ok, a.(added := added))
    case _ => input
  }

  ghost predicate HeardAs(offered: Input, heard: Input) {
    exists added :: heard == Heard(offered, added)
  }

  ghost predicate AllHeard(offered: seq<Input>, heard: seq<Input>) {
    |heard| == |offered| && forall i :: 0 <= i < |heard| ==> HeardAs(offered[i], heard[i])
  }

  /** Not an event read from openvpn. */
  predicate IsArm(input: Input) {
    || input.Cancel? || input.Network? || input.WatchdogTick? || input.ReadError?
    || input.World? || input.Others?
  }

  /** The mutable locals of `attempt` and the objects it owns. */
  class EventLoop {
    const env: Env
    const manager: R.RouteManager
    const manifest: V.ManifestFile
    const resolvers: D.Manager
    const monitor: N.Monitor
    /** Whether the monitor could be opened; if not, it is never looked at. */
    const watching: bool
    /** Which routes of the kernel table are not ours. The daemon does not know; the
        model keeps it to say what becomes of them. */
    var foreign: set<R.Route>
    var status: Status
    var haveConnected: bool
    var push: PushOptions
    var prev: Option<ByteSample>
    var lastRx: Option<nat>
    var reconnects: nat
    var signals: seq<Signal>
    var running: bool
    var outcome: Option<Outcome>

    ghost function Footprint(): set<object> {
      {this, manager, manager.kernel, manifest, resolvers, monitor} + resolvers.Footprint()
    }

    function Mon(): Option<N.Mon>
      reads this, monitor
    {
      if watching then Some(monitor.View()) else None
    }

    ghost predicate Valid()
      reads this, manager.kernel
    {
      Separate() && manager.kernel.os == env.os && foreign <= manager.kernel.table
    }

    /** DNS shares no object with the rest. */
    ghost predicate Separate() {
      {this, manager, manager.kernel, manifest, monitor} !! {resolvers} + resolvers.Footprint()
    }

    function Host(): V.Host
      reads this, manager, manager.kernel, manifest
    {
      V.Host(foreign, manager.kernel.table - foreign, manager.installed, manager.installedIfindex, manifest.Recorded())
    }

    ghost function View(): Loop
      reads Footprint()
    {
      Loop(status, haveConnected, push, Mon(), prev, lastRx, reconnects, Host(), resolvers.View(), signals, running,
           outcome)
    }

    constructor (env: Env, manager: R.RouteManager, manifest: V.ManifestFile, resolvers: D.Manager,
                 monitor: N.Monitor, watching: bool, foreign: set<R.Route>, reconnects: nat)
      requires manager.kernel.os == env.os && foreign <= manager.kernel.table
      ensures Valid() && this.env == env && this.manager == manager && this.manifest == manifest
              && this.resolvers == resolvers && this.monitor == monitor && this.watching == watching
      ensures View() == Start(Site(Host(), resolvers.View()), Mon(), reconnects) && this.foreign == foreign
    {
      this.env, this.manager, this.manifest, this.resolvers := env, manager, manifest, resolvers;
      this.monitor, this.watching, this.foreign, this.reconnects := monitor, watching, foreign, reconnects;
      status, haveConnected, push := Starting, false, DEFAULT_OPTIONS;
      prev, lastRx, outcome := None, None, None;
      signals, running := [], true;
    }

    method Break(result: Outcome)
      modifies this`running, this`outcome
      ensures View() == Stop(old(View()), result)
    {
      running, outcome := false, Some(result);
    }

    method Send(signal: Signal)
      modifies this`signals
      ensures View() == Sent(old(View()), signal)
    {
      signals := signals + [signal];
    }

    method Fail(tell: bool, result: Outcome)
      modifies this`status, this`signals, this`running, this`outcome
      ensures View() == Failing(old(View()), tell, result)
    {
      status := Failed;
      if tell {
        Send(Sigterm);
      }
      Break(result);
    }

    /** The monitor arm is polled only once the tunnel has been up. */
    method OnNetwork(s: N.Sample, now: nat)
      modifies monitor, this`signals
      ensures View() == AfterNetwork(old(View()), s, now)
    {
      if !haveConnected || !watching {
        return;
      }
      var emitted := monitor.Consider(s);
      if emitted && !Healthy(status, prev, lastRx, now) {
        Send(Sigusr1(s.at));
      }
    }

    /** Tells the monitor the tunnel's own address, if there is one. */
    method RegisterIp(ip: Option<Addr>, a: Answer)
      modifies monitor
      ensures Mon() == Register(old(Mon()), ip, a)
    {
      if watching && ip.Some? {
        monitor.SetSelfIps([ip.value], a.now, a.wall);
      }
    }

    /** Clears the ledger's routes; what that took from the table is gone. */
    method ClearRoutes()
      requires Valid()
      modifies this`foreign, manager, manager.kernel
      ensures Valid() && Host() == V.Cleared(env.os, old(Host()))
      ensures resolvers.View() == old(resolvers.View()) && Mon() == old(Mon())
    {
      assert V.RoutingOf(Host()) == manager.View();
      manager.Clear();
      foreign := foreign * manager.kernel.table;
    }

    /** `apply_routes` and `record_cleanup_manifest`, through the managers. */
    method ApplyRoutes(a: Answer) returns (ghost added: set<IpNet>)
      requires Valid()
      modifies this`foreign, manager, manager.kernel, manifest
      ensures Valid() && resolvers.View() == old(resolvers.View()) && Mon() == old(Mon())
      ensures V.CanAdd(V.RoutingOf(old(Host())), push, added) && added <= a.added
      ensures Host() == V.TunnelApplied(env.os, old(Host()), push, a.found, added)
    {
      assert V.RoutingOf(Host()) == manager.View();
      added := V.TunnelState(manager, manifest, push, a.found, n => n !in a.added);
      foreign := foreign * manager.kernel.table;
    }

    /** `tunnel_state`: DNS first, then routes, then the manifest. */
    method TunnelState(a: Answer) returns (ghost added: set<IpNet>)
      requires Valid()
      modifies this`foreign, manager, manager.kernel, manifest, resolvers, resolvers.Footprint()
      ensures Valid() && Mon() == old(Mon())
      ensures resolvers.View() == D.AfterApply(env.setup, old(resolvers.View()), push, a.supply)
      ensures V.CanAdd(V.RoutingOf(old(Host())), push, added) && added <= a.added
      ensures Host() == V.TunnelApplied(env.os, old(Host()), push, a.found, added)
    {
      resolvers.Apply(env.setup, push, a.supply);
      added := ApplyRoutes(a);
    }

    method Publish(state: VpnState, ip: Option<Addr>)
      modifies this`status, this`reconnects
      ensures View() == Published(old(View()), state, ip)
    {
      var wasConnected := IsConnected(status);
      if status != OpenVpn(state, ip) {
        status := OpenVpn(state, ip);
        if IsReconnectEdge(wasConnected, state) {
          reconnects := SaturatingInc(reconnects);
        }
      }
    }

    method OnConnected(ip: Option<Addr>, a: Answer) returns (ghost added: set<IpNet>)
      requires Valid()
      modifies Footprint()
      ensures Valid() && added <= a.added
      ensures View() == AfterConnected(env, old(View()), ip, a.(added := added))
    {
      ghost var before := View();
      haveConnected := true;
      RegisterIp(ip, a);
      ClearRoutes();
      assert push == before.push && resolvers.View() == before.dns;
      added := TunnelState(a);
      assert Host() == V.Next(env.os, before.host, V.Connected(before.push, a.found, added));
    }

    method OnState(state: VpnState, ip: Option<Addr>, a: Answer) returns (ghost added: set<IpNet>)
      requires Valid()
      modifies Footprint()
      ensures Valid() && added <= a.added
      ensures View() == AfterState(env, old(View()), state, ip, a.(added := added))
    {
      added := {};
      Publish(state, ip);
      if state.Connected? {
        added := OnConnected(ip, a);
      }
      if state.Exiting? {
        running := false;
      }
    }

    method Remember(opts: PushOptions, a: Answer)
      modifies this`push, monitor
      ensures View() == Remembered(old(View()), opts, a)
    {
      push := opts;
      RegisterIp(if opts.ifconfig.Some? then Some(opts.ifconfig.value.local) else None, a);
    }

    method OnPush(opts: PushOptions, acceptable: bool, a: Answer) returns (ghost added: set<IpNet>)
      requires Valid()
      modifies Footprint()
      ensures Valid() && added <= a.added
      ensures View() == AfterPush(env, old(View()), opts, acceptable, a.(added := added))
    {
      added := {};
      if !acceptable {
        Fail(true, Fatal);
        return;
      }
      Remember(opts, a);
      if haveConnected {
        added := TunnelState(a);
      }
    }

    method OnBytes(rx: nat, tx: nat, at: nat)
      modifies this`prev, this`lastRx
      ensures View() == AfterBytes(old(View()), rx, tx, at)
    {
      if prev.Some? && rx > prev.value.rx {
        lastRx := Some(at);
      }
      prev := Some(ByteSample(rx, tx, at));
    }

    /** The kernel table changes under the daemon. */
    method OnWorld(d: V.Disturbance)
      requires Valid()
      modifies this`foreign, manager.kernel
      ensures Valid() && Host() == V.Disturbed(old(Host()), d)
    {
      var after := V.Disturbed(Host(), d);
      manager.kernel.table := after.foreign + after.own;
      foreign := after.foreign;
    }

    /** The arms of the loop that have nothing to do with openvpn's events. */
    method OnArm(input: Input)
      requires Valid() && running && IsArm(input)
      modifies Footprint()
      ensures Valid() && View() == After(env, old(View()), input)
    {
      match input {
        case Cancel =>
          Send(Sigterm);
          Break(Completed);
        case Network(s, now) =>
          OnNetwork(s, now);
        case WatchdogTick(stuck) =>
          if stuck {
            Send(Sigterm);
            Break(Transient);
          }
        case ReadError =>
          Break(Transient);
        case World(d) =>
          OnWorld(d);
        case Others(o) =>
          resolvers.Disturb(o);
      }
    }

    /** One turn of the select loop; `added` is what the kernel took of the adds made. */
    method Handle(input: Input) returns (ghost added: set<IpNet>)
      requires Valid() && running
      modifies Footprint()
      ensures Valid() && View() == After(env, old(View()), Heard(input, added))
    {
      added := {};
      if IsArm(input) {
        OnArm(input);
        return;
      }
      match input {
        case StateEvent(state, ip, a) =>
          added := OnState(state, ip, a);
        case Hold(released) =>
          if !released {
            Break(Transient);
          }
        case VerificationFailed =>
          Fail(true, Fatal);
        case FatalEvent =>
          Fail(false, Transient);
        case PushReply(opts, acceptable, a) =>
          added := OnPush(opts, acceptable, a);
        case ByteCount(rx, tx, at) =>
          OnBytes(rx, tx, at);
        case Quiet =>
      }
    }

    /** The select loop, until an input ends it; `heard` is the inputs with the adds
        that were really made. */
    method Pump(inputs: seq<Input>) returns (ghost heard: seq<Input>)
      requires Valid() && running
      modifies Footprint()
      ensures Valid() && AllHeard(inputs, heard) && View() == Fold(env, old(View()), heard)
    {
      ghost var start := View();
      heard := [];
      var i := 0;
      while i < |inputs| && running
        invariant i <= |inputs| && Valid() && View() == Fold(env, start, heard) && AllHeard(inputs[..i], heard)
      {
        ghost var added := Handle(inputs[i]);
        assert (heard + [Heard(inputs[i], added)])[..i] == heard;
        heard := heard + [Heard(inputs[i], added)];
        i := i + 1;
      }
      ghost var rest := Unheard(inputs[i..]);
      StaysEnded(env, start, heard + rest, i);
      assert (heard + rest)[..i] == heard;
      heard := heard + rest;
    }

    /** Routes, DNS and the manifest taken back. */
    method ClearAll()
      requires Valid()
      modifies this`foreign, manager, manager.kernel, manifest, resolvers, resolvers.Footprint()
      ensures Valid() && Mon() == old(Mon())
      ensures Site(Host(), resolvers.View()) == ClearedSite(env, old(View()))
    {
      ClearRoutes();
      resolvers.Clear();
      manifest.Remove();
    }

    /** The code after the loop. */
    method TearDown(waited: Option<Option<int>>) returns (result: Outcome)
      requires Valid()
      modifies Footprint()
      ensures Valid() && signals == old(signals)
      ensures Ending(Site(Host(), resolvers.View()), status, reconnects, result) == Finish(env, old(View()), waited)
    {
      ClearAll();
      if waited.None? {
        return Transient;
      }
      status := Exited(waited.value);
      if outcome.None? {
        outcome := Some(if waited.value == None || waited.value == Some(0) then Completed else Transient);
      }
      return outcome.value;
    }

    /** The loop and what comes after it. */
    method Live(inputs: seq<Input>, waited: Option<Option<int>>)
      returns (result: Outcome, ghost heard: seq<Input>, ghost ending: Ending)
      requires Valid() && running
      modifies Footprint()
      ensures Valid() && AllHeard(inputs, heard)
      ensures var l := Fold(env, old(View()), heard);
              ending == Finish(env, l, waited) && signals == l.signals && result == ending.outcome
      ensures Host() == ending.site.host && resolvers.View() == ending.site.dns
      ensures manager.kernel.table == V.RoutingOf(ending.site.host).table
    {
      heard := Pump(inputs);
      result := TearDown(waited);
      ending := Ending(Site(Host(), resolvers.View()), status, reconnects, result);
    }
  }

  /** `attempt`, from the event loop on. */
  method RunAttempt(env: Env, kernel: R.Kernel, foreign: set<R.Route>, manifest: V.ManifestFile, resolvers: D.Manager,
                    monitor: N.Monitor, watching: bool, reconnects: nat, inputs: seq<Input>,
                    waited: Option<Option<int>>)
    returns (outcome: Outcome, signals: seq<Signal>, ghost heard: seq<Input>, ghost ending: Ending)
    requires kernel.os == env.os && foreign <= kernel.table
    modifies kernel, manifest, resolvers, resolvers.Footprint(), monitor
    ensures AllHeard(inputs, heard)
    ensures var host := V.Host(foreign, old(kernel.table) - foreign, map[], None, old(manifest.Recorded()));
            var mon := if watching then Some(old(monitor.View())) else None;
            var l := Fold(env, Start(Site(host, old(resolvers.View())), mon, reconnects), heard);
            ending == Finish(env, l, waited) && signals == l.signals && outcome == ending.outcome
    ensures kernel.table == V.RoutingOf(ending.site.host).table && manifest.Recorded() == ending.site.host.manifest
    ensures resolvers.View() == ending.site.dns
  {
    var manager := new R.RouteManager(kernel);
    var loop := new EventLoop(env, manager, manifest, resolvers, monitor, watching, foreign, reconnects);
    ghost var start := loop.View();
    assert start.host == V.Host(foreign, kernel.table - foreign, map[], None, manifest.Recorded());
    outcome, heard, ending := loop.Live(inputs, waited);
    assert ending == Finish(env, Fold(env, start, heard), waited);
    signals := loop.signals;
  }

  /** Inputs that came after the loop had ended. */
  ghost function Unheard(inputs: seq<Input>): (heard: seq<Input>)
    ensures AllHeard(inputs, heard)
  {
    seq(|inputs|, i requires 0 <= i < |inputs| => Heard(inputs[i], {}))
  }

  lemma {:induction false} StaysEnded(env: Env, l: Loop, inputs: seq<Input>, i: nat)
    requires i <= |inputs| && (i == |inputs| || !Fold(env, l, inputs[..i]).running)
    ensures Fold(env, l, inputs) == Fold(env, l, inputs[..i])
  {
    if i < |inputs| {
      var init := inputs[..|inputs| - 1];
      assert init[..i] == inputs[..i];
      StaysEnded(env, l, init, i);
    } else {
      assert inputs[..i] == inputs;
    }
  }
}
