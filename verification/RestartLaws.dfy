/** Soft restarts read off the inputs of an attempt: what the loop tells its network
    monitor, and when a network change makes it restart openvpn. */
module RestartLaws {
  import opened Nets
  import opened Push
  import opened Attempt
  import opened AttemptLaws
  import N = NetMon

  /** The tunnel address an input brings: that of a CONNECTED, or of a push that is
      accepted. */
  function AddressIn(input: Input): Option<Addr> {
    match input
    case StateEvent(state, ip, _) => if state.Connected? then ip else None
    case PushReply(opts, acceptable, _) =>
      if acceptable && opts.ifconfig.Some? then Some(opts.ifconfig.value.local) else None
    case _ => None
  }

  function ClockOf(input: Input): (nat, int) {
    match input
    case StateEvent(_, _, a) => (a.now, a.wall)
    case PushReply(_, _, a) => (a.now, a.wall)
    case _ => (0, 0)
  }

  /** What the monitor gets to hear of an input: a tunnel address, or, once the tunnel has
      been up, a wake-up. */
  function Tells(l: Loop, input: Input): seq<N.Event> {
    if !l.running then []
    else if AddressIn(input).Some? then [N.SelfIps([AddressIn(input).value], ClockOf(input).0, ClockOf(input).1)]
    else if input.Network? && l.haveConnected then [N.Observed(input.sample)]
    else []
  }

  /** All it has heard before input `i`. */
  function ToldBefore(env: Env, l: Loop, inputs: seq<Input>, i: nat): seq<N.Event>
    requires i <= |inputs|
  {
    if i == 0 then [] else ToldBefore(env, l, inputs, i - 1) + Tells(At(env, l, inputs, i - 1), inputs[i - 1])
  }

  lemma TurnTells(env: Env, l: Loop, input: Input)
    ensures After(env, l, input).mon
         == if l.mon.None? then None
            else if Tells(l, input) == [] then l.mon
            else Some(N.After(l.mon.value, Tells(l, input)[0]))
  {
  }

  /** The monitor is where the events it was told take it. */
  lemma {:induction false} MonitorHeard(env: Env, l: Loop, inputs: seq<Input>, i: nat)
    requires i <= |inputs|
    ensures var told := ToldBefore(env, l, inputs, i);
            At(env, l, inputs, i).mon == if l.mon.None? then None else Some(N.At(l.mon.value, told, |told|))
  {
    if i > 0 {
      MonitorHeard(env, l, inputs, i - 1);
      var before := At(env, l, inputs, i - 1);
      TurnTells(env, before, inputs[i - 1]);
      HeardOneMore(l.mon, ToldBefore(env, l, inputs, i - 1), Tells(before, inputs[i - 1]));
    }
  }

  lemma HeardOneMore(mon: Option<N.Mon>, told: seq<N.Event>, more: seq<N.Event>)
    requires |more| <= 1
    ensures mon.Some? ==>
              var m := N.At(mon.value, told, |told|);
              N.At(mon.value, told + more, |told + more|) == if more == [] then m else N.After(m, more[0])
  {
    if mon.Some? {
      if more == [] {
        assert told + more == told;
      } else {
        assert more == [more[0]];
        N.AtAppend(mon.value, told, more[0]);
      }
    }
  }

  /** Input `k` is handled and brings a tunnel address. */
  predicate Addressed(env: Env, l: Loop, inputs: seq<Input>, k: nat)
    requires k < |inputs|
  {
    At(env, l, inputs, k).running && AddressIn(inputs[k]).Some?
  }

  predicate HasAddress(told: seq<N.Event>) {
    exists j :: 0 <= j < |told| && told[j].SelfIps?
  }

  predicate AddressedBefore(env: Env, l: Loop, inputs: seq<Input>, i: nat)
    requires i <= |inputs|
  {
    exists k: nat :: k < i && Addressed(env, l, inputs, k)
  }

  lemma {:induction false} ToldOfAddress(env: Env, l: Loop, inputs: seq<Input>, i: nat)
    requires i <= |inputs|
    ensures HasAddress(ToldBefore(env, l, inputs, i)) <==> AddressedBefore(env, l, inputs, i)
  {
    if i > 0 {
      ToldOfAddress(env, l, inputs, i - 1);
      var told, more := ToldBefore(env, l, inputs, i - 1), Tells(At(env, l, inputs, i - 1), inputs[i - 1]);
      assert Addressed(env, l, inputs, i - 1) <==> more != [] && more[0].SelfIps?;
      HasAddressAppend(told, more);
      assert AddressedBefore(env, l, inputs, i)
        <==> AddressedBefore(env, l, inputs, i - 1) || Addressed(env, l, inputs, i - 1);
    }
  }

  lemma HasAddressAppend(told: seq<N.Event>, more: seq<N.Event>)
    requires |more| <= 1
    ensures HasAddress(told + more) <==> HasAddress(told) || (more != [] && more[0].SelfIps?)
  {
    if j :| 0 <= j < |told| && told[j].SelfIps? {
      assert (told + more)[j].SelfIps?;
    } else if more != [] && more[0].SelfIps? {
      assert (told + more)[|told|].SelfIps?;
    }
  }

  /** A new monitor is armed exactly when some input handled so far brought a tunnel
      address: a CONNECTED that has one, or an accepted push with an ifconfig. */
  lemma ArmedExactly(env: Env, l: Loop, inputs: seq<Input>, i: nat)
    requires i <= |inputs| && l.mon.Some? && N.Fresh(l.mon.value) && l.mon.value.selfIps == []
    ensures var s := At(env, l, inputs, i);
            && s.mon.Some?
            && (s.mon.value.armedAt.Some? <==> exists k: nat :: k < i && Addressed(env, l, inputs, k))
  {
    var told := ToldBefore(env, l, inputs, i);
    MonitorHeard(env, l, inputs, i);
    N.MonitorKnows(l.mon.value, told, |told|);
    ToldOfAddress(env, l, inputs, i);
    assert HasAddress(told) <==> !forall j :: 0 <= j < |told| ==> told[j].Observed?;
  }

  /** And the address it filters by is the one brought last. */
  lemma {:induction false} LastAddress(env: Env, l: Loop, inputs: seq<Input>, i: nat, k: nat)
    requires k < i <= |inputs| && Addressed(env, l, inputs, k)
    requires forall j :: k < j < i ==> !Addressed(env, l, inputs, j)
    ensures var told := ToldBefore(env, l, inputs, i);
            N.LatestIps(told, |told|) == [AddressIn(inputs[k]).value]
    decreases i
  {
    var told, more := ToldBefore(env, l, inputs, i - 1), Tells(At(env, l, inputs, i - 1), inputs[i - 1]);
    if i - 1 > k {
      LastAddress(env, l, inputs, i - 1, k);
      assert !Addressed(env, l, inputs, i - 1);
      LatestKept(told, more);
    } else {
      assert more == [N.SelfIps([AddressIn(inputs[k]).value], ClockOf(inputs[k]).0, ClockOf(inputs[k]).1)];
      assert (told + more)[|told|] == more[0];
    }
  }

  lemma LatestKept(told: seq<N.Event>, more: seq<N.Event>)
    requires |more| <= 1 && (more != [] ==> more[0].Observed?)
    ensures N.LatestIps(told + more, |told + more|) == N.LatestIps(told, |told|)
  {
    LatestPrefix(told, more, |told|);
    if more != [] {
      assert (told + more)[|told|] == more[0];
    } else {
      assert told + more == told;
    }
  }

  lemma {:induction false} LatestPrefix(told: seq<N.Event>, more: seq<N.Event>, i: nat)
    requires i <= |told|
    ensures N.LatestIps(told + more, i) == N.LatestIps(told, i)
  {
    if i > 0 {
      LatestPrefix(told, more, i - 1);
      assert (told + more)[i - 1] == told[i - 1];
    }
  }

  /** From a new monitor and an attempt's inputs alone: a network change is answered with a
      soft restart exactly when the loop is running, a CONNECTED has come before, the
      change tells of something new, a second has passed since the first tunnel address
      was brought and five since every trigger before it, and the link does not look
      healthy. */
  lemma RestartFromInputs(env: Env, l: Loop, inputs: seq<Input>, i: nat)
    requires i < |inputs| && inputs[i].Network? && !l.haveConnected
    requires l.mon.Some? && N.Fresh(l.mon.value) && l.mon.value.selfIps == []
    ensures var s, m := At(env, l, inputs, i), l.mon.value;
            var told := ToldBefore(env, l, inputs, i);
            var trace := told + [N.Observed(inputs[i].sample)];
            SendsAt(env, l, inputs, i)
            <==> && s.running && (exists k: nat :: k < i && ConnectsAt(env, l, inputs, k))
                 && N.TellsOfChange(m.wall, trace, |told|)
                 && (exists armed: nat ::
                       N.ArmedBefore(trace, |told|, armed) && inputs[i].sample.checkedAt - armed >= 1_000)
                 && (forall j :: 0 <= j < |told| && N.EmitsAt(m, trace, j) ==>
                       inputs[i].sample.at - trace[j].sample.at >= 5_000)
                 && !Healthy(s.status, s.prev, s.lastRx, inputs[i].now)
  {
    var m, told := l.mon.value, ToldBefore(env, l, inputs, i);
    var trace := told + [N.Observed(inputs[i].sample)];
    RestartExactly(env, l, inputs, i);
    MonitorHeard(env, l, inputs, i);
    N.AtPrefix(m, told, [N.Observed(inputs[i].sample)], |told|);
    assert trace[|told|] == N.Observed(inputs[i].sample);
    assert N.EmitsAt(m, trace, |told|) <==> N.Emits(At(env, l, inputs, i).mon.value, inputs[i].sample);
    N.EmitsExactly(m, trace, |told|);
  }

  /** So no restart answers an event on a network that holds the address brought last. */
  lemma NoRestartForOwnTunnel(env: Env, l: Loop, inputs: seq<Input>, i: nat, k: nat)
    requires k < i < |inputs| && inputs[i].Network? && inputs[i].sample.woken.IfEvent? && !l.haveConnected
    requires l.mon.Some? && N.Fresh(l.mon.value) && l.mon.value.selfIps == []
    requires Addressed(env, l, inputs, k) && forall j :: k < j < i ==> !Addressed(env, l, inputs, j)
    requires SendsAt(env, l, inputs, i)
    ensures !Contains(inputs[i].sample.woken.net, AddressIn(inputs[k]).value)
  {
    var told := ToldBefore(env, l, inputs, i);
    RestartFromInputs(env, l, inputs, i);
    LastAddress(env, l, inputs, i, k);
    LatestPrefix(told, [N.Observed(inputs[i].sample)], |told|);
    assert AddressIn(inputs[k]).value in N.LatestIps(told, |told|);
  }

  /** Without a monitor there is no soft restart at all. */
  lemma NoMonitorNoRestart(env: Env, l: Loop, inputs: seq<Input>, i: nat)
    requires i < |inputs| && !l.haveConnected && l.mon.None?
    ensures !SendsAt(env, l, inputs, i)
  {
    MonitorHeard(env, l, inputs, i);
    RestartExactly(env, l, inputs, i);
  }
}
