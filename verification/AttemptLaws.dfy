/** When an attempt restarts openvpn, and what its counters count, in every run. */
module AttemptLaws {
  import opened Nets
  import opened Push
  import opened Attempt
  import R = Routes
  import V = Recovery
  import D = SplitDns
  import N = NetMon

  /** The loop's state before input `i`. */
  function At(env: Env, l: Loop, inputs: seq<Input>, i: nat): Loop
    requires i <= |inputs|
  {
    if i == 0 then l else After(env, At(env, l, inputs, i - 1), inputs[i - 1])
  }

  /** The loop's states around each input, first to last. */
  function Trajectory(env: Env, l: Loop, inputs: seq<Input>): seq<Loop> {
    seq(|inputs| + 1, i requires 0 <= i <= |inputs| => At(env, l, inputs, i))
  }

  lemma {:induction false} AtIsFold(env: Env, l: Loop, inputs: seq<Input>, i: nat)
    requires i <= |inputs|
    ensures At(env, l, inputs, i) == Fold(env, l, inputs[..i])
  {
    if i > 0 {
      AtIsFold(env, l, inputs, i - 1);
      assert inputs[..i][..i - 1] == inputs[..i - 1];
    }
  }

  lemma AtEnd(env: Env, l: Loop, inputs: seq<Input>)
    ensures At(env, l, inputs, |inputs|) == Fold(env, l, inputs)
  {
    AtIsFold(env, l, inputs, |inputs|);
    assert inputs[..|inputs|] == inputs;
  }

  // -------------------------------------------- one turn, one field at a time

  /** The loop answers this input with a soft restart. */
  predicate Answers(l: Loop, input: Input) {
    && l.running && input.Network? && l.haveConnected
    && l.mon.Some? && N.Emits(l.mon.value, input.sample)
    && !Healthy(l.status, l.prev, l.lastRx, input.now)
  }

  lemma TurnSignals(env: Env, l: Loop, input: Input)
    ensures Restarts(After(env, l, input).signals)
         == Restarts(l.signals) + if Answers(l, input) then [input.sample.at] else []
  {
    if Answers(l, input) {
      RestartsAppend(l.signals, Sigusr1(input.sample.at));
    } else {
      RestartsAppend(l.signals, Sigterm);
    }
  }

  lemma TurnConnected(env: Env, l: Loop, input: Input)
    ensures After(env, l, input).haveConnected
       <==> l.haveConnected || (l.running && input.StateEvent? && input.state.Connected?)
  {
  }

  /** An armed monitor stays armed, and remembers its last emission until the next. */
  lemma TurnMonitor(env: Env, l: Loop, input: Input)
    ensures var t := After(env, l, input);
            && (l.mon.Some? && l.mon.value.armedAt.Some? ==>
                  && t.mon.Some? && t.mon.value.armedAt.Some?
                  && (t.mon.value.lastEmit == l.mon.value.lastEmit
                      || (input.Network? && N.Emits(l.mon.value, input.sample)
                          && t.mon.value.lastEmit == Some(input.sample.at))))
            && (Answers(l, input) ==>
                  t.mon.Some? && t.mon.value.armedAt.Some? && t.mon.value.lastEmit == Some(input.sample.at))
  {
  }

  lemma TurnBytes(env: Env, l: Loop, input: Input)
    ensures BytesTurn(l, input, After(env, l, input))
  {
  }

  lemma TurnStatus(env: Env, l: Loop, input: Input)
    ensures CountingTurn(l, input, After(env, l, input))
  {
  }

  // ------------------------------------------------------------- soft restarts

  function Restarts(signals: seq<Signal>): seq<nat> {
    if signals == [] then []
    else Restarts(signals[..|signals| - 1]) + match signals[|signals| - 1] case Sigusr1(at) => [at] case Sigterm => []
  }

  lemma RestartsAppend(signals: seq<Signal>, s: Signal)
    ensures Restarts(signals + [s]) == Restarts(signals) + match s case Sigusr1(at) => [at] case Sigterm => []
  {
    assert (signals + [s])[..|signals|] == signals;
  }

  /** Input `i` makes the loop send a soft restart. */
  predicate SendsAt(env: Env, l: Loop, inputs: seq<Input>, i: nat)
    requires i < |inputs|
  {
    |Restarts(At(env, l, inputs, i + 1).signals)| > |Restarts(At(env, l, inputs, i).signals)|
  }

  predicate ConnectsAt(env: Env, l: Loop, inputs: seq<Input>, k: nat)
    requires k < |inputs|
  {
    At(env, l, inputs, k).running && inputs[k].StateEvent? && inputs[k].state.Connected?
  }

  lemma {:induction false} ConnectedBefore(env: Env, l: Loop, inputs: seq<Input>, i: nat)
    requires i <= |inputs| && !l.haveConnected
    ensures At(env, l, inputs, i).haveConnected <==> exists k: nat :: k < i && ConnectsAt(env, l, inputs, k)
  {
    if i > 0 {
      ConnectedBefore(env, l, inputs, i - 1);
      TurnConnected(env, At(env, l, inputs, i - 1), inputs[i - 1]);
      var last: nat := i - 1;
      assert At(env, l, inputs, i).haveConnected
        <==> At(env, l, inputs, last).haveConnected || ConnectsAt(env, l, inputs, last);
    }
  }

  /** A soft restart is sent exactly when the loop is running, a CONNECTED has come
      before, the monitor emits this very trigger, and the link does not look healthy. */
  lemma RestartExactly(env: Env, l: Loop, inputs: seq<Input>, i: nat)
    requires i < |inputs| && !l.haveConnected
    ensures SendsAt(env, l, inputs, i)
       <==> var s := At(env, l, inputs, i);
            && s.running && inputs[i].Network?
            && (exists k: nat :: k < i && ConnectsAt(env, l, inputs, k))
            && s.mon.Some? && N.Emits(s.mon.value, inputs[i].sample)
            && !Healthy(s.status, s.prev, s.lastRx, inputs[i].now)
  {
    ConnectedBefore(env, l, inputs, i);
    TurnSignals(env, At(env, l, inputs, i), inputs[i]);
  }

  /** Restarts sent so far are spaced, and the monitor remembers the last one. */
  ghost predicate Remembered(times: seq<nat>, mon: Option<N.Mon>) {
    && N.Spaced(times)
    && (times != [] ==> mon.Some? && mon.value.armedAt.Some? && mon.value.lastEmit.Some?)
    && forall k :: 0 <= k < |times| ==> times[k] <= mon.value.lastEmit.value
  }

  lemma TurnKeepsSpacing(env: Env, l: Loop, input: Input)
    requires Remembered(Restarts(l.signals), l.mon)
    ensures var t := After(env, l, input); Remembered(Restarts(t.signals), t.mon)
  {
    TurnSignals(env, l, input);
    TurnMonitor(env, l, input);
    var t := After(env, l, input);
    SpacingKept(Restarts(l.signals), l.mon, t.mon, Answers(l, input), input);
  }

  lemma SpacingKept(times: seq<nat>, before: Option<N.Mon>, after: Option<N.Mon>, answers: bool, input: Input)
    requires Remembered(times, before)
    requires before.Some? && before.value.armedAt.Some? ==>
               && after.Some? && after.value.armedAt.Some?
               && (after.value.lastEmit == before.value.lastEmit
                   || (input.Network? && N.Emits(before.value, input.sample)
                       && after.value.lastEmit == Some(input.sample.at)))
    requires answers ==> input.Network? && before.Some? && N.Emits(before.value, input.sample)
                         && after.Some? && after.value.armedAt.Some? && after.value.lastEmit == Some(input.sample.at)
    ensures Remembered(times + if answers then [input.sample.at] else [], after)
  {
  }

  lemma {:induction false} RestartsSpaced(env: Env, l: Loop, inputs: seq<Input>, i: nat)
    requires i <= |inputs| && l.signals == []
    ensures var s := At(env, l, inputs, i); Remembered(Restarts(s.signals), s.mon)
  {
    if i > 0 {
      RestartsSpaced(env, l, inputs, i - 1);
      TurnKeepsSpacing(env, At(env, l, inputs, i - 1), inputs[i - 1]);
    }
  }

  /** In any run, soft restarts answer triggers at least the cooldown apart, so a
      window holds at most one per cooldown, plus one. */
  lemma RestartRate(env: Env, l: Loop, inputs: seq<Input>, from: nat, to: nat)
    requires l.signals == [] && from <= to
    ensures var times := Restarts(Fold(env, l, inputs).signals);
            N.Spaced(times) && N.Within(times, from, to) <= (to - from) / N.COOLDOWN + 1
  {
    RestartsSpaced(env, l, inputs, |inputs|);
    AtEnd(env, l, inputs);
    N.RateBound(Restarts(Fold(env, l, inputs).signals), from, to);
  }

  // ------------------------------------------------------------ proof of life

  /** What a turn does to the byte counts. */
  ghost predicate BytesTurn(l: Loop, input: Input, t: Loop) {
    if l.running && input.ByteCount?
    then t.prev == Some(ByteSample(input.rx, input.tx, input.at))
         && t.lastRx == if l.prev.Some? && input.rx > l.prev.value.rx then Some(input.at) else l.lastRx
    else t.prev == l.prev && t.lastRx == l.lastRx
  }

  ghost predicate BytesRun(loops: seq<Loop>, inputs: seq<Input>) {
    |loops| == |inputs| + 1 && forall k :: 0 <= k < |inputs| ==> BytesTurn(loops[k], inputs[k], loops[k + 1])
  }

  predicate CountsAt(loops: seq<Loop>, inputs: seq<Input>, k: nat)
    requires |loops| == |inputs| + 1 && k < |inputs|
  {
    loops[k].running && inputs[k].ByteCount?
  }

  /** `k` is the last byte count handled before `i`. */
  ghost predicate LastCount(loops: seq<Loop>, inputs: seq<Input>, i: nat, k: nat)
    requires |loops| == |inputs| + 1 && i <= |inputs|
  {
    k < i && CountsAt(loops, inputs, k) && forall m :: k < m < i ==> !CountsAt(loops, inputs, m)
  }

  /** The byte count at `k` is higher than the one before it, and no later one
      before `i` rises again. */
  ghost predicate LastRise(loops: seq<Loop>, inputs: seq<Input>, i: nat, k: nat)
    requires |loops| == |inputs| + 1 && i <= |inputs|
  {
    && k < i && CountsAt(loops, inputs, k) && Rises(loops, inputs, k)
    && forall m :: k < m < i && CountsAt(loops, inputs, m) ==> !Rises(loops, inputs, m)
  }

  ghost predicate Rises(loops: seq<Loop>, inputs: seq<Input>, k: nat)
    requires |loops| == |inputs| + 1 && k < |inputs| && inputs[k].ByteCount?
  {
    exists j: nat :: LastCount(loops, inputs, k, j) && inputs[k].rx > inputs[j].rx
  }

  /** `sample` is the last byte count handled before `i`. */
  ghost predicate CountedLast(loops: seq<Loop>, inputs: seq<Input>, i: nat, sample: ByteSample)
    requires |loops| == |inputs| + 1 && i <= |inputs|
  {
    exists k: nat :: LastCount(loops, inputs, i, k) && sample == ByteSample(inputs[k].rx, inputs[k].tx, inputs[k].at)
  }

  lemma {:induction false} RemembersCounts(loops: seq<Loop>, inputs: seq<Input>, i: nat)
    requires BytesRun(loops, inputs) && i <= |inputs| && loops[0].prev.None?
    ensures var s := loops[i];
            if s.prev.Some? then CountedLast(loops, inputs, i, s.prev.value)
            else forall m :: 0 <= m < i ==> !CountsAt(loops, inputs, m)
  {
    if i > 0 {
      var k: nat := i - 1;
      RemembersCounts(loops, inputs, k);
      if CountsAt(loops, inputs, k) {
        assert LastCount(loops, inputs, i, k);
      } else if loops[k].prev.Some? {
        CountCarries(loops, inputs, k, loops[k].prev.value);
      }
    }
  }

  lemma CountCarries(loops: seq<Loop>, inputs: seq<Input>, k: nat, sample: ByteSample)
    requires |loops| == |inputs| + 1 && k < |inputs|
    requires !CountsAt(loops, inputs, k) && CountedLast(loops, inputs, k, sample)
    ensures CountedLast(loops, inputs, k + 1, sample)
  {
    var j: nat :| LastCount(loops, inputs, k, j) && sample == ByteSample(inputs[j].rx, inputs[j].tx, inputs[j].at);
    assert LastCount(loops, inputs, k + 1, j);
  }

  /** The last rise before `i` was counted at time `t`. */
  ghost predicate RoseLast(loops: seq<Loop>, inputs: seq<Input>, i: nat, t: nat)
    requires |loops| == |inputs| + 1 && i <= |inputs|
  {
    exists k: nat :: LastRise(loops, inputs, i, k) && inputs[k].at == t
  }

  /** `lastRx` is the time of the last byte count before `i` that rose above its
      predecessor, or nothing when none did. */
  ghost predicate RiseRecord(loops: seq<Loop>, inputs: seq<Input>, i: nat, lastRx: Option<nat>)
    requires |loops| == |inputs| + 1 && i <= |inputs|
  {
    if lastRx.Some? then RoseLast(loops, inputs, i, lastRx.value)
    else forall m :: 0 <= m < i && CountsAt(loops, inputs, m) ==> !Rises(loops, inputs, m)
  }

  /** The rx timestamp the health test consults is that of the last byte count that
      rose above its predecessor, and there is none exactly when none did: an idle
      tunnel that repeats its totals never moves it. */
  lemma {:induction false} RemembersRise(loops: seq<Loop>, inputs: seq<Input>, i: nat)
    requires BytesRun(loops, inputs) && i <= |inputs| && loops[0].prev.None? && loops[0].lastRx.None?
    ensures RiseRecord(loops, inputs, i, loops[i].lastRx)
  {
    if i > 0 {
      RemembersRise(loops, inputs, i - 1);
      RiseTurn(loops, inputs, i);
    }
  }

  lemma RiseTurn(loops: seq<Loop>, inputs: seq<Input>, i: nat)
    requires BytesRun(loops, inputs) && 0 < i <= |inputs| && loops[0].prev.None?
    requires RiseRecord(loops, inputs, i - 1, loops[i - 1].lastRx)
    ensures RiseRecord(loops, inputs, i, loops[i].lastRx)
  {
    var k: nat := i - 1;
    var before, after := loops[k].lastRx, loops[k + 1].lastRx;
    if CountsAt(loops, inputs, k) {
      RiseMeaning(loops, inputs, k);
    }
    if CountsAt(loops, inputs, k) && Rises(loops, inputs, k) {
      assert after == Some(inputs[k].at);
      RiseNow(loops, inputs, k);
    } else {
      assert after == before;
      RiseCarries(loops, inputs, k, before);
    }
  }

  lemma RiseNow(loops: seq<Loop>, inputs: seq<Input>, k: nat)
    requires |loops| == |inputs| + 1 && k < |inputs| && CountsAt(loops, inputs, k) && Rises(loops, inputs, k)
    ensures RiseRecord(loops, inputs, k + 1, Some(inputs[k].at))
  {
    assert LastRise(loops, inputs, k + 1, k);
  }

  lemma RiseCarries(loops: seq<Loop>, inputs: seq<Input>, k: nat, lastRx: Option<nat>)
    requires |loops| == |inputs| + 1 && k < |inputs| && (CountsAt(loops, inputs, k) ==> !Rises(loops, inputs, k))
    requires RiseRecord(loops, inputs, k, lastRx)
    ensures RiseRecord(loops, inputs, k + 1, lastRx)
  {
    if lastRx.Some? {
      var j: nat :| LastRise(loops, inputs, k, j) && inputs[j].at == lastRx.value;
      assert LastRise(loops, inputs, k + 1, j) by {
        assert CountsAt(loops, inputs, j) && Rises(loops, inputs, j);
        forall m | j < m < k + 1 && CountsAt(loops, inputs, m) ensures !Rises(loops, inputs, m) {
          assert m == k || m < k;
        }
      }
    } else {
      forall m | 0 <= m < k + 1 && CountsAt(loops, inputs, m) ensures !Rises(loops, inputs, m) {
        assert m == k || m < k;
      }
    }
  }

  lemma RiseMeaning(loops: seq<Loop>, inputs: seq<Input>, k: nat)
    requires BytesRun(loops, inputs) && k < |inputs| && CountsAt(loops, inputs, k) && loops[0].prev.None?
    ensures var s := loops[k];
            Rises(loops, inputs, k) <==> s.prev.Some? && inputs[k].rx > s.prev.value.rx
  {
    RemembersCounts(loops, inputs, k);
    var s := loops[k];
    if s.prev.Some? {
      var j: nat :| LastCount(loops, inputs, k, j)
          && s.prev == Some(ByteSample(inputs[j].rx, inputs[j].tx, inputs[j].at));
      forall j': nat | LastCount(loops, inputs, k, j') ensures j' == j {
      }
    }
  }

  /** The last byte count before `i` is less than ten seconds old, and the last rise
      less than a minute. */
  ghost predicate Evidence(loops: seq<Loop>, inputs: seq<Input>, i: nat, now: nat)
    requires |loops| == |inputs| + 1 && i <= |inputs|
  {
    && (exists k: nat :: LastCount(loops, inputs, i, k) && now - inputs[k].at < 10_000)
    && (exists k: nat :: LastRise(loops, inputs, i, k) && now - inputs[k].at < 60_000)
  }

  lemma CountIsFresh(loops: seq<Loop>, inputs: seq<Input>, i: nat, now: nat)
    requires |loops| == |inputs| + 1 && i <= |inputs|
    requires var s := loops[i];
             if s.prev.Some? then CountedLast(loops, inputs, i, s.prev.value)
             else forall m :: 0 <= m < i ==> !CountsAt(loops, inputs, m)
    ensures var s := loops[i];
            s.prev.Some? && now - s.prev.value.at < 10_000
            <==> exists k: nat :: LastCount(loops, inputs, i, k) && now - inputs[k].at < 10_000
  {
    var s := loops[i];
    if s.prev.Some? {
      var k: nat :| LastCount(loops, inputs, i, k)
          && s.prev.value == ByteSample(inputs[k].rx, inputs[k].tx, inputs[k].at);
      forall j: nat | LastCount(loops, inputs, i, j) ensures j == k {
      }
    }
  }

  lemma RiseIsRecent(loops: seq<Loop>, inputs: seq<Input>, i: nat, now: nat)
    requires |loops| == |inputs| + 1 && i <= |inputs|
    requires RiseRecord(loops, inputs, i, loops[i].lastRx)
    ensures var s := loops[i];
            s.lastRx.Some? && now - s.lastRx.value < 60_000
            <==> exists k: nat :: LastRise(loops, inputs, i, k) && now - inputs[k].at < 60_000
  {
    var s := loops[i];
    if s.lastRx.Some? {
      var k: nat :| LastRise(loops, inputs, i, k) && inputs[k].at == s.lastRx.value;
      forall j: nat | LastRise(loops, inputs, i, j) ensures j == k {
      }
    }
  }

  lemma TrajectoryBytes(env: Env, l: Loop, inputs: seq<Input>)
    ensures BytesRun(Trajectory(env, l, inputs), inputs)
  {
    var loops := Trajectory(env, l, inputs);
    forall k | 0 <= k < |inputs| ensures BytesTurn(loops[k], inputs[k], loops[k + 1]) {
      TurnBytes(env, loops[k], inputs[k]);
    }
  }

  /** The link counts as healthy, so that a restart is withheld, exactly on evidence:
      the last state reported is Connected and recent byte counts prove traffic. */
  lemma HealthyOnEvidence(env: Env, site: Site, mon: Option<N.Mon>, reconnects: nat, inputs: seq<Input>, i: nat,
                          now: nat)
    requires i <= |inputs|
    ensures var loops := Trajectory(env, Start(site, mon, reconnects), inputs);
            var s := At(env, Start(site, mon, reconnects), inputs, i);
            Healthy(s.status, s.prev, s.lastRx, now) <==> IsConnected(s.status) && Evidence(loops, inputs, i, now)
  {
    var loops := Trajectory(env, Start(site, mon, reconnects), inputs);
    TrajectoryBytes(env, Start(site, mon, reconnects), inputs);
    HealthyOf(loops, inputs, i, now);
  }

  lemma HealthyOf(loops: seq<Loop>, inputs: seq<Input>, i: nat, now: nat)
    requires BytesRun(loops, inputs) && i <= |inputs| && loops[0].prev.None? && loops[0].lastRx.None?
    ensures Healthy(loops[i].status, loops[i].prev, loops[i].lastRx, now)
       <==> IsConnected(loops[i].status) && Evidence(loops, inputs, i, now)
  {
    RemembersCounts(loops, inputs, i);
    RemembersRise(loops, inputs, i);
    CountIsFresh(loops, inputs, i, now);
    RiseIsRecent(loops, inputs, i, now);
  }

  // --------------------------------------------------------- reconnect counter

  /** The states openvpn reported to one attempt while its loop ran. */
  function States(loops: seq<Loop>, inputs: seq<Input>, i: nat): seq<VpnState>
    requires |loops| == |inputs| + 1 && i <= |inputs|
  {
    if i == 0 then []
    else States(loops, inputs, i - 1)
         + if loops[i - 1].running && inputs[i - 1].StateEvent? then [inputs[i - 1].state] else []
  }

  /** Adjacent Connected, Reconnecting pairs. */
  function Outages(states: seq<VpnState>): nat {
    if |states| < 2 then 0
    else Outages(states[..|states| - 1])
         + if states[|states| - 2].Connected? && states[|states| - 1].Reconnecting? then 1 else 0
  }

  function Connects(states: seq<VpnState>): nat {
    if states == [] then 0
    else Connects(states[..|states| - 1]) + if states[|states| - 1].Connected? then 1 else 0
  }

  /** `u32::saturating_add`. */
  function AddSaturating(n: nat, k: nat): nat {
    if n + k < U32_MAX then n + k else U32_MAX
  }

  lemma OutagesAppend(states: seq<VpnState>, s: VpnState)
    ensures Outages(states + [s])
         == Outages(states) + if states != [] && states[|states| - 1].Connected? && s.Reconnecting? then 1 else 0
    ensures Connects(states + [s]) == Connects(states) + if s.Connected? then 1 else 0
  {
    assert (states + [s])[..|states|] == states;
  }

  /** While the loop runs, the published status is the last state reported. */
  ghost predicate StatusIsLast(l: Loop, states: seq<VpnState>) {
    l.running ==>
      if states == [] then l.status.Starting? else l.status.OpenVpn? && l.status.state == states[|states| - 1]
  }

  /** A turn publishes the state it is given, and counts it if it ends a Connected. */
  ghost predicate CountingTurn(l: Loop, input: Input, t: Loop) {
    if l.running && input.StateEvent?
    then t.status == OpenVpn(input.state, input.localIp)
         && t.reconnects == if IsConnected(l.status) && input.state.Reconnecting?
                            then SaturatingInc(l.reconnects) else l.reconnects
    else t.reconnects == l.reconnects && (t.running ==> l.running && t.status == l.status)
  }

  lemma {:induction false} CountsOutages(loops: seq<Loop>, inputs: seq<Input>, i: nat)
    requires |loops| == |inputs| + 1 && i <= |inputs|
    requires forall k :: 0 <= k < |inputs| ==> CountingTurn(loops[k], inputs[k], loops[k + 1])
    requires loops[0].running && loops[0].status.Starting? && loops[0].reconnects <= U32_MAX
    ensures StatusIsLast(loops[i], States(loops, inputs, i))
    ensures loops[i].reconnects == AddSaturating(loops[0].reconnects, Outages(States(loops, inputs, i)))
  {
    if i > 0 {
      CountsOutages(loops, inputs, i - 1);
      CountStep(loops[i - 1], inputs[i - 1], loops[i], States(loops, inputs, i - 1), loops[0].reconnects);
    }
  }

  lemma CountStep(l: Loop, input: Input, t: Loop, states: seq<VpnState>, before: nat)
    requires CountingTurn(l, input, t) && before <= U32_MAX
    requires StatusIsLast(l, states) && l.reconnects == AddSaturating(before, Outages(states))
    ensures var more := states + if l.running && input.StateEvent? then [input.state] else [];
            StatusIsLast(t, more) && t.reconnects == AddSaturating(before, Outages(more))
  {
    if l.running && input.StateEvent? {
      assert IsConnected(l.status) <==> states != [] && states[|states| - 1].Connected?;
      OutagesAppend(states, input.state);
    } else {
      assert states + [] == states;
    }
  }

  /** Each outage starts from a CONNECTED of its own. */
  lemma {:induction false} OutagesNeedConnects(states: seq<VpnState>)
    ensures Outages(states) + (if states != [] && states[|states| - 1].Connected? then 1 else 0) <= Connects(states)
    decreases |states|
  {
    if states != [] {
      OutagesNeedConnects(states[..|states| - 1]);
    }
  }

  /** The state at `i` is a change into Reconnecting. */
  predicate Transition(states: seq<VpnState>, i: nat)
    requires i < |states|
  {
    states[i].Reconnecting? && (i == 0 || !states[i - 1].Reconnecting?)
  }

  /** Changes into Reconnecting, which is what the metric is documented to count. */
  function Transitions(states: seq<VpnState>): nat {
    if states == [] then 0
    else Transitions(states[..|states| - 1]) + if Transition(states, |states| - 1) then 1 else 0
  }

  /** The counter is that number exactly when every change into Reconnecting comes
      straight from Connected; otherwise it is less. */
  lemma {:induction false} OutagesAreTransitions(states: seq<VpnState>)
    ensures Outages(states) <= Transitions(states)
    ensures Outages(states) == Transitions(states)
       <==> forall i :: 0 <= i < |states| && Transition(states, i) ==> i > 0 && states[i - 1].Connected?
  {
    if |states| > 0 {
      var init, last := states[..|states| - 1], |states| - 1;
      OutagesAreTransitions(init);
      assert forall i :: 0 <= i < |init| ==> (Transition(init, i) <==> Transition(states, i));
      if forall i :: 0 <= i < |init| && Transition(init, i) ==> i > 0 && init[i - 1].Connected? {
        assert Outages(init) == Transitions(init);
      } else {
        var i :| 0 <= i < |init| && Transition(init, i) && !(i > 0 && init[i - 1].Connected?);
        assert Transition(states, i) && !(i > 0 && states[i - 1].Connected?);
      }
    }
  }

  /** They differ as soon as one recovery fails and starts over. */
  lemma ChurnNotCounted()
    ensures var states := [Connected, Reconnecting, Auth, Reconnecting];
            Outages(states) == 1 && Transitions(states) == 2
  {
    var a: seq<VpnState> := [Connected];
    assert a[..0] == [];
    OneMoreState([], Connected);
    OneMoreState([Connected], Reconnecting);
    OneMoreState([Connected, Reconnecting], Auth);
    OneMoreState([Connected, Reconnecting, Auth], Reconnecting);
    assert [] + a == a && a + [Reconnecting] == [Connected, Reconnecting];
    assert [Connected, Reconnecting] + [Auth] == [Connected, Reconnecting, Auth];
    assert [Connected, Reconnecting, Auth] + [Reconnecting] == [Connected, Reconnecting, Auth, Reconnecting];
  }

  lemma OneMoreState(states: seq<VpnState>, s: VpnState)
    ensures var last := if states == [] then None else Some(states[|states| - 1]);
            && Outages(states + [s])
               == Outages(states) + (if last == Some(Connected) && s.Reconnecting? then 1 else 0)
            && Transitions(states + [s])
               == Transitions(states) + (if last != Some(Reconnecting) && s.Reconnecting? then 1 else 0)
  {
    assert (states + [s])[..|states|] == states;
  }

  // ----------------------------------------------------------- many attempts

  /** One attempt of a lifetime: what its loop is fed, and how the process ended. */
  datatype Script = Script(mon: Option<N.Mon>, inputs: seq<Input>, waited: Option<Option<int>>)

  function Play(env: Env, site: Site, reconnects: nat, s: Script): Ending {
    Finish(env, Fold(env, Start(site, s.mon, reconnects), s.inputs), s.waited)
  }

  function StatesOf(env: Env, site: Site, reconnects: nat, s: Script): seq<VpnState> {
    States(Trajectory(env, Start(site, s.mon, reconnects), s.inputs), s.inputs, |s.inputs|)
  }

  /** How one attempt goes, given what is outside and the counter it starts with. */
  type Player = (Site, nat, Script) -> (Ending, seq<VpnState>)

  function PlayerFor(env: Env): Player {
    (site: Site, reconnects: nat, s: Script) => (Play(env, site, reconnects, s), StatesOf(env, site, reconnects, s))
  }

  function PlayAll(play: Player, site: Site, reconnects: nat, scripts: seq<Script>): (Site, nat)
    decreases |scripts|
  {
    if |scripts| == 0 then (site, reconnects) else
    var e := play(site, reconnects, scripts[0]).0;
    PlayAll(play, e.site, e.reconnects, scripts[1..])
  }

  /** Outages over the per-attempt streams. */
  function TotalOutages(play: Player, site: Site, reconnects: nat, scripts: seq<Script>): nat
    decreases |scripts|
  {
    if |scripts| == 0 then 0 else
    var (e, states) := play(site, reconnects, scripts[0]);
    Outages(states) + TotalOutages(play, e.site, e.reconnects, scripts[1..])
  }

  /** CONNECTED events over the same streams. */
  function TotalConnects(play: Player, site: Site, reconnects: nat, scripts: seq<Script>): nat
    decreases |scripts|
  {
    if |scripts| == 0 then 0 else
    var (e, states) := play(site, reconnects, scripts[0]);
    Connects(states) + TotalConnects(play, e.site, e.reconnects, scripts[1..])
  }

  lemma OneAttemptCounts(env: Env, site: Site, reconnects: nat, s: Script)
    requires reconnects <= U32_MAX
    ensures Play(env, site, reconnects, s).reconnects
            == AddSaturating(reconnects, Outages(StatesOf(env, site, reconnects, s)))
  {
    var start := Start(site, s.mon, reconnects);
    var loops := Trajectory(env, start, s.inputs);
    TrajectoryCounts(env, start, s.inputs);
    CountsOutages(loops, s.inputs, |s.inputs|);
    assert loops[|s.inputs|] == Fold(env, start, s.inputs) by {
      AtEnd(env, start, s.inputs);
    }
    FinishKeepsCount(env, Fold(env, start, s.inputs), s.waited);
  }

  lemma TrajectoryCounts(env: Env, l: Loop, inputs: seq<Input>)
    ensures var loops := Trajectory(env, l, inputs);
            loops[0] == l && forall k :: 0 <= k < |inputs| ==> CountingTurn(loops[k], inputs[k], loops[k + 1])
  {
    var loops := Trajectory(env, l, inputs);
    forall k | 0 <= k < |inputs| ensures CountingTurn(loops[k], inputs[k], loops[k + 1]) {
      TurnStatus(env, loops[k], inputs[k]);
    }
  }

  lemma FinishKeepsCount(env: Env, l: Loop, waited: Option<Option<int>>)
    ensures Finish(env, l, waited).reconnects == l.reconnects
  {
  }

  ghost predicate CountingPlayer(play: Player) {
    forall site, r: nat, s :: r <= U32_MAX ==>
      play(site, r, s).0.reconnects == AddSaturating(r, Outages(play(site, r, s).1))
  }

  lemma {:induction false} TotalsCount(play: Player, site: Site, reconnects: nat, scripts: seq<Script>)
    requires CountingPlayer(play) && reconnects <= U32_MAX
    ensures PlayAll(play, site, reconnects, scripts).1
            == AddSaturating(reconnects, TotalOutages(play, site, reconnects, scripts))
    decreases |scripts|
  {
    if |scripts| > 0 {
      var p := play(site, reconnects, scripts[0]);
      TotalsCount(play, p.0.site, p.0.reconnects, scripts[1..]);
    }
  }

  lemma {:induction false} TotalsBounded(play: Player, site: Site, reconnects: nat, scripts: seq<Script>)
    ensures TotalOutages(play, site, reconnects, scripts) <= TotalConnects(play, site, reconnects, scripts)
    decreases |scripts|
  {
    if |scripts| > 0 {
      var (e, states) := play(site, reconnects, scripts[0]);
      OutagesNeedConnects(states);
      TotalsBounded(play, e.site, e.reconnects, scripts[1..]);
    }
  }

  /** Over all attempts the counter is the number of Connected, Reconnecting pairs,
      saturating; so it never exceeds the number of CONNECTED events, whatever the churn. */
  lemma ReconnectsAreOutages(env: Env, site: Site, scripts: seq<Script>)
    ensures var play := PlayerFor(env);
            && PlayAll(play, site, 0, scripts).1 == AddSaturating(0, TotalOutages(play, site, 0, scripts))
            && TotalOutages(play, site, 0, scripts) <= TotalConnects(play, site, 0, scripts)
  {
    var play := PlayerFor(env);
    PlayerCounts(env);
    TotalsCount(play, site, 0, scripts);
    TotalsBounded(play, site, 0, scripts);
  }

  lemma PlayerCounts(env: Env)
    ensures CountingPlayer(PlayerFor(env))
  {
    forall site: Site, r: nat, s: Script | r <= U32_MAX
      ensures PlayerFor(env)(site, r, s).0.reconnects == AddSaturating(r, Outages(PlayerFor(env)(site, r, s).1))
    {
      OneAttemptCounts(env, site, r, s);
    }
  }
}
