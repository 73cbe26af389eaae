/** The network monitor: which local network changes are worth a soft restart.
    Times are milliseconds of one monotonic clock; `wall` is the system clock. */
module NetMon {
  import opened Nets

  const SETTLE: nat := 1_000
  const COOLDOWN: nat := 5_000
  const WALL_JUMP: int := 600_000

  datatype Woken = IfEvent(net: IpNet) | IfError | Wake | Tick(wall: int) | PowerClosed

  /** A wake-up with the two clock readings the filter takes: one for the settle
      window, a later one for the cooldown. */
  datatype Sample = Sample(woken: Woken, checkedAt: nat, at: nat)

  /** The monitor's fields. `wall` is there only where the wall clock is watched. */
  datatype Mon = Mon(selfIps: seq<Addr>, armedAt: Option<nat>, lastEmit: Option<nat>, wall: Option<int>)

  predicate Jumped(m: Mon, woken: Woken) {
    woken.Tick? && m.wall.Some? && (woken.wall - m.wall.value >= WALL_JUMP || woken.wall < m.wall.value)
  }

  predicate OnOwnTunnel(m: Mon, woken: Woken) {
    woken.IfEvent? && exists ip :: ip in m.selfIps && Contains(woken.net, ip)
  }

  /** A change of the underlying network, seen after the settle window. */
  predicate Eligible(m: Mon, s: Sample) {
    && (s.woken.IfEvent? || s.woken.Wake? || Jumped(m, s.woken))
    && m.armedAt.Some? && s.checkedAt - m.armedAt.value >= SETTLE
    && !OnOwnTunnel(m, s.woken)
  }

  predicate Emits(m: Mon, s: Sample) {
    Eligible(m, s) && (m.lastEmit.None? || s.at - m.lastEmit.value >= COOLDOWN)
  }

  /** One turn of the loop in `next_change`. */
  function AfterSample(m: Mon, s: Sample): Mon {
    m.(wall := if s.woken.Tick? && m.wall.Some? then Some(s.woken.wall) else m.wall,
       lastEmit := if Emits(m, s) then Some(s.at) else m.lastEmit)
  }

  /** `set_self_ips`: arms the monitor the first time. */
  function AfterSelfIps(m: Mon, ips: seq<Addr>, now: nat, wall: int): Mon {
    if ips == m.selfIps && m.armedAt.Some? then m
    else if m.armedAt.Some? then m.(selfIps := ips)
    else Mon(ips, Some(now), None, if m.wall.Some? then Some(wall) else None)
  }

  function AfterSamples(m: Mon, samples: seq<Sample>): Mon {
    if samples == [] then m
    else AfterSample(AfterSamples(m, samples[..|samples| - 1]), samples[|samples| - 1])
  }

  lemma OneMoreSample(m: Mon, queue: seq<Sample>, i: nat)
    requires i < |queue|
    ensures AfterSamples(m, queue[..i + 1]) == AfterSample(AfterSamples(m, queue[..i]), queue[i])
  {
    assert queue[..i + 1][..i] == queue[..i];
  }

  ghost predicate NoEmission(m: Mon, queue: seq<Sample>, n: nat)
    requires n <= |queue|
  {
    forall i :: 0 <= i < n ==> !Emits(AfterSamples(m, queue[..i]), queue[i])
  }

  ghost predicate FirstEmission(m: Mon, queue: seq<Sample>, n: nat)
    requires n < |queue|
  {
    NoEmission(m, queue, n) && Emits(AfterSamples(m, queue[..n]), queue[n])
  }

  class Monitor {
    var selfIps: seq<Addr>
    var armedAt: Option<nat>
    var lastEmit: Option<nat>
    var wall: Option<int>

    function View(): Mon
      reads this
    {
      Mon(selfIps, armedAt, lastEmit, wall)
    }

    constructor (wall: Option<int>)
      ensures View() == Mon([], None, None, wall)
    {
      selfIps, armedAt, lastEmit, this.wall := [], None, None, wall;
    }

    method SetSelfIps(ips: seq<Addr>, now: nat, wallNow: int)
      modifies this
      ensures View() == AfterSelfIps(old(View()), ips, now, wallNow)
    {
      if ips == selfIps && armedAt.Some? {
        return;
      }
      selfIps := ips;
      if armedAt.None? {
        armedAt := Some(now);
        lastEmit := None;
        if wall.Some? {
          wall := Some(wallNow);
        }
      }
    }

    /** One wake-up through the filter. */
    method Consider(s: Sample) returns (emitted: bool)
      modifies this
      ensures View() == AfterSample(old(View()), s) && emitted == Emits(old(View()), s)
    {
      var jumped := false;
      if s.woken.Tick? && wall.Some? {
        jumped := s.woken.wall - wall.value >= WALL_JUMP || s.woken.wall < wall.value;
        wall := Some(s.woken.wall);
      }
      if !(s.woken.IfEvent? || s.woken.Wake? || jumped) {
        return false;
      }
      if armedAt.None? {
        return false;
      }
      if s.checkedAt - armedAt.value < SETTLE {
        return false;
      }
      if s.woken.IfEvent? && exists ip :: ip in selfIps && Contains(s.woken.net, ip) {
        return false;
      }
      if lastEmit.Some? && s.at - lastEmit.value < COOLDOWN {
        return false;
      }
      lastEmit := Some(s.at);
      return true;
    }

    /** Consumes queued wake-ups up to and including the first that is emitted. */
    method NextChange(queue: seq<Sample>) returns (taken: nat, emitted: bool)
      modifies this
      ensures taken <= |queue| && View() == AfterSamples(old(View()), queue[..taken])
      ensures if emitted then taken > 0 && FirstEmission(old(View()), queue, taken - 1)
              else taken == |queue| && NoEmission(old(View()), queue, taken)
    {
      ghost var m := View();
      taken := 0;
      while taken < |queue|
        invariant taken <= |queue| && NoEmission(m, queue, taken)
        invariant View() == AfterSamples(m, queue[..taken])
      {
        OneMoreSample(m, queue, taken);
        emitted := Consider(queue[taken]);
        taken := taken + 1;
        if emitted {
          return;
        }
      }
      emitted := false;
    }
  }

  // ----------------------------------------------------------- whole histories

  datatype Event = Observed(sample: Sample) | SelfIps(ips: seq<Addr>, now: nat, wall: int)

  function After(m: Mon, e: Event): Mon {
    match e
    case Observed(s) => AfterSample(m, s)
    case SelfIps(ips, now, wall) => AfterSelfIps(m, ips, now, wall)
  }

  function At(m: Mon, trace: seq<Event>, i: nat): Mon
    requires i <= |trace|
  {
    if i == 0 then m else After(At(m, trace, i - 1), trace[i - 1])
  }

  /** What comes later does not change what was before. */
  lemma {:induction false} AtPrefix(m: Mon, trace: seq<Event>, more: seq<Event>, i: nat)
    requires i <= |trace|
    ensures At(m, trace + more, i) == At(m, trace, i)
  {
    if i > 0 {
      AtPrefix(m, trace, more, i - 1);
      assert (trace + more)[i - 1] == trace[i - 1];
    }
  }

  lemma AtAppend(m: Mon, trace: seq<Event>, e: Event)
    ensures At(m, trace + [e], |trace| + 1) == After(At(m, trace, |trace|), e)
  {
    AtPrefix(m, trace, [e], |trace|);
    assert (trace + [e])[|trace|] == e;
  }

  predicate EmitsAt(m: Mon, trace: seq<Event>, i: nat)
    requires i < |trace|
  {
    trace[i].Observed? && Emits(At(m, trace, i), trace[i].sample)
  }

  predicate EligibleAt(m: Mon, trace: seq<Event>, i: nat)
    requires i < |trace|
  {
    trace[i].Observed? && Eligible(At(m, trace, i), trace[i].sample)
  }

  predicate Fresh(m: Mon) {
    m.armedAt.None? && m.lastEmit.None?
  }

  /** The last emission before `i`, as far as the monitor remembers it. */
  ghost predicate LastEmission(m: Mon, trace: seq<Event>, i: nat, j: nat)
    requires i <= |trace|
  {
    && j < i && EmitsAt(m, trace, j)
    && At(m, trace, i).lastEmit == Some(trace[j].sample.at)
    && forall k :: j < k < i ==> !EmitsAt(m, trace, k)
  }

  lemma {:induction false} RemembersLast(m: Mon, trace: seq<Event>, i: nat)
    requires Fresh(m) && i <= |trace|
    ensures var s := At(m, trace, i);
            && (s.lastEmit.Some? ==> s.armedAt.Some? && exists j: nat :: LastEmission(m, trace, i, j))
            && (s.lastEmit.None? ==> forall k :: 0 <= k < i ==> !EmitsAt(m, trace, k))
  {
    if i > 0 {
      RemembersLast(m, trace, i - 1);
      var before, after := At(m, trace, i - 1), At(m, trace, i);
      if EmitsAt(m, trace, i - 1) {
        assert LastEmission(m, trace, i, i - 1);
      } else if after.lastEmit.Some? {
        assert before.lastEmit == after.lastEmit;
        var j: nat :| LastEmission(m, trace, i - 1, j);
        assert LastEmission(m, trace, i, j);
      }
    }
  }

  /** Sound: two emissions are at least the cooldown apart. */
  lemma {:induction false} EmissionsApart(m: Mon, trace: seq<Event>, i: nat, j: nat)
    requires Fresh(m) && i < j < |trace| && EmitsAt(m, trace, i) && EmitsAt(m, trace, j)
    ensures trace[j].sample.at - trace[i].sample.at >= COOLDOWN
    decreases j
  {
    RemembersLast(m, trace, j);
    var k: nat :| LastEmission(m, trace, j, k);
    if k != i {
      EmissionsApart(m, trace, i, k);
    }
  }

  /** Complete: an eligible change that is not emitted lies within the cooldown of an
      earlier emission; nothing else is ever withheld. */
  lemma WithheldIsCoalesced(m: Mon, trace: seq<Event>, i: nat)
    requires Fresh(m) && i < |trace| && EligibleAt(m, trace, i)
    ensures EmitsAt(m, trace, i)
       <==> forall j :: 0 <= j < i && EmitsAt(m, trace, j) ==> trace[i].sample.at - trace[j].sample.at >= COOLDOWN
  {
    RemembersLast(m, trace, i);
    if EmitsAt(m, trace, i) {
      forall j: nat | j < i && EmitsAt(m, trace, j) ensures trace[i].sample.at - trace[j].sample.at >= COOLDOWN {
        EmissionsApart(m, trace, j, i);
      }
    }
  }

  /** Arming happens once, at the first `set_self_ips`, and every emission comes at
      least the settle time after it. */
  lemma {:induction false} ArmedOnce(m: Mon, trace: seq<Event>, i: nat)
    requires Fresh(m) && i <= |trace|
    ensures var armed := At(m, trace, i).armedAt;
            if armed.None? then forall k :: 0 <= k < i ==> trace[k].Observed? else ArmedBefore(trace, i, armed.value)
  {
    if i > 0 {
      ArmedOnce(m, trace, i - 1);
      var before := At(m, trace, i - 1).armedAt;
      if before.Some? {
        var k: nat :| FirstArming(trace, i - 1, k, before.value);
        assert FirstArming(trace, i, k, before.value);
      } else if trace[i - 1].SelfIps? {
        var k: nat := i - 1;
        assert FirstArming(trace, i, k, trace[k].now);
      }
    }
  }

  ghost predicate ArmedBefore(trace: seq<Event>, i: nat, armed: nat) {
    exists k: nat :: FirstArming(trace, i, k, armed)
  }

  ghost predicate FirstArming(trace: seq<Event>, i: nat, k: nat, t: nat) {
    k < i <= |trace| && trace[k].SelfIps? && trace[k].now == t && forall l :: 0 <= l < k ==> trace[l].Observed?
  }

  /** Every emission answers a change that is not about our own tunnel, and comes at
      least the settle time after the first registration of a tunnel address. */
  lemma EmissionsSettled(m: Mon, trace: seq<Event>, i: nat)
    requires Fresh(m) && i < |trace| && EmitsAt(m, trace, i)
    ensures exists armed: nat :: ArmedBefore(trace, i, armed) && trace[i].sample.checkedAt - armed >= SETTLE
  {
    ArmedOnce(m, trace, i);
    assert ArmedBefore(trace, i, At(m, trace, i).armedAt.value);
  }

  /** The addresses in force are those of the latest registration, so no emission is
      about a network that holds one of them. */
  lemma {:induction false} LatestAddresses(m: Mon, trace: seq<Event>, i: nat, k: nat)
    requires k < i <= |trace| && trace[k].SelfIps? && forall l :: k < l < i ==> trace[l].Observed?
    ensures At(m, trace, i).selfIps == trace[k].ips
    decreases i
  {
    if i - 1 > k {
      LatestAddresses(m, trace, i - 1, k);
    }
  }

  lemma NeverOwnTunnel(m: Mon, trace: seq<Event>, i: nat, k: nat, ip: Addr)
    requires k < i < |trace| && trace[k].SelfIps? && forall l :: k < l < i ==> trace[l].Observed?
    requires EmitsAt(m, trace, i) && trace[i].sample.woken.IfEvent? && ip in trace[k].ips
    ensures !Contains(trace[i].sample.woken.net, ip)
  {
    LatestAddresses(m, trace, i, k);
  }

  /** The addresses last registered. */
  function LatestIps(trace: seq<Event>, i: nat): seq<Addr>
    requires i <= |trace|
  {
    if i == 0 then [] else if trace[i - 1].SelfIps? then trace[i - 1].ips else LatestIps(trace, i - 1)
  }

  /** The wall-clock reading a tick is compared with: that of the tick before it, or of
      the first registration if that came later; nothing where the clock is not watched. */
  function Anchor(wall: Option<int>, trace: seq<Event>, i: nat): (before: Option<int>)
    requires i <= |trace|
    ensures before.Some? <==> wall.Some?
  {
    if i == 0 || wall.None? then wall else
    match trace[i - 1]
    case Observed(s) => if s.woken.Tick? then Some(s.woken.wall) else Anchor(wall, trace, i - 1)
    case SelfIps(_, _, w) =>
      if forall k :: 0 <= k < i - 1 ==> trace[k].Observed? then Some(w) else Anchor(wall, trace, i - 1)
  }

  lemma {:induction false} MonitorKnows(m: Mon, trace: seq<Event>, i: nat)
    requires Fresh(m) && m.selfIps == [] && i <= |trace|
    ensures var s := At(m, trace, i);
            && s.selfIps == LatestIps(trace, i) && s.wall == Anchor(m.wall, trace, i)
            && (s.armedAt.None? <==> forall k :: 0 <= k < i ==> trace[k].Observed?)
  {
    if i > 0 {
      MonitorKnows(m, trace, i - 1);
    }
  }

  /** A wake-up that tells of a change: an interface event about a network that holds none
      of the addresses last registered, a wake from sleep, or a wall clock that went back
      or ahead by ten minutes since it was last read. */
  ghost predicate TellsOfChange(wall: Option<int>, trace: seq<Event>, i: nat)
    requires i < |trace| && trace[i].Observed?
  {
    match trace[i].sample.woken
    case IfEvent(net) => forall ip :: ip in LatestIps(trace, i) ==> !Contains(net, ip)
    case Wake => true
    case Tick(w) =>
      var before := Anchor(wall, trace, i);
      before.Some? && (w < before.value || w >= before.value + 600_000)
    case IfError => false
    case PowerClosed => false
  }

  /** The whole filter, read off the trace: a wake-up is emitted exactly when it tells of
      a change, at least a second after the first registration of addresses, and at least
      five seconds after every emission before it. */
  lemma EmitsExactly(m: Mon, trace: seq<Event>, i: nat)
    requires Fresh(m) && m.selfIps == [] && i < |trace|
    ensures EmitsAt(m, trace, i)
       <==> && trace[i].Observed? && TellsOfChange(m.wall, trace, i)
            && (exists armed: nat :: ArmedBefore(trace, i, armed) && trace[i].sample.checkedAt - armed >= 1_000)
            && forall j :: 0 <= j < i && EmitsAt(m, trace, j) ==> trace[i].sample.at - trace[j].sample.at >= 5_000
  {
    MonitorKnows(m, trace, i);
    ArmedOnce(m, trace, i);
    var armedAt := At(m, trace, i).armedAt;
    forall armed: nat | ArmedBefore(trace, i, armed) ensures armedAt == Some(armed) {
      FirstArmingUnique(trace, i, armed, armedAt);
    }
    if trace[i].Observed? {
      assert EligibleAt(m, trace, i)
        <==> && TellsOfChange(m.wall, trace, i)
             && exists armed: nat :: ArmedBefore(trace, i, armed) && trace[i].sample.checkedAt - armed >= 1_000;
      if EligibleAt(m, trace, i) {
        WithheldIsCoalesced(m, trace, i);
      }
    }
  }

  lemma FirstArmingUnique(trace: seq<Event>, i: nat, armed: nat, armedAt: Option<nat>)
    requires i <= |trace| && ArmedBefore(trace, i, armed)
    requires if armedAt.None? then forall k :: 0 <= k < i ==> trace[k].Observed?
             else ArmedBefore(trace, i, armedAt.value)
    ensures armedAt == Some(armed)
  {
    var k: nat :| FirstArming(trace, i, k, armed);
    if armedAt.Some? {
      var j: nat :| FirstArming(trace, i, j, armedAt.value);
      assert j == k;
    }
  }

  // --------------------------------------------------------------------- rates

  /** Times at least the cooldown apart, in order. */
  ghost predicate Spaced(times: seq<nat>) {
    forall i, j :: 0 <= i < j < |times| ==> times[j] - times[i] >= COOLDOWN
  }

  function Within(times: seq<nat>, from: nat, to: nat): nat {
    if times == [] then 0
    else Within(times[..|times| - 1], from, to) + if from <= times[|times| - 1] <= to then 1 else 0
  }

  /** A window of length `to - from` holds at most one spaced time per cooldown, plus one. */
  lemma {:induction false} RateBound(times: seq<nat>, from: nat, to: nat)
    requires Spaced(times) && from <= to
    ensures Within(times, from, to) <= (to - from) / COOLDOWN + 1
    decreases |times|
  {
    if times != [] {
      var init, last := times[..|times| - 1], times[|times| - 1];
      if last < from || last > to {
        RateBound(init, from, to);
      } else if last < from + COOLDOWN {
        NoneWithin(init, from, to, last);
      } else {
        RateBound(init, from, last - COOLDOWN);
        SameWithin(init, from, to, last);
      }
    }
  }

  lemma {:induction false} NoneWithin(times: seq<nat>, from: nat, to: nat, last: nat)
    requires last < from + COOLDOWN && forall i :: 0 <= i < |times| ==> last - times[i] >= COOLDOWN
    ensures Within(times, from, to) == 0
  {
    if times != [] {
      NoneWithin(times[..|times| - 1], from, to, last);
    }
  }

  lemma {:induction false} SameWithin(times: seq<nat>, from: nat, to: nat, last: nat)
    requires from + COOLDOWN <= last <= to && forall i :: 0 <= i < |times| ==> last - times[i] >= COOLDOWN
    ensures Within(times, from, to) == Within(times, from, last - COOLDOWN)
  {
    if times != [] {
      SameWithin(times[..|times| - 1], from, to, last);
    }
  }

  function Emissions(m: Mon, trace: seq<Event>, n: nat): seq<nat>
    requires n <= |trace|
  {
    if n == 0 then []
    else Emissions(m, trace, n - 1) + if EmitsAt(m, trace, n - 1) then [trace[n - 1].sample.at] else []
  }

  ghost predicate EmittedBefore(m: Mon, trace: seq<Event>, n: nat, t: nat)
    requires n <= |trace|
  {
    exists i: nat :: i < n && EmitsAt(m, trace, i) && trace[i].sample.at == t
  }

  lemma {:induction false} EmissionsSpaced(m: Mon, trace: seq<Event>, n: nat)
    requires Fresh(m) && n <= |trace|
    ensures Spaced(Emissions(m, trace, n))
    ensures forall k :: 0 <= k < |Emissions(m, trace, n)| ==> EmittedBefore(m, trace, n, Emissions(m, trace, n)[k])
  {
    if n > 0 {
      EmissionsSpaced(m, trace, n - 1);
      if EmitsAt(m, trace, n - 1) {
        var sofar := Emissions(m, trace, n - 1);
        forall k | 0 <= k < |sofar| ensures trace[n - 1].sample.at - sofar[k] >= COOLDOWN {
          assert EmittedBefore(m, trace, n - 1, sofar[k]);
          var i: nat :| i < n - 1 && EmitsAt(m, trace, i) && trace[i].sample.at == sofar[k];
          EmissionsApart(m, trace, i, n - 1);
        }
      }
    }
  }

  /** Any window of the whole history holds at most one trigger per cooldown, plus one. */
  lemma TriggerRate(m: Mon, trace: seq<Event>, from: nat, to: nat)
    requires Fresh(m) && from <= to
    ensures Within(Emissions(m, trace, |trace|), from, to) <= (to - from) / COOLDOWN + 1
  {
    EmissionsSpaced(m, trace, |trace|);
    RateBound(Emissions(m, trace, |trace|), from, to);
  }
}
