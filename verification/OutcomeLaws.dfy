/** How an attempt ends, read off its inputs, and what the retry loop makes of it. */
module OutcomeLaws {
  import opened Nets
  import opened Retry
  import opened Attempt
  import opened AttemptLaws
  import R = Routes
  import V = Recovery
  import D = SplitDns
  import N = NetMon
  import T = TeardownLaws

  // ------------------------------------------------------------- one attempt

  /** The inputs that end the loop. */
  predicate EndsLoop(input: Input) {
    || input.Cancel? || (input.WatchdogTick? && input.stuck) || input.ReadError?
    || (input.StateEvent? && input.state.Exiting?) || (input.Hold? && !input.released)
    || input.VerificationFailed? || input.FatalEvent? || (input.PushReply? && !input.acceptable)
  }

  /** What such an input makes of the attempt: the user's cancel completes it, rejected
      credentials and a refused push are final, an exit is left to the exit code, and
      everything else is worth another try. */
  function Verdict(input: Input): Option<Outcome> {
    if input.Cancel? then Some(Completed)
    else if input.VerificationFailed? || input.PushReply? then Some(Fatal)
    else if input.StateEvent? then None
    else Some(Transient)
  }

  /** Openvpn is told to go, unless it goes by itself or can no longer be told. */
  predicate IsDismissal(input: Input) {
    EndsLoop(input) && (input.Cancel? || input.WatchdogTick? || input.VerificationFailed? || input.PushReply?)
  }

  predicate IsFailure(input: Input) {
    EndsLoop(input) && (input.VerificationFailed? || input.FatalEvent? || input.PushReply?)
  }

  function Dismissals(signals: seq<Signal>): nat {
    if signals == [] then 0
    else Dismissals(signals[..|signals| - 1]) + if signals[|signals| - 1].Sigterm? then 1 else 0
  }

  lemma DismissalsAppend(signals: seq<Signal>, s: Signal)
    ensures Dismissals(signals + [s]) == Dismissals(signals) + if s.Sigterm? then 1 else 0
  {
    assert (signals + [s])[..|signals|] == signals;
  }

  lemma TurnEnds(env: Env, l: Loop, input: Input)
    requires l.running
    ensures var t := After(env, l, input);
            && (t.running <==> !EndsLoop(input))
            && t.outcome == (if EndsLoop(input) && Verdict(input).Some? then Verdict(input) else l.outcome)
            && (IsFailure(input) ==> t.status == Failed)
  {
  }

  /** What a turn sends: a soft restart where one is due, the dismissal, or nothing. */
  lemma TurnSends(env: Env, l: Loop, input: Input)
    requires l.running
    ensures After(env, l, input).signals
         == if Answers(l, input) then l.signals + [Sigusr1(input.sample.at)]
            else if IsDismissal(input) then l.signals + [Sigterm]
            else l.signals
  {
  }

  lemma TurnDismisses(env: Env, l: Loop, input: Input)
    requires l.running
    ensures Dismissals(After(env, l, input).signals) == Dismissals(l.signals) + if IsDismissal(input) then 1 else 0
  {
    TurnSends(env, l, input);
    if Answers(l, input) {
      DismissalsAppend(l.signals, Sigusr1(input.sample.at));
    } else {
      DismissalsAppend(l.signals, Sigterm);
    }
  }

  /** The loop is running exactly as long as no input has ended it; until then it has no
      outcome and has not told openvpn to go. */
  lemma {:induction false} RunsUntil(env: Env, l: Loop, inputs: seq<Input>, i: nat)
    requires i <= |inputs| && l.running
    ensures At(env, l, inputs, i).running <==> forall k :: 0 <= k < i ==> !EndsLoop(inputs[k])
    ensures At(env, l, inputs, i).running ==>
              && At(env, l, inputs, i).outcome == l.outcome
              && Dismissals(At(env, l, inputs, i).signals) == Dismissals(l.signals)
  {
    if i > 0 {
      RunsUntil(env, l, inputs, i - 1);
      var before := At(env, l, inputs, i - 1);
      if before.running {
        TurnEnds(env, before, inputs[i - 1]);
        TurnDismisses(env, before, inputs[i - 1]);
      }
    }
  }

  /** Input `k` is the first to end the loop. */
  predicate EndsAt(inputs: seq<Input>, k: nat) {
    k < |inputs| && EndsLoop(inputs[k]) && forall j :: 0 <= j < k ==> !EndsLoop(inputs[j])
  }

  /** What comes after the end is not handled. */
  lemma {:induction false} StoppedAt(env: Env, l: Loop, inputs: seq<Input>, k: nat, i: nat)
    requires l.running && EndsAt(inputs, k) && k < i <= |inputs|
    ensures At(env, l, inputs, i) == After(env, At(env, l, inputs, k), inputs[k])
  {
    RunsUntil(env, l, inputs, k);
    TurnEnds(env, At(env, l, inputs, k), inputs[k]);
    if i > k + 1 {
      StoppedAt(env, l, inputs, k, i - 1);
    }
  }

  /** How an attempt comes out when its wait for openvpn comes out as `waited` and input
      `k` was the first to end the loop. A failed wait is worth another try whatever came
      before; then the input decides, and where it does not, the exit code. */
  function OutcomeAt(inputs: seq<Input>, k: nat, waited: Option<Option<int>>): Outcome
    requires k < |inputs|
  {
    if waited.None? then Transient
    else if Verdict(inputs[k]).Some? then Verdict(inputs[k]).value
    else if waited.value.None? || waited.value.value == 0 then Completed
    else Transient
  }

  /** So outcome, status and the dismissal of openvpn follow from the one input that ended
      the loop, and from the wait. */
  lemma OutcomeExactly(env: Env, site: Site, mon: Option<N.Mon>, reconnects: nat, inputs: seq<Input>, k: nat,
                       waited: Option<Option<int>>)
    requires EndsAt(inputs, k)
    ensures var l := Fold(env, Start(site, mon, reconnects), inputs);
            var e := Finish(env, l, waited);
            && e.outcome == OutcomeAt(inputs, k, waited)
            && Dismissals(l.signals) == (if IsDismissal(inputs[k]) then 1 else 0)
            && (waited.Some? ==> e.status == Exited(waited.value))
            && (waited.None? && IsFailure(inputs[k]) ==> e.status == Failed)
  {
    var start := Start(site, mon, reconnects);
    var before := At(env, start, inputs, k);
    AtEnd(env, start, inputs);
    StoppedAt(env, start, inputs, k, |inputs|);
    RunsUntil(env, start, inputs, k);
    TurnEnds(env, before, inputs[k]);
    TurnDismisses(env, before, inputs[k]);
  }

  // --------------------------------------------------------- the retry loop

  /** An attempt that fails before its loop, or one that lives through it. */
  datatype Try = Early(outcome: Outcome) | Lived(script: Script)

  function OutcomeOf(env: Env, site: Site, reconnects: nat, t: Try): Outcome {
    match t
    case Early(outcome) => outcome
    case Lived(script) => Play(env, site, reconnects, script).outcome
  }

  function SiteAfter(env: Env, site: Site, reconnects: nat, t: Try): (Site, nat) {
    match t
    case Early(_) => (site, reconnects)
    case Lived(script) => var e := Play(env, site, reconnects, script); (e.site, e.reconnects)
  }

  function Scripts(tries: seq<Try>): seq<Script> {
    if tries == [] then [] else (if tries[0].Lived? then [tries[0].script] else []) + Scripts(tries[1..])
  }

  /** From the `n`-th on, the attempts of `world` come out as `tries` do, one after the
      other on the same site. */
  ghost predicate ComesOutAs(env: Env, site: Site, reconnects: nat, world: World, n: nat, tries: seq<Try>)
    decreases |tries|
  {
    |tries| == 0
    || (&& world(n).outcome == OutcomeOf(env, site, reconnects, tries[0])
        && var (next, count) := SiteAfter(env, site, reconnects, tries[0]);
           ComesOutAs(env, next, count, world, n + 1, tries[1..]))
  }

  function SiteAtEnd(env: Env, site: Site, reconnects: nat, tries: seq<Try>): Site
    decreases |tries|
  {
    if |tries| == 0 then site
    else var (next, count) := SiteAfter(env, site, reconnects, tries[0]); SiteAtEnd(env, next, count, tries[1..])
  }

  /** Attempts fail early for now or for good, and a loop runs until something ends it. */
  ghost predicate IsReal(t: Try) {
    match t
    case Early(outcome) => !outcome.Completed?
    case Lived(script) => exists k: nat :: EndsAt(script.inputs, k)
  }

  /** The user ended the attempt, or openvpn left with a clean exit. */
  ghost predicate EndsWell(t: Try) {
    && t.Lived? && t.script.waited.Some?
    && exists k: nat ::
         && EndsAt(t.script.inputs, k)
         && (t.script.inputs[k].Cancel?
             || (t.script.inputs[k].StateEvent?
                 && (t.script.waited.value.None? || t.script.waited.value.value == 0)))
  }

  lemma EndsOnce(inputs: seq<Input>, j: nat, k: nat)
    requires EndsAt(inputs, j) && EndsAt(inputs, k)
    ensures j == k
  {
  }

  lemma CompletesExactly(env: Env, site: Site, reconnects: nat, t: Try)
    requires IsReal(t)
    ensures OutcomeOf(env, site, reconnects, t).Completed? <==> EndsWell(t)
  {
    if t.Lived? {
      var s := t.script;
      var k: nat :| EndsAt(s.inputs, k);
      OutcomeExactly(env, site, s.mon, reconnects, s.inputs, k, s.waited);
      if EndsWell(t) {
        var j: nat :| EndsAt(s.inputs, j) && (s.inputs[j].Cancel? || s.inputs[j].StateEvent?);
        EndsOnce(s.inputs, j, k);
      }
    }
  }

  /** The site and count before the `i`-th of the tries. */
  lemma {:induction false} EachComesOut(env: Env, site: Site, reconnects: nat, world: World, n: nat, tries: seq<Try>,
                                        i: nat)
    requires i < |tries| && ComesOutAs(env, site, reconnects, world, n, tries)
    requires forall j :: 0 <= j < |tries| ==> IsReal(tries[j])
    ensures world(n + i).outcome.Completed? <==> EndsWell(tries[i])
    decreases i
  {
    if i == 0 {
      CompletesExactly(env, site, reconnects, tries[0]);
    } else {
      var (next, count) := SiteAfter(env, site, reconnects, tries[0]);
      EachComesOut(env, next, count, world, n + 1, tries[1..], i - 1);
    }
  }

  /** Connecting returns Ok exactly when the last attempt it made was ended by the user, or
      openvpn exited cleanly in it; and no attempt before that one was. */
  lemma OkExactly(env: Env, site: Site, reconnects: nat, world: World, cancelled: bool, tries: seq<Try>)
    requires |tries| == |RunFrom(world, 0, cancelled)| && ComesOutAs(env, site, reconnects, world, 0, tries)
    requires forall i :: 0 <= i < |tries| ==> IsReal(tries[i])
    ensures var visits := RunFrom(world, 0, cancelled);
            && (visits[|visits| - 1].outcome.Completed? <==> EndsWell(tries[|tries| - 1]))
            && forall i :: 0 <= i < |tries| - 1 ==> !EndsWell(tries[i])
  {
    var visits := RunFrom(world, 0, cancelled);
    forall i | 0 <= i < |tries|
      ensures visits[i].outcome.Completed? <==> EndsWell(tries[i])
      ensures i + 1 < |visits| ==> visits[i].outcome.Transient?
    {
      ContinuesExactly(world, 0, cancelled, i);
      EachComesOut(env, site, reconnects, world, 0, tries, i);
    }
  }

  lemma {:induction false} SiteIsPlayed(env: Env, site: Site, reconnects: nat, tries: seq<Try>)
    ensures SiteAtEnd(env, site, reconnects, tries) == PlayAll(PlayerFor(env), site, reconnects, Scripts(tries)).0
    decreases |tries|
  {
    if |tries| > 0 {
      var (next, count) := SiteAfter(env, site, reconnects, tries[0]);
      SiteIsPlayed(env, next, count, tries[1..]);
      if tries[0].Lived? {
        var s, more := tries[0].script, Scripts(tries);
        assert more[0] == s && more[1..] == Scripts(tries[1..]);
        assert PlayerFor(env)(site, reconnects, s).0 == Play(env, site, reconnects, s);
      } else {
        assert Scripts(tries) == Scripts(tries[1..]);
      }
    }
  }

  /** And whatever it returned, after every attempt nothing of ours is left: on macOS, or
      on Windows when the runs are steady. */
  lemma ConnectLeavesNothing(env: Env, site: Site, reconnects: nat, world: World, cancelled: bool, tries: seq<Try>)
    requires |tries| == |RunFrom(world, 0, cancelled)| && ComesOutAs(env, site, reconnects, world, 0, tries)
    requires site.host == V.FreshHost(site.host.foreign) && D.Inv(site.dns) && D.Clean(site.dns)
    requires T.PossibleLife(env, site, reconnects, Scripts(tries))
    ensures var last := SiteAtEnd(env, site, reconnects, tries);
            && last.host == V.FreshHost(T.LifeForeign(env, site, reconnects, Scripts(tries)))
            && D.Inv(last.dns) && D.Clean(last.dns) && |tries| <= 9
  {
    SiteIsPlayed(env, site, reconnects, tries);
    T.LifeLeavesNothing(env, site, reconnects, Scripts(tries));
    RetryBound(world, cancelled);
  }

  /** A user who cancels before an attempt gets to its loop is heard there first; then that
      attempt is the last, and unless the wait for openvpn fails, connecting returns Ok. */
  lemma CancelIsHeard(env: Env, site: Site, reconnects: nat, world: World, cancelled: bool, tries: seq<Try>, i: nat)
    requires |tries| == |RunFrom(world, 0, cancelled)| && ComesOutAs(env, site, reconnects, world, 0, tries)
    requires forall i :: 0 <= i < |tries| ==> IsReal(tries[i])
    requires i < |tries| && RunFrom(world, 0, cancelled)[i].startedCancelled
    requires tries[i].Lived? && tries[i].script.inputs != [] && tries[i].script.inputs[0].Cancel?
    ensures i == |tries| - 1
    ensures tries[i].script.waited.Some? ==> RunFrom(world, 0, cancelled)[i].outcome.Completed?
  {
    ContinuesExactly(world, 0, cancelled, i);
    EachComesOut(env, site, reconnects, world, 0, tries, i);
    assert EndsAt(tries[i].script.inputs, 0);
  }
}
