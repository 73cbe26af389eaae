/** The retry loop around connection attempts. Times are seconds. */
module Retry {
  import opened Nets

  /** How a single attempt finished: for good, worth another try, or hopeless. */
  datatype Outcome = Completed | Transient | Fatal

  /** What happens around attempt `n`: how it ends, whether the user has cancelled by
      then, when a cancellation interrupts the pause after it, and whether one comes
      between that pause and the next attempt. */
  datatype Turn = Turn(outcome: Outcome, cancelledByEnd: bool, interrupt: Option<nat>, cancelledAfterPause: bool)

  /** The outside world, for as many attempts as the loop cares to make. */
  type World = nat -> Turn

  const MAX_RETRIES: nat := 8
  const MAX_DELAY: nat := 60

  /** Exponential from one second, doubling, capped, a fixed number of times. */
  function Delay(n: nat): Option<nat> {
    if n >= MAX_RETRIES then None
    else Some(if Pow2(n) < MAX_DELAY then Pow2(n) else MAX_DELAY)
  }

  /** One attempt as it went: whether the user had cancelled before it started, how it
      ended, and how long the loop paused afterwards. */
  datatype Visit = Visit(startedCancelled: bool, outcome: Outcome, paused: nat)

  predicate Interrupted(t: Turn, n: nat) {
    t.interrupt.Some? && Delay(n).Some? && t.interrupt.value <= Delay(n).value
  }

  /** The user was still connected in intent, and the schedule has a pause left. */
  predicate Pauses(t: Turn, n: nat, cancelled: bool) {
    t.outcome.Transient? && !cancelled && !t.cancelledByEnd && Delay(n).Some?
  }

  /** The attempts from the `n`-th on. */
  function RunFrom(world: World, n: nat, cancelled: bool): (visits: seq<Visit>)
    ensures visits != []
    decreases MAX_RETRIES + 1 - n
  {
    var t := world(n);
    if Pauses(t, n, cancelled) && !Interrupted(t, n) then
      [Visit(false, Transient, Delay(n).value)] + RunFrom(world, n + 1, t.cancelledAfterPause)
    else
      [Visit(cancelled, t.outcome, if Pauses(t, n, cancelled) then t.interrupt.value else 0)]
  }

  /** `run`, after the root certificate check: returns Ok exactly when the last
      attempt completed. */
  method Run(world: World, cancelled0: bool) returns (visits: seq<Visit>, ok: bool)
    ensures visits == RunFrom(world, 0, cancelled0)
    ensures ok <==> visits[|visits| - 1].outcome.Completed?
  {
    var cancelled, n := cancelled0, 0;
    visits := [];
    ghost var whole := RunFrom(world, n, cancelled);
    while true
      invariant n <= MAX_RETRIES && whole == visits + RunFrom(world, n, cancelled)
      decreases MAX_RETRIES + 1 - n
    {
      var turn := world(n);
      var startedCancelled := cancelled;
      TakeTurn(world, n, cancelled);
      cancelled := cancelled || turn.cancelledByEnd;
      match turn.outcome {
        case Completed =>
          return visits + [Visit(startedCancelled, Completed, 0)], true;
        case Fatal =>
          return visits + [Visit(startedCancelled, Fatal, 0)], false;
        case Transient =>
      }
      var delay := Delay(n);
      if cancelled || delay.None? {
        return visits + [Visit(startedCancelled, Transient, 0)], false;
      }
      if turn.interrupt.Some? && turn.interrupt.value <= delay.value {
        return visits + [Visit(startedCancelled, Transient, turn.interrupt.value)], false;
      }
      Associate(visits, [Visit(false, Transient, delay.value)], RunFrom(world, n + 1, turn.cancelledAfterPause));
      visits := visits + [Visit(startedCancelled, Transient, delay.value)];
      cancelled := turn.cancelledAfterPause;
      n := n + 1;
    }
  }

  /** The first visit, and what follows it. */
  lemma TakeTurn(world: World, n: nat, cancelled: bool)
    ensures var t := world(n);
            RunFrom(world, n, cancelled)
            == if !Pauses(t, n, cancelled) then [Visit(cancelled, t.outcome, 0)]
               else if Interrupted(t, n) then [Visit(false, Transient, t.interrupt.value)]
               else [Visit(false, Transient, Delay(n).value)] + RunFrom(world, n + 1, t.cancelledAfterPause)
  {
  }

  lemma Associate(a: seq<Visit>, b: seq<Visit>, c: seq<Visit>)
    ensures a + (b + c) == a + b + c
  {
  }

  function TotalPause(visits: seq<Visit>): nat {
    if visits == [] then 0 else visits[0].paused + TotalPause(visits[1..])
  }

  /** Sum of the delays from the `n`-th on. */
  function Budget(n: nat): nat
    decreases MAX_RETRIES - n
  {
    if n >= MAX_RETRIES then 0 else Delay(n).value + Budget(n + 1)
  }

  lemma Schedule()
    ensures Delay(0) == Some(1) && Delay(1) == Some(2) && Delay(2) == Some(4) && Delay(3) == Some(8)
    ensures Delay(4) == Some(16) && Delay(5) == Some(32) && Delay(6) == Some(60) && Delay(7) == Some(60)
            && Delay(8) == None
    ensures Budget(0) == 183
  {
    assert Pow2(3) == 8 && Pow2(5) == 32;
    assert Pow2(6) == 64 && Pow2(7) == 128;
    assert Budget(6) == 120;
    assert Budget(4) == 168;
    assert Budget(2) == 180;
  }

  /** The shape of every run from attempt `n`: only the last attempt can end in
      anything but a transient failure, only it can have started after a
      cancellation, and every pause but the last is the scheduled one. */
  predicate WellPaced(visits: seq<Visit>, n: nat)
    decreases |visits|
  {
    if |visits| <= 1 then
      visits != [] && (visits[0].paused > 0 ==> Delay(n).Some? && visits[0].paused <= Delay(n).value)
    else
      && visits[0].outcome.Transient? && !visits[0].startedCancelled
      && Delay(n) == Some(visits[0].paused)
      && WellPaced(visits[1..], n + 1)
  }

  lemma {:induction false} RunIsWellPaced(world: World, n: nat, cancelled: bool)
    requires n <= MAX_RETRIES
    ensures WellPaced(RunFrom(world, n, cancelled), n)
    decreases MAX_RETRIES - n
  {
    var t := world(n);
    if Pauses(t, n, cancelled) && !Interrupted(t, n) {
      RunIsWellPaced(world, n + 1, t.cancelledAfterPause);
      PacedCons(Visit(false, Transient, Delay(n).value), RunFrom(world, n + 1, t.cancelledAfterPause), n);
    }
  }

  lemma PacedCons(visit: Visit, rest: seq<Visit>, n: nat)
    requires WellPaced(rest, n + 1) && visit.outcome.Transient? && !visit.startedCancelled
             && Delay(n) == Some(visit.paused)
    ensures WellPaced([visit] + rest, n)
  {
    assert ([visit] + rest)[1..] == rest;
  }

  /** The `i`-th attempt of a well-paced run. */
  lemma {:induction false} PacedAt(visits: seq<Visit>, n: nat, i: nat)
    requires WellPaced(visits, n) && i < |visits|
    ensures i < |visits| - 1 ==>
              visits[i].outcome.Transient? && !visits[i].startedCancelled && Delay(n + i) == Some(visits[i].paused)
    ensures visits[i].paused > 0 ==> Delay(n + i).Some? && visits[i].paused <= Delay(n + i).value
    decreases |visits|
  {
    if i > 0 {
      PacedAt(visits[1..], n + 1, i - 1);
    }
  }

  lemma {:induction false} PacedWithinBudget(visits: seq<Visit>, n: nat)
    requires WellPaced(visits, n) && n <= MAX_RETRIES
    ensures |visits| <= MAX_RETRIES + 1 - n && TotalPause(visits) <= Budget(n)
    decreases |visits|
  {
    if |visits| > 1 {
      PacedWithinBudget(visits[1..], n + 1);
    } else {
      assert visits[1..] == [];
    }
  }

  lemma DelaysRise(i: nat)
    ensures Delay(i).Some? ==> Delay(i).value <= MAX_DELAY
    ensures Delay(i + 1).Some? ==> Delay(i).Some? && Delay(i).value <= Delay(i + 1).value
  {
  }

  /** The retry bound: at most nine attempts and at most 183 seconds of pauses; each
      pause is at most 60 seconds and, up to the last, no shorter than the one before;
      the run stops at the first attempt that completes or fails for good, and starts
      at most one attempt after the user cancelled. */
  lemma RetryBound(world: World, cancelled: bool)
    ensures |RunFrom(world, 0, cancelled)| <= 9 && TotalPause(RunFrom(world, 0, cancelled)) <= 183
    ensures Disciplined(RunFrom(world, 0, cancelled))
  {
    RunIsWellPaced(world, 0, cancelled);
    Schedule();
    PacedWithinBudget(RunFrom(world, 0, cancelled), 0);
    PacedIsDisciplined(RunFrom(world, 0, cancelled), 0);
  }

  ghost predicate Disciplined(visits: seq<Visit>) {
    forall i :: 0 <= i < |visits| ==>
      && visits[i].paused <= MAX_DELAY
      && (i < |visits| - 1 ==> visits[i].outcome.Transient? && !visits[i].startedCancelled)
      && (i < |visits| - 2 ==> visits[i].paused <= visits[i + 1].paused)
  }

  lemma PacedIsDisciplined(visits: seq<Visit>, n: nat)
    requires WellPaced(visits, n)
    ensures Disciplined(visits)
  {
    forall i | 0 <= i < |visits|
      ensures visits[i].paused <= MAX_DELAY
      ensures i < |visits| - 1 ==> visits[i].outcome.Transient? && !visits[i].startedCancelled
      ensures i < |visits| - 2 ==> visits[i].paused <= visits[i + 1].paused
    {
      PacedAt(visits, n, i);
      DelaysRise(n + i);
      if i < |visits| - 2 {
        PacedAt(visits, n, i + 1);
      }
    }
  }

  /** The run goes on after its `i`-th attempt exactly when that attempt failed for now,
      the user had cancelled neither before nor by its end, a delay is left, and no
      cancellation came during the pause. Each attempt is told as the world had it. */
  lemma {:induction false} ContinuesExactly(world: World, n: nat, cancelled: bool, i: nat)
    requires n <= MAX_RETRIES && i < |RunFrom(world, n, cancelled)|
    ensures var visits := RunFrom(world, n, cancelled);
            var t := world(n + i);
            && visits[i].outcome == t.outcome
            && visits[i].startedCancelled == (if i == 0 then cancelled else world(n + i - 1).cancelledAfterPause)
            && (i + 1 < |visits|
                <==> && t.outcome.Transient? && !visits[i].startedCancelled && !t.cancelledByEnd && n + i < 8
                     && (t.interrupt.Some? ==> t.interrupt.value > Delay(n + i).value))
            && (i + 1 < |visits| ==> visits[i].paused == Delay(n + i).value)
    decreases i
  {
    TakeTurn(world, n, cancelled);
    var t := world(n);
    if i > 0 {
      var rest := RunFrom(world, n + 1, t.cancelledAfterPause);
      assert RunFrom(world, n, cancelled)[1..] == rest;
      ContinuesExactly(world, n + 1, t.cancelledAfterPause, i - 1);
      assert RunFrom(world, n, cancelled)[i] == rest[i - 1];
    }
  }

  /** The last pause is the part of it that passed before the user cancelled, if there was
      one at all. */
  lemma {:induction false} LastPause(world: World, n: nat, cancelled: bool)
    requires n <= MAX_RETRIES
    ensures var visits := RunFrom(world, n, cancelled);
            var last, m := visits[|visits| - 1], n + |visits| - 1;
            if world(m).outcome.Transient? && !last.startedCancelled && !world(m).cancelledByEnd && m < 8
            then world(m).interrupt == Some(last.paused) else last.paused == 0
    decreases MAX_RETRIES - n
  {
    var t := world(n);
    if Pauses(t, n, cancelled) && !Interrupted(t, n) {
      LastPause(world, n + 1, t.cancelledAfterPause);
      var rest := RunFrom(world, n + 1, t.cancelledAfterPause);
      assert RunFrom(world, n, cancelled) == [Visit(false, Transient, Delay(n).value)] + rest;
    }
  }

  /** The bound is reached: failing every time, nine attempts and all 183 seconds. */
  lemma {:induction false} BoundReached(n: nat)
    requires n <= MAX_RETRIES
    ensures var visits := RunFrom(_ => Turn(Transient, false, None, false), n, false);
            |visits| == MAX_RETRIES + 1 - n && TotalPause(visits) == Budget(n)
    decreases MAX_RETRIES - n
  {
    if n < MAX_RETRIES {
      BoundReached(n + 1);
      var world: World := _ => Turn(Transient, false, None, false);
      assert RunFrom(world, n, false)[1..] == RunFrom(world, n + 1, false);
    }
  }
}
