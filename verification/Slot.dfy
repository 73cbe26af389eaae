/** The daemon's single connection slot, shared by concurrent requests. Each step is
    what one party does while it holds the mutex, or between two awaits. */
module Slot {
  import opened Nets
  import Retry

  datatype Status = Idle | Underway | Connected | Exited | Failed

  predicate IsTerminal(s: Status) {
    s.Connected? || s.Exited? || s.Failed?
  }

  /** Where the retry loop of a task stands: before its first attempt, in the `n`-th
      attempt, or in the pause after it. */
  datatype Phase = Checking | Attempting(n: nat) | Pausing(n: nat)

  /** A connection from the moment it fills the slot: its task is about to be spawned,
      runs, has returned but not yet cleared the slot, or has cleared it. */
  datatype Task = Pending | Live(phase: Phase) | Done | Gone

  /** `published` is the history of the status channel, `Idle` first. The sender
      lives as long as the task runs. */
  datatype Conn = Conn(profile: string, task: Task, cancelled: bool, published: seq<Status>)

  datatype Reply = Up | AlreadyConnected | NoServer | OpenVpnError | ChannelClosed

  /** A `start_connection` call. */
  datatype Caller = Spawning(conn: nat) | Waiting(conn: nat) | Replied(about: Option<nat>, reply: Reply) | Abandoned

  datatype Shutdown = Polling | Finished

  datatype Daemon = Daemon(slot: Option<nat>, conns: seq<Conn>, callers: seq<Caller>, shutdowns: seq<Shutdown>)

  datatype Step =
    | CallUp(profile: string, hasServer: bool)
    | Spawn(caller: nat)
    | Observe(caller: nat)
    | Abandon(caller: nat)
    | Check(conn: nat, ok: bool)
    | Publish(conn: nat, status: Status)
    | AttemptEnds(conn: nat, outcome: Retry.Outcome)
    | PauseEnds(conn: nat, elapsed: bool)
    | TaskClears(conn: nat)
    | CallDown
    | CallShutdown
    | PollShutdown(shutdown: nat)

  const INITIAL := Daemon(None, [], [], [])

  predicate InAttempt(d: Daemon, c: nat) {
    c < |d.conns| && d.conns[c].task.Live? && d.conns[c].task.phase.Attempting?
  }

  predicate InPause(d: Daemon, c: nat) {
    c < |d.conns| && d.conns[c].task.Live? && d.conns[c].task.phase.Pausing?
  }

  predicate Enabled(d: Daemon, step: Step) {
    match step
    case CallUp(_, _) => true
    case Spawn(k) => k < |d.callers| && d.callers[k].Spawning? && d.callers[k].conn < |d.conns|
    case Observe(k) => k < |d.callers| && d.callers[k].Waiting? && d.callers[k].conn < |d.conns|
    case Abandon(k) => k < |d.callers| && d.callers[k].Waiting?
    case Check(c, _) => c < |d.conns| && d.conns[c].task == Live(Checking)
    case Publish(c, status) => InAttempt(d, c) && !status.Idle?
    case AttemptEnds(c, _) => InAttempt(d, c)
    case PauseEnds(c, elapsed) => InPause(d, c) && (elapsed || d.conns[c].cancelled)
    case TaskClears(c) => c < |d.conns| && d.conns[c].task.Done?
    case CallDown => true
    case CallShutdown => true
    case PollShutdown(k) => k < |d.shutdowns| && d.shutdowns[k].Polling?
  }

  /** Sets the cancellation of the connection in the slot, if any. */
  function CancelActive(d: Daemon): Daemon {
    if d.slot.Some? && d.slot.value < |d.conns|
    then d.(conns := d.conns[d.slot.value := d.conns[d.slot.value].(cancelled := true)]) else d
  }

  function Current(c: Conn): Status {
    if c.published == [] then Idle else c.published[|c.published| - 1]
  }

  /** `finalize_terminal`. */
  function Finalize(s: Status): Reply {
    if s.Connected? then Up else OpenVpnError
  }

  /** One poll of `wait_for(is_terminal)`: the current value decides first, a closed
      channel second. */
  function Poll(c: Conn): Option<Reply> {
    if IsTerminal(Current(c)) then Some(Finalize(Current(c)))
    else if c.task.Done? || c.task.Gone? then Some(ChannelClosed)
    else None
  }

  /** An attempt starts by publishing that it is under way. */
  function Begin(c: Conn, n: nat): Conn {
    c.(task := Live(Attempting(n)), published := c.published + [Underway])
  }

  /** The retry loop after an attempt: it pauses, or returns; on every way out but a
      user's own cancellation it sets the cancellation itself. */
  function AfterAttempt(c: Conn, n: nat, outcome: Retry.Outcome): Conn {
    if outcome.Transient? && c.cancelled then c.(task := Done)
    else if outcome.Transient? && Retry.Delay(n).Some? then c.(task := Live(Pausing(n)))
    else c.(task := Done, cancelled := true)
  }

  function AfterCallUp(d: Daemon, profile: string, hasServer: bool): Daemon {
    if d.slot.Some? && d.slot.value < |d.conns| then
      if d.conns[d.slot.value].profile == profile then d.(callers := d.callers + [Waiting(d.slot.value)])
      else d.(callers := d.callers + [Replied(None, AlreadyConnected)])
    else if !hasServer then d.(callers := d.callers + [Replied(None, NoServer)])
    else
      d.(slot := Some(|d.conns|), conns := d.conns + [Conn(profile, Pending, false, [Idle])],
         callers := d.callers + [Spawning(|d.conns|)])
  }

  function Next(d: Daemon, step: Step): Daemon
    requires Enabled(d, step)
  {
    match step
    case CallUp(profile, hasServer) => AfterCallUp(d, profile, hasServer)
    case Spawn(k) =>
      var c := d.callers[k].conn;
      d.(conns := d.conns[c := d.conns[c].(task := Live(Checking))], callers := d.callers[k := Waiting(c)])
    case Observe(k) =>
      var c := d.callers[k].conn;
      var reply := Poll(d.conns[c]);
      if reply.Some? then d.(callers := d.callers[k := Replied(Some(c), reply.value)]) else d
    case Abandon(k) => d.(callers := d.callers[k := Abandoned])
    case Publish(c, status) => d.(conns := d.conns[c := d.conns[c].(published := d.conns[c].published + [status])])
    case Check(c, ok) => d.(conns := d.conns[c := if ok then Begin(d.conns[c], 0) else d.conns[c].(task := Done)])
    case AttemptEnds(c, outcome) =>
      d.(conns := d.conns[c := AfterAttempt(d.conns[c], d.conns[c].task.phase.n, outcome)])
    case PauseEnds(c, elapsed) =>
      d.(conns := d.conns[c := if elapsed then Begin(d.conns[c], d.conns[c].task.phase.n + 1)
                               else d.conns[c].(task := Done)])
    case TaskClears(c) => d.(slot := None, conns := d.conns[c := d.conns[c].(task := Gone)])
    case CallDown => CancelActive(d)
    case CallShutdown => CancelActive(d).(shutdowns := d.shutdowns + [Polling])
    case PollShutdown(k) => if d.slot.None? then d.(shutdowns := d.shutdowns[k := Finished]) else d
  }

  predicate PossibleRun(d: Daemon, steps: seq<Step>)
    decreases |steps|
  {
    steps == [] || (Enabled(d, steps[0]) && PossibleRun(Next(d, steps[0]), steps[1..]))
  }

  function Run(d: Daemon, steps: seq<Step>): Daemon
    requires PossibleRun(d, steps)
    decreases |steps|
  {
    if steps == [] then d else Run(Next(d, steps[0]), steps[1..])
  }

  // ---------------------------------------------------------------- invariants

  /** The slot names exactly the connection whose task is not gone. */
  ghost predicate SlotInv(d: Daemon) {
    && (d.slot.Some? ==> d.slot.value < |d.conns|)
    && forall c: nat :: c < |d.conns| ==> (!d.conns[c].task.Gone? <==> d.slot == Some(c))
  }

  ghost predicate CallersKnown(d: Daemon) {
    forall k :: 0 <= k < |d.callers| && (d.callers[k].Spawning? || d.callers[k].Waiting?) ==>
      d.callers[k].conn < |d.conns|
  }

  /** Callers about to spawn a task do so for different, pending connections. */
  ghost predicate SpawnersPending(d: Daemon) {
    && CallersKnown(d)
    && (forall k :: 0 <= k < |d.callers| && d.callers[k].Spawning? ==> d.conns[d.callers[k].conn].task.Pending?)
    && (forall j, k :: 0 <= j < k < |d.callers| && d.callers[j].Spawning? && d.callers[k].Spawning? ==>
        d.callers[j].conn != d.callers[k].conn)
  }

  ghost predicate HasSpawner(d: Daemon, c: nat) {
    exists k: nat :: k < |d.callers| && d.callers[k] == Spawning(c)
  }

  /** Every pending connection has a caller about to spawn its task. */
  ghost predicate PendingSpawned(d: Daemon) {
    forall c: nat :: c < |d.conns| && d.conns[c].task.Pending? ==> HasSpawner(d, c)
  }

  /** Whoever was told Up was told so about a connection that had been Connected. */
  ghost predicate ReplyInv(d: Daemon) {
    forall k :: 0 <= k < |d.callers| && d.callers[k].Replied? && d.callers[k].reply.Up? ==>
      && d.callers[k].about.Some? && d.callers[k].about.value < |d.conns|
      && Connected in d.conns[d.callers[k].about.value].published
  }

  lemma SlotStep(d: Daemon, step: Step)
    requires SlotInv(d) && CallersKnown(d) && Enabled(d, step)
    requires step.Spawn? ==> d.conns[d.callers[step.caller].conn].task.Pending?
    ensures SlotInv(Next(d, step))
  {
  }

  lemma SpawnersStep(d: Daemon, step: Step)
    requires SlotInv(d) && SpawnersPending(d) && Enabled(d, step)
    ensures SpawnersPending(Next(d, step))
  {
    if step.CallUp? {
      SpawnersCallUp(d, step.profile, step.hasServer);
    } else if step.Spawn? {
      SpawnersSpawn(d, step.caller);
    }
  }

  lemma SpawnersCallUp(d: Daemon, profile: string, hasServer: bool)
    requires SpawnersPending(d)
    ensures SpawnersPending(AfterCallUp(d, profile, hasServer))
  {
  }

  lemma SpawnersSpawn(d: Daemon, k: nat)
    requires SpawnersPending(d) && Enabled(d, Spawn(k))
    ensures SpawnersPending(Next(d, Spawn(k)))
  {
  }

  lemma PendingStep(d: Daemon, step: Step)
    requires PendingSpawned(d) && Enabled(d, step)
    ensures PendingSpawned(Next(d, step))
  {
    var t := Next(d, step);
    forall c: nat | c < |t.conns| && t.conns[c].task.Pending? ensures HasSpawner(t, c) {
      if c < |d.conns| {
        var k: nat :| k < |d.callers| && d.callers[k] == Spawning(c);
        assert t.callers[k] == Spawning(c);
      } else {
        assert t.callers[|d.callers|] == Spawning(c);
      }
    }
  }

  lemma ReplyStep(d: Daemon, step: Step)
    requires ReplyInv(d) && Enabled(d, step)
    ensures ReplyInv(Next(d, step))
  {
  }

  ghost predicate Inv(d: Daemon) {
    SlotInv(d) && SpawnersPending(d) && PendingSpawned(d) && ReplyInv(d)
  }

  lemma {:induction false} RunInv(d: Daemon, steps: seq<Step>)
    requires Inv(d) && PossibleRun(d, steps)
    ensures Inv(Run(d, steps))
    decreases |steps|
  {
    if steps != [] {
      SlotStep(d, steps[0]);
      SpawnersStep(d, steps[0]);
      PendingStep(d, steps[0]);
      ReplyStep(d, steps[0]);
      RunInv(Next(d, steps[0]), steps[1..]);
    }
  }

  // ------------------------------------------------------------------- results

  /** In every interleaving at most one connection has a task that is pending, live or
      unfinished, and the slot is occupied exactly by that one. */
  lemma SingleConnection(steps: seq<Step>, b: nat, c: nat)
    requires PossibleRun(INITIAL, steps)
    ensures var d := Run(INITIAL, steps);
            && (b < |d.conns| && c < |d.conns| && !d.conns[b].task.Gone? && !d.conns[c].task.Gone? ==> b == c)
            && (c < |d.conns| ==> (d.slot == Some(c) <==> !d.conns[c].task.Gone?))
            && (d.slot.Some? ==> d.slot.value < |d.conns|)
  {
    RunInv(INITIAL, steps);
  }

  /** A finishing task empties the slot of nothing but its own entry. */
  lemma ClearsOwnEntry(steps: seq<Step>, c: nat)
    requires PossibleRun(INITIAL, steps) && Enabled(Run(INITIAL, steps), TaskClears(c))
    ensures Run(INITIAL, steps).slot == Some(c)
  {
    RunInv(INITIAL, steps);
  }

  /** `start_connection` returns Ok only for a connection that was Connected at some
      moment: the one it spawned or joined. */
  lemma OkMeansConnected(steps: seq<Step>, k: nat)
    requires PossibleRun(INITIAL, steps)
    requires var d := Run(INITIAL, steps); k < |d.callers| && d.callers[k].Replied? && d.callers[k].reply.Up?
    ensures var d := Run(INITIAL, steps);
            && d.callers[k].about.Some? && d.callers[k].about.value < |d.conns|
            && Connected in d.conns[d.callers[k].about.value].published
  {
    RunInv(INITIAL, steps);
  }

  /** A shutdown returns only at a moment when no connection has a task left. */
  lemma ShutdownWaits(steps: seq<Step>, k: nat)
    requires PossibleRun(INITIAL, steps) && Enabled(Run(INITIAL, steps), PollShutdown(k))
    ensures var d := Run(INITIAL, steps);
            Next(d, PollShutdown(k)).shutdowns[k].Finished?
            <==> forall c :: 0 <= c < |d.conns| ==> d.conns[c].task.Gone?
  {
    RunInv(INITIAL, steps);
    var d := Run(INITIAL, steps);
    if d.slot.Some? {
      assert !d.conns[d.slot.value].task.Gone?;
    }
  }

  /** The slot can always be emptied again: no reachable state is stuck with it. */
  lemma SlotDrains(steps: seq<Step>) returns (more: seq<Step>)
    requires PossibleRun(INITIAL, steps)
    ensures |more| <= 3 && PossibleRun(Run(INITIAL, steps), more) && Run(Run(INITIAL, steps), more).slot == None
  {
    RunInv(INITIAL, steps);
    more := Draining(Run(INITIAL, steps));
  }

  lemma Draining(d: Daemon) returns (more: seq<Step>)
    requires Inv(d)
    ensures |more| <= 3 && PossibleRun(d, more) && Run(d, more).slot == None
  {
    if d.slot.None? {
      return [];
    }
    var c := d.slot.value;
    if d.conns[c].task.Pending? {
      assert HasSpawner(d, c);
      var k: nat :| k < |d.callers| && d.callers[k] == Spawning(c);
      more := DrainThree(d, Spawn(k), Check(c, false), c);
    } else if d.conns[c].task == Live(Checking) {
      more := DrainTwo(d, Check(c, false), c);
    } else if InAttempt(d, c) {
      more := DrainTwo(d, AttemptEnds(c, Retry.Completed), c);
    } else if InPause(d, c) {
      more := DrainThree(d, PauseEnds(c, true), AttemptEnds(c, Retry.Completed), c);
    } else {
      RunCons(d, TaskClears(c), []);
      more := [TaskClears(c)] + [];
    }
  }

  lemma DrainTwo(d: Daemon, a: Step, c: nat) returns (more: seq<Step>)
    requires Enabled(d, a) && Enabled(Next(d, a), TaskClears(c))
    ensures |more| == 2 && PossibleRun(d, more) && Run(d, more).slot == None
  {
    RunTwo(d, a, TaskClears(c));
    more := [a, TaskClears(c)];
  }

  lemma DrainThree(d: Daemon, a: Step, b: Step, c: nat) returns (more: seq<Step>)
    requires Enabled(d, a) && Enabled(Next(d, a), b) && Enabled(Next(Next(d, a), b), TaskClears(c))
    ensures |more| == 3 && PossibleRun(d, more) && Run(d, more).slot == None
  {
    var rest := DrainTwo(Next(d, a), b, c);
    RunCons(d, a, rest);
    more := [a] + rest;
  }

  lemma RunCons(d: Daemon, a: Step, rest: seq<Step>)
    requires Enabled(d, a) && PossibleRun(Next(d, a), rest)
    ensures PossibleRun(d, [a] + rest) && Run(d, [a] + rest) == Run(Next(d, a), rest)
  {
    assert ([a] + rest)[1..] == rest;
  }

  lemma RunTwo(d: Daemon, a: Step, b: Step)
    requires Enabled(d, a) && Enabled(Next(d, a), b)
    ensures PossibleRun(d, [a, b]) && Run(d, [a, b]) == Next(Next(d, a), b)
  {
    RunCons(Next(d, a), b, []);
    RunCons(d, a, [b] + []);
    assert [a] + ([b] + []) == [a, b];
  }

  // ---------------------------------------------------------------- up and down

  /** What `up` does in every reachable state: joins the connection of the same profile,
      is refused beside another one, and otherwise starts one if the profile has a server.
      Nothing else changes. */
  lemma UpExactly(steps: seq<Step>, profile: string, hasServer: bool)
    requires PossibleRun(INITIAL, steps)
    ensures var d := Run(INITIAL, steps);
            var t := Next(d, CallUp(profile, hasServer));
            && |t.callers| == |d.callers| + 1 && t.callers[..|d.callers|] == d.callers && t.shutdowns == d.shutdowns
            && match d.slot
               case Some(c) =>
                 && c < |d.conns| && t.slot == d.slot && t.conns == d.conns
                 && t.callers[|d.callers|]
                    == if d.conns[c].profile == profile then Waiting(c) else Replied(None, AlreadyConnected)
               case None =>
                 if hasServer then
                   && t.slot == Some(|d.conns|) && |t.conns| == |d.conns| + 1 && t.conns[..|d.conns|] == d.conns
                   && t.conns[|d.conns|] == Conn(profile, Pending, false, [Idle])
                   && t.callers[|d.callers|] == Spawning(|d.conns|)
                 else t.slot == None && t.conns == d.conns && t.callers[|d.callers|] == Replied(None, NoServer)
  {
    RunInv(INITIAL, steps);
  }

  /** What a waiting caller is told: Up while the connection is Connected, an error of
      openvpn while it is Exited or Failed, and otherwise nothing until the task has
      returned. */
  lemma ToldExactly(d: Daemon, k: nat)
    requires Enabled(d, Observe(k))
    ensures var conn, told := d.conns[d.callers[k].conn], Next(d, Observe(k)).callers[k];
            var last := if conn.published == [] then Idle else conn.published[|conn.published| - 1];
            && (told == Replied(Some(d.callers[k].conn), Up) <==> last == Connected)
            && (told == Replied(Some(d.callers[k].conn), OpenVpnError) <==> last in {Exited, Failed})
            && (told == Replied(Some(d.callers[k].conn), ChannelClosed)
                <==> last in {Idle, Underway} && (conn.task.Done? || conn.task.Gone?))
            && (told == d.callers[k] <==> last in {Idle, Underway} && !conn.task.Done? && !conn.task.Gone?)
            && Next(d, Observe(k)).(callers := d.callers) == d
  {
  }

  /** A `down` or a shutdown cancels the connection in the slot and changes nothing else
      of any connection, of the slot or of the callers. */
  lemma DownCancels(steps: seq<Step>, down: Step)
    requires PossibleRun(INITIAL, steps) && (down.CallDown? || down.CallShutdown?)
    ensures var d := Run(INITIAL, steps);
            var t := Next(d, down);
            && t.slot == d.slot && t.callers == d.callers && |t.conns| == |d.conns|
            && t.shutdowns == d.shutdowns + (if down.CallShutdown? then [Polling] else [])
            && forall c: nat :: c < |d.conns| ==>
                 if d.slot == Some(c)
                 then t.conns[c].cancelled && t.conns[c].(cancelled := d.conns[c].cancelled) == d.conns[c]
                 else t.conns[c] == d.conns[c]
  {
    RunInv(INITIAL, steps);
  }

  /** Steps that begin an attempt of connection `c`: the first, or one after a pause. */
  function Begun(steps: seq<Step>, c: nat): nat {
    if steps == [] then 0
    else (if steps[0] == Check(c, true) || steps[0] == PauseEnds(c, true) then 1 else 0) + Begun(steps[1..], c)
  }

  /** Attempts a cancelled connection may still begin: the first, or the one its pause
      was already leading to. */
  function Allowance(d: Daemon, c: nat): nat
    requires c < |d.conns|
  {
    match d.conns[c].task
    case Pending => 1
    case Live(Checking) => 1
    case Live(Pausing(_)) => 1
    case _ => 0
  }

  /** A cancelled connection stays cancelled, and never goes from an attempt into a pause. */
  lemma CancelledStep(d: Daemon, step: Step, c: nat)
    requires SlotInv(d) && SpawnersPending(d) && Enabled(d, step) && c < |d.conns| && d.conns[c].cancelled
    ensures var t := Next(d, step);
            && c < |t.conns| && t.conns[c].cancelled
            && (InAttempt(d, c) ==> !InPause(t, c))
            && (if step == Check(c, true) || step == PauseEnds(c, true) then 1 else 0) + Allowance(t, c)
               <= Allowance(d, c)
  {
  }

  /** Once cancelled, a connection begins at most one more attempt, and none at all out
      of an attempt that was running: that one only out of a pause or before its first. */
  lemma {:induction false} CancelledEnds(d: Daemon, steps: seq<Step>, c: nat)
    requires Inv(d) && PossibleRun(d, steps) && c < |d.conns| && d.conns[c].cancelled
    ensures c < |Run(d, steps).conns| && Run(d, steps).conns[c].cancelled
    ensures Begun(steps, c) + Allowance(Run(d, steps), c) <= Allowance(d, c)
    decreases |steps|
  {
    if steps != [] {
      CancelledStep(d, steps[0], c);
      RunInv(d, [steps[0]] + []);
      RunCons(d, steps[0], []);
      CancelledEnds(Next(d, steps[0]), steps[1..], c);
    }
  }

  /** So after a `down` the connection that was up begins at most one more attempt,
      whatever follows, and none when it was in the middle of one. */
  lemma DownStops(steps: seq<Step>, more: seq<Step>, c: nat)
    requires PossibleRun(INITIAL, steps) && Run(INITIAL, steps).slot == Some(c)
    requires PossibleRun(Next(Run(INITIAL, steps), CallDown), more)
    ensures Begun(more, c) <= 1 && (InAttempt(Run(INITIAL, steps), c) ==> Begun(more, c) == 0)
  {
    var d := Run(INITIAL, steps);
    RunInv(INITIAL, steps);
    DownCancels(steps, CallDown);
    RunCons(d, CallDown, []);
    RunInv(d, [CallDown] + []);
    CancelledEnds(Next(d, CallDown), more, c);
  }

  // ------------------------------------------------------- counting attempts

  /** After an attempt the task pauses exactly when the attempt failed for now, nobody has
      cancelled and a delay is left; otherwise it has returned. Either way the connection
      keeps the slot, and a return that was not cancelled counts as cancelled from then on. */
  lemma AttemptEndsExactly(d: Daemon, c: nat, outcome: Retry.Outcome)
    requires InAttempt(d, c)
    ensures var conn, n, t := d.conns[c], d.conns[c].task.phase.n, Next(d, AttemptEnds(c, outcome));
            && t.slot == d.slot && t.callers == d.callers && t.conns[c].published == conn.published
            && (t.conns[c].task == Live(Pausing(n)) <==> outcome == Retry.Transient && !conn.cancelled && n < 8)
            && (t.conns[c].task != Live(Pausing(n)) ==> t.conns[c].task == Done && t.conns[c].cancelled)
            && (t.conns[c].task == Live(Pausing(n)) ==> !t.conns[c].cancelled)
  {
  }

  /** The task of `c` has returned. */
  predicate Over(d: Daemon, c: nat) {
    c < |d.conns| && (d.conns[c].task.Done? || d.conns[c].task.Gone?)
  }

  /** Attempts of `c` so far, by the number its task carries. */
  function Numbered(d: Daemon, c: nat): nat {
    if InAttempt(d, c) || InPause(d, c) then d.conns[c].task.phase.n + 1 else 0
  }

  /** Attempts of `c` still to come at most. */
  function Left(d: Daemon, c: nat): int {
    if Over(d, c) then 0 else 9 - Numbered(d, c)
  }

  lemma StepNumbers(d: Daemon, step: Step, c: nat)
    requires SlotInv(d) && SpawnersPending(d) && Scheduled(d) && Enabled(d, step)
    ensures var begins := if step == Check(c, true) || step == PauseEnds(c, true) then 1 else 0;
            && (Over(d, c) ==> Over(Next(d, step), c))
            && (Over(Next(d, step), c) || Numbered(Next(d, step), c) == Numbered(d, c) + begins)
            && begins + Left(Next(d, step), c) <= Left(d, c)
  {
  }

  lemma {:induction false} RunNumbers(d: Daemon, steps: seq<Step>, c: nat)
    requires Inv(d) && Scheduled(d) && PossibleRun(d, steps)
    ensures Over(d, c) ==> Over(Run(d, steps), c)
    ensures Over(Run(d, steps), c) || Numbered(Run(d, steps), c) == Numbered(d, c) + Begun(steps, c)
    ensures Begun(steps, c) + Left(Run(d, steps), c) <= Left(d, c) && Left(Run(d, steps), c) >= 0
    decreases |steps|
  {
    if steps != [] {
      StepNumbers(d, steps[0], c);
      RunInv(d, [steps[0]] + []);
      RunCons(d, steps[0], []);
      RunScheduled(d, [steps[0]] + []);
      RunNumbers(Next(d, steps[0]), steps[1..], c);
    }
  }

  /** In every run a connection begins at most nine attempts, and the number its task
      carries is the count of those begun. */
  lemma AttemptsCounted(steps: seq<Step>, c: nat)
    requires PossibleRun(INITIAL, steps)
    ensures Begun(steps, c) <= 9
    ensures var d := Run(INITIAL, steps);
            InAttempt(d, c) || InPause(d, c) ==> d.conns[c].task.phase.n + 1 == Begun(steps, c)
  {
    RunNumbers(INITIAL, steps, c);
  }

  // ------------------------------------------------------------- early errors

  /** Polling now tells caller `k` that its connection failed. */
  predicate RepliesError(d: Daemon, k: nat)
    requires Enabled(d, Observe(k))
  {
    var caller := Next(d, Observe(k)).callers[k];
    caller.Replied? && !caller.reply.Up?
  }

  /** A waiting caller is told of an error while its connection still holds the slot
      exactly when the task has not cleared it and the last status published is Exited
      or Failed, or the task has returned without publishing a final one. */
  lemma EarlyErrorExactly(steps: seq<Step>, k: nat)
    requires PossibleRun(INITIAL, steps) && Enabled(Run(INITIAL, steps), Observe(k))
    ensures var d := Run(INITIAL, steps);
            var c := d.callers[k].conn;
            RepliesError(d, k) && d.slot == Some(c)
            <==> && !d.conns[c].task.Gone?
                 && (|| Current(d.conns[c]) in {Exited, Failed}
                     || (d.conns[c].task.Done? && !IsTerminal(Current(d.conns[c]))))
  {
    RunInv(INITIAL, steps);
  }

  /** What causes it while the connection will still be tried: right after an attempt
      ends, a waiting caller is told of an error although the task goes on exactly when
      the retry loop pauses for another attempt (a transient outcome, no cancellation,
      a delay left) and the attempt had published Exited or Failed. */
  lemma EarlyErrorCause(steps: seq<Step>, k: nat, outcome: Retry.Outcome)
    requires PossibleRun(INITIAL, steps) && Enabled(Run(INITIAL, steps), Observe(k))
    requires var d := Run(INITIAL, steps); InAttempt(d, d.callers[k].conn)
    ensures var d := Run(INITIAL, steps);
            var c := d.callers[k].conn;
            var conn, n := d.conns[c], d.conns[c].task.phase.n;
            var ended := Next(d, AttemptEnds(c, outcome));
            RepliesError(ended, k) && ended.conns[c].task.Live?
            <==> && Retry.Pauses(Retry.Turn(outcome, conn.cancelled, None, false), n, conn.cancelled)
                 && Current(conn) in {Exited, Failed}
  {
  }

  /** Attempts are counted as the retry loop counts them: none is later than the
      schedule allows. */
  ghost predicate Scheduled(d: Daemon) {
    forall c :: 0 <= c < |d.conns| && d.conns[c].task.Live? ==>
      match d.conns[c].task.phase
      case Checking => true
      case Attempting(n) => n <= Retry.MAX_RETRIES
      case Pausing(n) => n < Retry.MAX_RETRIES
  }

  lemma {:induction false} RunScheduled(d: Daemon, steps: seq<Step>)
    requires Scheduled(d) && PossibleRun(d, steps)
    ensures Scheduled(Run(d, steps))
    decreases |steps|
  {
    if steps != [] {
      assert Scheduled(Next(d, steps[0]));
      RunScheduled(Next(d, steps[0]), steps[1..]);
    }
  }

  /** So the cause above occurs: the first attempt exits, the caller is told of an
      error, and the task is in the pause before the second. */
  lemma ErrorMayComeEarly()
    ensures exists steps ::
              && PossibleRun(INITIAL, steps)
              && var d := Run(INITIAL, steps);
                 d.callers == [Replied(Some(0), OpenVpnError)] && d.slot == Some(0) && |d.conns| == 1
                 && d.conns[0].task == Live(Pausing(0))
  {
    var start := [CallUp("work", true), Spawn(0), Check(0, true), Publish(0, Exited)];
    FirstAttemptExits();
    var d := Run(INITIAL, start);
    RunTwo(d, AttemptEnds(0, Retry.Transient), Observe(0));
    assert Next(d, AttemptEnds(0, Retry.Transient)) == OneConn(Live(Pausing(0)), d.conns[0].published, Waiting(0));
    RunAppend(INITIAL, start, [AttemptEnds(0, Retry.Transient), Observe(0)]);
    assert PossibleRun(INITIAL, start + [AttemptEnds(0, Retry.Transient), Observe(0)]);
  }

  lemma FirstAttemptExits()
    ensures var steps := [CallUp("work", true), Spawn(0), Check(0, true), Publish(0, Exited)];
            && PossibleRun(INITIAL, steps)
            && Run(INITIAL, steps) == OneConn(Live(Attempting(0)), [Idle] + [Underway] + [Exited], Waiting(0))
  {
    var a, b := [CallUp("work", true), Spawn(0)], [Check(0, true), Publish(0, Exited)];
    RunTwo(INITIAL, a[0], a[1]);
    var d := Run(INITIAL, a);
    assert d == OneConn(Live(Checking), [Idle], Waiting(0));
    RunTwo(d, b[0], b[1]);
    assert Next(d, b[0]) == OneConn(Live(Attempting(0)), [Idle] + [Underway], Waiting(0));
    RunAppend(INITIAL, a, b);
    assert a + b == [a[0], a[1], b[0], b[1]];
  }

  /** A daemon with one connection, in the slot, and one caller. */
  function OneConn(task: Task, published: seq<Status>, caller: Caller): Daemon {
    Daemon(Some(0), [Conn("work", task, false, published)], [caller], [])
  }

  lemma {:induction false} RunAppend(d: Daemon, a: seq<Step>, b: seq<Step>)
    requires PossibleRun(d, a) && PossibleRun(Run(d, a), b)
    ensures PossibleRun(d, a + b) && Run(d, a + b) == Run(Run(d, a), b)
    decreases |a|
  {
    if a == [] {
      assert a + b == b;
    } else {
      RunAppend(Next(d, a[0]), a[1..], b);
      assert (a + b)[1..] == a[1..] + b;
    }
  }
}
