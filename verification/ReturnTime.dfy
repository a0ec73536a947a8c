/** When `Run` returns after cancellation (agent/serverapi/tool_worker.go:152-177, 309-314, README.md:193), if the
    clock is the only thing that takes its time: a process that can move does so before time passes, timers are
    on time, and a request is answered by the end of its context. Handlers may still take as long as they like. */
module ReturnTime {
  import opened Delivery
  import opened Calls
  import opened ClaimLoop
  import opened Lease
  import opened Worker
  import opened Slots
  import opened System
  import opened Progress
  import opened Termination

  // ---- prompt runs --------------------------------------------------------------

  /** The step is the arrival of a reply. */
  predicate ReplyStep(s: Step) {
    match s
    case LoopMoves(step) => step.Answer? || step.Error? || (step.Reject? && step.step.Reply?)
    case BeatMoves(step) => step.RegisterAnswer? || step.HeartbeatAnswer?
    case CallMoves(_, step) => step.Deliver? && step.step.Reply?
    case _ => false
  }

  /** A step that a goroutine of the worker takes by itself. */
  predicate OwnStep(s: Step) {
    WorkerStep(s) && !HandlerStep(s) && !ReplyStep(s)
  }

  predicate AwaitsReply(call: Call) {
    call.supervisor.Delivering? && call.supervisor.delivery.phase.InFlight?
  }

  /** No reply is overdue. Requests of the loop and of maintenance run on the run's context, those of a call on
      a context with a deadline. */
  predicate RepliesInTime(w: World, to: int) {
    && (w.cancelled ==> !w.loop.pc.Awaiting? && !w.lease.beat.Registering? && !w.lease.beat.Heartbeating?)
    && (w.loop.pc.Rejecting? && w.loop.pc.delivery.phase.InFlight? ==>
          !w.cancelled && to <= w.loop.pc.delivery.ctxEnd)
    && (forall i | 0 <= i < |w.calls| && AwaitsReply(w.calls[i]) ::
          to <= w.calls[i].supervisor.delivery.ctxEnd)
  }

  /** The instant a waiting supervisor's timer or context wakes it. */
  predicate NotOverslept(call: Call, to: int) {
    match call.supervisor
    case Wait => to <= call.expiresAt
    case FinalWait => to <= call.expiresAt
    case Delivering(d) => d.phase.Sleeping? ==> to <= d.phase.until && to <= d.ctxEnd
    case _ => true
  }

  /** Time passes only when nobody can move, and not past an instant somebody waits for. */
  ghost predicate PromptTick(c: Config, w: World, to: int) {
    && (forall s :: OwnStep(s) ==> !Enabled(c, w, s))
    && RepliesInTime(w, to)
    && (forall i | 0 <= i < |w.calls| :: NotOverslept(w.calls[i], to))
  }

  ghost predicate RunsPromptly(c: Config, w: World, steps: seq<Step>)
    requires Runs(c, w, steps)
    decreases |steps|
  {
    steps == []
    || ((steps[0].Tick? && w.now < steps[0].to ==> PromptTick(c, w, steps[0].to))
        && RunsPromptly(c, Next(c, w, steps[0]), steps[1..]))
  }

  // ---- each supervisor is on time -----------------------------------------------

  function Later(a: int, b: int): int {
    if a < b then b else a
  }

  /** From cancellation at `from` on, a supervisor has left its waits by then or by its claim's deadline, and
      what it submits then has at most the outcome timeout. */
  predicate OnTime(call: Call, now: int, from: int) {
    var last := Later(from, call.expiresAt);
    match call.supervisor
    case Abandoned => true
    case Delivering(d) => d.ctxEnd <= last + OUTCOME_TIMEOUT && (!d.phase.Finished? ==> now <= last + OUTCOME_TIMEOUT)
    case _ => now <= last
  }

  predicate AllOnTime(w: World, from: int) {
    forall i | 0 <= i < |w.calls| :: OnTime(w.calls[i], w.now, from)
  }

  lemma OnTimeAtFirst(c: Config, w: World)
    requires Inv(c, w)
    ensures AllOnTime(w, w.now)
  {
    forall i | 0 <= i < |w.calls| ensures OnTime(w.calls[i], w.now, w.now) {
      assert CallInv(w.calls[i], w.now, c.poll);
    }
  }

  lemma CallStaysOnTime(call: Call, now: int, cancelled: bool, poll: int, step: CallStep, from: int)
    requires OnTime(call, now, from) && CallEnabled(call, now, cancelled, step)
    ensures OnTime(CallNext(call, now, cancelled, poll, step), now, from)
  {
  }

  /** Waiting for an instant or for a reply. */
  predicate Waiting(call: Call) {
    || call.supervisor.FinalWait?
    || (call.supervisor.Delivering?
        && (call.supervisor.delivery.phase.Sleeping? || call.supervisor.delivery.phase.InFlight?))
  }

  /** A supervisor at work that is not waiting has a step of its own. */
  lemma OwnHelp(call: Call, now: int)
    requires !SupervisorEnded(call) && !Waiting(call)
    ensures var help := CallHelp(call);
      && CallEnabled(call, now, true, help)
      && !help.HandlerReturns? && !help.BufferResult? && !help.ReleaseSlot?
      && (help.Deliver? ==> !help.step.Reply?)
  {
  }

  lemma CallStepIsEnabled(c: Config, w: World, n: nat, step: CallStep)
    requires n < |w.calls| && CallEnabled(w.calls[n], w.now, w.cancelled, step)
    requires !step.HandlerReturns? && !step.BufferResult? && !step.ReleaseSlot?
    ensures Enabled(c, w, CallMoves(n, step))
    ensures WorkerStep(CallMoves(n, step)) && !HandlerStep(CallMoves(n, step))
  {
  }

  /** A supervisor at work that cannot move by itself waits. */
  lemma WaitingSupervisor(c: Config, w: World, n: nat, to: int)
    requires w.cancelled && PromptTick(c, w, to) && n < |w.calls| && !SupervisorEnded(w.calls[n])
    ensures Waiting(w.calls[n])
    ensures w.calls[n].supervisor.Delivering? ==> to <= w.calls[n].supervisor.delivery.ctxEnd
  {
    var call := w.calls[n];
    assert NotOverslept(call, to);
    if !Waiting(call) {
      OwnHelp(call, w.now);
      CallStepIsEnabled(c, w, n, CallHelp(call));
      assert OwnStep(CallMoves(n, CallHelp(call)));
    }
  }

  lemma TickStaysOnTime(c: Config, w: World, to: int, from: int)
    requires Inv(c, w) && w.cancelled && AllOnTime(w, from) && PromptTick(c, w, to)
    ensures AllOnTime(w.(now := to), from)
  {
    forall i | 0 <= i < |w.calls| ensures OnTime(w.calls[i], to, from) {
      assert OnTime(w.calls[i], w.now, from) && NotOverslept(w.calls[i], to);
      if !SupervisorEnded(w.calls[i]) {
        WaitingSupervisor(c, w, i, to);
      }
    }
  }

  lemma StepStaysOnTime(c: Config, w: World, step: Step, from: int)
    requires Inv(c, w) && w.cancelled && AllOnTime(w, from) && Enabled(c, w, step)
    requires step.Tick? && w.now < step.to ==> PromptTick(c, w, step.to)
    requires from <= w.now
    ensures AllOnTime(Next(c, w, step), from) && from <= Next(c, w, step).now && Next(c, w, step).cancelled
  {
    match step
    case Tick(to) =>
      if w.now < to {
        TickStaysOnTime(c, w, to, from);
      }
    case CallMoves(n, s) => CallStaysOnTime(w.calls[n], w.now, w.cancelled, c.poll, s, from);
    case LoopMoves(s) => StartsOnTime(c, w, s, from);
    case _ =>
  }

  lemma StartsOnTime(c: Config, w: World, step: LoopStep, from: int)
    requires AllOnTime(w, from) && Enabled(c, w, LoopMoves(step))
    ensures AllOnTime(Next(c, w, LoopMoves(step)), from)
  {
    var started := Started(c, w, step);
    if started != [] {
      assert w.now < started[0].expiresAt;
    }
  }

  // ---- the return ---------------------------------------------------------------

  /** The latest deadline of a claim, and not before `from`. */
  function LastDeadline(calls: seq<Call>, from: int): int {
    if calls == [] then from else Later(LastDeadline(calls[..|calls| - 1], from), calls[|calls| - 1].expiresAt)
  }

  lemma {:induction false} LastDeadlineIsLast(calls: seq<Call>, from: int, n: nat)
    ensures from <= LastDeadline(calls, from)
    ensures n < |calls| ==> calls[n].expiresAt <= LastDeadline(calls, from)
  {
    if calls != [] {
      var rest := calls[..|calls| - 1];
      LastDeadlineIsLast(rest, from, n);
      assert n < |rest| ==> rest[n] == calls[n];
    }
  }

  lemma {:induction false} LastDeadlineGrows(before: seq<Call>, after: seq<Call>, from: int)
    requires |before| <= |after| && forall i | 0 <= i < |before| :: after[i].expiresAt == before[i].expiresAt
    ensures LastDeadline(before, from) <= LastDeadline(after, from)
    decreases |after|
  {
    if |before| < |after| {
      LastDeadlineGrows(before, after[..|after| - 1], from);
    } else if after != [] {
      LastDeadlineGrows(before[..|before| - 1], after[..|after| - 1], from);
    }
  }

  /** Thirty seconds after the cancellation or the last deadline, whichever is later. */
  function ReturnBy(calls: seq<Call>, from: int): int {
    LastDeadline(calls, from) + OUTCOME_TIMEOUT
  }

  lemma BeatHasMoved(c: Config, w: World, to: int)
    requires Coherent(w.lease) && w.cancelled && PromptTick(c, w, to)
    ensures w.lease.beat.Stopped?
  {
    if !w.lease.beat.Stopped? {
      BeatHelps(c.interval, c.skew, w.lease, w.now, w.cancelled);
      var help := BeatMoves(BeatHelp(w.lease.beat));
      assert OwnStep(help) && Enabled(c, w, help);
    }
  }

  lemma LoopHasMoved(c: Config, w: World, to: int)
    requires Inv(c, w) && w.cancelled && PromptTick(c, w, to) && w.lease.beat.Stopped? && AllEnded(w.calls)
    ensures w.loop.pc.Done?
  {
    if !w.loop.pc.Done? {
      var token := w.lease.registration.token;
      var step := LoopHelp(w.loop.pc, token);
      LoopHelps(c.nonce, c.poll, w.loop, w.now, w.cancelled, token);
      ReleasesNeverBlock(c, w, 0);
      OwnLoopHelp(w, token, to);
      assert OwnStep(LoopMoves(step)) && Enabled(c, w, LoopMoves(step));
    }
  }

  lemma OwnLoopHelp(w: World, token: string, to: int)
    requires w.cancelled && RepliesInTime(w, to)
    ensures !ReplyStep(LoopMoves(LoopHelp(w.loop.pc, token)))
  {
  }

  /** Time passes in a worker that has not returned only for the sake of a supervisor still at work. */
  lemma SomebodyWaits(c: Config, w: World, to: int) returns (n: nat)
    requires Inv(c, w) && w.cancelled && PromptTick(c, w, to) && !w.loop.pc.Done?
    ensures n < |w.calls| && !SupervisorEnded(w.calls[n])
  {
    BeatHasMoved(c, w, to);
    if AllEnded(w.calls) {
      LoopHasMoved(c, w, to);
    }
    n :| 0 <= n < |w.calls| && !SupervisorEnded(w.calls[n]);
  }

  /** Returned, or not yet late. */
  predicate NotLate(w: World, from: int) {
    w.loop.pc.Done? || w.now <= ReturnBy(w.calls, from)
  }

  lemma NotLateAfterTick(c: Config, w: World, to: int, from: int)
    requires Inv(c, w) && w.cancelled && AllOnTime(w, from) && PromptTick(c, w, to)
    ensures NotLate(w.(now := to), from)
  {
    if !w.loop.pc.Done? {
      TickStaysOnTime(c, w, to, from);
      var n := SomebodyWaits(c, w, to);
      assert OnTime(w.calls[n], to, from);
      LastDeadlineIsLast(w.calls, from, n);
    }
  }

  lemma DeadlinesStay(c: Config, w: World, step: Step)
    requires Enabled(c, w, step)
    ensures var calls' := Next(c, w, step).calls;
      |w.calls| <= |calls'| && forall i | 0 <= i < |w.calls| :: calls'[i].expiresAt == w.calls[i].expiresAt
  {
  }

  lemma NotLateAfter(c: Config, w: World, step: Step, from: int)
    requires Inv(c, w) && w.cancelled && AllOnTime(w, from) && NotLate(w, from) && Enabled(c, w, step)
    requires step.Tick? && w.now < step.to ==> PromptTick(c, w, step.to)
    ensures NotLate(Next(c, w, step), from)
  {
    if step.Tick? {
      if w.now < step.to {
        NotLateAfterTick(c, w, step.to, from);
      }
    } else if !w.loop.pc.Done? {
      DeadlinesStay(c, w, step);
      LastDeadlineGrows(w.calls, Next(c, w, step).calls, from);
    }
  }

  lemma {:induction false} NeverLate(c: Config, w: World, steps: seq<Step>, from: int)
    requires Inv(c, w) && w.cancelled && AllOnTime(w, from) && from <= w.now && NotLate(w, from)
    requires Runs(c, w, steps) && RunsPromptly(c, w, steps)
    ensures NotLate(After(c, w, steps), from)
    decreases |steps|
  {
    if steps != [] {
      InvStep(c, w, steps[0]);
      StepStaysOnTime(c, w, steps[0], from);
      NotLateAfter(c, w, steps[0], from);
      NeverLate(c, Next(c, w, steps[0]), steps[1..], from);
    }
  }

  /** In every prompt run `Run` returns no later than thirty seconds after the cancellation or the last
      deadline of a claim it has taken, whichever comes later, however long handlers take. */
  lemma RunReturnsInTime(c: Config, w: World, steps: seq<Step>)
    requires Reachable(c, w) && w.cancelled && Runs(c, w, steps) && RunsPromptly(c, w, steps)
    ensures var w' := After(c, w, steps); w'.now > ReturnBy(w'.calls, w.now) ==> w'.loop.pc.Done?
  {
    ReachableInv(c, w);
    OnTimeAtFirst(c, w);
    LastDeadlineIsLast(w.calls, w.now, 0);
    NeverLate(c, w, steps, w.now);
  }

  /** Promptness never stops the clock for good: in a worker that has not returned, a process can move, a
      reply can come, or time can pass. */
  lemma TimeIsNotLocked(c: Config, w: World)
    requires Reachable(c, w) && w.cancelled && !w.loop.pc.Done?
    ensures !Stuck(c, w) || PromptTick(c, w, w.now + 1)
  {
    ReachableInv(c, w);
    if Stuck(c, w) {
      forall i | 0 <= i < |w.calls|
        ensures NotOverslept(w.calls[i], w.now + 1)
        ensures !AwaitsReply(w.calls[i])
      {
        StuckSupervisor(c, w, i);
      }
      StuckBeat(c, w);
      StuckLoop(c, w);
    }
  }

  /** What would move a waiting supervisor, if it could move now. */
  function WakeUpStep(call: Call): CallStep {
    match call.supervisor
    case FinalWait => TimerFires
    case Wait => ObserveDone
    case Delivering(d) =>
      if d.phase.InFlight? then CallHelp(call) else Deliver(Wake(false))
    case _ => TimerFires
  }

  lemma WakesUp(call: Call, now: int)
    requires AwaitsReply(call) || !NotOverslept(call, now + 1)
    ensures CallEnabled(call, now, true, WakeUpStep(call)) || CallEnabled(call, now, true, Deliver(Wake(true)))
  {
  }

  lemma StuckSupervisor(c: Config, w: World, i: nat)
    requires w.cancelled && Stuck(c, w) && i < |w.calls|
    ensures !AwaitsReply(w.calls[i])
    ensures NotOverslept(w.calls[i], w.now + 1)
  {
    var call := w.calls[i];
    if AwaitsReply(call) || !NotOverslept(call, w.now + 1) {
      WakesUp(call, w.now);
      var step := if CallEnabled(call, w.now, true, WakeUpStep(call)) then WakeUpStep(call) else Deliver(Wake(true));
      CallStepIsEnabled(c, w, i, step);
    }
  }

  lemma StuckBeat(c: Config, w: World)
    requires Inv(c, w) && w.cancelled && Stuck(c, w)
    ensures w.lease.beat.Stopped?
  {
    if !w.lease.beat.Stopped? {
      BeatCanMove(c, w);
    }
  }

  /** A reply can always come. */
  lemma StuckLoop(c: Config, w: World)
    requires Inv(c, w) && w.cancelled && Stuck(c, w)
    ensures !w.loop.pc.Awaiting?
    ensures w.loop.pc.Rejecting? ==> !w.loop.pc.delivery.phase.InFlight?
  {
    if w.loop.pc.Awaiting? || (w.loop.pc.Rejecting? && w.loop.pc.delivery.phase.InFlight?) {
      var step := LoopHelp(w.loop.pc, "");
      LoopHelps(c.nonce, c.poll, w.loop, w.now, w.cancelled, "");
      assert Enabled(c, w, LoopMoves(step));
    }
  }
}
