/** How shutdown ends (agent/serverapi/tool_worker.go:88-177, 239-324). Once `Run` is cancelled, no schedule
    can keep the worker busy while the clock stands still, and a worker that can do nothing more, with all
    deadlines past, has returned. */
module Termination {
  import opened Delivery
  import opened Calls
  import opened ClaimLoop
  import opened Lease
  import opened Maintenance
  import opened Worker
  import opened Slots
  import opened System
  import opened Progress

  // ---- the work left at one instant --------------------------------------------

  /** A pause that is over leads back to sending. */
  function DeliveryWork(d: Delivery, now: int): nat {
    match d.phase
    case Finished => 0
    case Sleeping(until) => if now < until then 1 else 5
    case Deciding => 2
    case InFlight(_) => 3
    case Ready => 4
  }

  function SupervisorWork(s: Supervisor, now: int): nat {
    match s
    case Abandoned => 0
    case Delivering(d) => DeliveryWork(d, now)
    case Completed(_) => 6
    case FinalWait => 7
    case CheckDeadline => 8
    case Recheck => 9
    case Wait => 10
    case Poll => 11
  }

  function ExecutorWork(e: Executor): nat {
    match e
    case Exited => 0
    case Releasing => 1
    case Sending(_) => 2
    case Running => 3
  }

  function CallWork(call: Call, now: int): nat {
    SupervisorWork(call.supervisor, now) + ExecutorWork(call.executor)
  }

  const NEW_CALL := 14

  function BeatWork(beat: Beat, now: int): nat {
    match beat
    case Stopped => 0
    case Armed(due) => if now < due then 1 else 9
    case Rearming(_) => 2
    case Unlocking(_) => 3
    case WritingExpiry(_, _) => 4
    case WritingToken(_, _) => 5
    case Extending(_, _) => 5
    case Renewing(_, _) => 6
    case Registering(_) => 7
    case Heartbeating(_, _) => 7
    case Fired(_) => 8
  }

  /** A claim in flight may still start a call. */
  function LoopWork(pc: Pc, now: int): nat {
    match pc
    case Done => 0
    case AwaitingBeat => 1
    case Joining => 2
    case Cancelling => 3
    case Head => 4
    case Checking => 4
    case Failing(_) => 4
    case Acquiring => 5
    case Pausing(_) => 5
    case Dropping => 5
    case Idling => 6
    case Rejecting(_, d) => 6 + DeliveryWork(d, now)
    case Declining(_, _, _) => 12
    case Awaiting => 5 + NEW_CALL
    case Requesting(_) => 6 + NEW_CALL
    case Reading => 7 + NEW_CALL
  }

  function CallsWork(calls: seq<Call>, now: int): nat {
    if calls == [] then 0 else CallsWork(calls[..|calls| - 1], now) + CallWork(calls[|calls| - 1], now)
  }

  function Work(w: World): nat {
    BeatWork(w.lease.beat, w.now) + CallsWork(w.calls, w.now) + LoopWork(w.loop.pc, w.now)
  }

  // ---- every move of the worker uses some of it up -----------------------------

  lemma DeliveryWorks(d: Delivery, now: int, cancelled: bool, poll: int, step: DeliveryStep)
    requires StepEnabled(d, now, cancelled, step) && poll > 0
    ensures DeliveryWork(Advance(d, now, cancelled, poll, step), now) < DeliveryWork(d, now)
  {
  }

  lemma CallWorks(call: Call, now: int, cancelled: bool, poll: int, step: CallStep)
    requires CallEnabled(call, now, cancelled, step) && poll > 0
    ensures CallWork(CallNext(call, now, cancelled, poll, step), now) < CallWork(call, now)
  {
    if step.Deliver? {
      DeliveryWorks(call.supervisor.delivery, now, cancelled, poll, step.step);
    }
  }

  lemma BeatWorks(interval: int, skew: int, l: Lease, now: int, cancelled: bool, step: BeatStep)
    requires BeatEnabled(l, now, cancelled, step) && interval > 0
    ensures BeatWork(BeatNext(interval, skew, l, now, cancelled, step).beat, now) < BeatWork(l.beat, now)
  {
    if step.Rearm? {
      DelayIsTimely(now, l.registration.expiresAt, interval, skew);
    }
  }

  lemma LoopWorks(nonce: string, poll: int, l: Loop, now: int, cancelled: bool, step: LoopStep)
    requires LoopEnabled(l, now, cancelled, step) && cancelled && poll > 0
    ensures LoopWork(LoopNext(nonce, poll, l, now, cancelled, step).pc, now)
            + (if Dispatches(l, now, step) then NEW_CALL else 0) < LoopWork(l.pc, now)
  {
    if step.Reject? {
      DeliveryWorks(l.pc.delivery, now, cancelled, poll, step.step);
    }
  }

  lemma {:induction false} CallsWorkUpdate(calls: seq<Call>, i: nat, call: Call, now: int)
    requires i < |calls|
    ensures CallsWork(calls[i := call], now) + CallWork(calls[i], now) == CallsWork(calls, now) + CallWork(call, now)
  {
    var n := |calls| - 1;
    if i == n {
      assert calls[i := call][..n] == calls[..n];
    } else {
      assert calls[i := call][..n] == calls[..n][i := call];
      CallsWorkUpdate(calls[..n], i, call, now);
    }
  }

  lemma StartedWork(c: Config, w: World, step: LoopStep)
    ensures CallsWork(w.calls + Started(c, w, step), w.now)
            <= CallsWork(w.calls, w.now) + (if Dispatches(w.loop, w.now, step) then NEW_CALL else 0)
  {
    var started := Started(c, w, step);
    if started == [] {
      assert w.calls + started == w.calls;
    } else {
      assert (w.calls + started)[..|w.calls|] == w.calls;
    }
  }

  /** A step of the loop, the heartbeat, a supervisor or an executor. */
  predicate WorkerStep(s: Step) {
    s.LoopMoves? || s.BeatMoves? || s.CallMoves?
  }

  lemma StepWorks(c: Config, w: World, s: Step)
    requires Usable(c) && w.cancelled && Enabled(c, w, s) && !s.Tick?
    ensures Next(c, w, s).cancelled && Next(c, w, s).now == w.now
    ensures Work(Next(c, w, s)) + (if WorkerStep(s) then 1 else 0) <= Work(w)
  {
    match s
    case LoopMoves(step) =>
      LoopWorks(c.nonce, c.poll, w.loop, w.now, w.cancelled, step);
      StartedWork(c, w, step);
    case BeatMoves(step) => BeatWorks(c.interval, c.skew, w.lease, w.now, w.cancelled, step);
    case CallMoves(n, step) =>
      CallWorks(w.calls[n], w.now, w.cancelled, c.poll, step);
      CallsWorkUpdate(w.calls, n, CallNext(w.calls[n], w.now, w.cancelled, c.poll, step), w.now);
    case _ =>
  }

  function Moves(steps: seq<Step>): nat {
    if steps == [] then 0 else (if WorkerStep(steps[0]) then 1 else 0) + Moves(steps[1..])
  }

  /** Between two ticks of the clock a cancelled worker makes a bounded number of moves, whatever the
      scheduler, the selects, the servers and the handlers do: it cannot spin. */
  lemma {:induction false} MovesAreBounded(c: Config, w: World, steps: seq<Step>)
    requires Usable(c) && w.cancelled && Runs(c, w, steps) && forall s | s in steps :: !s.Tick?
    ensures Work(After(c, w, steps)) + Moves(steps) <= Work(w)
    decreases |steps|
  {
    if steps != [] {
      StepWorks(c, w, steps[0]);
      MovesAreBounded(c, Next(c, w, steps[0]), steps[1..]);
    }
  }

  // ---- a worker that cannot move -----------------------------------------------

  /** No process can take a step, unless a handler returns. */
  ghost predicate Stuck(c: Config, w: World) {
    forall s :: WorkerStep(s) && !HandlerStep(s) ==> !Enabled(c, w, s)
  }

  /** Past its claim's deadline a supervisor always has a next step of its own. */
  lemma SupervisorMoves(call: Call, now: int, poll: int) returns (step: CallStep)
    requires CallInv(call, now, poll) && !SupervisorEnded(call) && now >= call.expiresAt
    ensures CallEnabled(call, now, true, step)
    ensures !step.HandlerReturns? && !step.BufferResult? && !step.ReleaseSlot?
  {
    step := CallHelp(call);
    if call.supervisor.Delivering? && call.supervisor.delivery.phase.Sleeping? {
      step := Deliver(Wake(false));
    }
  }

  /** Once cancelled, a worker that cannot move and has no reply to come has returned, or waits for the
      deadline of a claim. */
  lemma StuckIsReturnedOrWaiting(c: Config, w: World)
    requires Reachable(c, w) && w.cancelled && Stuck(c, w)
    ensures w.loop.pc.Done? || exists n :: 0 <= n < |w.calls| && !SupervisorEnded(w.calls[n]) && w.now < w.calls[n].expiresAt
  {
    ReachableInv(c, w);
    if !w.lease.beat.Stopped? {
      BeatCanMove(c, w);
    } else if !AllEnded(w.calls) {
      var n :| 0 <= n < |w.calls| && !SupervisorEnded(w.calls[n]);
      if w.now >= w.calls[n].expiresAt {
        CallCanMove(c, w, n);
      }
    } else if !w.loop.pc.Done? {
      LoopCanMove(c, w);
    }
  }

  lemma BeatCanMove(c: Config, w: World)
    requires Inv(c, w) && w.cancelled && !w.lease.beat.Stopped?
    ensures !Stuck(c, w)
  {
    BeatHelps(c.interval, c.skew, w.lease, w.now, w.cancelled);
    assert Enabled(c, w, BeatMoves(BeatHelp(w.lease.beat)));
  }

  lemma CallCanMove(c: Config, w: World, n: nat)
    requires Inv(c, w) && w.cancelled && n < |w.calls|
    requires !SupervisorEnded(w.calls[n]) && w.now >= w.calls[n].expiresAt
    ensures !Stuck(c, w)
  {
    assert CallInv(w.calls[n], w.now, c.poll);
    var step := SupervisorMoves(w.calls[n], w.now, c.poll);
    assert Enabled(c, w, CallMoves(n, step));
  }

  lemma LoopCanMove(c: Config, w: World)
    requires Inv(c, w) && w.cancelled && w.lease.beat.Stopped? && AllEnded(w.calls) && !w.loop.pc.Done?
    ensures !Stuck(c, w)
  {
    var token := w.lease.registration.token;
    LoopHelps(c.nonce, c.poll, w.loop, w.now, w.cancelled, token);
    ReleasesNeverBlock(c, w, 0);
    assert Enabled(c, w, LoopMoves(LoopHelp(w.loop.pc, token)));
  }
}
