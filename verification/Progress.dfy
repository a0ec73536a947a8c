/** Shutdown cannot get stuck: from every reachable state `Run` can return after cancellation, and
    no handler has to do anything for it (agent/serverapi/tool_worker.go:81-197, README.md:191-193). */
module Progress {
  import opened Prelude
  import opened Errors
  import opened Protocol
  import opened Delivery
  import opened Calls
  import opened ClaimLoop
  import opened Lease
  import opened Worker
  import opened Slots
  import opened Handling
  import opened System

  // ---- one process at a time: a step that helps, and what is left to do ------

  /** Nothing left to wait for but replies. */
  predicate LateDelivery(d: Delivery, now: int, cancelled: bool, poll: int) {
    && (d.phase.Deciding? ==> NoTimeLeft(now, poll, d.deadline) || (d.underRun && cancelled))
    && (d.phase.Sleeping? ==> ContextDone(d, now, cancelled))
  }

  function DeliveryRank(d: Delivery): nat {
    match d.phase
    case Finished => 0
    case InFlight(_) => 1
    case Sleeping(_) => 1
    case Ready => 2
    case Deciding => 2
  }

  function DeliveryHelp(d: Delivery): DeliveryStep {
    match d.phase
    case Ready => DeliveryStep.Send
    case InFlight(_) => DeliveryStep.Reply(Decoded(200, Some(true)))
    case Deciding => DeliveryStep.Decide
    case _ => DeliveryStep.Wake(true)
  }

  lemma DeliveryHelps(d: Delivery, now: int, cancelled: bool, poll: int)
    requires LateDelivery(d, now, cancelled, poll) && !d.phase.Finished?
    ensures StepEnabled(d, now, cancelled, DeliveryHelp(d))
    ensures var d' := Advance(d, now, cancelled, poll, DeliveryHelp(d));
      LateDelivery(d', now, cancelled, poll) && DeliveryRank(d') < DeliveryRank(d)
  {
  }

  predicate LateCall(call: Call, now: int, cancelled: bool, poll: int) {
    && cancelled && now >= call.expiresAt
    && (call.supervisor.Delivering? ==> LateDelivery(call.supervisor.delivery, now, cancelled, poll))
  }

  function CallRank(call: Call): nat {
    match call.supervisor
    case Poll => 6
    case Wait => 5
    case Recheck => 4
    case Completed(_) => 3
    case Delivering(d) => DeliveryRank(d)
    case CheckDeadline => 1
    case FinalWait => 1
    case Abandoned => 0
  }

  function CallHelp(call: Call): CallStep {
    match call.supervisor
    case Poll => PollChannel
    case Wait => ObserveDone
    case Recheck => RecheckChannel
    case CheckDeadline => JudgeDeadline
    case FinalWait => TimerFires
    case Completed(_) => OpenContext
    case Delivering(d) => Deliver(DeliveryHelp(d))
    case Abandoned => TimerFires
  }

  lemma CallHelps(call: Call, now: int, cancelled: bool, poll: int)
    requires LateCall(call, now, cancelled, poll) && !SupervisorEnded(call)
    ensures CallEnabled(call, now, cancelled, CallHelp(call))
    ensures var call' := CallNext(call, now, cancelled, poll, CallHelp(call));
      LateCall(call', now, cancelled, poll) && CallRank(call') < CallRank(call)
  {
    if call.supervisor.Delivering? {
      DeliveryHelps(call.supervisor.delivery, now, cancelled, poll);
    }
  }

  function BeatRank(beat: Beat): nat {
    match beat
    case Stopped => 0
    case Armed(_) => 1
    case Rearming(_) => 2
    case Registering(_) => 3
    case Heartbeating(_, _) => 3
    case Unlocking(_) => 3
    case Fired(_) => 4
    case WritingExpiry(_, _) => 4
    case WritingToken(_, _) => 5
    case Extending(_, _) => 5
    case Renewing(_, _) => 6
  }

  function BeatHelp(beat: Beat): BeatStep {
    match beat
    case Stopped => Stop
    case Armed(_) => Stop
    case Rearming(_) => Rearm
    case Registering(_) => RegisterAnswer(NoResponse(Canceled))
    case Heartbeating(_, _) => HeartbeatAnswer(NoResponse(Canceled))
    case Unlocking(_) => Unlock
    case Fired(_) => BeatStep.Decide
    case WritingExpiry(_, _) => WriteExpiry
    case WritingToken(_, _) => WriteToken
    case Extending(_, _) => Lock
    case Renewing(_, _) => Lock
  }

  lemma BeatHelps(interval: int, skew: int, l: Lease, now: int, cancelled: bool)
    requires Coherent(l) && cancelled && !l.beat.Stopped?
    ensures BeatEnabled(l, now, cancelled, BeatHelp(l.beat))
    ensures BeatRank(BeatNext(interval, skew, l, now, cancelled, BeatHelp(l.beat)).beat) < BeatRank(l.beat)
  {
  }

  function LoopRank(pc: Pc): nat {
    match pc
    case Done => 0
    case AwaitingBeat => 1
    case Joining => 2
    case Cancelling => 3
    case Head => 4
    case Checking => 4
    case Failing(_) => 4
    case Acquiring => 5
    case Pausing(_) => 5
    case Dropping => 5
    case Awaiting => 5
    case Idling => 6
    case Declining(_, _, _) => 9
    case Requesting(_) => 6
    case Rejecting(_, d) => 6 + DeliveryRank(d)
    case Reading => 7
  }

  function LoopHelp(pc: Pc, token: string): LoopStep {
    match pc
    case Done => JoinBeat
    case AwaitingBeat => JoinBeat
    case Joining => JoinCalls
    case Cancelling => CancelRun
    case Head => Enter
    case Checking => Check
    case Failing(_) => Recover
    case Acquiring => StopAcquiring
    case Pausing(_) => WakeUp
    case Dropping => Drop
    case Awaiting => Error(Canceled)
    case Idling => Idle
    case Declining(_, _, _) => OpenRejection
    case Requesting(_) => LoopStep.Request
    case Rejecting(_, d) => Reject(DeliveryHelp(d))
    case Reading => ReadToken(token)
  }

  lemma LoopHelps(nonce: string, poll: int, l: Loop, now: int, cancelled: bool, token: string)
    requires cancelled && !l.pc.Done? && KeyInv(nonce, l)
    requires l.pc.Rejecting? ==> RejectionInv(l.pc.delivery, now, poll)
    ensures LoopEnabled(l, now, cancelled, LoopHelp(l.pc, token))
    ensures LoopRank(LoopNext(nonce, poll, l, now, cancelled, LoopHelp(l.pc, token)).pc) < LoopRank(l.pc)
  {
    if l.pc.Rejecting? {
      DeliveryHelps(l.pc.delivery, now, cancelled, poll);
    }
  }

  // ---- the system ------------------------------------------------------------

  function CallsRank(calls: seq<Call>): nat {
    if calls == [] then 0 else CallsRank(calls[..|calls| - 1]) + CallRank(calls[|calls| - 1])
  }

  lemma {:induction false} CallsRankUpdate(calls: seq<Call>, i: nat, call: Call)
    requires i < |calls|
    ensures CallsRank(calls[i := call]) + CallRank(calls[i]) == CallsRank(calls) + CallRank(call)
  {
    var n := |calls| - 1;
    if i == n {
      assert calls[i := call][..n] == calls[..n];
    } else {
      assert calls[i := call][..n] == calls[..n][i := call];
      CallsRankUpdate(calls[..n], i, call);
    }
  }

  predicate LateCalls(w: World, poll: int) {
    forall i | 0 <= i < |w.calls| :: LateCall(w.calls[i], w.now, w.cancelled, poll)
  }

  function Rank(w: World): nat {
    BeatRank(w.lease.beat) + CallsRank(w.calls) + LoopRank(w.loop.pc)
  }

  /** Steps only a handler's own goroutine takes. */
  predicate HandlerStep(s: Step) {
    s.CallMoves? && (s.callStep.HandlerReturns? || s.callStep.BufferResult? || s.callStep.ReleaseSlot?)
  }

  lemma BeatMovesOn(c: Config, w: World) returns (s: Step)
    requires Inv(c, w) && w.cancelled && LateCalls(w, c.poll) && !w.lease.beat.Stopped?
    ensures Enabled(c, w, s) && !HandlerStep(s)
    ensures Next(c, w, s).cancelled && LateCalls(Next(c, w, s), c.poll) && Rank(Next(c, w, s)) < Rank(w)
  {
    BeatHelps(c.interval, c.skew, w.lease, w.now, w.cancelled);
    s := BeatMoves(BeatHelp(w.lease.beat));
  }

  lemma CallMovesOn(c: Config, w: World, i: nat) returns (s: Step)
    requires Inv(c, w) && w.cancelled && LateCalls(w, c.poll)
    requires i < |w.calls| && !SupervisorEnded(w.calls[i])
    ensures Enabled(c, w, s) && !HandlerStep(s)
    ensures Next(c, w, s).cancelled && LateCalls(Next(c, w, s), c.poll) && Rank(Next(c, w, s)) < Rank(w)
  {
    CallHelps(w.calls[i], w.now, w.cancelled, c.poll);
    s := CallMoves(i, CallHelp(w.calls[i]));
    CallsRankUpdate(w.calls, i, CallNext(w.calls[i], w.now, w.cancelled, c.poll, CallHelp(w.calls[i])));
  }

  lemma LoopMovesOn(c: Config, w: World) returns (s: Step)
    requires Inv(c, w) && w.cancelled && LateCalls(w, c.poll)
    requires w.lease.beat.Stopped? && AllEnded(w.calls) && !w.loop.pc.Done?
    ensures Enabled(c, w, s) && !HandlerStep(s)
    ensures Next(c, w, s).cancelled && LateCalls(Next(c, w, s), c.poll) && Rank(Next(c, w, s)) < Rank(w)
  {
    var token := w.lease.registration.token;
    LoopHelps(c.nonce, c.poll, w.loop, w.now, w.cancelled, token);
    ReleasesNeverBlock(c, w, 0);
    var step := LoopHelp(w.loop.pc, token);
    s := LoopMoves(step);
    assert Started(c, w, step) == [] && w.calls + [] == w.calls;
  }

  lemma {:induction false} CanFinish(c: Config, w: World) returns (steps: seq<Step>)
    requires Inv(c, w) && w.cancelled && LateCalls(w, c.poll)
    ensures Runs(c, w, steps) && After(c, w, steps).loop.pc.Done?
    ensures forall s | s in steps :: !HandlerStep(s)
    decreases Rank(w)
  {
    if w.loop.pc.Done? {
      steps := [];
    } else {
      var s: Step;
      if !w.lease.beat.Stopped? {
        s := BeatMovesOn(c, w);
      } else if !AllEnded(w.calls) {
        var i :| 0 <= i < |w.calls| && !SupervisorEnded(w.calls[i]);
        s := CallMovesOn(c, w, i);
      } else {
        s := LoopMovesOn(c, w);
      }
      InvStep(c, w, s);
      var more := CanFinish(c, Next(c, w, s));
      steps := [s] + more;
      assert steps[0] == s && steps[1..] == more;
    }
  }

  /** An instant at which every claim's deadline and every outcome context is over. */
  function Horizon(calls: seq<Call>, now: int): int {
    if calls == [] then now
    else
      var rest, call := Horizon(calls[..|calls| - 1], now), calls[|calls| - 1];
      var own := if call.supervisor.Delivering? && call.supervisor.delivery.ctxEnd > call.expiresAt
                 then call.supervisor.delivery.ctxEnd else call.expiresAt;
      if own > rest then own else rest
  }

  lemma {:induction false} HorizonIsLate(calls: seq<Call>, now: int, i: nat)
    ensures Horizon(calls, now) >= now
    ensures i < |calls| ==>
              Horizon(calls, now) >= calls[i].expiresAt
              && (calls[i].supervisor.Delivering? ==> Horizon(calls, now) >= calls[i].supervisor.delivery.ctxEnd)
  {
    if calls != [] {
      var n := |calls| - 1;
      HorizonIsLate(calls[..n], now, i);
      assert i < n ==> calls[..n][i] == calls[i];
    }
  }

  /** From every state any run reaches, whatever is in flight and however many handlers never
      return, cancellation and the passing of the claims' deadlines let `Run` return. */
  lemma RunCanAlwaysReturn(c: Config, w: World) returns (steps: seq<Step>)
    requires Reachable(c, w)
    ensures Runs(c, w, steps) && After(c, w, steps).loop.pc.Done?
    ensures forall s | s in steps :: !HandlerStep(s)
  {
    ReachableInv(c, w);
    var later := Horizon(w.calls, w.now);
    HorizonIsLate(w.calls, w.now, 0);
    var w1 := Next(c, w, Cancel);
    InvStep(c, w, Cancel);
    var w2 := Next(c, w1, Tick(later));
    InvStep(c, w1, Tick(later));
    forall i | 0 <= i < |w2.calls| ensures LateCall(w2.calls[i], later, true, c.poll) {
      HorizonIsLate(w.calls, w.now, i);
      assert CallInv(w2.calls[i], later, c.poll);
    }
    var more := CanFinish(c, w2);
    var tail := [Tick(later)] + more;
    assert tail[1..] == more && Runs(c, w1, tail);
    steps := [Cancel] + tail;
    assert steps[1..] == tail;
  }
}
