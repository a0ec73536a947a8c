/** What each goroutine waits for (agent/serverapi/tool_worker.go:88-197, 239-324), and that it waits for nothing
    else: a process that is not waiting has a step to take, in every reachable state. */
module Blocking {
  import opened Prelude
  import opened Text
  import opened Keys
  import opened Errors
  import opened Outcomes
  import opened Protocol
  import opened Delivery
  import opened Calls
  import opened ClaimLoop
  import opened Lease
  import opened Worker
  import opened Slots
  import opened Grants
  import opened System
  import opened Limits

  // ---- retries ------------------------------------------------------------------

  /** In a pause that is not over, on a context that has not ended. */
  predicate DeliveryWaits(d: Delivery, now: int, cancelled: bool) {
    d.phase.Sleeping? && now < d.phase.until && now < d.ctxEnd && !(d.underRun && cancelled)
  }

  function DeliveryMove(d: Delivery, now: int): DeliveryStep {
    match d.phase
    case Ready => DeliveryStep.Send
    case InFlight(_) => DeliveryStep.Reply(Decoded(200, Some(true)))
    case Deciding => DeliveryStep.Decide
    case _ => if d.phase.Sleeping? && d.phase.until <= now then Wake(false) else Wake(true)
  }

  lemma DeliveryMovesIff(d: Delivery, now: int, cancelled: bool)
    ensures StepEnabled(d, now, cancelled, DeliveryMove(d, now)) <==> !d.phase.Finished? && !DeliveryWaits(d, now, cancelled)
    ensures forall s :: StepEnabled(d, now, cancelled, s) ==> StepEnabled(d, now, cancelled, DeliveryMove(d, now))
  {
  }

  // ---- the claim loop -----------------------------------------------------------

  /** A full semaphore, the registration's writer, a pause, a supervisor at work, or the heartbeat. */
  predicate LoopWaits(c: Config, w: World) {
    match w.loop.pc
    case Acquiring => Live(w.calls) == c.maxCalls && !w.cancelled
    case Reading => InCriticalSection(w.lease.beat)
    case Rejecting(_, d) => DeliveryWaits(d, w.now, w.cancelled)
    case Pausing(until) => w.now < until && !w.cancelled
    case Joining => exists n :: 0 <= n < |w.calls| && !SupervisorEnded(w.calls[n])
    case AwaitingBeat => !w.lease.beat.Stopped?
    case Done => true
    case _ => false
  }

  function LoopMove(c: Config, w: World): LoopStep {
    match w.loop.pc
    case Head => Enter
    case Acquiring => if w.cancelled then StopAcquiring else Acquire
    case Checking => Check
    case Reading => ReadToken(w.lease.registration.token)
    case Requesting(_) => LoopStep.Request
    case Awaiting => Error(Canceled)
    case Failing(_) => Recover
    case Idling => Idle
    case Declining(_, _, _) => OpenRejection
    case Rejecting(_, d) => Reject(DeliveryMove(d, w.now))
    case Dropping => Drop
    case Pausing(_) => WakeUp
    case Cancelling => CancelRun
    case Joining => JoinCalls
    case _ => JoinBeat
  }

  /** The slot is free for the loop exactly if fewer executors are alive than the limit allows. */
  lemma AcquiresIffRoom(c: Config, w: World)
    requires Reachable(c, w) && w.loop.pc.Acquiring?
    ensures Enabled(c, w, LoopMoves(Acquire)) <==> Live(w.calls) < c.maxCalls
  {
    ReachableInv(c, w);
  }

  lemma LoopMoveFitsPc(c: Config, w: World)
    requires Inv(c, w) && !LoopWaits(c, w)
    ensures LoopEnabled(w.loop, w.now, w.cancelled, LoopMove(c, w))
  {
    if w.loop.pc.Rejecting? {
      DeliveryMovesIff(w.loop.pc.delivery, w.now, w.cancelled);
    }
  }

  lemma LoopMoveIsEnabled(c: Config, w: World)
    requires Reachable(c, w) && !LoopWaits(c, w)
    ensures Enabled(c, w, LoopMoves(LoopMove(c, w)))
  {
    ReachableInv(c, w);
    LoopMoveFitsPc(c, w);
    ReleasesNeverBlock(c, w, 0);
    if w.loop.pc.Acquiring? {
      AcquiresIffRoom(c, w);
    }
  }

  lemma WaitingLoopIsBlocked(c: Config, w: World, s: LoopStep)
    requires SlotInv(c, w) && Coherent(w.lease) && LoopWaits(c, w)
    ensures !Enabled(c, w, LoopMoves(s))
  {
    if w.loop.pc.Rejecting? && s.Reject? {
      DeliveryMovesIff(w.loop.pc.delivery, w.now, w.cancelled);
    }
  }

  /** A claim that went out can be answered as soon as the server has a reply, and can fail with any error; a
      doomed one can only fail, with any error that is final. */
  lemma ClaimsCanEnd(c: Config, w: World, wire: ClaimWire, err: GoError)
    requires Reachable(c, w) && w.loop.pc.Awaiting?
    ensures w.loop.claims != []
    ensures var last := Last(w.loop.claims);
      && (Enabled(c, w, LoopMoves(Answer(wire, |w.calls|))) <==>
            !last.doomed && last.key in w.store && w.store[last.key] == wire)
      && (Enabled(c, w, LoopMoves(Error(err))) <==> (last.doomed ==> !IsRetryable(Some(err))))
  {
    AwaitingHasClaims(c, w);
  }

  lemma AwaitingHasClaims(c: Config, w: World)
    requires Reachable(c, w) && w.loop.pc.Awaiting?
    ensures w.loop.claims != []
  {
    ReachableInv(c, w);
  }

  /** The claim loop is blocked exactly while it waits for one of these. */
  lemma LoopIsBlockedIff(c: Config, w: World)
    requires Reachable(c, w)
    ensures (exists s :: Enabled(c, w, LoopMoves(s))) <==> !LoopWaits(c, w)
  {
    if LoopWaits(c, w) {
      ReachableInv(c, w);
      forall s ensures !Enabled(c, w, LoopMoves(s)) {
        WaitingLoopIsBlocked(c, w, s);
      }
    } else {
      LoopMoveIsEnabled(c, w);
    }
  }

  // ---- the heartbeat ------------------------------------------------------------

  predicate BeatWaits(w: World) {
    match w.lease.beat
    case Armed(due) => w.now < due && !w.cancelled
    case Stopped => true
    case _ => false
  }

  function BeatMove(w: World): BeatStep {
    match w.lease.beat
    case Armed(due) => if due <= w.now then Fire else Stop
    case Fired(_) => BeatStep.Decide
    case Registering(_) => RegisterAnswer(NoResponse(Canceled))
    case Heartbeating(_, _) => HeartbeatAnswer(NoResponse(Canceled))
    case Renewing(_, _) => Lock
    case Extending(_, _) => Lock
    case WritingToken(_, _) => WriteToken
    case WritingExpiry(_, _) => WriteExpiry
    case Unlocking(_) => Unlock
    case _ => Rearm
  }

  /** The heartbeat goroutine is blocked exactly while its timer is not due and the run goes on; it never has
      to wait for the lock. Its select may start a pass even after a cancellation. */
  lemma BeatIsBlockedIff(c: Config, w: World)
    requires Reachable(c, w)
    ensures (exists s :: Enabled(c, w, BeatMoves(s))) <==> !BeatWaits(w)
    ensures w.lease.beat.Armed? && w.lease.beat.due <= w.now ==>
              Enabled(c, w, BeatMoves(Fire)) && Next(c, w, BeatMoves(Fire)).lease.beat.Fired?
    ensures w.lease.beat.Armed? && w.cancelled ==>
              Enabled(c, w, BeatMoves(Stop)) && Next(c, w, BeatMoves(Stop)).lease.beat.Stopped?
  {
    ReachableInv(c, w);
    if !BeatWaits(w) {
      assert Enabled(c, w, BeatMoves(BeatMove(w)));
    }
  }

  // ---- calls ----------------------------------------------------------------------

  predicate SupervisorStep(s: CallStep) {
    !s.HandlerReturns? && !s.BufferResult? && !s.ReleaseSlot?
  }

  /** In its selects a supervisor waits for the channel, the context and the deadline. */
  predicate SupervisorWaits(call: Call, now: int, cancelled: bool) {
    match call.supervisor
    case Wait => call.channel.None? && !cancelled && now < call.expiresAt
    case FinalWait => call.channel.None? && now < call.expiresAt
    case Delivering(d) => d.phase.Finished? || DeliveryWaits(d, now, cancelled)
    case Abandoned => true
    case _ => false
  }

  function SupervisorMove(call: Call, now: int): CallStep {
    match call.supervisor
    case Poll => PollChannel
    case Wait => if call.channel.Some? then TakeResult else ObserveDone
    case Recheck => RecheckChannel
    case CheckDeadline => JudgeDeadline
    case FinalWait => if call.channel.Some? then TakeResult else TimerFires
    case Completed(_) => OpenContext
    case Delivering(d) => Deliver(DeliveryMove(d, now))
    case Abandoned => TimerFires
  }

  lemma SupervisorMovesIff(call: Call, now: int, cancelled: bool)
    ensures CallEnabled(call, now, cancelled, SupervisorMove(call, now)) <==> !SupervisorWaits(call, now, cancelled)
    ensures SupervisorStep(SupervisorMove(call, now))
    ensures SupervisorWaits(call, now, cancelled) ==>
              forall s | SupervisorStep(s) :: !CallEnabled(call, now, cancelled, s)
  {
    if call.supervisor.Delivering? {
      DeliveryMovesIff(call.supervisor.delivery, now, cancelled);
    }
  }

  /** A supervisor is blocked exactly while it waits. With a result in the channel both of its selects can
      take it. */
  lemma SupervisorIsBlockedIff(c: Config, w: World, n: nat)
    requires n < |w.calls|
    ensures (exists s :: SupervisorStep(s) && Enabled(c, w, CallMoves(n, s))) <==> !SupervisorWaits(w.calls[n], w.now, w.cancelled)
    ensures (w.calls[n].supervisor.Wait? || w.calls[n].supervisor.FinalWait?) && w.calls[n].channel.Some? ==>
              Enabled(c, w, CallMoves(n, TakeResult))
  {
    SupervisorMovesIff(w.calls[n], w.now, w.cancelled);
    if !SupervisorWaits(w.calls[n], w.now, w.cancelled) {
      assert Enabled(c, w, CallMoves(n, SupervisorMove(w.calls[n], w.now)));
    }
  }

  /** An executor waits for its handler only; neither the channel nor the semaphore ever blocks it. */
  lemma ExecutorWaitsForHandler(c: Config, w: World, n: nat, h: HandlerResult)
    requires Reachable(c, w) && n < |w.calls|
    ensures Enabled(c, w, CallMoves(n, HandlerReturns(h))) <==>
              w.calls[n].executor.Running? && (w.calls[n].tool in c.tools ==> c.mayReturn(w.calls[n].tool, h))
  {
    CallsAreGranted(c, w, n);
  }

  lemma ExecutorIsNotBlocked(c: Config, w: World, n: nat)
    requires Reachable(c, w) && n < |w.calls|
    ensures w.calls[n].executor.Sending? ==> Enabled(c, w, CallMoves(n, BufferResult))
    ensures w.calls[n].executor.Releasing? ==> Enabled(c, w, CallMoves(n, ReleaseSlot))
  {
    ReachableInv(c, w);
    assert CallInv(w.calls[n], w.now, c.poll);
    ReleasesNeverBlock(c, w, n);
  }

  // ---- the limit is reached -------------------------------------------------------

  /** The loop is back at its head with `n` handlers running. */
  predicate AtWork(w: World, n: nat) {
    && w.loop.pc.Head? && w.loop.key.None? && !w.cancelled && !w.lease.locked && w.now == 1
    && |w.calls| == n && forall i | 0 <= i < n :: w.calls[i].executor.Running?
  }

  lemma {:induction false} AllLive(calls: seq<Call>)
    requires forall i | 0 <= i < |calls| :: calls[i].executor.Running?
    ensures Live(calls) == |calls|
  {
    if calls != [] {
      AllLive(calls[..|calls| - 1]);
    }
  }

  lemma TakesSlot(c: Config, w: World, n: nat) returns (w': World)
    requires Reachable(c, w) && AtWork(w, n) && n < c.maxCalls
    ensures Reachable(c, w') && w'.loop.pc.Checking? && w'.loop.key.None? && !w'.cancelled && !w'.lease.locked
    ensures w'.now == 1 && w'.calls == w.calls
  {
    w' := Reach(c, w, LoopMoves(Enter));
    assert w'.calls == w.calls;
    AllLive(w'.calls);
    AcquiresIffRoom(c, w');
    w' := Reach(c, w', LoopMoves(Acquire));
  }

  /** A slot is free: the loop gets as far as its request. */
  lemma AsksForMore(c: Config, w: World, n: nat) returns (w': World)
    requires Reachable(c, w) && AtWork(w, n) && n < c.maxCalls
    ensures Reachable(c, w') && w'.loop.pc.Requesting? && w'.loop.key.None? && !w'.cancelled && !w'.lease.locked
    ensures w'.now == 1 && w'.calls == w.calls
  {
    w' := TakesSlot(c, w, n);
    w' := Reach(c, w', LoopMoves(Check));
    w' := Reach(c, w', LoopMoves(ReadToken(w'.lease.registration.token)));
  }

  /** A new key has no stored reply yet. */
  lemma NewKeyIsUnknown(c: Config, w: World)
    requires KeyInv(c.nonce, w.loop) && StoreInv(w) && NulFree(c.nonce) && w.loop.pc.Requesting? && w.loop.key.None?
    ensures ChooseKey(c.nonce, w.loop, w.loop.pc.token).key.Some?
    ensures ChooseKey(c.nonce, w.loop, w.loop.pc.token).key.value !in w.store
  {
    var key := ChooseKey(c.nonce, w.loop, w.loop.pc.token).key.value;
    var claims := w.loop.claims;
    if key in w.store {
      var i :| 0 <= i < |claims| && claims[i].key == key;
      AttemptsMonotone(claims, i, |claims| - 1);
      ClaimKeyInjective(c.nonce, claims[i].token, claims[i].attempt, w.loop.pc.token, w.loop.attempt + 1);
    }
  }

  lemma AsksUnderNewKey(c: Config, w: World) returns (w': World)
    requires Reachable(c, w) && w.loop.pc.Requesting? && w.loop.key.None? && !w.cancelled && !w.lease.locked && w.now == 1
    ensures Reachable(c, w') && w'.now == 1 && w'.calls == w.calls && !w'.cancelled && !w'.lease.locked
    ensures w'.loop.pc.Awaiting? && w'.loop.claims != [] && !Last(w'.loop.claims).doomed
    ensures Last(w'.loop.claims).key !in w'.store
  {
    ReachableInv(c, w);
    NewKeyIsUnknown(c, w);
    w' := Reach(c, w, LoopMoves(LoopStep.Request));
  }

  /** The server grants the call. */
  lemma GetsMore(c: Config, w: World) returns (w': World)
    requires Reachable(c, w) && w.loop.pc.Requesting? && w.loop.key.None? && !w.cancelled && !w.lease.locked && w.now == 1
    ensures Reachable(c, w') && w'.now == 1 && w'.calls == w.calls && !w'.cancelled && !w'.lease.locked
    ensures w'.loop.pc.Awaiting? && w'.loop.claims != [] && !Last(w'.loop.claims).doomed
    ensures Last(w'.loop.claims).key in w'.store && w'.store[Last(w'.loop.claims).key] == GRANT
  {
    w' := AsksUnderNewKey(c, w);
    w' := Reach(c, w', Serve(|w'.loop.claims| - 1, GRANT));
  }

  lemma OneMore(c: Config, w: World, n: nat) returns (w': World)
    requires Reachable(c, w) && AtWork(w, n) && n < c.maxCalls
    ensures Reachable(c, w') && AtWork(w', n + 1)
  {
    w' := AsksForMore(c, w, n);
    w' := GetsMore(c, w');
    GrantIsDispatched(10, 1);
    w' := Reach(c, w', LoopMoves(Answer(GRANT, n)));
  }

  lemma {:induction false} ManyAtWork(c: Config, n: nat) returns (w: World)
    requires Usable(c) && NulFree(c.nonce) && n <= c.maxCalls
    ensures Reachable(c, w) && AtWork(w, n)
  {
    if n == 0 {
      var ack := Registration("executor", 100);
      w := Start(c, ack, 1);
      assert !IsSpace(ack.token[0]);
      assert Reaches(c, ack, 1, [], w);
    } else {
      w := ManyAtWork(c, n - 1);
      w := OneMore(c, w, n - 1);
    }
  }

  /** The worker can run as many handlers at once as it may. */
  lemma LimitIsReached(c: Config) returns (w: World)
    requires Usable(c) && NulFree(c.nonce)
    ensures Reachable(c, w) && Live(w.calls) == c.maxCalls
  {
    w := ManyAtWork(c, c.maxCalls);
    AllLive(w.calls);
  }

  // ---- a call from beginning to end -----------------------------------------------

  /** The first call has been started. */
  lemma CallStarted(c: Config) returns (w: World)
    requires Usable(c) && NulFree(c.nonce)
    ensures Reachable(c, w) && w.now == 1 && w.sent == []
    ensures w.calls == [Spawn(0, "outcome", 10, GRANT.tool, GRANT.tool in c.tools)]
  {
    w := ClaimGranted(c);
    GrantIsDispatched(10, 1);
    w := Reach(c, w, LoopMoves(Answer(GRANT, 0)));
  }

  /** The handler of the first call has returned and its result is in the channel. */
  lemma ResultIsReady(c: Config, handler: HandlerResult) returns (w: World)
    requires Usable(c) && NulFree(c.nonce) && c.mayReturn(GRANT.tool, handler)
    ensures Reachable(c, w) && w.now == 1 && w.sent == []
    ensures w.calls == [Call(0, "outcome", 10, GRANT.tool, GRANT.tool in c.tools, Poll, Releasing,
                             Some(Execute(GRANT.tool in c.tools, handler)), Some(Execute(GRANT.tool in c.tools, handler)))]
  {
    w := CallStarted(c);
    w := Reach(c, w, CallMoves(0, HandlerReturns(handler)));
    w := Reach(c, w, CallMoves(0, BufferResult));
  }

  /** Its supervisor has taken the result. */
  lemma ResultIsTaken(c: Config, handler: HandlerResult) returns (w: World)
    requires Usable(c) && NulFree(c.nonce) && c.mayReturn(GRANT.tool, handler)
    ensures Reachable(c, w) && w.now == 1 && w.sent == [] && |w.calls| == 1
    ensures w.calls[0].request == 0 && w.calls[0].token == "outcome" && w.calls[0].expiresAt == 10
    ensures w.calls[0].supervisor == Completed(Execute(GRANT.tool in c.tools, handler))
  {
    w := ResultIsReady(c, handler);
    w := Reach(c, w, CallMoves(0, PollChannel));
  }

  /** A run in which a claim is granted, a registered tool returns, and its result is submitted. */
  lemma ResultIsSubmitted(c: Config, json: string) returns (w: World)
    requires Usable(c) && NulFree(c.nonce) && GRANT.tool in c.tools && c.mayReturn(GRANT.tool, Returned(json))
    ensures Reachable(c, w)
    ensures w.sent == [Sent(0, Submission(OutcomeKey("outcome"), "outcome", Outcome("succeeded", Some(json), None)))]
  {
    w := ResultIsTaken(c, Returned(json));
    ExecuteReports(Returned(json));
    w := Reach(c, w, CallMoves(0, OpenContext));
    w := Reach(c, w, CallMoves(0, Deliver(DeliveryStep.Send)));
  }
}
