/** How far two promises of the worker reach: a result that is ready is submitted, and cancellation
    stops new claims (agent/serverapi/tool_worker.go:88-107, 147-197, README.md:191-193). Each holds
    under an exact condition, and a run shows that the exception is real. */
module Limits {
  import opened Prelude
  import opened Text
  import opened Outcomes
  import opened Protocol
  import opened Calls
  import opened ClaimLoop
  import opened Lease
  import opened Worker
  import opened Shutdown
  import opened System
  import opened Progress

  // ---- composing runs ---------------------------------------------------------

  lemma RunsPrepend(c: Config, w: World, step: Step, rest: seq<Step>)
    requires Enabled(c, w, step) && Runs(c, Next(c, w, step), rest)
    ensures Runs(c, w, [step] + rest) && After(c, w, [step] + rest) == After(c, Next(c, w, step), rest)
  {
    assert ([step] + rest)[1..] == rest;
  }

  lemma {:induction false} RunsAppend(c: Config, w: World, first: seq<Step>, second: seq<Step>)
    requires Runs(c, w, first) && Runs(c, After(c, w, first), second)
    ensures Runs(c, w, first + second) && After(c, w, first + second) == After(c, After(c, w, first), second)
    decreases |first|
  {
    if first == [] {
      assert first + second == second;
    } else {
      RunsAppend(c, Next(c, w, first[0]), first[1..], second);
      assert (first + second)[1..] == first[1..] + second;
    }
  }

  lemma ReachableStep(c: Config, w: World, step: Step)
    requires Reachable(c, w) && Enabled(c, w, step)
    ensures Reachable(c, Next(c, w, step))
  {
    var ack: Registration, now: int, steps: seq<Step> :| Reaches(c, ack, now, steps, w);
    var w' := Next(c, w, step);
    RunsPrepend(c, w, step, []);
    assert [step] + [] == [step];
    RunsAppend(c, Start(c, ack, now), steps, [step]);
    assert Reaches(c, ack, now, steps + [step], w');
  }

  // ---- results ----------------------------------------------------------------

  /** The supervisor has looked away from the channel. */
  predicate LookedAway(call: Call) {
    call.supervisor.CheckDeadline? || call.supervisor.FinalWait? || call.supervisor.Abandoned?
  }

  /** A supervisor leaves its blocking select without a result only on cancellation or at the deadline,
      and waits for the deadline only because of a cancellation. */
  predicate Pressed(call: Call, now: int, cancelled: bool) {
    && (call.supervisor.Recheck? || LookedAway(call) ==> CallDone(call, now, cancelled))
    && (call.supervisor.FinalWait? ==> cancelled)
  }

  predicate AllPressed(w: World) {
    forall i | 0 <= i < |w.calls| :: Pressed(w.calls[i], w.now, w.cancelled)
  }

  lemma PressedStep(c: Config, w: World, step: Step)
    requires AllPressed(w) && Enabled(c, w, step)
    ensures AllPressed(Next(c, w, step))
  {
  }

  lemma {:induction false} PressedAlways(c: Config, w: World, steps: seq<Step>)
    requires AllPressed(w) && Runs(c, w, steps)
    ensures AllPressed(After(c, w, steps))
    decreases |steps|
  {
    if steps != [] {
      PressedStep(c, w, steps[0]);
      PressedAlways(c, Next(c, w, steps[0]), steps[1..]);
    }
  }

  lemma ReachablePressed(c: Config, w: World)
    requires Reachable(c, w)
    ensures AllPressed(w)
  {
    var ack: Registration, now: int, steps: seq<Step> :| Reaches(c, ack, now, steps, w);
    PressedAlways(c, Start(c, ack, now), steps);
  }

  /** A result that is ready before its claim's deadline and before cancellation is the one submitted,
      whatever happens afterwards, an immediate cancellation included. */
  lemma PromptResultIsDelivered(c: Config, w: World, steps: seq<Step>, n: nat)
    requires Reachable(c, w) && Runs(c, w, steps) && n < |w.calls|
    requires w.calls[n].channel.Some? && !w.cancelled && w.now < w.calls[n].expiresAt
    ensures n < |After(c, w, steps).calls|
    ensures var call := After(c, w, steps).calls[n];
      SupervisorEnded(call) ==>
        call.supervisor.Delivering? && call.supervisor.delivery.outcome == w.calls[n].channel.value
        && call.supervisor.delivery.attempts >= 1
  {
    ReachablePressed(c, w);
    ReachableInv(c, w);
    assert CallInv(w.calls[n], w.now, c.poll);
    BufferedResultIsDelivered(c, w, steps, n);
  }

  ghost predicate Drops(c: Config, w: World, steps: seq<Step>, n: nat) {
    Runs(c, w, steps) && n < |After(c, w, steps).calls| && After(c, w, steps).calls[n].supervisor.Abandoned?
  }

  /** A buffered result can still be dropped exactly if `awaitResult` has already returned without it. */
  lemma DroppedIffLookedAway(c: Config, w: World, n: nat)
    requires Reachable(c, w) && n < |w.calls| && w.calls[n].channel.Some?
    ensures (exists steps :: Drops(c, w, steps, n)) <==> LookedAway(w.calls[n])
  {
    if steps :| Drops(c, w, steps, n) {
      DropNeedsALookAway(c, w, steps, n);
    }
    if LookedAway(w.calls[n]) {
      var steps := WaysToDrop(c, w, n);
    }
  }

  lemma DropNeedsALookAway(c: Config, w: World, steps: seq<Step>, n: nat)
    requires Reachable(c, w) && n < |w.calls| && w.calls[n].channel.Some? && Drops(c, w, steps, n)
    ensures LookedAway(w.calls[n])
  {
    ReachableInv(c, w);
    assert CallInv(w.calls[n], w.now, c.poll);
    if !LookedAway(w.calls[n]) {
      SecuredAlways(c, w, steps, n, w.calls[n].channel.value);
    }
  }

  lemma WaysToDrop(c: Config, w: World, n: nat) returns (steps: seq<Step>)
    requires n < |w.calls| && LookedAway(w.calls[n])
    ensures Drops(c, w, steps, n)
  {
    var call := w.calls[n];
    if call.supervisor.Abandoned? {
      steps := [];
    } else {
      var later := Tick(if w.now < call.expiresAt then call.expiresAt else w.now);
      var last := CallMoves(n, if call.supervisor.FinalWait? then TimerFires else JudgeDeadline);
      var w1 := Next(c, w, later);
      RunsPrepend(c, w1, last, []);
      RunsPrepend(c, w, later, [last] + []);
      steps := [later] + ([last] + []);
    }
  }

  // ---- claims after cancellation ----------------------------------------------

  /** The writer in the critical section needs nobody else to leave it. */
  lemma {:induction false} LockComesFree(c: Config, w: World) returns (steps: seq<Step>)
    requires Coherent(w.lease)
    ensures Runs(c, w, steps) && !After(c, w, steps).lease.locked && After(c, w, steps).loop == w.loop
    decreases BeatRank(w.lease.beat)
  {
    steps := [];
    if w.lease.locked {
      var s := BeatMoves(BeatHelp(w.lease.beat));
      CoherentStep(c.interval, c.skew, w.lease, w.now, w.cancelled, s.beatStep);
      var more := LockComesFree(c, Next(c, w, s));
      steps := [s] + more;
      assert steps[1..] == more;
    }
  }

  ghost predicate Claims(c: Config, w: World, steps: seq<Step>) {
    Runs(c, w, steps) && |After(c, w, steps).loop.claims| > |w.loop.claims|
  }

  /** Once cancelled, the loop can make another claim request, in vain, exactly if it is past its last check
      of the context and has not made it yet. */
  lemma ClaimsIffPastItsCheck(c: Config, w: World)
    requires Reachable(c, w) && w.cancelled
    ensures (exists steps :: Claims(c, w, steps)) <==> w.loop.pc.Reading? || w.loop.pc.Requesting?
  {
    if steps :| Claims(c, w, steps) {
      AfterCancellation(c, w, steps, |w.loop.claims|);
    }
    if w.loop.pc.Requesting? {
      RunsPrepend(c, w, LoopMoves(LoopStep.Request), []);
      assert Claims(c, w, [LoopMoves(LoopStep.Request)] + []);
    }
    if w.loop.pc.Reading? {
      var steps := ReaderClaims(c, w);
    }
  }

  lemma ReaderClaims(c: Config, w: World) returns (steps: seq<Step>)
    requires Reachable(c, w) && w.loop.pc.Reading?
    ensures Claims(c, w, steps)
  {
    ReachableInv(c, w);
    var freed := LockComesFree(c, w);
    var w1 := After(c, w, freed);
    var read, request := LoopMoves(ReadToken(w1.lease.registration.token)), LoopMoves(LoopStep.Request);
    RunsPrepend(c, Next(c, w1, read), request, []);
    RunsPrepend(c, w1, read, [request] + []);
    steps := freed + ([read] + ([request] + []));
    RunsAppend(c, w, freed, [read] + ([request] + []));
  }

  // ---- calls after cancellation -----------------------------------------------

  /** Read now, the reply starts a call. */
  predicate Dispatchable(wire: ClaimWire, now: int) {
    match ReadClaim(wire, now)
    case Ok(ack) => ack.Claimed? && ack.expiryIsValid
    case Err(_) => false
  }

  /** A claim is in flight that went out before cancellation, and the server has not stored a reply to it
      that starts no call. */
  predicate MayStart(w: World) {
    MayDispatch(w.loop) == 1
    && (Last(w.loop.claims).key in w.store ==> Dispatchable(w.store[Last(w.loop.claims).key], w.now))
  }

  ghost predicate StartsCall(c: Config, w: World, steps: seq<Step>) {
    Runs(c, w, steps) && |After(c, w, steps).calls| > |w.calls|
  }

  lemma BarrenStep(c: Config, w: World, step: Step)
    requires w.cancelled && !MayStart(w) && Enabled(c, w, step)
    ensures var w' := Next(c, w, step); w'.cancelled && !MayStart(w') && |w'.calls| == |w.calls|
  {
  }

  lemma {:induction false} NoneStarts(c: Config, w: World, steps: seq<Step>)
    requires w.cancelled && !MayStart(w) && Runs(c, w, steps)
    ensures |After(c, w, steps).calls| == |w.calls|
    decreases |steps|
  {
    if steps != [] {
      BarrenStep(c, w, steps[0]);
      NoneStarts(c, Next(c, w, steps[0]), steps[1..]);
    }
  }

  /** Once cancelled, the worker can still start a call exactly if a claim that went out before is in flight
      and its reply, if the server has one, still grants a call. */
  lemma CallsIffClaimInFlight(c: Config, w: World)
    requires w.cancelled
    ensures (exists steps :: StartsCall(c, w, steps)) <==> MayStart(w)
  {
    if steps :| StartsCall(c, w, steps) {
      if !MayStart(w) {
        NoneStarts(c, w, steps);
      }
    }
    if MayStart(w) {
      if Last(w.loop.claims).key in w.store {
        var steps := AnswerStarts(c, w);
      } else {
        var steps := GrantStarts(c, w);
      }
    }
  }

  lemma AnswerStarts(c: Config, w: World) returns (steps: seq<Step>)
    requires MayStart(w) && Last(w.loop.claims).key in w.store
    ensures StartsCall(c, w, steps)
  {
    var answer := LoopMoves(Answer(w.store[Last(w.loop.claims).key], |w.calls|));
    RunsPrepend(c, w, answer, []);
    steps := [answer] + [];
  }

  lemma GrantStarts(c: Config, w: World) returns (steps: seq<Step>)
    requires MayStart(w) && Last(w.loop.claims).key !in w.store
    ensures StartsCall(c, w, steps)
  {
    var wire := GRANT.(expiresAt := Stamped(Some(w.now + 1)));
    GrantIsDispatched(w.now + 1, w.now);
    var serve := Serve(|w.loop.claims| - 1, wire);
    var rest := AnswerStarts(c, Next(c, w, serve));
    RunsPrepend(c, w, serve, rest);
    steps := [serve] + rest;
  }

  // ---- the exceptions are real ------------------------------------------------

  /** The loop has looked at the context for the last time before its first claim. */
  lemma ClaimUnderWay(c: Config) returns (w: World)
    requires Usable(c) && NulFree(c.nonce)
    ensures Reachable(c, w) && w.loop.pc.Reading? && w.calls == [] && w.loop.claims == [] && w.store == map[]
    ensures w.now == 1 && !w.cancelled && !w.lease.locked && w.sent == []
  {
    var ack := Registration("executor", 100);
    w := Start(c, ack, 1);
    assert !IsSpace(ack.token[0]);
    assert Reaches(c, ack, 1, [], w);
    w := Reach(c, w, LoopMoves(Enter));
    w := Reach(c, w, LoopMoves(Acquire));
    w := Reach(c, w, LoopMoves(Check));
  }

  lemma Reach(c: Config, w: World, step: Step) returns (w': World)
    requires Reachable(c, w) && Enabled(c, w, step)
    ensures Reachable(c, w') && w' == Next(c, w, step)
  {
    ReachableStep(c, w, step);
    w' := Next(c, w, step);
  }

  /** A claim request made after cancellation. */
  lemma ClaimAfterCancellation(c: Config) returns (w: World, steps: seq<Step>)
    requires Usable(c) && NulFree(c.nonce)
    ensures Reachable(c, w) && w.cancelled && Claims(c, w, steps)
  {
    w := ClaimUnderWay(c);
    w := Reach(c, w, Cancel);
    ClaimsIffPastItsCheck(c, w);
    steps :| Claims(c, w, steps);
  }

  const GRANT := ClaimWire("claimed", "outcome", Stamped(Some(10)), Identity("ns", "tool", "1"), "{}", "user", 0)

  lemma GrantIsDispatched(expiresAt: int, now: int)
    requires now < expiresAt
    ensures ReadClaim(GRANT.(expiresAt := Stamped(Some(expiresAt))), now) == Ok(Claimed("outcome", expiresAt, true, GRANT.tool))
  {
    assert !IsSpace("outcome"[0]) && !IsSpace("ns"[0]) && !IsSpace("tool"[0]) && !IsSpace("1"[0]) && !IsSpace("user"[0]);
  }

  /** The first claim has been requested and granted; the reply is on its way. */
  lemma ClaimGranted(c: Config) returns (w: World)
    requires Usable(c) && NulFree(c.nonce)
    ensures Reachable(c, w) && w.now == 1 && w.calls == []
    ensures w.sent == [] && w.loop.pc.Awaiting? && |w.loop.claims| == 1 && !w.loop.claims[0].doomed
    ensures w.loop.claims[0].key in w.store && w.store[w.loop.claims[0].key] == GRANT
  {
    w := ClaimUnderWay(c);
    w := Reach(c, w, LoopMoves(ReadToken(w.lease.registration.token)));
    w := Reach(c, w, LoopMoves(LoopStep.Request));
    w := Reach(c, w, Serve(0, GRANT));
  }

  /** One call has been started, and then the run was cancelled. */
  lemma CallThenCancel(c: Config) returns (w: World)
    requires Usable(c) && NulFree(c.nonce)
    ensures Reachable(c, w) && w.now == 1 && w.cancelled
    ensures w.calls == [Spawn(0, "outcome", 10, GRANT.tool, GRANT.tool in c.tools)]
  {
    w := ClaimGranted(c);
    GrantIsDispatched(10, 1);
    w := Reach(c, w, LoopMoves(Answer(GRANT, 0)));
    w := Reach(c, w, Cancel);
  }

  /** A call started after cancellation, for a claim that was in flight. */
  lemma CallAfterCancellation(c: Config) returns (w: World, steps: seq<Step>)
    requires Usable(c) && NulFree(c.nonce)
    ensures Reachable(c, w) && w.cancelled && w.calls == [] && StartsCall(c, w, steps)
  {
    w := ClaimGranted(c);
    w := Reach(c, w, Cancel);
    GrantIsDispatched(10, 1);
    steps := AnswerStarts(c, w);
  }

  /** The supervisor of the call has seen the cancellation. */
  lemma CancellationObserved(c: Config) returns (w: World)
    requires Usable(c) && NulFree(c.nonce)
    ensures Reachable(c, w) && w.now == 1 && w.cancelled
    ensures w.calls == [Spawn(0, "outcome", 10, GRANT.tool, GRANT.tool in c.tools).(supervisor := Recheck)]
  {
    w := CallThenCancel(c);
    w := Reach(c, w, CallMoves(0, PollChannel));
    w := Reach(c, w, CallMoves(0, ObserveDone));
  }

  /** Its supervisor found no result and waits for the deadline. */
  lemma SupervisorLookedAway(c: Config) returns (w: World)
    requires Usable(c) && NulFree(c.nonce)
    ensures Reachable(c, w) && |w.calls| == 1 && w.now < w.calls[0].expiresAt
    ensures w.calls[0].supervisor.FinalWait? && w.calls[0].executor.Running? && w.calls[0].channel.None?
    ensures w.calls[0].tool == GRANT.tool
  {
    w := CancellationObserved(c);
    w := Reach(c, w, CallMoves(0, RecheckChannel));
    w := Reach(c, w, CallMoves(0, JudgeDeadline));
  }

  /** A result that was ready before its claim's deadline, and is not submitted. */
  lemma PunctualResultDropped(c: Config, handler: HandlerResult) returns (w: World, steps: seq<Step>)
    requires Usable(c) && NulFree(c.nonce) && c.mayReturn(GRANT.tool, handler)
    ensures Reachable(c, w) && |w.calls| == 1 && w.calls[0].channel.Some? && w.now < w.calls[0].expiresAt
    ensures Drops(c, w, steps, 0)
  {
    w := SupervisorLookedAway(c);
    w := Reach(c, w, CallMoves(0, HandlerReturns(handler)));
    w := Reach(c, w, CallMoves(0, BufferResult));
    steps := WaysToDrop(c, w, 0);
  }
}
