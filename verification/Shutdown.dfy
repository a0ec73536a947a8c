/** Cancellation and return of `Run` (agent/serverapi/tool_worker.go:88-98, 113-115, 174-177). */
module Shutdown {
  import opened Calls
  import opened ClaimLoop
  import opened Worker

  predicate StopInv(w: World) {
    && (w.lease.beat.Stopped? ==> w.cancelled)
    && (w.loop.pc.AwaitingBeat? || w.loop.pc.Done? ==> AllEnded(w.calls))
    && (w.loop.pc.Done? ==> w.lease.beat.Stopped?)
  }

  lemma EndedStaysEnded(call: Call, now: int, cancelled: bool, poll: int, step: CallStep)
    requires CallEnabled(call, now, cancelled, step) && SupervisorEnded(call)
    ensures SupervisorEnded(CallNext(call, now, cancelled, poll, step))
    ensures !step.Deliver?
  {
  }

  lemma StopCallStep(c: Config, w: World, n: nat, step: CallStep)
    requires StopInv(w) && Enabled(c, w, CallMoves(n, step))
    ensures StopInv(Next(c, w, CallMoves(n, step)))
  {
    if SupervisorEnded(w.calls[n]) {
      EndedStaysEnded(w.calls[n], w.now, w.cancelled, c.poll, step);
    }
  }

  lemma StopLoopStep(c: Config, w: World, step: LoopStep)
    requires StopInv(w) && Enabled(c, w, LoopMoves(step))
    ensures StopInv(Next(c, w, LoopMoves(step)))
  {
    if Started(c, w, step) == [] {
      assert w.calls + Started(c, w, step) == w.calls;
    }
  }

  lemma StopStep(c: Config, w: World, step: Step)
    requires StopInv(w) && Enabled(c, w, step)
    ensures StopInv(Next(c, w, step))
  {
    match step
    case LoopMoves(s) => StopLoopStep(c, w, s);
    case CallMoves(n, s) => StopCallStep(c, w, n, s);
    case _ =>
  }

  /** Claim requests the loop may still make once cancelled: one, if it had already looked. */
  function MayRequest(pc: Pc): nat {
    if pc.Reading? || pc.Requesting? then 1 else 0
  }

  /** Calls the loop may still start once cancelled: one, if a claim was in flight. */
  function MayDispatch(l: Loop): nat {
    if l.pc.Awaiting? && l.claims != [] && !Last(l.claims).doomed then 1 else 0
  }

  predicate DoomedFrom(claims: seq<ClaimRequest>, n: nat) {
    forall k | n <= k < |claims| :: claims[k].doomed
  }

  lemma CancelledStep(c: Config, w: World, step: Step, n: nat)
    requires w.cancelled && Enabled(c, w, step)
    requires n <= |w.loop.claims| && DoomedFrom(w.loop.claims, n)
    ensures var w' := Next(c, w, step);
      && w'.cancelled
      && |w.loop.claims| <= |w'.loop.claims| && |w.calls| <= |w'.calls|
      && |w'.loop.claims| + MayRequest(w'.loop.pc) <= |w.loop.claims| + MayRequest(w.loop.pc)
      && |w'.calls| + MayDispatch(w'.loop) <= |w.calls| + MayDispatch(w.loop)
      && DoomedFrom(w'.loop.claims, n)
  {
  }

  /** From cancellation on, the loop makes at most one more claim request, and none if it was not already
      past its check; no request made since then goes out; and at most one call is started, and none if
      no claim was in flight. */
  lemma {:induction false} AfterCancellation(c: Config, w: World, steps: seq<Step>, n: nat)
    requires w.cancelled && Runs(c, w, steps)
    requires n <= |w.loop.claims| && DoomedFrom(w.loop.claims, n)
    ensures var w' := After(c, w, steps);
      && |w'.loop.claims| + MayRequest(w'.loop.pc) <= |w.loop.claims| + MayRequest(w.loop.pc)
      && |w'.calls| + MayDispatch(w'.loop) <= |w.calls| + MayDispatch(w.loop)
      && DoomedFrom(w'.loop.claims, n)
    decreases |steps|
  {
    if steps != [] {
      CancelledStep(c, w, steps[0], n);
      AfterCancellation(c, Next(c, w, steps[0]), steps[1..], n);
    }
  }

  lemma QuietStep(c: Config, w: World, step: Step)
    requires StopInv(w) && w.loop.pc.Done? && Enabled(c, w, step)
    ensures var w' := Next(c, w, step);
      w'.loop == w.loop && w'.sent == w.sent && w'.lease == w.lease && |w'.calls| == |w.calls|
  {
    match step
    case CallMoves(n, s) => EndedStaysEnded(w.calls[n], w.now, w.cancelled, c.poll, s);
    case _ =>
  }

  /** Nothing is requested, submitted or started once `Run` has returned. */
  lemma {:induction false} QuietAfterReturn(c: Config, w: World, steps: seq<Step>)
    requires StopInv(w) && w.loop.pc.Done? && Runs(c, w, steps)
    ensures var w' := After(c, w, steps);
      w'.loop == w.loop && w'.sent == w.sent && w'.lease == w.lease && |w'.calls| == |w.calls|
    decreases |steps|
  {
    if steps != [] {
      QuietStep(c, w, steps[0]);
      StopStep(c, w, steps[0]);
      QuietAfterReturn(c, Next(c, w, steps[0]), steps[1..]);
    }
  }
}
