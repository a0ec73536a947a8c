/** The concurrency semaphore (agent/serverapi/tool_worker.go:86-151). */
module Slots {
  import opened Calls
  import opened ClaimLoop
  import opened Worker

  /** Executors that have not yet run their deferred release. */
  function Live(calls: seq<Call>): nat {
    if calls == [] then 0
    else Live(calls[..|calls| - 1]) + (if HoldsSlot(calls[|calls| - 1]) then 1 else 0)
  }

  lemma {:induction false} LiveUpdate(calls: seq<Call>, i: nat, call: Call)
    requires i < |calls|
    ensures Live(calls[i := call]) + (if HoldsSlot(calls[i]) then 1 else 0)
            == Live(calls) + (if HoldsSlot(call) then 1 else 0)
  {
    var n := |calls| - 1;
    if i == n {
      assert calls[i := call][..n] == calls[..n];
    } else {
      assert calls[i := call][..n] == calls[..n][i := call];
      LiveUpdate(calls[..n], i, call);
    }
  }

  lemma LiveAppend(calls: seq<Call>, call: Call)
    ensures Live(calls + [call]) == Live(calls) + (if HoldsSlot(call) then 1 else 0)
  {
    assert (calls + [call])[..|calls|] == calls;
  }

  lemma {:induction false} LiveCounts(calls: seq<Call>, i: nat)
    requires i < |calls| && HoldsSlot(calls[i])
    ensures Live(calls) >= 1
  {
    if i < |calls| - 1 {
      LiveCounts(calls[..|calls| - 1], i);
    }
  }

  predicate SlotInv(c: Config, w: World) {
    && w.occupied == (if w.loop.holds then 1 else 0) + Live(w.calls)
    && w.occupied <= c.maxCalls
    && PcInv(w.loop, w.cancelled)
  }

  lemma SlotLoopStep(c: Config, w: World, step: LoopStep)
    requires SlotInv(c, w) && Enabled(c, w, LoopMoves(step))
    ensures SlotInv(c, Next(c, w, LoopMoves(step)))
  {
    PcStep(c.nonce, c.poll, w.loop, w.now, w.cancelled, step);
    var started := Started(c, w, step);
    if started != [] {
      LiveAppend(w.calls, started[0]);
    } else {
      assert w.calls + started == w.calls;
    }
  }

  lemma SlotStep(c: Config, w: World, step: Step)
    requires SlotInv(c, w) && Enabled(c, w, step)
    ensures SlotInv(c, Next(c, w, step))
  {
    match step
    case LoopMoves(s) => SlotLoopStep(c, w, s);
    case CallMoves(i, s) =>
      LiveUpdate(w.calls, i, CallNext(w.calls[i], w.now, w.cancelled, c.poll, s));
    case _ =>
  }

  /** Every process about to release a slot finds the semaphore nonempty. */
  lemma ReleasesNeverBlock(c: Config, w: World, i: nat)
    requires SlotInv(c, w)
    ensures w.loop.pc.Failing? ==> Enabled(c, w, LoopMoves(Recover))
    ensures w.loop.pc.Idling? ==> Enabled(c, w, LoopMoves(Idle))
    ensures w.loop.pc.Dropping? ==> Enabled(c, w, LoopMoves(Drop))
    ensures i < |w.calls| && w.calls[i].executor.Releasing? ==> Enabled(c, w, CallMoves(i, ReleaseSlot))
  {
    if i < |w.calls| && w.calls[i].executor.Releasing? {
      LiveCounts(w.calls, i);
    }
  }

  /** While the loop may send a claim, at most `maxCalls - 1` executors are alive, expired claims included. */
  lemma ClaimsLeaveRoom(c: Config, w: World)
    requires SlotInv(c, w) && HoldingPc(w.loop.pc)
    ensures Live(w.calls) <= c.maxCalls - 1
  {
  }
}
