/** How often the worker asks for work (agent/serverapi/tool_worker.go:88-127). */
module Pacing {
  import opened Prelude
  import opened Protocol
  import opened Delivery
  import opened ClaimLoop
  import opened Worker
  import opened System

  /** The request brought no call: it failed, or there was none. */
  predicate Fruitless(reply: Option<ClaimReply>) {
    reply.Some? && (reply.value.Failed? || reply.value.Nothing?)
  }

  predicate Spaced(claims: seq<ClaimRequest>, poll: int) {
    forall k | 0 <= k < |claims| - 1 ::
      claims[k].sentAt + (if Fruitless(claims[k].reply) then poll else 0) <= claims[k + 1].sentAt
  }

  /** When the next request may follow a fruitless one. */
  predicate Rested(l: Loop, now: int, cancelled: bool, poll: int)
    requires l.claims != []
  {
    var due := Last(l.claims).sentAt + poll;
    match l.pc
    case Pausing(until) => due <= until
    case Head => cancelled || due <= now
    case Acquiring => due <= now
    case Checking => due <= now
    case Reading => due <= now
    case Requesting(_) => due <= now
    case Declining(_, _, _) => false
    case Rejecting(_, _) => false
    case Dropping => false
    case _ => true
  }

  predicate PaceInv(l: Loop, now: int, cancelled: bool, poll: int) {
    l.claims == [] || (
      && Spaced(l.claims, poll)
      && Last(l.claims).sentAt <= now
      && (Fruitless(Last(l.claims).reply) ==> Rested(l, now, cancelled, poll)))
  }

  lemma PaceLoopStep(nonce: string, poll: int, l: Loop, now: int, cancelled: bool, step: LoopStep)
    requires PaceInv(l, now, cancelled, poll) && LoopEnabled(l, now, cancelled, step)
    ensures PaceInv(LoopNext(nonce, poll, l, now, cancelled, step), now, cancelled, poll)
  {
    if step.Request? {
      PaceRequest(nonce, poll, l, now, cancelled);
    }
  }

  lemma PaceRequest(nonce: string, poll: int, l: Loop, now: int, cancelled: bool)
    requires PaceInv(l, now, cancelled, poll) && LoopEnabled(l, now, cancelled, LoopStep.Request)
    ensures PaceInv(LoopNext(nonce, poll, l, now, cancelled, LoopStep.Request), now, cancelled, poll)
  {
    var l' := LoopNext(nonce, poll, l, now, cancelled, LoopStep.Request);
    assert forall k | 0 <= k < |l.claims| :: l'.claims[k] == l.claims[k];
  }

  lemma {:induction false} PaceAlways(c: Config, w: World, steps: seq<Step>)
    requires PaceInv(w.loop, w.now, w.cancelled, c.poll) && Runs(c, w, steps)
    ensures var w' := After(c, w, steps); PaceInv(w'.loop, w'.now, w'.cancelled, c.poll)
    decreases |steps|
  {
    if steps != [] {
      if steps[0].LoopMoves? {
        PaceLoopStep(c.nonce, c.poll, w.loop, w.now, w.cancelled, steps[0].loopStep);
      }
      PaceAlways(c, Next(c, w, steps[0]), steps[1..]);
    }
  }

  lemma {:induction false} SpacedApart(claims: seq<ClaimRequest>, poll: int, i: nat, j: nat)
    requires Spaced(claims, poll) && i <= j < |claims|
    requires forall k | i <= k < j :: Fruitless(claims[k].reply)
    ensures claims[i].sentAt + Slept(j - i, poll) <= claims[j].sentAt
    decreases j - i
  {
    if i < j {
      SpacedApart(claims, poll, i, j - 1);
      SleptNext(j - 1 - i, poll);
    }
  }

  /** A worker without work polls at most once per poll interval: between two claim requests with only
      failures and empty replies from the first up to the second, a pause passes for each of them. So
      within `span` there are at most `span / poll` more requests. */
  lemma PollsAreSpaced(c: Config, w: World, i: nat, j: nat)
    requires Reachable(c, w) && i <= j < |w.loop.claims|
    requires forall k | i <= k < j :: Fruitless(w.loop.claims[k].reply)
    ensures var span := w.loop.claims[j].sentAt - w.loop.claims[i].sentAt;
      Slept(j - i, c.poll) <= span && j - i <= span / c.poll
  {
    var ack: Registration, now: int, steps: seq<Step> :| Reaches(c, ack, now, steps, w);
    PaceAlways(c, Start(c, ack, now), steps);
    SpacedApart(w.loop.claims, c.poll, i, j);
    QuotientBound(j - i, c.poll, w.loop.claims[j].sentAt - w.loop.claims[i].sentAt);
  }

  /** A pause after a fruitless request ends when the poll interval is over, and only cancellation cuts it short. */
  lemma PausesEnd(c: Config, w: World, later: int)
    requires Reachable(c, w) && !w.cancelled && (w.loop.pc.Idling? || w.loop.pc.Failing?) && w.now <= later
    ensures var step := LoopMoves(if w.loop.pc.Idling? then Idle else Recover);
      && Enabled(c, w, step)
      && var w' := Next(c, w, step);
      && w'.loop.pc.Pausing? && !w'.loop.holds
      && (Enabled(c, w'.(now := later), LoopMoves(WakeUp)) <==> w.now + c.poll <= later)
      && Enabled(c, w'.(cancelled := true), LoopMoves(WakeUp))
  {
    SlotConservation(c, w, 0);
  }
}
