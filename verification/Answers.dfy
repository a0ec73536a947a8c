/** Every claim the worker takes is answered (agent/serverapi/tool_worker.go:129-172). */
module Answers {
  import opened Protocol
  import opened Calls
  import opened ClaimLoop
  import opened Worker
  import opened Handling
  import opened System

  /** An outcome has been submitted for the claim answered to this request. */
  predicate SubmittedFor(sent: seq<Sent>, request: nat) {
    exists k :: 0 <= k < |sent| && sent[k].request == request
  }

  lemma SubmittedStays(before: seq<Sent>, more: seq<Sent>, request: nat)
    ensures SubmittedFor(before, request) ==> SubmittedFor(before + more, request)
    ensures more != [] && more[0].request == request ==> SubmittedFor(before + more, request)
  {
    if SubmittedFor(before, request) {
      var k :| 0 <= k < |before| && before[k].request == request;
      assert (before + more)[k] == before[k];
    }
    if more != [] {
      assert (before + more)[|before|] == more[0];
    }
  }

  /** The failure for this declined claim is still to be submitted. */
  predicate Unanswered(l: Loop, request: nat) {
    || (l.pc.Declining? && l.pc.request == request)
    || (l.pc.Rejecting? && l.pc.request == request && l.pc.delivery.attempts == 0)
  }

  predicate DeclinedAnswered(l: Loop, sent: seq<Sent>) {
    forall i | 0 <= i < |l.claims| && l.claims[i].reply.Some? && l.claims[i].reply.value.Declined? ::
      Unanswered(l, i) || SubmittedFor(sent, i)
  }

  predicate CallsAnswered(calls: seq<Call>, sent: seq<Sent>) {
    forall n | 0 <= n < |calls| && calls[n].supervisor.Delivering? && calls[n].supervisor.delivery.attempts >= 1 ::
      SubmittedFor(sent, calls[n].request)
  }

  predicate AnswersInv(w: World) {
    DeclinedAnswered(w.loop, w.sent) && CallsAnswered(w.calls, w.sent)
  }

  lemma LoopKeepsAnswers(c: Config, w: World, step: LoopStep)
    requires KeyInv(c.nonce, w.loop) && CallsInv(c, w) && DeclinedAnswered(w.loop, w.sent) && Enabled(c, w, LoopMoves(step))
    ensures DeclinedAnswered(Next(c, w, LoopMoves(step)).loop, Next(c, w, LoopMoves(step)).sent)
  {
    var w' := Next(c, w, LoopMoves(step));
    forall i | 0 <= i < |w'.loop.claims| && w'.loop.claims[i].reply.Some? && w'.loop.claims[i].reply.value.Declined?
      ensures Unanswered(w'.loop, i) || SubmittedFor(w'.sent, i)
    {
      SubmittedStays(w.sent, SentByLoop(w.loop, step), i);
      if i < |w.loop.claims| && w.loop.claims[i].reply.Some? {
        if Unanswered(w.loop, i) {
          OldDeclineStaysAnswered(c, w, step, i);
        }
      } else {
        NewReplies(c.nonce, c.poll, w.loop, w.now, w.cancelled, step, i);
      }
    }
  }

  lemma OldDeclineStaysAnswered(c: Config, w: World, step: LoopStep, i: nat)
    requires CallsInv(c, w) && Enabled(c, w, LoopMoves(step)) && Unanswered(w.loop, i)
    ensures Unanswered(Next(c, w, LoopMoves(step)).loop, i)
            || (SentByLoop(w.loop, step) != [] && SentByLoop(w.loop, step)[0].request == i)
  {
  }

  lemma CallsKeepAnswers(c: Config, w: World, step: Step)
    requires AnswersInv(w) && Enabled(c, w, step)
    ensures CallsAnswered(Next(c, w, step).calls, Next(c, w, step).sent)
  {
    var w' := Next(c, w, step);
    forall n | 0 <= n < |w'.calls| && w'.calls[n].supervisor.Delivering? && w'.calls[n].supervisor.delivery.attempts >= 1
      ensures SubmittedFor(w'.sent, w'.calls[n].request)
    {
      match step
      case LoopMoves(s) => SubmittedStays(w.sent, SentByLoop(w.loop, s), w'.calls[n].request);
      case CallMoves(m, s) => SubmittedStays(w.sent, SentByCall(w.calls[m], s), w'.calls[n].request);
      case _ =>
    }
  }

  lemma AnswersStep(c: Config, w: World, step: Step)
    requires Inv(c, w) && AnswersInv(w) && Enabled(c, w, step)
    ensures AnswersInv(Next(c, w, step))
  {
    CallsKeepAnswers(c, w, step);
    match step
    case LoopMoves(s) => LoopKeepsAnswers(c, w, s);
    case CallMoves(n, s) =>
      forall i | SubmittedFor(w.sent, i) ensures SubmittedFor(Next(c, w, step).sent, i) {
        SubmittedStays(w.sent, SentByCall(w.calls[n], s), i);
      }
    case _ =>
  }

  lemma {:induction false} AnswersAlways(c: Config, w: World, steps: seq<Step>)
    requires Inv(c, w) && AnswersInv(w) && Runs(c, w, steps)
    ensures AnswersInv(After(c, w, steps))
    decreases |steps|
  {
    if steps != [] {
      InvStep(c, w, steps[0]);
      AnswersStep(c, w, steps[0]);
      AnswersAlways(c, Next(c, w, steps[0]), steps[1..]);
    }
  }

  lemma ReachableAnswers(c: Config, w: World)
    requires Reachable(c, w)
    ensures AnswersInv(w)
  {
    var ack: Registration, now: int, steps: seq<Step> :| Reaches(c, ack, now, steps, w);
    InvStart(c, ack, now);
    AnswersAlways(c, Start(c, ack, now), steps);
  }

  lemma EndedCallIsAnswered(c: Config, w: World, n: nat)
    requires CallsInv(c, w) && CallsAnswered(w.calls, w.sent) && n < |w.calls| && SupervisorEnded(w.calls[n])
    ensures SubmittedFor(w.sent, w.calls[n].request)
            || (w.calls[n].supervisor.Abandoned? && w.now >= w.calls[n].expiresAt)
  {
    assert CallInv(w.calls[n], w.now, c.poll);
  }

  /** In every reachable state a claim the worker could not dispatch has had its failure submitted, or that is
      what the loop is about to do; and a claim that was dispatched has had an outcome submitted when its
      supervisor has ended, unless the supervisor ended at or after the deadline. */
  lemma ClaimsAreAnswered(c: Config, w: World, i: nat)
    requires Reachable(c, w) && i < |w.loop.claims| && w.loop.claims[i].reply.Some?
    ensures w.loop.claims[i].reply.value.Declined? ==> Unanswered(w.loop, i) || SubmittedFor(w.sent, i)
    ensures w.loop.claims[i].reply.value.Dispatched? ==>
              var n := w.loop.claims[i].reply.value.call;
              && n < |w.calls| && w.calls[n].request == i
              && (SupervisorEnded(w.calls[n]) ==>
                    SubmittedFor(w.sent, i) || (w.calls[n].supervisor.Abandoned? && w.now >= w.calls[n].expiresAt))
  {
    ReachableInv(c, w);
    ReachableAnswers(c, w);
    var reply := w.loop.claims[i].reply.value;
    assert ReplyLinked(c, w.calls, i, reply);
    if reply.Dispatched? && SupervisorEnded(w.calls[reply.call]) {
      EndedCallIsAnswered(c, w, reply.call);
    }
  }
}
