/** Delivering one outcome with retries (`submitOutcomeWithRetry`, agent/serverapi/tool_worker.go:293-324),
    as the steps the worker interleaves and as the loop itself. */
module Delivery {
  import opened Prelude
  import opened Errors
  import opened Outcomes
  import opened Protocol
  import opened Keys

  datatype Phase =
    | Ready                    // about to call submitOutcome
    | InFlight(doomed: bool)   // request sent; doomed when its context had already ended
    | Deciding                 // a retryable error came back
    | Sleeping(until: int)
    | Finished

  /** `ctxEnd` is the deadline of the outcome context; `underRun` says that context is a child
      of the run context, so that shutdown ends it too. */
  datatype Delivery = Delivery(
    token: string, outcome: Outcome, deadline: int,
    ctxEnd: int, underRun: bool, startedAt: int, attempts: nat, phase: Phase)

  datatype DeliveryStep =
    | Send
    | Reply(reply: Exchange<OutcomeWire>)
    | Decide
    | Wake(expired: bool)

  predicate ContextDone(d: Delivery, now: int, cancelled: bool) {
    now >= d.ctxEnd || (d.underRun && cancelled)
  }

  /** `deadline` leaves no room for another attempt after a pause of `poll` (line 300). */
  predicate NoTimeLeft(now: int, poll: int, deadline: int) {
    deadline != ZERO_TIME && now + poll > deadline
  }

  predicate StepEnabled(d: Delivery, now: int, cancelled: bool, step: DeliveryStep) {
    match step
    case Send => d.phase.Ready?
    case Reply(reply) => d.phase.InFlight? && (d.phase.doomed ==> !IsRetryable(ReadOutcome(reply)))
    case Decide => d.phase.Deciding?
    case Wake(expired) => d.phase.Sleeping? && (if expired then ContextDone(d, now, cancelled) else now >= d.phase.until)
  }

  function Advance(d: Delivery, now: int, cancelled: bool, poll: int, step: DeliveryStep): Delivery
    requires StepEnabled(d, now, cancelled, step)
  {
    match step
    case Send => d.(attempts := d.attempts + 1, phase := InFlight(ContextDone(d, now, cancelled)))
    case Reply(reply) => d.(phase := if IsRetryable(ReadOutcome(reply)) then Deciding else Finished)
    case Decide => d.(phase := if NoTimeLeft(now, poll, d.deadline) then Finished else Sleeping(now + poll))
    case Wake(expired) => d.(phase := if expired then Finished else Ready)
  }

  /** Time already spent sleeping before attempt `n`. */
  function Slept(n: int, poll: int): int {
    n * poll
  }

  lemma SleptNext(n: int, poll: int)
    ensures Slept(n + 1, poll) == Slept(n, poll) + poll
  {
  }

  /** Attempts are at least `poll` apart; all but the first fit before a nonzero deadline,
      all but the last before the end of the context. */
  ghost predicate Paced(d: Delivery, now: int, poll: int) {
    && d.startedAt <= now
    && (d.attempts == 0 ==> d.phase.Ready?)
    && (d.attempts >= 1 ==> d.startedAt + Slept(d.attempts - 1, poll) <= now)
    && (d.attempts >= 2 && d.deadline != ZERO_TIME ==> d.startedAt + Slept(d.attempts - 1, poll) <= d.deadline)
    && (d.attempts >= 2 ==> d.startedAt + Slept(d.attempts - 2, poll) < d.ctxEnd)
    && (d.attempts >= 1 && (d.phase.Ready? || d.phase.Sleeping? || d.phase.Deciding? || d.phase == InFlight(false)) ==>
          d.startedAt + Slept(d.attempts - 1, poll) < d.ctxEnd)
    && (d.attempts >= 1 && d.phase.Ready? ==>
          d.startedAt + Slept(d.attempts, poll) <= now
          && (d.deadline != ZERO_TIME ==> d.startedAt + Slept(d.attempts, poll) <= d.deadline))
    && (d.phase.Sleeping? ==>
          d.startedAt + Slept(d.attempts, poll) <= d.phase.until
          && (d.deadline != ZERO_TIME ==> d.phase.until <= d.deadline))
  }

  lemma PacedLater(d: Delivery, now: int, later: int, poll: int)
    requires Paced(d, now, poll) && now <= later
    ensures Paced(d, later, poll)
  {
  }

  lemma PacedStep(d: Delivery, now: int, cancelled: bool, poll: int, step: DeliveryStep)
    requires Paced(d, now, poll) && poll > 0 && StepEnabled(d, now, cancelled, step)
    ensures Paced(Advance(d, now, cancelled, poll, step), now, poll)
  {
    SleptNext(d.attempts - 1, poll);
    assert d.attempts == 0 ==> Slept(d.attempts, poll) == 0;
  }

  /** A failed attempt is repeated after a pause of exactly `poll`, if the error may pass and time is left. */
  lemma RetryTakesPlace(d: Delivery, now: int, poll: int, reply: Exchange<OutcomeWire>, later: int, cancelled: bool)
    requires d.phase == InFlight(false) && WorthRepeating(reply) && poll > 0
    requires d.deadline == 0 || now + poll <= d.deadline
    ensures StepEnabled(d, now, cancelled, Reply(reply))
    ensures var d1 := Advance(d, now, cancelled, poll, Reply(reply));
      && StepEnabled(d1, now, cancelled, Decide)
      && var d2 := Advance(d1, now, cancelled, poll, Decide);
      && (StepEnabled(d2, later, cancelled, Wake(false)) <==> now + poll <= later)
      && (now + poll <= later ==> Advance(d2, later, cancelled, poll, Wake(false)) == d.(phase := Ready))
  {
    OutcomeReplies(reply);
  }

  /** What ends a delivery: a reply that settles the outcome or is not worth repeating, no time for another
      attempt, or the end of its context during a pause. Everything else continues it. */
  predicate EndsIt(d: Delivery, now: int, poll: int, step: DeliveryStep) {
    match step
    case Send => false
    case Reply(reply) => !WorthRepeating(reply)
    case Decide => d.deadline != 0 && now + poll > d.deadline
    case Wake(expired) => expired
  }

  lemma DeliveryEnds(d: Delivery, now: int, cancelled: bool, poll: int, step: DeliveryStep)
    requires StepEnabled(d, now, cancelled, step)
    ensures Advance(d, now, cancelled, poll, step).phase.Finished? <==> EndsIt(d, now, poll, step)
  {
    if step.Reply? {
      OutcomeReplies(step.reply);
    }
  }

  /** `max(0, deadline - start)/p + 1` attempts against a nonzero deadline. */
  function AttemptBound(start: int, poll: int, deadline: int): int
    requires poll > 0
  {
    (if deadline > start then deadline - start else 0) / poll + 1
  }

  lemma QuotientBound(n: nat, poll: int, room: int)
    requires poll > 0 && Slept(n, poll) <= room
    ensures n <= room / poll
  {
    var q := room / poll;
    assert room == q * poll + room % poll;
    assert n * poll < (q + 1) * poll;
  }

  /** The bound holds in every paced state, hence at every moment of every delivery. */
  lemma PacedBound(d: Delivery, now: int, poll: int)
    requires Paced(d, now, poll) && poll > 0
    ensures d.deadline != ZERO_TIME ==> d.attempts <= AttemptBound(d.startedAt, poll, d.deadline)
    ensures d.attempts >= 2 ==> Slept(d.attempts - 2, poll) < d.ctxEnd - d.startedAt
  {
    if d.deadline != ZERO_TIME && d.attempts >= 2 {
      assert Slept(d.attempts - 1, poll) >= 0;
      QuotientBound(d.attempts - 1, poll, d.deadline - d.startedAt);
    }
  }

  /** A delivery that starts at or after its deadline gets a single attempt. */
  lemma LateDeliveryTriesOnce(d: Delivery, now: int, poll: int)
    requires Paced(d, now, poll) && poll > 0 && d.deadline != ZERO_TIME && d.deadline <= d.startedAt
    ensures d.attempts <= 1
  {
    if d.attempts >= 2 {
      SleptAtLeast(d.attempts - 1, poll);
    }
  }

  /** One request to the outcome endpoint. */
  datatype Submission = Submission(key: string, token: string, outcome: Outcome)

  /** What happens around one attempt: when it is sent, when its reply is judged, the reply,
      and, should a pause follow, whether the context ends it. */
  datatype Attempt = Attempt(sentAt: int, judgedAt: int, reply: Exchange<OutcomeWire>, expired: bool)

  /** Clocks run forward, a pause that is not cut short lasts at least `poll`, and a request
      sent after its context has ended fails with the context's error. */
  ghost predicate Plausible(env: nat -> Attempt, poll: int, ctxEnd: int) {
    && (forall k: nat :: env(k).sentAt <= env(k).judgedAt)
    && (forall k: nat :: env(k).sentAt >= ctxEnd ==> !WorthRepeating(env(k).reply))
    && (forall k: nat :: !env(k).expired ==> env(k).judgedAt + poll <= env(k + 1).sentAt)
  }

  /** One pass of the loop takes `Send`, `Reply` and, when it goes on, `Decide` and `Wake`. */
  lemma Pass(d: Delivery, a: Attempt, woken: int, poll: int)
    requires poll > 0 && d.phase.Ready? && !d.underRun && Paced(d, a.sentAt, poll) && a.sentAt <= a.judgedAt
    requires a.sentAt >= d.ctxEnd ==> !WorthRepeating(a.reply)
    ensures d.deadline != ZERO_TIME ==> d.attempts + 1 <= AttemptBound(d.startedAt, poll, d.deadline)
    ensures d.attempts >= 1 ==> Slept(d.attempts - 1, poll) < d.ctxEnd - d.startedAt
    ensures WorthRepeating(a.reply) && !NoTimeLeft(a.judgedAt, poll, d.deadline) && a.judgedAt + poll <= woken ==>
              Paced(d.(attempts := d.attempts + 1), woken, poll) && d.attempts < d.ctxEnd - d.startedAt
    ensures IsRetryable(ReadOutcome(a.reply)) <==> WorthRepeating(a.reply)
    ensures ReadOutcome(a.reply).None? <==> Settled(a.reply)
  {
    OutcomeReplies(a.reply);
    PacedStep(d, a.sentAt, false, poll, Send);
    var d1 := Advance(d, a.sentAt, false, poll, Send);
    PacedLater(d1, a.sentAt, a.judgedAt, poll);
    PacedBound(d1, a.judgedAt, poll);
    if WorthRepeating(a.reply) {
      PacedStep(d1, a.judgedAt, false, poll, Reply(a.reply));
      var d2 := Advance(d1, a.judgedAt, false, poll, Reply(a.reply));
      PacedStep(d2, a.judgedAt, false, poll, Decide);
      var d3 := Advance(d2, a.judgedAt, false, poll, Decide);
      if d3.phase.Sleeping? && a.judgedAt + poll <= woken {
        PacedLater(d3, a.judgedAt, woken, poll);
        PacedStep(d3, woken, false, poll, Wake(false));
        SleptAtLeast(d.attempts, poll);
      }
    }
  }

  lemma SleptAtLeast(n: nat, poll: int)
    requires poll > 0
    ensures Slept(n, poll) >= n
  {
  }

  /** The attempt is not the last: its reply is worth repeating, another fits before the deadline, and the
      context survives the pause. */
  predicate GoesOn(a: Attempt, poll: int, deadline: int) {
    WorthRepeating(a.reply) && (deadline == 0 || a.judgedAt + poll <= deadline) && !a.expired
  }

  /** What the loop returns after its last attempt. */
  function FinalError(a: Attempt, poll: int, deadline: int, ctxErr: GoError): Option<GoError> {
    if WorthRepeating(a.reply) && (deadline == 0 || a.judgedAt + poll <= deadline) then Some(ctxErr)
    else ReadOutcome(a.reply)
  }

  /** The two tests of the loop and what it returns at each. */
  lemma StopsUnlessItGoesOn(a: Attempt, poll: int, deadline: int, ctxErr: GoError)
    ensures var stops := !IsRetryable(ReadOutcome(a.reply)) || NoTimeLeft(a.judgedAt, poll, deadline);
      && (GoesOn(a, poll, deadline) <==> !stops && !a.expired)
      && (stops ==> FinalError(a, poll, deadline, ctxErr) == ReadOutcome(a.reply))
      && (!stops ==> WorthRepeating(a.reply) && FinalError(a, poll, deadline, ctxErr) == Some(ctxErr))
  {
    OutcomeReplies(a.reply);
  }

  /** After 408, 429 and any 5xx the loop goes on while time is left, after any other refusal it does not;
      and it returns no error exactly if the server settled the outcome. */
  lemma LoopReadsStatus(a: Attempt, poll: int, deadline: int, ctxErr: GoError)
    ensures a.reply.Refused? ==>
              (GoesOn(a, poll, deadline) <==>
                && (a.reply.status == 408 || a.reply.status == 429 || a.reply.status >= 500)
                && !(deadline != 0 && a.judgedAt + poll > deadline) && !a.expired)
    ensures !GoesOn(a, poll, deadline) ==> (FinalError(a, poll, deadline, ctxErr).None? <==> Settled(a.reply))
  {
    OutcomeReplies(a.reply);
  }

  /** The loop itself. It goes on exactly while the outcome was throttled, timed out, met a failing server or
      was lost in transport, and time is left; it reports no error exactly if the server settled it; and it
      ends within the bound. */
  method SubmitOutcomeWithRetry(
    token: string, outcome: Outcome, deadline: int, poll: int, ctxEnd: int, ctxErr: GoError, env: nat -> Attempt)
    returns (err: Option<GoError>, sent: seq<Submission>)
    requires poll > 0 && Plausible(env, poll, ctxEnd)
    ensures sent != []
    ensures forall s | s in sent :: s == Submission(OutcomeKey(token), token, outcome)
    ensures forall k: nat | k < |sent| - 1 :: GoesOn(env(k), poll, deadline)
    ensures !GoesOn(env(|sent| - 1), poll, deadline) && err == FinalError(env(|sent| - 1), poll, deadline, ctxErr)
    ensures deadline != ZERO_TIME ==> |sent| <= AttemptBound(env(0).sentAt, poll, deadline)
    ensures |sent| >= 2 ==> Slept(|sent| - 2, poll) < ctxEnd - env(0).sentAt
  {
    var key := OutcomeKey(token);
    sent := [];
    ghost var d := Delivery(token, outcome, deadline, ctxEnd, false, env(0).sentAt, 0, Ready);
    while true
      invariant d == Delivery(token, outcome, deadline, ctxEnd, false, env(0).sentAt, |sent|, Ready)
      invariant Paced(d, env(|sent|).sentAt, poll)
      invariant forall s | s in sent :: s == Submission(key, token, outcome)
      invariant forall k: nat | k < |sent| :: GoesOn(env(k), poll, deadline)
      decreases ctxEnd - env(0).sentAt + 1 - |sent|
    {
      var attempt := env(|sent|);
      var woken := env(|sent| + 1).sentAt;
      Pass(d, attempt, woken, poll);
      StopsUnlessItGoesOn(attempt, poll, deadline, ctxErr);
      sent := sent + [Submission(key, token, outcome)];
      err := ReadOutcome(attempt.reply);
      if !IsRetryable(err) || NoTimeLeft(attempt.judgedAt, poll, deadline) {
        return err, sent;
      }
      if attempt.expired {
        return Some(ctxErr), sent;
      }
      d := d.(attempts := d.attempts + 1);
    }
  }
}
