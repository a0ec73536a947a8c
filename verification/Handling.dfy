/** From a claim reply to the outcome that is submitted for it (agent/serverapi/tool_worker.go:107-172). */
module Handling {
  import opened Prelude
  import opened Keys
  import opened Outcomes
  import opened Protocol
  import opened Delivery
  import opened Calls
  import opened ClaimLoop
  import opened Worker

  // ---- each call on its own -------------------------------------------------

  /** The outcome is what `execute` makes of a result the handler of `tool` can yield; an identity that
      is not registered has no handler. */
  ghost predicate ProducedBy(c: Config, tool: Identity, outcome: Outcome) {
    if tool in c.tools then exists h :: c.mayReturn(tool, h) && outcome == Execute(true, h)
    else outcome == InternalFailure()
  }

  ghost predicate OwnProduct(c: Config, call: Call) {
    && call.registered == (call.tool in c.tools)
    && (call.produced.Some? ==> ProducedBy(c, call.tool, call.produced.value))
  }

  ghost predicate CallsInv(c: Config, w: World) {
    && Usable(c) && w.now > ZERO_TIME
    && (forall i | 0 <= i < |w.calls| :: CallInv(w.calls[i], w.now, c.poll) && OwnProduct(c, w.calls[i]))
    && (w.loop.pc.Declining? ==> Overdue(w.loop.pc.deadline, w.now))
    && (w.loop.pc.Rejecting? ==> RejectionInv(w.loop.pc.delivery, w.now, c.poll))
  }

  /** A declined claim's deadline: missing, or already past. */
  predicate Overdue(deadline: int, now: int) {
    deadline == ZERO_TIME || deadline <= now
  }

  ghost predicate RejectionInv(d: Delivery, now: int, poll: int) {
    && Paced(d, now, poll)
    && d.underRun && !d.phase.Finished? && d.ctxEnd == d.startedAt + OUTCOME_TIMEOUT
    && Overdue(d.deadline, d.startedAt)
  }

  lemma DeclinedIsOverdue(wire: ClaimWire, now: int, call: nat)
    requires ReplyTo(wire, now, call).Declined?
    ensures ReplyTo(wire, now, call).ack.Claimed? && Overdue(ReplyTo(wire, now, call).ack.expiresAt, now)
  {
  }

  lemma CallsLoopStep(c: Config, w: World, step: LoopStep)
    requires CallsInv(c, w) && Enabled(c, w, LoopMoves(step))
    ensures CallsInv(c, Next(c, w, LoopMoves(step)))
  {
    var w' := Next(c, w, LoopMoves(step));
    match step
    case Answer(wire, call) =>
      var reply := ReplyTo(wire, w.now, call);
      if reply.Declined? {
        DeclinedIsOverdue(wire, w.now, call);
      } else if reply.Dispatched? {
        SpawnInv(|w.loop.claims| - 1, reply.ack.outcomeToken, reply.ack.expiresAt, reply.ack.tool, reply.ack.tool in c.tools, w.now, c.poll);
      }
    case Reject(s) => PacedStep(w.loop.pc.delivery, w.now, w.cancelled, c.poll, s);
    case _ =>
  }

  lemma CallsTick(c: Config, w: World, to: int)
    requires CallsInv(c, w) && w.now <= to
    ensures CallsInv(c, w.(now := to))
  {
    forall i | 0 <= i < |w.calls| ensures CallInv(w.calls[i], to, c.poll) {
      CallLater(w.calls[i], w.now, to, c.poll);
    }
    if w.loop.pc.Rejecting? {
      PacedLater(w.loop.pc.delivery, w.now, to, c.poll);
    }
  }

  lemma CallsStep(c: Config, w: World, step: Step)
    requires CallsInv(c, w) && Enabled(c, w, step)
    ensures CallsInv(c, Next(c, w, step))
  {
    match step
    case Tick(to) => CallsTick(c, w, to);
    case LoopMoves(s) => CallsLoopStep(c, w, s);
    case CallMoves(i, s) => CallStepInv(w.calls[i], w.now, w.cancelled, c.poll, s);
    case _ =>
  }

  // ---- claims and calls point at each other ---------------------------------

  predicate DispatchedTo(c: Config, calls: seq<Call>, request: nat, ack: ClaimAck, n: nat) {
    && n < |calls| && ack.Claimed? && ack.expiryIsValid
    && calls[n].request == request && calls[n].token == ack.outcomeToken
    && calls[n].expiresAt == ack.expiresAt && calls[n].tool == ack.tool
  }

  predicate ReplyLinked(c: Config, calls: seq<Call>, request: nat, reply: ClaimReply) {
    match reply
    case Dispatched(ack, n) => DispatchedTo(c, calls, request, ack, n)
    case Declined(ack) => ack.Claimed? && !ack.expiryIsValid
    case _ => true
  }

  predicate RepliesLinked(c: Config, claims: seq<ClaimRequest>, calls: seq<Call>) {
    forall i | 0 <= i < |claims| && claims[i].reply.Some? :: ReplyLinked(c, calls, i, claims[i].reply.value)
  }

  predicate CallsLinked(claims: seq<ClaimRequest>, calls: seq<Call>) {
    forall n | 0 <= n < |calls| ::
      && calls[n].request < |claims|
      && claims[calls[n].request].reply.Some?
      && claims[calls[n].request].reply.value.Dispatched?
      && claims[calls[n].request].reply.value.call == n
  }

  predicate RejectionLinked(l: Loop) {
    && (l.pc.Declining? ==> DeclinedFor(l.claims, l.pc.request, l.pc.token, l.pc.deadline))
    && (l.pc.Rejecting? ==>
          && DeclinedFor(l.claims, l.pc.request, l.pc.delivery.token, l.pc.delivery.deadline)
          && l.pc.delivery.outcome == InternalFailure())
  }

  predicate DeclinedFor(claims: seq<ClaimRequest>, request: nat, token: string, deadline: int) {
    && request < |claims| && claims[request].reply.Some? && claims[request].reply.value.Declined?
    && claims[request].reply.value.ack.Claimed?
    && claims[request].reply.value.ack.outcomeToken == token
    && claims[request].reply.value.ack.expiresAt == deadline
  }

  predicate LinkInv(c: Config, w: World) {
    RepliesLinked(c, w.loop.claims, w.calls) && CallsLinked(w.loop.claims, w.calls) && RejectionLinked(w.loop)
  }

  /** The last request, unanswered so far, gets its reply, and the call it starts is appended. */
  lemma LinkReply(c: Config, claims: seq<ClaimRequest>, calls: seq<Call>, reply: ClaimReply, started: seq<Call>)
    requires RepliesLinked(c, claims, calls) && CallsLinked(claims, calls)
    requires claims != [] && Last(claims).reply.None?
    requires reply.Dispatched? ==>
               |started| == 1 && reply.call == |calls| && DispatchedTo(c, calls + started, |claims| - 1, reply.ack, |calls|)
    requires !reply.Dispatched? ==> started == []
    requires reply.Declined? ==> ReplyLinked(c, calls, |claims| - 1, reply)
    ensures RepliesLinked(c, Replied(claims, reply), calls + started)
    ensures CallsLinked(Replied(claims, reply), calls + started)
  {
    var claims', calls' := Replied(claims, reply), calls + started;
    var last := |claims| - 1;
    forall i | 0 <= i < |claims'| && claims'[i].reply.Some?
      ensures ReplyLinked(c, calls', i, claims'[i].reply.value)
    {
      if i < last {
        assert claims'[i] == claims[i];
        assert ReplyLinked(c, calls, i, claims[i].reply.value);
      }
    }
    forall n | 0 <= n < |calls| ensures calls'[n] == calls[n] && calls[n].request < last {
    }
  }

  lemma LinkAnswer(c: Config, w: World, wire: ClaimWire, call: nat)
    requires LinkInv(c, w) && KeyInv(c.nonce, w.loop) && Enabled(c, w, LoopMoves(Answer(wire, call)))
    ensures LinkInv(c, Next(c, w, LoopMoves(Answer(wire, call))))
  {
    LinkReply(c, w.loop.claims, w.calls, ReplyTo(wire, w.now, call), Started(c, w, Answer(wire, call)));
  }

  lemma LinkLoopStep(c: Config, w: World, step: LoopStep)
    requires LinkInv(c, w) && KeyInv(c.nonce, w.loop) && Enabled(c, w, LoopMoves(step))
    ensures LinkInv(c, Next(c, w, LoopMoves(step)))
  {
    match step
    case Answer(wire, call) => LinkAnswer(c, w, wire, call);
    case Error(err) =>
      LinkReply(c, w.loop.claims, w.calls, Failed(err), []);
      assert w.calls + [] == w.calls;
    case Request =>
      LinkRequest(c, w);
    case _ =>
      assert w.calls + [] == w.calls;
  }

  lemma LinkRequest(c: Config, w: World)
    requires LinkInv(c, w) && Enabled(c, w, LoopMoves(ClaimLoop.Request))
    ensures LinkInv(c, Next(c, w, LoopMoves(ClaimLoop.Request)))
  {
    var w' := Next(c, w, LoopMoves(ClaimLoop.Request));
    assert w'.calls == w.calls;
    assert forall i | 0 <= i < |w.loop.claims| :: w'.loop.claims[i] == w.loop.claims[i];
  }

  lemma LinkStep(c: Config, w: World, step: Step)
    requires LinkInv(c, w) && KeyInv(c.nonce, w.loop) && Enabled(c, w, step)
    ensures LinkInv(c, Next(c, w, step))
  {
    match step
    case LoopMoves(s) => LinkLoopStep(c, w, s);
    case CallMoves(n, s) =>
      var call' := CallNext(w.calls[n], w.now, w.cancelled, c.poll, s);
      assert call'.request == w.calls[n].request && call'.token == w.calls[n].token
             && call'.expiresAt == w.calls[n].expiresAt && call'.tool == w.calls[n].tool;
    case _ =>
  }

  // ---- what is submitted ----------------------------------------------------

  /** The submission belongs to a claim the worker received, and carries that claim's token and key
      with what its own handler produced, or with the internal failure if it was declined. */
  predicate SentFor(claims: seq<ClaimRequest>, calls: seq<Call>, s: Sent) {
    && s.request < |claims| && claims[s.request].reply.Some?
    && match claims[s.request].reply.value
       case Dispatched(ack, n) =>
         && n < |calls| && ack.Claimed?
         && calls[n].produced == Some(s.submission.outcome)
         && s.submission == Submission(OutcomeKey(ack.outcomeToken), ack.outcomeToken, s.submission.outcome)
       case Declined(ack) =>
         && ack.Claimed?
         && s.submission == Submission(OutcomeKey(ack.outcomeToken), ack.outcomeToken, InternalFailure())
       case _ => false
  }

  predicate SentInv(w: World) {
    forall s | s in w.sent :: SentFor(w.loop.claims, w.calls, s)
  }

  /** Calls are only appended, and what a handler produced, once known, stays. */
  predicate Production(before: seq<Call>, after: seq<Call>) {
    && |before| <= |after|
    && (forall n | 0 <= n < |before| :: before[n].produced.Some? ==> after[n].produced == before[n].produced)
  }

  lemma SentStays(before: World, after: World)
    requires SentInv(before)
    requires History(before.loop.claims, after.loop.claims) && Production(before.calls, after.calls)
    ensures forall s | s in before.sent :: SentFor(after.loop.claims, after.calls, s)
  {
  }

  lemma SentLoopStep(c: Config, w: World, step: LoopStep)
    requires SentInv(w) && LinkInv(c, w) && KeyInv(c.nonce, w.loop) && Enabled(c, w, LoopMoves(step))
    ensures SentInv(Next(c, w, LoopMoves(step)))
  {
    var w' := Next(c, w, LoopMoves(step));
    LoopHistory(c.nonce, c.poll, w.loop, w.now, w.cancelled, step);
    SentStays(w, w');
    var more := SentByLoop(w.loop, step);
    if more != [] {
      assert w'.loop.claims == w.loop.claims;
      assert SentFor(w'.loop.claims, w'.calls, more[0]);
    }
  }

  lemma SentCallStep(c: Config, w: World, n: nat, step: CallStep)
    requires SentInv(w) && LinkInv(c, w) && CallsInv(c, w) && Enabled(c, w, CallMoves(n, step))
    ensures SentInv(Next(c, w, CallMoves(n, step)))
  {
    var w' := Next(c, w, CallMoves(n, step));
    var call := w.calls[n];
    assert CallInv(call, w.now, c.poll);
    assert Production(w.calls, w'.calls);
    SentStays(w, w');
    var more := SentByCall(call, step);
    if more != [] {
      var reply := w.loop.claims[call.request].reply.value;
      assert reply.call == n;
      assert SentFor(w'.loop.claims, w'.calls, more[0]);
    }
  }

  lemma SentStep(c: Config, w: World, step: Step)
    requires SentInv(w) && LinkInv(c, w) && CallsInv(c, w) && KeyInv(c.nonce, w.loop) && Enabled(c, w, step)
    ensures SentInv(Next(c, w, step))
  {
    match step
    case LoopMoves(s) => SentLoopStep(c, w, s);
    case CallMoves(n, s) => SentCallStep(c, w, n, s);
    case _ =>
  }
}
