/** What holds in every state of every run of the tool worker, and of every run as a whole. */
module System {
  import opened Prelude
  import opened Text
  import opened Errors
  import opened Keys
  import opened Outcomes
  import opened Protocol
  import opened Delivery
  import opened Maintenance
  import opened Calls
  import opened ClaimLoop
  import opened Lease
  import opened Worker
  import opened Slots
  import opened Handling
  import opened Grants
  import opened Shutdown

  predicate KnownToken(acked: set<Registration>, token: string) {
    exists ack :: ack in acked && ack.token == token
  }

  /** The loop claims only with tokens the server acknowledged. */
  predicate TokenInv(w: World) {
    && (w.loop.pc.Requesting? ==> KnownToken(w.lease.acked, w.loop.pc.token))
    && (forall i | 0 <= i < |w.loop.claims| :: KnownToken(w.lease.acked, w.loop.claims[i].token))
  }

  ghost predicate Inv(c: Config, w: World) {
    && SlotInv(c, w)
    && CallsInv(c, w)
    && KeyInv(c.nonce, w.loop)
    && LinkInv(c, w)
    && SentInv(w)
    && StoreInv(w)
    && Coherent(w.lease)
    && Named(w.lease)
    && TokenInv(w)
    && StopInv(w)
  }

  lemma TokenLoopStep(c: Config, w: World, step: LoopStep)
    requires TokenInv(w) && Coherent(w.lease) && KeyInv(c.nonce, w.loop) && Enabled(c, w, LoopMoves(step))
    ensures TokenInv(Next(c, w, LoopMoves(step)))
  {
    LoopHistory(c.nonce, c.poll, w.loop, w.now, w.cancelled, step);
  }

  lemma KnownStaysKnown(before: set<Registration>, after: set<Registration>, token: string)
    requires before <= after && KnownToken(before, token)
    ensures KnownToken(after, token)
  {
    var ack :| ack in before && ack.token == token;
    assert ack in after;
  }

  lemma TokenStep(c: Config, w: World, step: Step)
    requires TokenInv(w) && Coherent(w.lease) && KeyInv(c.nonce, w.loop) && Enabled(c, w, step)
    ensures TokenInv(Next(c, w, step))
  {
    match step
    case LoopMoves(s) => TokenLoopStep(c, w, s);
    case BeatMoves(s) =>
      CoherentStep(c.interval, c.skew, w.lease, w.now, w.cancelled, s);
      var acked' := Next(c, w, step).lease.acked;
      forall token | KnownToken(w.lease.acked, token) ensures KnownToken(acked', token) {
        KnownStaysKnown(w.lease.acked, acked', token);
      }
    case _ =>
  }

  lemma InvStart(c: Config, ack: Registration, now: int)
    requires Usable(c) && ZERO_TIME < now && !Blank(ack.token)
    ensures Inv(c, Start(c, ack, now))
  {
  }

  lemma InvStep(c: Config, w: World, step: Step)
    requires Inv(c, w) && Enabled(c, w, step)
    ensures Inv(c, Next(c, w, step))
  {
    SlotStep(c, w, step);
    CallsStep(c, w, step);
    LinkStep(c, w, step);
    SentStep(c, w, step);
    StoreStep(c, w, step);
    TokenStep(c, w, step);
    StopStep(c, w, step);
    if step.LoopMoves? {
      KeyStep(c.nonce, c.poll, w.loop, w.now, w.cancelled, step.loopStep);
    } else if step.BeatMoves? {
      CoherentStep(c.interval, c.skew, w.lease, w.now, w.cancelled, step.beatStep);
      NamedStep(c.interval, c.skew, w.lease, w.now, w.cancelled, step.beatStep);
    }
  }

  lemma {:induction false} InvAlways(c: Config, w: World, steps: seq<Step>)
    requires Inv(c, w) && Runs(c, w, steps)
    ensures Inv(c, After(c, w, steps))
    decreases |steps|
  {
    if steps != [] {
      InvStep(c, w, steps[0]);
      InvAlways(c, Next(c, w, steps[0]), steps[1..]);
    }
  }

  /** A state that some run of a usable worker reaches. */
  ghost predicate Reachable(c: Config, w: World) {
    && Usable(c) && NulFree(c.nonce)
    && exists ack: Registration, now: int, steps: seq<Step> :: Reaches(c, ack, now, steps, w)
  }

  ghost predicate Reaches(c: Config, ack: Registration, now: int, steps: seq<Step>, w: World) {
    && ZERO_TIME < now && !Blank(ack.token)
    && Runs(c, Start(c, ack, now), steps) && After(c, Start(c, ack, now), steps) == w
  }

  lemma ReachableInv(c: Config, w: World)
    requires Reachable(c, w)
    ensures Inv(c, w) && NulFree(c.nonce)
  {
    var ack: Registration, now: int, steps: seq<Step> :| Reaches(c, ack, now, steps, w);
    InvStart(c, ack, now);
    InvAlways(c, Start(c, ack, now), steps);
  }

  // ---- slots ------------------------------------------------------------------

  /** Occupancy is the loop's slot plus the executors not past their release. So handlers never
      exceed the limit; from its last check until it has dealt with the reply to a claim the loop leaves
      room for one more, expired claims included; and no release blocks. */
  lemma SlotConservation(c: Config, w: World, i: nat)
    requires Reachable(c, w)
    ensures w.occupied == (if w.loop.holds then 1 else 0) + Live(w.calls)
    ensures Live(w.calls) <= w.occupied <= c.maxCalls
    ensures HoldingPc(w.loop.pc) ==> Live(w.calls) <= c.maxCalls - 1
    ensures w.loop.pc.Failing? ==> Enabled(c, w, LoopMoves(Recover))
    ensures w.loop.pc.Idling? ==> Enabled(c, w, LoopMoves(Idle))
    ensures w.loop.pc.Dropping? ==> Enabled(c, w, LoopMoves(Drop))
    ensures i < |w.calls| && w.calls[i].executor.Releasing? ==> Enabled(c, w, CallMoves(i, ReleaseSlot))
  {
    ReachableInv(c, w);
    ReleasesNeverBlock(c, w, i);
    if HoldingPc(w.loop.pc) {
      ClaimsLeaveRoom(c, w);
    }
  }

  // ---- claims -----------------------------------------------------------------

  /** Two claim requests carry the same key iff they retry one attempt under one token. */
  lemma ClaimKeyLaw(c: Config, w: World, i: nat, j: nat)
    requires Reachable(c, w) && i < j < |w.loop.claims|
    ensures w.loop.claims[i].key == w.loop.claims[j].key <==> forall k | i <= k < j :: Retried(w.loop.claims, k)
  {
    ReachableInv(c, w);
    KeyLaw(c.nonce, w.loop, i, j);
  }

  /** The server stored `wire` and the worker read the call out of it, at some instant. */
  ghost predicate GrantedBy(wire: ClaimWire, call: Call) {
    exists now, ack ::
      && ReadClaim(wire, now) == Ok(ack) && ack.Claimed? && ack.expiryIsValid
      && call.token == ack.outcomeToken && call.expiresAt == ack.expiresAt && call.tool == ack.tool
  }

  /** A claim refused with 408, 429 or a 5xx is repeated under its key, and with any other status under a new one. */
  lemma RefusedClaimKeepsItsKey(c: Config, w: World, k: nat, api: ApiError)
    requires Reachable(c, w) && k + 1 < |w.loop.claims| && !api.outcomeUnknown
    requires w.loop.claims[k].reply == Some(ClaimReply.Failed(Api(api, None)))
    requires w.loop.claims[k + 1].token == w.loop.claims[k].token
    ensures w.loop.claims[k + 1].key == w.loop.claims[k].key <==>
              api.statusCode == 408 || api.statusCode == 429 || api.statusCode >= 500
  {
    ClaimKeyLaw(c, w, k, k + 1);
    RefusalIsRetryableByStatus(api);
    assert Retried(w.loop.claims, k) <==> IsRetryable(Some(Api(api, None)));
  }

  /** Every call runs what the server granted under the key of its request, until the deadline granted. */
  lemma CallsAreGranted(c: Config, w: World, n: nat)
    requires Reachable(c, w) && n < |w.calls|
    ensures w.calls[n].request < |w.loop.claims|
    ensures var key := w.loop.claims[w.calls[n].request].key;
      key in w.store && GrantedBy(w.store[key], w.calls[n])
    ensures w.calls[n].registered == (w.calls[n].tool in c.tools) && !Blank(w.calls[n].token)
  {
    ReachableInv(c, w);
    assert OwnProduct(c, w.calls[n]);
    var request := w.loop.claims[w.calls[n].request];
    var ack := request.reply.value.ack;
    assert ReplyLinked(c, w.calls, w.calls[n].request, request.reply.value);
    assert Acted(request.reply);
    var now :| ReadClaim(w.store[request.key], now) == Ok(ack);
    AcceptedClaim(w.store[request.key], now, now);
  }

  /** No two calls are started for the same grant of the server's store. */
  lemma GrantsDispatchedOnce(c: Config, w: World, m: nat, n: nat)
    requires Reachable(c, w) && m < n < |w.calls|
    ensures var claims := w.loop.claims;
      && w.calls[m].request < |claims| && w.calls[n].request < |claims|
      && claims[w.calls[m].request].key in w.store
      && claims[w.calls[n].request].key in w.store
      && claims[w.calls[m].request].key != claims[w.calls[n].request].key
  {
    CallsAreGranted(c, w, m);
    CallsAreGranted(c, w, n);
    ReachableInv(c, w);
    CallsHaveTheirOwnRequests(c, w, m, n);
    ActedOnDistinctKeys(c.nonce, w.loop, w.calls[m].request, w.calls[n].request);
  }

  lemma CallsHaveTheirOwnRequests(c: Config, w: World, m: nat, n: nat)
    requires LinkInv(c, w) && m < n < |w.calls|
    ensures var claims := w.loop.claims;
      && w.calls[m].request < |claims| && Acted(claims[w.calls[m].request].reply)
      && w.calls[n].request < |claims| && Acted(claims[w.calls[n].request].reply)
      && w.calls[m].request != w.calls[n].request
  {
    assert w.loop.claims[w.calls[m].request].reply.value.call == m;
    assert w.loop.claims[w.calls[n].request].reply.value.call == n;
  }

  /** Every reply the server stored was acted on, given up for a changed token or an error not
      worth retrying, or is still the answer to the live key; only shutdown leaves another. */
  lemma NoGrantIsForgotten(c: Config, w: World, key: string) returns (i: nat)
    requires Reachable(c, w) && key in w.store
    ensures LastWithKey(w.loop.claims, i) && w.loop.claims[i].key == key
    ensures || Acted(w.loop.claims[i].reply)
            || GivenUp(w.loop.claims, i)
            || (i == |w.loop.claims| - 1 && (w.loop.key == Some(key) || w.cancelled))
  {
    ReachableInv(c, w);
    i := GrantFate(c.nonce, w.loop, key);
  }

  /** At most one grant is undelivered at any time. Until cancellation it is the one under the live key. */
  lemma OneUndeliveredGrant(c: Config, w: World, key: string, other: string)
    requires Reachable(c, w) && key in w.store && other in w.store
    requires Outstanding(w.loop.claims, key) && Outstanding(w.loop.claims, other)
    ensures key == other
    ensures w.loop.key == Some(key) || w.cancelled
  {
    ReachableInv(c, w);
    OneOutstandingKey(c.nonce, w.loop, key, other);
  }

  // ---- outcomes ---------------------------------------------------------------

  /** The reply a submission was made for. */
  predicate AnswersClaim(w: World, s: Sent) {
    && s.request < |w.loop.claims|
    && w.loop.claims[s.request].reply.Some?
    && (w.loop.claims[s.request].reply.value.Dispatched? || w.loop.claims[s.request].reply.value.Declined?)
    && w.loop.claims[s.request].reply.value.ack.Claimed?
  }

  lemma ProductReports(c: Config, tool: Identity, outcome: Outcome)
    requires ProducedBy(c, tool, outcome)
    ensures if tool in c.tools then exists h :: c.mayReturn(tool, h) && Reports(h, outcome) else SaysNothing(outcome)
  {
    if tool in c.tools {
      var h :| c.mayReturn(tool, h) && outcome == Execute(true, h);
      ExecuteReports(h);
    } else {
      ExecuteReports(Returned(""));
    }
  }

  /** All submissions for one claim are the same, and acceptable to the server. They carry the
      claim's token and key, and report what a handler of the tool the claim names returned: its result as
      it is, or the first tool error of its error. A tool nobody registered, and a claim whose deadline was
      not valid, which never starts a handler, are answered with no more than that the call failed. The token is never blank, so the test of it before
      that answer (tool_worker.go:131) always succeeds. */
  lemma OutcomeAgreement(c: Config, w: World, a: nat, b: nat)
    requires Reachable(c, w) && a < |w.sent| && b < |w.sent|
    requires w.sent[a].request == w.sent[b].request
    ensures w.sent[a] == w.sent[b]
    ensures AnswersClaim(w, w.sent[a])
    ensures var reply := w.loop.claims[w.sent[a].request].reply.value;
      && w.sent[a].submission.token == reply.ack.outcomeToken && !Blank(reply.ack.outcomeToken)
      && w.sent[a].submission.key == OutcomeKey(reply.ack.outcomeToken)
      && (reply.Dispatched? ==>
            && reply.ack.expiryIsValid
            && reply.call < |w.calls| && w.calls[reply.call].expiresAt == reply.ack.expiresAt
            && w.calls[reply.call].tool == reply.ack.tool
            && w.calls[reply.call].produced == Some(w.sent[a].submission.outcome)
            && (if reply.ack.tool in c.tools
                then exists h :: c.mayReturn(reply.ack.tool, h) && Reports(h, w.sent[a].submission.outcome)
                else SaysNothing(w.sent[a].submission.outcome)))
      && (reply.Declined? ==>
            && SaysNothing(w.sent[a].submission.outcome)
            && forall n | 0 <= n < |w.calls| :: w.calls[n].request != w.sent[a].request)
    ensures Reportable(w.sent[a].submission.outcome)
  {
    ReachableInv(c, w);
    assert w.sent[a] in w.sent && w.sent[b] in w.sent;
    assert SentFor(w.loop.claims, w.calls, w.sent[a]);
    assert SentFor(w.loop.claims, w.calls, w.sent[b]);
    var request := w.loop.claims[w.sent[a].request];
    var reply := request.reply.value;
    assert Acted(request.reply);
    var now :| ReadClaim(w.store[request.key], now) == Ok(reply.ack);
    AcceptedClaim(w.store[request.key], now, now);
    if reply.Dispatched? {
      assert ReplyLinked(c, w.calls, w.sent[a].request, reply);
      assert CallInv(w.calls[reply.call], w.now, c.poll) && OwnProduct(c, w.calls[reply.call]);
      ProductReports(c, reply.ack.tool, w.sent[a].submission.outcome);
    } else {
      UnknownIsNotBlank();
      ExecuteReports(Returned(""));
    }
  }

  /** A supervisor that ends without submitting ends at or after its claim's deadline. */
  lemma SilenceMeansDeadline(c: Config, w: World, n: nat)
    requires Reachable(c, w) && n < |w.calls| && w.calls[n].supervisor.Abandoned?
    ensures w.now >= w.calls[n].expiresAt
  {
    ReachableInv(c, w);
    assert CallInv(w.calls[n], w.now, c.poll);
  }

  lemma SecuredNext(c: Config, w: World, step: Step, n: nat, outcome: Outcome)
    requires CallsInv(c, w) && Enabled(c, w, step) && n < |w.calls| && Secured(w.calls[n], outcome)
    ensures n < |Next(c, w, step).calls| && Secured(Next(c, w, step).calls[n], outcome)
  {
    assert CallInv(w.calls[n], w.now, c.poll);
    if step.CallMoves? && step.call == n {
      SecuredStep(w.calls[n], outcome, w.now, w.cancelled, c.poll, step.callStep);
    }
  }

  lemma {:induction false} SecuredAlways(c: Config, w: World, steps: seq<Step>, n: nat, outcome: Outcome)
    requires Inv(c, w) && Runs(c, w, steps) && n < |w.calls| && Secured(w.calls[n], outcome)
    ensures n < |After(c, w, steps).calls| && Secured(After(c, w, steps).calls[n], outcome)
    decreases |steps|
  {
    if steps != [] {
      SecuredNext(c, w, steps[0], n, outcome);
      InvStep(c, w, steps[0]);
      SecuredAlways(c, Next(c, w, steps[0]), steps[1..], n, outcome);
    }
  }

  /** A result that is in the channel while `awaitResult` is still running is never lost: however
      the selects choose and whenever cancellation comes, the supervisor that ends has delivered it. */
  lemma BufferedResultIsDelivered(c: Config, w: World, steps: seq<Step>, n: nat)
    requires Reachable(c, w) && Runs(c, w, steps) && n < |w.calls|
    requires w.calls[n].channel.Some?
    requires w.calls[n].supervisor.Poll? || w.calls[n].supervisor.Wait? || w.calls[n].supervisor.Recheck?
    ensures n < |After(c, w, steps).calls|
    ensures var call := After(c, w, steps).calls[n];
      SupervisorEnded(call) ==>
        call.supervisor.Delivering? && call.supervisor.delivery.outcome == w.calls[n].channel.value
        && call.supervisor.delivery.attempts >= 1
  {
    ReachableInv(c, w);
    SecuredAlways(c, w, steps, n, w.calls[n].channel.value);
    InvAlways(c, w, steps);
    var w' := After(c, w, steps);
    assert CallInv(w'.calls[n], w'.now, c.poll);
    if SupervisorEnded(w'.calls[n]) {
      SecuredAndEnded(w'.calls[n], w.calls[n].channel.value, w'.now, c.poll);
    }
  }

  /** Every delivery, at every moment, has made a bounded number of attempts: the pauses between
      them fit before the claim's deadline, and a delivery begun after it makes one attempt only. Its
      context is alive when it begins, however late that is, and cancelling the run does not end it. */
  lemma AttemptsAreBounded(c: Config, w: World, n: nat)
    requires Reachable(c, w) && n < |w.calls| && w.calls[n].supervisor.Delivering?
    ensures var d := w.calls[n].supervisor.delivery;
      && d.attempts <= AttemptBound(d.startedAt, c.poll, w.calls[n].expiresAt)
      && (d.startedAt >= w.calls[n].expiresAt ==> d.attempts <= 1)
      && !d.underRun
      && d.ctxEnd == (if d.startedAt < w.calls[n].expiresAt then w.calls[n].expiresAt else d.startedAt + 30_000_000_000)
      && (d.attempts >= 2 ==> d.ctxEnd == w.calls[n].expiresAt)
  {
    ReachableInv(c, w);
    assert CallInv(w.calls[n], w.now, c.poll);
    CallAttempts(w.calls[n], w.now, c.poll);
  }

  /** The failure submitted for a declined claim is sent once if the claim names a past deadline,
      and otherwise only while the pauses fit into thirty seconds. */
  lemma RejectionsAreBounded(c: Config, w: World)
    requires Reachable(c, w) && w.loop.pc.Rejecting?
    ensures var d := w.loop.pc.delivery;
      && (d.deadline != ZERO_TIME ==> d.attempts <= 1)
      && (d.attempts >= 2 ==> Slept(d.attempts - 2, c.poll) < 30 * SECOND)
  {
    ReachableInv(c, w);
    var d := w.loop.pc.delivery;
    PacedBound(d, w.now, c.poll);
    if d.deadline != ZERO_TIME {
      LateDeliveryTriesOnce(d, w.now, c.poll);
    }
  }

  /** The failure for a declined claim is delivered like an outcome: the loop goes on to the next claim exactly
      when that delivery ends, and has made one attempt per request sent until then. */
  lemma RejectionIsDelivered(c: Config, w: World, step: DeliveryStep)
    requires Reachable(c, w) && w.loop.pc.Rejecting? && Enabled(c, w, LoopMoves(Reject(step)))
    ensures var d, w' := w.loop.pc.delivery, Next(c, w, LoopMoves(Reject(step)));
      && (w'.loop.pc.Dropping? <==> EndsIt(d, w.now, c.poll, step))
      && (!w'.loop.pc.Dropping? ==>
            && w'.loop.pc.Rejecting? && w'.loop.pc.request == w.loop.pc.request
            && w'.loop.pc.delivery.attempts == d.attempts + |w'.sent| - |w.sent|)
      && |w'.sent| == |w.sent| + (if step.Send? then 1 else 0)
  {
    DeliveryEnds(w.loop.pc.delivery, w.now, w.cancelled, c.poll, step);
  }

  /** The same for the delivery of a call. */
  lemma OutcomeIsDelivered(c: Config, w: World, n: nat, step: DeliveryStep)
    requires Reachable(c, w) && n < |w.calls| && Enabled(c, w, CallMoves(n, Deliver(step)))
    ensures var d, w' := w.calls[n].supervisor.delivery, Next(c, w, CallMoves(n, Deliver(step)));
      && w'.calls[n].supervisor.Delivering?
      && (SupervisorEnded(w'.calls[n]) <==> EndsIt(d, w.now, c.poll, step))
      && w'.calls[n].supervisor.delivery.attempts == d.attempts + |w'.sent| - |w.sent|
      && |w'.sent| == |w.sent| + (if step.Send? then 1 else 0)
  {
    DeliveryEnds(w.calls[n].supervisor.delivery, w.now, w.cancelled, c.poll, step);
  }

  // ---- registration -----------------------------------------------------------

  /** Outside the critical section the shared pair is one the server acknowledged as a whole, and
      every claim was made with an acknowledged token that is not blank. */
  lemma RegistrationCoherence(c: Config, w: World)
    requires Reachable(c, w)
    ensures !w.lease.locked ==> w.lease.registration in w.lease.acked
    ensures w.lease.locked <==> InCriticalSection(w.lease.beat)
    ensures forall i | 0 <= i < |w.loop.claims| ::
              KnownToken(w.lease.acked, w.loop.claims[i].token) && !Blank(w.loop.claims[i].token)
  {
    ReachableInv(c, w);
  }

  predicate RunsEarly(c: Config, w: World, steps: seq<Step>)
    requires Runs(c, w, steps)
    decreases |steps|
  {
    steps == []
    || (&& (steps[0].BeatMoves? ==> DecidesEarly(w.lease, c.skew, w.now, steps[0].beatStep))
        && RunsEarly(c, Next(c, w, steps[0]), steps[1..]))
  }

  /** Only a pass decided after the refresh point gives the worker another token. */
  lemma {:induction false} EarlyPassesKeepTheToken(c: Config, w: World, steps: seq<Step>)
    requires NotRegistering(w.lease.beat) && Runs(c, w, steps) && RunsEarly(c, w, steps)
    ensures var w' := After(c, w, steps);
      w'.lease.registration.token == w.lease.registration.token && NotRegistering(w'.lease.beat)
    decreases |steps|
  {
    if steps != [] {
      if steps[0].BeatMoves? {
        EarlyStepKeepsToken(c.interval, c.skew, w.lease, w.now, w.cancelled, steps[0].beatStep);
      }
      EarlyPassesKeepTheToken(c, Next(c, w, steps[0]), steps[1..]);
    }
  }

  /** In every reachable state a pass that has to choose heartbeats the live token up to the refresh point
      and registers anew after it; a token that has expired is never sent a heartbeat. */
  lemma MaintenanceMatchesExpiry(c: Config, w: World)
    requires Reachable(c, w) && w.lease.beat.Fired?
    ensures Enabled(c, w, BeatMoves(BeatStep.Decide))
    ensures var beat := Next(c, w, BeatMoves(BeatStep.Decide)).lease.beat;
      && (beat.Heartbeating? <==> w.now <= w.lease.registration.expiresAt - c.skew)
      && (beat.Registering? <==> w.now > w.lease.registration.expiresAt - c.skew)
      && (beat.Heartbeating? ==> beat.token == w.lease.registration.token && w.now < w.lease.registration.expiresAt)
      && w.lease.registration in w.lease.acked
  {
    ReachableInv(c, w);
    PassChoosesByExpiry(c.interval, c.skew, w.lease, w.now, w.cancelled);
  }

  predicate RunsFailing(c: Config, w: World, steps: seq<Step>)
    requires Runs(c, w, steps)
    decreases |steps|
  {
    steps == []
    || ((steps[0].BeatMoves? ==> Fails(steps[0].beatStep, w.now)) && RunsFailing(c, Next(c, w, steps[0]), steps[1..]))
  }

  /** As long as maintenance fails, the registration stays what it was, readable at any time, over any
      number of passes and whatever the rest of the worker does. */
  lemma {:induction false} FailedMaintenanceChangesNothing(c: Config, w: World, steps: seq<Step>)
    requires Unwritten(w.lease.beat) && Runs(c, w, steps) && RunsFailing(c, w, steps)
    ensures var w' := After(c, w, steps);
      && w'.lease.registration == w.lease.registration && w'.lease.acked == w.lease.acked
      && w'.lease.locked == w.lease.locked && Unwritten(w'.lease.beat)
    decreases |steps|
  {
    if steps != [] {
      if steps[0].BeatMoves? {
        FailedStep(c.interval, c.skew, w.lease, w.now, w.cancelled, steps[0].beatStep);
      }
      FailedMaintenanceChangesNothing(c, Next(c, w, steps[0]), steps[1..]);
    }
  }

  /** Failed maintenance passes in a row at the end of a run that started with `failures` of them. */
  function FailuresInARow(c: Config, w: World, steps: seq<Step>, failures: nat): nat
    requires Runs(c, w, steps)
    decreases |steps|
  {
    if steps == [] then failures
    else FailuresInARow(c, Next(c, w, steps[0]), steps[1..], FailuresBy(c, w, steps[0], failures))
  }

  function FailuresBy(c: Config, w: World, step: Step, failures: nat): nat {
    if step.BeatMoves? then FailuresAfter(failures, w.lease, c.skew, w.now, step.beatStep) else failures
  }

  /** A step of a run whose timers, requests and acknowledgments keep the lease's timing. */
  predicate Timely(c: Config, w: World, step: Step, pass: int, failures: nat) {
    match step
    case Tick(to) => TimelyTick(w.lease, c.skew, pass, failures, to)
    case BeatMoves(s) => TimelyAnswer(s, c.skew, w.now)
    case _ => true
  }

  predicate RunsTimely(c: Config, w: World, steps: seq<Step>, pass: int, failures: nat)
    requires Runs(c, w, steps)
    decreases |steps|
  {
    steps == []
    || (&& Timely(c, w, steps[0], pass, failures)
        && RunsTimely(c, Next(c, w, steps[0]), steps[1..], pass, FailuresBy(c, w, steps[0], failures)))
  }

  lemma {:induction false} FreshAlways(c: Config, w: World, steps: seq<Step>, pass: int, failures: nat)
    requires Usable(c) && pass >= 0 && Fresh(w.lease, c.interval, c.skew, pass, failures, w.now)
    requires w.lease.beat.Stopped? ==> w.cancelled
    requires Runs(c, w, steps) && RunsTimely(c, w, steps, pass, failures)
    ensures var w' := After(c, w, steps);
      && Fresh(w'.lease, c.interval, c.skew, pass, FailuresInARow(c, w, steps, failures), w'.now)
      && (w'.lease.beat.Stopped? ==> w'.cancelled)
    decreases |steps|
  {
    if steps != [] {
      match steps[0] {
        case Tick(to) => FreshTick(w.lease, c.interval, c.skew, pass, failures, w.now, to);
        case BeatMoves(s) => FreshStep(c.interval, c.skew, pass, w.lease, failures, w.now, w.cancelled, s);
        case _ =>
      }
      FreshAlways(c, Next(c, w, steps[0]), steps[1..], pass, FailuresBy(c, w, steps[0], failures));
    }
  }

  /** The registration outlives failures, of heartbeats and of re-registrations alike. If acknowledgments
      leave more than the skew and each pass is over within `pass` of its timer's due time, it has not
      expired before shutdown as long as the skew covers the passes that have failed in a row since the
      refresh point: each costs `pass` and the retry delay, and one more pass may be under way. */
  lemma LeaseNeverExpires(c: Config, ack: Registration, now: int, steps: seq<Step>, pass: int)
    requires Usable(c) && pass >= 0 && ZERO_TIME < now && now + c.skew < ack.expiresAt
    requires Runs(c, Start(c, ack, now), steps) && RunsTimely(c, Start(c, ack, now), steps, pass, 0)
    ensures var w, failures := After(c, Start(c, ack, now), steps), FailuresInARow(c, Start(c, ack, now), steps, 0);
      !w.cancelled && Covered(failures, c.interval, c.skew, pass) ==> w.now < w.lease.registration.expiresAt
  {
    FreshAtStart(ack, now, c.interval, c.skew, pass);
    FreshAlways(c, Start(c, ack, now), steps, pass, 0);
    var w, failures := After(c, Start(c, ack, now), steps), FailuresInARow(c, Start(c, ack, now), steps, 0);
    if !w.cancelled && Covered(failures, c.interval, c.skew, pass) {
      FreshMeansUnexpired(w.lease, c.interval, c.skew, pass, failures, w.now);
    }
  }

  // ---- shutdown ---------------------------------------------------------------

  lemma OnlyCancelCancels(c: Config, w: World, step: Step)
    requires Inv(c, w) && Enabled(c, w, step) && !step.Cancel?
    ensures Next(c, w, step).cancelled == w.cancelled
  {
  }

  /** A worker that nobody cancels neither leaves its loop nor stops its heartbeat. */
  lemma {:induction false} RunsUntilCancelled(c: Config, w: World, steps: seq<Step>)
    requires Inv(c, w) && !w.cancelled && Runs(c, w, steps) && forall s | s in steps :: !s.Cancel?
    ensures var w' := After(c, w, steps);
      !w'.cancelled && !ClosingPc(w'.loop.pc) && !w'.lease.beat.Stopped?
    decreases |steps|
  {
    if steps != [] {
      OnlyCancelCancels(c, w, steps[0]);
      InvStep(c, w, steps[0]);
      RunsUntilCancelled(c, Next(c, w, steps[0]), steps[1..]);
    }
  }

  /** `Run` returns only after a cancellation. */
  lemma ReturnNeedsCancellation(c: Config, w: World, steps: seq<Step>)
    requires Reachable(c, w) && !w.cancelled && Runs(c, w, steps) && After(c, w, steps).loop.pc.Done?
    ensures Cancel in steps
  {
    ReachableInv(c, w);
    if Cancel !in steps {
      RunsUntilCancelled(c, w, steps);
    }
  }

  /** When `Run` returns, the heartbeat and every supervisor have ended, no request follows whatever
      happens next, and a handler that has not produced its result is past its claim's deadline. */
  lemma Quiescence(c: Config, w: World, steps: seq<Step>)
    requires Reachable(c, w) && w.loop.pc.Done? && Runs(c, w, steps)
    ensures w.lease.beat.Stopped? && AllEnded(w.calls)
    ensures forall n | 0 <= n < |w.calls| && w.calls[n].produced.None? :: w.now >= w.calls[n].expiresAt
    ensures var w' := After(c, w, steps);
      w'.loop.claims == w.loop.claims && w'.sent == w.sent && w'.lease == w.lease && |w'.calls| == |w.calls|
  {
    ReachableInv(c, w);
    QuietAfterReturn(c, w, steps);
    forall n | 0 <= n < |w.calls| && w.calls[n].produced.None? ensures w.now >= w.calls[n].expiresAt {
      assert CallInv(w.calls[n], w.now, c.poll);
      assert SupervisorEnded(w.calls[n]);
    }
  }

  /** After cancellation no claim goes out any more: the loop makes at most one more request, on a context
      that has ended, and none if it was not past its check. At most one more call is started, and only if
      a claim was in flight when the cancellation came. */
  lemma CancellationStopsWork(c: Config, w: World, steps: seq<Step>)
    requires w.cancelled && Runs(c, w, steps)
    ensures var w' := After(c, w, steps);
      && |w'.loop.claims| <= |w.loop.claims| + MayRequest(w.loop.pc)
      && (forall k | |w.loop.claims| <= k < |w'.loop.claims| :: w'.loop.claims[k].doomed)
      && |w'.calls| <= |w.calls| + MayDispatch(w.loop)
  {
    AfterCancellation(c, w, steps, |w.loop.claims|);
  }
}
