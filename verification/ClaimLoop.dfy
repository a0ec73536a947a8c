/** The claim loop of `ToolWorker.Run` as a process of its own
    (agent/serverapi/tool_worker.go:88-141, 174-177): its program points, its reusable
    idempotency key, and the record of the requests it made. */
module ClaimLoop {
  import opened Prelude
  import opened Text
  import opened Errors
  import opened Keys
  import opened Outcomes
  import opened Protocol
  import opened Delivery
  import opened Calls

  datatype Pc =
    | Head                                // for runCtx.Err() == nil (90)
    | Acquiring                           // select on the semaphore (91-95)
    | Checking                            // 96-98
    | Reading                             // 99-101
    | Requesting(token: string)           // 102-107
    | Awaiting                            // claim in flight (107)
    | Failing(err: GoError)               // 111-119
    | Idling                              // nothing to do (124-126)
    | Declining(request: nat, token: string, deadline: int)   // invalid deadline (129-132)
    | Rejecting(request: nat, delivery: Delivery)   // 133-137
    | Dropping                            // 139
    | Pausing(until: int)                 // 120, 126
    | Cancelling                          // 174
    | Joining                             // 175
    | AwaitingBeat                        // 176
    | Done

  datatype ClaimReply =
    | Failed(err: GoError)
    | Nothing
    | Dispatched(ack: ClaimAck, call: nat)
    | Declined(ack: ClaimAck)             // claimed, but its deadline was not valid

  /** One claim request: when it was made, whether the run was already cancelled then, and the reply the
      worker acted on. A doomed request is made on a context that has ended: it never goes out, and fails. */
  datatype ClaimRequest = ClaimRequest(
    sentAt: int, doomed: bool, token: string, attempt: nat, key: string, reply: Option<ClaimReply>)

  /** `holds`: the loop owns a slot it has neither released nor handed to an executor. */
  datatype Loop = Loop(
    pc: Pc, holds: bool, attempt: nat, key: Option<string>, keyToken: string, claims: seq<ClaimRequest>)

  const FIRST := Loop(Head, false, 0, None, "", [])

  datatype LoopStep =
    | Enter
    | Acquire
    | StopAcquiring
    | Check
    | ReadToken(token: string)
    | Request
    | Answer(wire: ClaimWire, call: nat)
    | Error(err: GoError)
    | Recover
    | Idle
    | OpenRejection
    | Reject(step: DeliveryStep)
    | Drop
    | WakeUp
    | CancelRun
    | JoinCalls
    | JoinBeat

  predicate LoopEnabled(l: Loop, now: int, cancelled: bool, step: LoopStep) {
    match step
    case Enter => l.pc.Head?
    case Acquire => l.pc.Acquiring?
    case StopAcquiring => l.pc.Acquiring? && cancelled
    case Check => l.pc.Checking?
    case ReadToken(_) => l.pc.Reading?
    case Request => l.pc.Requesting?
    case Answer(_, _) => l.pc.Awaiting? && l.claims != [] && !Last(l.claims).doomed
    case Error(err) => l.pc.Awaiting? && l.claims != [] && (Last(l.claims).doomed ==> !IsRetryable(Some(err)))
    case Recover => l.pc.Failing?
    case Idle => l.pc.Idling?
    case OpenRejection => l.pc.Declining?
    case Reject(s) => l.pc.Rejecting? && StepEnabled(l.pc.delivery, now, cancelled, s)
    case Drop => l.pc.Dropping?
    case WakeUp => l.pc.Pausing? && (cancelled || now >= l.pc.until)
    case CancelRun => l.pc.Cancelling?
    case JoinCalls => l.pc.Joining?
    case JoinBeat => l.pc.AwaitingBeat?
  }

  /** The key to send is the live one, unless there is none or the token changed (lines 102-106). */
  function ChooseKey(nonce: string, l: Loop, token: string): Loop {
    if l.key.None? || l.keyToken != token then
      l.(attempt := l.attempt + 1,
         key := Some(ClaimKey(nonce, token, l.attempt + 1)),
         keyToken := token)
    else l
  }

  function Last(claims: seq<ClaimRequest>): ClaimRequest
    requires claims != []
  {
    claims[|claims| - 1]
  }

  function Replied(claims: seq<ClaimRequest>, reply: ClaimReply): seq<ClaimRequest>
    requires claims != []
  {
    claims[|claims| - 1 := Last(claims).(reply := Some(reply))]
  }

  /** The internal failure submitted in place of a call whose deadline is not valid (lines 131-134). */
  function RejectionOf(token: string, deadline: int, now: int): Delivery {
    Delivery(token, InternalFailure(), deadline, now + OUTCOME_TIMEOUT, true, now, 0, Ready)
  }

  function ReplyTo(wire: ClaimWire, now: int, call: nat): ClaimReply {
    match ReadClaim(wire, now)
    case Err(err) => Failed(err)
    case Ok(NoneAvailable) => Nothing
    case Ok(ack) => if ack.expiryIsValid then Dispatched(ack, call) else Declined(ack)
  }

  /** The empty reply means there is nothing to do, a complete claim is dispatched or, if its deadline is not an
      instant ahead, declined, and everything else is an error not to be retried. */
  lemma RepliesAreTakenAsMeant(wire: ClaimWire, now: int, call: nat)
    ensures var reply := ReplyTo(wire, now, call);
      && (reply.Nothing? <==> wire == ClaimWire("none", "", Absent, Identity("", "", ""), "", "", 0))
      && (reply.Dispatched? <==> Complete(wire) && exists t :: Carries(wire.expiresAt, t) && now < t)
      && (reply.Dispatched? ==> reply.call == call)
      && (reply.Declined? <==> Complete(wire) && forall t :: Carries(wire.expiresAt, t) ==> t <= now)
      && (reply.Failed? ==> !IsRetryable(Some(reply.err)))
  {
    AcceptedClaim(wire, now, now);
    if Complete(wire) {
      var ack := ReadClaim(wire, now).value;
      if ack.expiryIsValid {
        assert Carries(wire.expiresAt, ack.expiresAt);
      }
    }
  }

  function Receive(l: Loop, reply: ClaimReply): Loop
    requires l.claims != [] && (reply.Declined? ==> reply.ack.Claimed?)
  {
    var l' := l.(claims := Replied(l.claims, reply));
    match reply
    case Failed(err) => l'.(pc := Failing(err))
    case Nothing => l'.(pc := Idling, key := None)
    case Dispatched(_, _) => l'.(pc := Head, key := None, holds := false)
    case Declined(ack) => l'.(pc := Declining(|l.claims| - 1, ack.outcomeToken, ack.expiresAt), key := None)
  }

  function LoopNext(nonce: string, poll: int, l: Loop, now: int, cancelled: bool, step: LoopStep): Loop
    requires LoopEnabled(l, now, cancelled, step)
  {
    match step
    case Enter => l.(pc := if cancelled then Cancelling else Acquiring)
    case Acquire => l.(pc := Checking, holds := true)
    case StopAcquiring => l.(pc := Checking)
    case Check => l.(pc := if cancelled then Cancelling else Reading)
    case ReadToken(token) => l.(pc := Requesting(token))
    case Request =>
      var chosen := ChooseKey(nonce, l, l.pc.token);
      chosen.(pc := Awaiting,
              claims := l.claims + [ClaimRequest(now, cancelled, l.pc.token, chosen.attempt, chosen.key.value, None)])
    case Answer(wire, call) => Receive(l, ReplyTo(wire, now, call))
    case Error(err) => Receive(l, Failed(err))
    case Recover =>
      if cancelled then l.(pc := Cancelling, holds := false)
      else
        l.(pc := Pausing(now + poll), holds := false,
           key := if IsRetryable(Some(l.pc.err)) then l.key else None)
    case Idle => l.(pc := Pausing(now + poll), holds := false)
    case OpenRejection => l.(pc := Rejecting(l.pc.request, RejectionOf(l.pc.token, l.pc.deadline, now)))
    case Reject(s) =>
      var d := Advance(l.pc.delivery, now, cancelled, poll, s);
      l.(pc := if d.phase.Finished? then Dropping else Rejecting(l.pc.request, d))
    case Drop => l.(pc := Head, holds := false)
    case WakeUp => l.(pc := Head)
    case CancelRun => l.(pc := Joining)
    case JoinCalls => l.(pc := AwaitingBeat)
    case JoinBeat => l.(pc := Done)
  }

  // ---- the slot the loop holds ----------------------------------------------

  predicate HoldingPc(pc: Pc) {
    pc.Reading? || pc.Requesting? || pc.Awaiting? || pc.Failing? || pc.Idling? || pc.Declining?
    || pc.Rejecting? || pc.Dropping?
  }

  predicate FreePc(pc: Pc) {
    pc.Head? || pc.Acquiring? || pc.Pausing?
  }

  /** Past the loop: shutting down. */
  predicate ClosingPc(pc: Pc) {
    pc.Cancelling? || pc.Joining? || pc.AwaitingBeat? || pc.Done?
  }

  predicate PcInv(l: Loop, cancelled: bool) {
    && (HoldingPc(l.pc) ==> l.holds)
    && (FreePc(l.pc) ==> !l.holds)
    && (l.pc.Checking? && !l.holds ==> cancelled)
    && (ClosingPc(l.pc) ==> cancelled)
  }

  /** Slots the step acquires (1), releases (-1), or leaves alone. */
  function SlotChange(step: LoopStep): int {
    match step
    case Acquire => 1
    case Recover => -1
    case Idle => -1
    case Drop => -1
    case _ => 0
  }

  predicate Dispatches(l: Loop, now: int, step: LoopStep) {
    step.Answer? && ReplyTo(step.wire, now, step.call).Dispatched?
  }

  /** The loop's slot changes hands exactly as the semaphore does, except that a dispatch passes
      it on to the executor. */
  lemma PcStep(nonce: string, poll: int, l: Loop, now: int, cancelled: bool, step: LoopStep)
    requires PcInv(l, cancelled) && LoopEnabled(l, now, cancelled, step)
    ensures PcInv(LoopNext(nonce, poll, l, now, cancelled, step), cancelled)
    ensures SlotChange(step) == -1 ==> l.holds
    ensures (if LoopNext(nonce, poll, l, now, cancelled, step).holds then 1 else 0)
            == (if l.holds then 1 else 0) + SlotChange(step) - (if Dispatches(l, now, step) then 1 else 0)
  {
  }

  // ---- the key law ----------------------------------------------------------

  /** Request `k` came back with a retryable error and the next one was made for the same token. */
  predicate Retried(claims: seq<ClaimRequest>, k: nat)
    requires k + 1 < |claims|
  {
    RetryableReply(claims[k].reply) && claims[k + 1].token == claims[k].token
  }

  predicate RetryableReply(reply: Option<ClaimReply>) {
    reply.Some? && reply.value.Failed? && IsRetryable(Some(reply.value.err))
  }

  predicate KeysAreDerived(nonce: string, claims: seq<ClaimRequest>) {
    forall k | 0 <= k < |claims| :: claims[k].key == ClaimKey(nonce, claims[k].token, claims[k].attempt)
  }

  predicate AttemptsAdvance(claims: seq<ClaimRequest>) {
    forall k | 0 <= k < |claims| - 1 ::
      claims[k].reply.Some? && claims[k + 1].attempt == claims[k].attempt + (if Retried(claims, k) then 0 else 1)
  }

  /** What the loop's variables say about the last request. */
  predicate LiveKey(l: Loop) {
    if l.claims == [] then
      l.attempt == 0 && l.key.None? && !l.pc.Awaiting? && !l.pc.Failing?
    else
      var last := Last(l.claims);
      && l.attempt == last.attempt
      && (l.key.Some? ==> l.key.value == last.key && l.keyToken == last.token)
      && (if l.pc.Awaiting? then last.reply.None? && l.key.Some?
          else if l.pc.Failing? then last.reply == Some(Failed(l.pc.err)) && l.key.Some?
          else last.reply.Some? && (ClosingPc(l.pc) || (l.key.Some? <==> RetryableReply(last.reply))))
  }

  predicate KeyInv(nonce: string, l: Loop) {
    KeysAreDerived(nonce, l.claims) && AttemptsAdvance(l.claims) && LiveKey(l)
  }

  lemma RequestKeepsKeys(nonce: string, poll: int, l: Loop, now: int, cancelled: bool)
    requires KeyInv(nonce, l) && LoopEnabled(l, now, cancelled, Request)
    ensures KeyInv(nonce, LoopNext(nonce, poll, l, now, cancelled, Request))
  {
    var l' := LoopNext(nonce, poll, l, now, cancelled, Request);
    var n := |l.claims|;
    assert l'.claims[..n] == l.claims;
    if n > 0 {
      assert l'.claims[n - 1] == Last(l.claims);
    }
    forall k | 0 <= k < n
      ensures l'.claims[k].reply.Some?
      ensures l'.claims[k + 1].attempt == l'.claims[k].attempt + (if Retried(l'.claims, k) then 0 else 1)
    {
      assert l'.claims[k] == l.claims[k];
      if k < n - 1 {
        assert l'.claims[k + 1] == l.claims[k + 1];
        assert Retried(l'.claims, k) == Retried(l.claims, k);
      }
    }
  }

  lemma ReplyKeepsKeys(nonce: string, l: Loop, reply: ClaimReply)
    requires KeyInv(nonce, l) && l.pc.Awaiting? && l.claims != [] && (reply.Declined? ==> reply.ack.Claimed?)
    ensures KeyInv(nonce, Receive(l, reply))
  {
    var l' := Receive(l, reply);
    var n := |l.claims|;
    forall k | 0 <= k < n - 1
      ensures l'.claims[k].reply.Some?
      ensures l'.claims[k + 1].attempt == l'.claims[k].attempt + (if Retried(l'.claims, k) then 0 else 1)
    {
      assert l'.claims[k] == l.claims[k] && l'.claims[k + 1].token == l.claims[k + 1].token;
      assert Retried(l'.claims, k) == Retried(l.claims, k);
    }
  }

  lemma KeyStep(nonce: string, poll: int, l: Loop, now: int, cancelled: bool, step: LoopStep)
    requires KeyInv(nonce, l) && LoopEnabled(l, now, cancelled, step)
    ensures KeyInv(nonce, LoopNext(nonce, poll, l, now, cancelled, step))
  {
    match step
    case Request => RequestKeepsKeys(nonce, poll, l, now, cancelled);
    case Answer(wire, call) => ReplyKeepsKeys(nonce, l, ReplyTo(wire, now, call));
    case Error(err) => ReplyKeepsKeys(nonce, l, Failed(err));
    case _ =>
  }

  /** Requests are only appended, and a reply, once given, stays. */
  predicate History(before: seq<ClaimRequest>, after: seq<ClaimRequest>) {
    && |before| <= |after|
    && (forall i | 0 <= i < |before| ::
          && after[i].token == before[i].token && after[i].key == before[i].key && after[i].doomed == before[i].doomed
          && (before[i].reply.Some? ==> after[i].reply == before[i].reply))
  }

  lemma ReplyHistory(claims: seq<ClaimRequest>, reply: ClaimReply)
    requires claims != [] && Last(claims).reply.None?
    ensures History(claims, Replied(claims, reply))
  {
  }

  lemma LoopHistory(nonce: string, poll: int, l: Loop, now: int, cancelled: bool, step: LoopStep)
    requires KeyInv(nonce, l) && LoopEnabled(l, now, cancelled, step)
    ensures History(l.claims, LoopNext(nonce, poll, l, now, cancelled, step).claims)
  {
    var claims' := LoopNext(nonce, poll, l, now, cancelled, step).claims;
    match step
    case Request => assert forall i | 0 <= i < |l.claims| :: claims'[i] == l.claims[i];
    case Answer(wire, call) => ReplyHistory(l.claims, ReplyTo(wire, now, call));
    case Error(err) => ReplyHistory(l.claims, Failed(err));
    case _ => assert claims' == l.claims;
  }

  /** A reply that was not there before is the last request's, and comes from an answer or an error. */
  lemma NewReplies(nonce: string, poll: int, l: Loop, now: int, cancelled: bool, step: LoopStep, i: nat)
    requires LoopEnabled(l, now, cancelled, step)
    requires var l' := LoopNext(nonce, poll, l, now, cancelled, step);
      i < |l'.claims| && l'.claims[i].reply.Some? && (i < |l.claims| ==> l.claims[i].reply.None?)
    ensures i == |l.claims| - 1
    ensures var r := LoopNext(nonce, poll, l, now, cancelled, step).claims[i];
      && r.key == Last(l.claims).key
      && (step.Answer? || step.Error?)
      && r.reply == Some(if step.Answer? then ReplyTo(step.wire, now, step.call) else Failed(step.err))
  {
  }

  lemma {:induction false} AttemptsMonotone(claims: seq<ClaimRequest>, i: nat, j: nat)
    requires AttemptsAdvance(claims) && i <= j < |claims|
    ensures claims[i].attempt <= claims[j].attempt
    ensures claims[i].attempt == claims[j].attempt <==> forall k | i <= k < j :: Retried(claims, k)
    decreases j - i
  {
    if i < j {
      AttemptsMonotone(claims, i, j - 1);
    }
  }

  lemma {:induction false} RetriedKeepsToken(claims: seq<ClaimRequest>, i: nat, j: nat)
    requires i <= j < |claims| && forall k | i <= k < j :: Retried(claims, k)
    ensures claims[i].token == claims[j].token
    decreases j - i
  {
    if i < j {
      RetriedKeepsToken(claims, i, j - 1);
      assert Retried(claims, j - 1);
    }
  }

  /** Two requests of a run carry the same key exactly when every request between them was made
      for the same token and every reply from the first up to the second was a retryable error. */
  lemma KeyLaw(nonce: string, l: Loop, i: nat, j: nat)
    requires NulFree(nonce) && KeyInv(nonce, l) && i < j < |l.claims|
    ensures l.claims[i].key == l.claims[j].key <==> forall k | i <= k < j :: Retried(l.claims, k)
  {
    var a, b := l.claims[i], l.claims[j];
    AttemptsMonotone(l.claims, i, j);
    ClaimKeyInjective(nonce, a.token, a.attempt, b.token, b.attempt);
    if forall k | i <= k < j :: Retried(l.claims, k) {
      RetriedKeepsToken(l.claims, i, j);
    }
  }
}
