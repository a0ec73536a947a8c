/** One dispatched claim: its supervisor and its executor goroutine
    (agent/serverapi/tool_worker.go:142-197, 293-314). */
module Calls {
  import opened Prelude
  import opened Outcomes
  import opened Protocol
  import opened Delivery
  import opened Maintenance

  /** Lines 148-151. A slot is held until `Exited`. */
  datatype Executor =
    | Running
    | Sending(outcome: Outcome)   // execute has returned
    | Releasing                   // the outcome is in the channel
    | Exited

  datatype Supervisor =
    | Poll                        // awaitResult, first select (181-185)
    | Wait                        // awaitResult, blocking select (186-189)
    | Recheck                     // cancellation seen, last look at the channel (190-195)
    | CheckDeadline               // awaitResult returned false (153-157)
    | FinalWait                   // select against the deadline timer (158-165)
    | Completed(outcome: Outcome) // about to build the outcome context (167)
    | Delivering(delivery: Delivery)
    | Abandoned                   // returned without submitting

  /** `tool` is the identity `execute` looks up, `channel` is the one-slot result channel, `produced` what
      the handler was mapped to. */
  datatype Call = Call(
    request: nat, token: string, expiresAt: int, tool: Identity, registered: bool,
    supervisor: Supervisor, executor: Executor, channel: Option<Outcome>, produced: Option<Outcome>)

  function Spawn(request: nat, token: string, expiresAt: int, tool: Identity, registered: bool): Call {
    Call(request, token, expiresAt, tool, registered, Poll, Running, None, None)
  }

  datatype CallStep =
    | HandlerReturns(handler: HandlerResult)
    | BufferResult
    | ReleaseSlot
    | PollChannel
    | TakeResult
    | ObserveDone
    | RecheckChannel
    | JudgeDeadline
    | TimerFires
    | OpenContext
    | Deliver(step: DeliveryStep)

  /** `callCtx.Done()`: the run context was cancelled or the claim's deadline has come. */
  predicate CallDone(call: Call, now: int, cancelled: bool) {
    cancelled || now >= call.expiresAt
  }

  predicate CallEnabled(call: Call, now: int, cancelled: bool, step: CallStep) {
    match step
    case HandlerReturns(_) => call.executor.Running?
    case BufferResult => call.executor.Sending? && call.channel.None?
    case ReleaseSlot => call.executor.Releasing?
    case PollChannel => call.supervisor.Poll?
    case TakeResult => (call.supervisor.Wait? || call.supervisor.FinalWait?) && call.channel.Some?
    case ObserveDone => call.supervisor.Wait? && CallDone(call, now, cancelled)
    case RecheckChannel => call.supervisor.Recheck?
    case JudgeDeadline => call.supervisor.CheckDeadline?
    case TimerFires => call.supervisor.FinalWait? && now >= call.expiresAt
    case OpenContext => call.supervisor.Completed?
    case Deliver(s) => call.supervisor.Delivering? && StepEnabled(call.supervisor.delivery, now, cancelled, s)
  }

  const OUTCOME_TIMEOUT := 30 * SECOND

  /** `outcomeContext` (lines 309-314). */
  function OutcomeContextEnd(now: int, deadline: int): int {
    if now < deadline then deadline else now + OUTCOME_TIMEOUT
  }

  function Take(call: Call): Call
    requires call.channel.Some?
  {
    call.(supervisor := Completed(call.channel.value), channel := None)
  }

  function CallNext(call: Call, now: int, cancelled: bool, poll: int, step: CallStep): Call
    requires CallEnabled(call, now, cancelled, step)
  {
    match step
    case HandlerReturns(handler) =>
      var outcome := Execute(call.registered, handler);
      call.(executor := Sending(outcome), produced := Some(outcome))
    case BufferResult => call.(executor := Releasing, channel := Some(call.executor.outcome))
    case ReleaseSlot => call.(executor := Exited)
    case PollChannel => if call.channel.Some? then Take(call) else call.(supervisor := Wait)
    case TakeResult => Take(call)
    case ObserveDone => call.(supervisor := Recheck)
    case RecheckChannel => if call.channel.Some? then Take(call) else call.(supervisor := CheckDeadline)
    case JudgeDeadline =>
      if call.expiresAt == ZERO_TIME || !(now < call.expiresAt) then call.(supervisor := Abandoned)
      else call.(supervisor := FinalWait)
    case TimerFires => call.(supervisor := Abandoned)
    case OpenContext =>
      call.(supervisor := Delivering(Delivery(
        call.token, call.supervisor.outcome, call.expiresAt,
        OutcomeContextEnd(now, call.expiresAt), false, now, 0, Ready)))
    case Deliver(s) =>
      call.(supervisor := Delivering(Advance(call.supervisor.delivery, now, cancelled, poll, s)))
  }

  predicate SupervisorEnded(call: Call) {
    call.supervisor.Abandoned? || (call.supervisor.Delivering? && call.supervisor.delivery.phase.Finished?)
  }

  predicate HoldsSlot(call: Call) {
    !call.executor.Exited?
  }

  /** The supervisor has taken an outcome from the channel. */
  predicate Taken(call: Call) {
    call.supervisor.Completed? || call.supervisor.Delivering?
  }

  function TakenOutcome(call: Call): Outcome
    requires Taken(call)
  {
    if call.supervisor.Completed? then call.supervisor.outcome else call.supervisor.delivery.outcome
  }

  /** What is true of a dispatched claim at every moment. */
  ghost predicate CallInv(call: Call, now: int, poll: int) {
    && call.expiresAt != ZERO_TIME
    && (call.produced.Some? ==> Reportable(call.produced.value))
    && (call.executor.Running? ==> call.produced.None?)
    && (call.executor.Sending? ==> call.produced == Some(call.executor.outcome))
    && (call.executor.Running? || call.executor.Sending? ==> call.channel.None? && !Taken(call))
    && (call.executor.Releasing? || call.executor.Exited? ==>
          call.produced.Some? && (if Taken(call) then call.channel.None? else call.channel == call.produced))
    && (Taken(call) ==> call.produced == Some(TakenOutcome(call)))
    && (call.supervisor.Abandoned? ==> now >= call.expiresAt)
    && (call.supervisor.Delivering? ==>
          var d := call.supervisor.delivery;
          && d.token == call.token && d.deadline == call.expiresAt && !d.underRun
          && d.ctxEnd == OutcomeContextEnd(d.startedAt, d.deadline)
          && Paced(d, now, poll))
  }

  lemma SpawnInv(request: nat, token: string, expiresAt: int, tool: Identity, registered: bool, now: int, poll: int)
    requires expiresAt != ZERO_TIME
    ensures CallInv(Spawn(request, token, expiresAt, tool, registered), now, poll)
  {
  }

  lemma CallLater(call: Call, now: int, later: int, poll: int)
    requires CallInv(call, now, poll) && now <= later
    ensures CallInv(call, later, poll)
  {
    if call.supervisor.Delivering? {
      PacedLater(call.supervisor.delivery, now, later, poll);
    }
  }

  lemma CallStepInv(call: Call, now: int, cancelled: bool, poll: int, step: CallStep)
    requires CallInv(call, now, poll) && poll > 0 && CallEnabled(call, now, cancelled, step)
    ensures CallInv(CallNext(call, now, cancelled, poll, step), now, poll)
  {
    match step
    case HandlerReturns(handler) => ExecuteIsReportable(call.registered, handler);
    case Deliver(s) => PacedStep(call.supervisor.delivery, now, cancelled, poll, s);
    case _ =>
  }

  /** The result can no longer be lost: it was buffered before awaitResult's last look at the channel. */
  predicate Secured(call: Call, outcome: Outcome) {
    || (call.channel == Some(outcome) && (call.supervisor.Poll? || call.supervisor.Wait? || call.supervisor.Recheck?))
    || (Taken(call) && TakenOutcome(call) == outcome)
  }

  /** Whatever the selects choose, a secured result stays secured: it is the one delivered. */
  lemma SecuredStep(call: Call, outcome: Outcome, now: int, cancelled: bool, poll: int, step: CallStep)
    requires CallInv(call, now, poll) && CallEnabled(call, now, cancelled, step) && Secured(call, outcome)
    ensures Secured(CallNext(call, now, cancelled, poll, step), outcome)
  {
  }

  /** A secured result whose supervisor has ended was submitted. */
  lemma SecuredAndEnded(call: Call, outcome: Outcome, now: int, poll: int)
    requires CallInv(call, now, poll) && Secured(call, outcome) && SupervisorEnded(call)
    ensures call.supervisor.Delivering? && call.supervisor.delivery.outcome == outcome
    ensures call.supervisor.delivery.attempts >= 1
  {
  }

  lemma CallAttempts(call: Call, now: int, poll: int)
    requires CallInv(call, now, poll) && poll > 0 && call.supervisor.Delivering?
    ensures var d := call.supervisor.delivery;
      && d.attempts <= AttemptBound(d.startedAt, poll, call.expiresAt)
      && (d.startedAt >= call.expiresAt ==> d.attempts <= 1)
      && !d.underRun && d.startedAt < d.ctxEnd
      && (d.attempts >= 2 ==> d.ctxEnd == call.expiresAt)
  {
    var d := call.supervisor.delivery;
    PacedBound(d, now, poll);
    if d.startedAt >= call.expiresAt {
      LateDeliveryTriesOnce(d, now, poll);
    }
  }
}
