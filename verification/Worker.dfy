/** `ToolWorker.Run` after registration (agent/serverapi/tool_worker.go:81-178): the claim loop, the
    heartbeat goroutine, and a supervisor and an executor per claim, interleaved with the clock,
    with cancellation, and with a claim server that answers a repeated key with its stored reply.
    Every choice of the scheduler, of a `select`, of the network and of the handlers is part of a step. */
module Worker {
  import opened Keys
  import opened Outcomes
  import opened Protocol
  import opened Delivery
  import opened Calls
  import opened ClaimLoop
  import opened Lease

  /** `tools` are the registered identities, `mayReturn` says what the handler of each can yield. */
  datatype Config = Config(
    maxCalls: int, poll: int, interval: int, skew: int,
    nonce: string, tools: set<Identity>, mayReturn: (Identity, HandlerResult) -> bool)

  predicate Usable(c: Config) {
    c.maxCalls >= 1 && c.poll >= 1 && c.interval >= 1 && c.skew >= 1
  }

  /** One request to the outcome endpoint, made for the claim answered to claim request `request`. */
  datatype Sent = Sent(request: nat, submission: Submission)

  /** `store` is the server's memory of claim keys; `sent` records the outcome requests. */
  datatype World = World(
    now: int, cancelled: bool, lease: Lease, loop: Loop, occupied: int, calls: seq<Call>,
    store: map<string, ClaimWire>, sent: seq<Sent>)

  datatype Step =
    | Tick(to: int)
    | Cancel
    | Serve(request: nat, wire: ClaimWire)     // the server gets to a claim request, perhaps late
    | LoopMoves(loopStep: LoopStep)
    | BeatMoves(beatStep: BeatStep)
    | CallMoves(call: nat, callStep: CallStep)

  function Start(c: Config, ack: Registration, now: int): World {
    World(now, false, Open(ack, now, c.interval, c.skew), FIRST, 0, [], map[], [])
  }

  predicate AllEnded(calls: seq<Call>) {
    forall i | 0 <= i < |calls| :: SupervisorEnded(calls[i])
  }

  /** What a loop step needs from the rest of the system. */
  predicate LoopMayMove(c: Config, w: World, step: LoopStep) {
    match step
    case Acquire => w.occupied < c.maxCalls
    case ReadToken(token) => !w.lease.locked && token == w.lease.registration.token
    case Answer(wire, call) =>
      w.loop.claims != [] && Last(w.loop.claims).key in w.store
      && wire == w.store[Last(w.loop.claims).key] && call == |w.calls|
    case Recover => w.occupied > 0
    case Idle => w.occupied > 0
    case Drop => w.occupied > 0
    case JoinCalls => AllEnded(w.calls)
    case JoinBeat => w.lease.beat.Stopped?
    case _ => true
  }

  /** The call a loop step starts, if any. */
  function Started(c: Config, w: World, step: LoopStep): seq<Call> {
    if step.Answer? && Dispatches(w.loop, w.now, step) && w.loop.claims != [] then
      var ack := ReplyTo(step.wire, w.now, step.call).ack;
      if ack.Claimed? then [Spawn(|w.loop.claims| - 1, ack.outcomeToken, ack.expiresAt, ack.tool, ack.tool in c.tools)] else []
    else []
  }

  function OutcomeRequest(request: nat, d: Delivery): Sent {
    Sent(request, Submission(OutcomeKey(d.token), d.token, d.outcome))
  }

  /** The outcome requests made by one step of the loop, or by one step of a call. */
  function SentByLoop(l: Loop, step: LoopStep): seq<Sent> {
    if step.Reject? && step.step.Send? && l.pc.Rejecting? then [OutcomeRequest(l.pc.request, l.pc.delivery)] else []
  }

  function SentByCall(call: Call, step: CallStep): seq<Sent> {
    if step.Deliver? && step.step.Send? && call.supervisor.Delivering?
    then [OutcomeRequest(call.request, call.supervisor.delivery)] else []
  }

  predicate Enabled(c: Config, w: World, step: Step) {
    match step
    case Tick(to) => w.now <= to
    case Cancel => true
    case Serve(request, _) =>
      request < |w.loop.claims| && !w.loop.claims[request].doomed && w.loop.claims[request].key !in w.store
    case LoopMoves(s) => LoopEnabled(w.loop, w.now, w.cancelled, s) && LoopMayMove(c, w, s)
    case BeatMoves(s) => BeatEnabled(w.lease, w.now, w.cancelled, s)
    case CallMoves(i, s) =>
      && i < |w.calls| && CallEnabled(w.calls[i], w.now, w.cancelled, s)
      && (s.ReleaseSlot? ==> w.occupied > 0)
      && (s.HandlerReturns? && w.calls[i].registered ==> c.mayReturn(w.calls[i].tool, s.handler))
  }

  function Next(c: Config, w: World, step: Step): World
    requires Enabled(c, w, step)
  {
    match step
    case Tick(to) => w.(now := to)
    case Cancel => w.(cancelled := true)
    case Serve(request, wire) => w.(store := w.store[w.loop.claims[request].key := wire])
    case LoopMoves(s) =>
      w.(loop := LoopNext(c.nonce, c.poll, w.loop, w.now, w.cancelled, s),
         cancelled := w.cancelled || s.CancelRun?,
         occupied := w.occupied + SlotChange(s),
         calls := w.calls + Started(c, w, s),
         sent := w.sent + SentByLoop(w.loop, s))
    case BeatMoves(s) => w.(lease := BeatNext(c.interval, c.skew, w.lease, w.now, w.cancelled, s))
    case CallMoves(i, s) =>
      w.(calls := w.calls[i := CallNext(w.calls[i], w.now, w.cancelled, c.poll, s)],
         occupied := w.occupied - (if s.ReleaseSlot? then 1 else 0),
         sent := w.sent + SentByCall(w.calls[i], s))
  }

  /** `steps` can be taken one after another from `w`. */
  predicate Runs(c: Config, w: World, steps: seq<Step>)
    decreases |steps|
  {
    steps == [] || (Enabled(c, w, steps[0]) && Runs(c, Next(c, w, steps[0]), steps[1..]))
  }

  function After(c: Config, w: World, steps: seq<Step>): World
    requires Runs(c, w, steps)
    decreases |steps|
  {
    if steps == [] then w else After(c, Next(c, w, steps[0]), steps[1..])
  }
}
