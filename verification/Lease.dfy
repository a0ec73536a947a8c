/** The heartbeat goroutine and the registration it shares with the claim loop
    (agent/serverapi/tool_worker.go:83-101, 239-291), as a process of its own. */
module Lease {
  import opened Text
  import opened Protocol
  import opened Maintenance

  /** `due` is when the timer of the current pass was set to fire. */
  datatype Beat =
    | Armed(due: int)                              // 246-248
    | Fired(due: int)                              // 250, 271-274
    | Registering(due: int)                        // 275
    | Heartbeating(due: int, token: string)        // 282
    | Renewing(due: int, ack: Registration)        // 276
    | Extending(due: int, expires: int)            // 287
    | WritingToken(due: int, ack: Registration)    // 277, lock held
    | WritingExpiry(due: int, expires: int)        // 277 or 288, lock held
    | Unlocking(due: int)                          // 278 or 289
    | Rearming(due: int)                           // 251-254
    | Stopped

  datatype BeatStep =
    | Fire
    | Stop
    | Decide
    | RegisterAnswer(registered: Exchange<RegistrationWire>)
    | HeartbeatAnswer(beaten: Exchange<Stamp>)
    | Lock
    | WriteToken
    | WriteExpiry
    | Unlock
    | Rearm

  /** `acked` holds every pair the server acknowledged; `requests` counts the upkeep requests made. */
  datatype Lease = Lease(registration: Registration, locked: bool, beat: Beat, acked: set<Registration>, requests: nat)

  function Open(ack: Registration, now: int, interval: int, skew: int): Lease {
    Lease(ack, false, Armed(now + MaintenanceDelay(now, ack.expiresAt, interval, skew)), {ack}, 0)
  }

  predicate BeatEnabled(l: Lease, now: int, cancelled: bool, step: BeatStep) {
    match step
    case Fire => l.beat.Armed? && now >= l.beat.due
    case Stop => l.beat.Armed? && cancelled
    case Decide => l.beat.Fired? && !l.locked
    case RegisterAnswer(_) => l.beat.Registering?
    case HeartbeatAnswer(_) => l.beat.Heartbeating?
    case Lock => (l.beat.Renewing? || l.beat.Extending?) && !l.locked
    case WriteToken => l.beat.WritingToken?
    case WriteExpiry => l.beat.WritingExpiry?
    case Unlock => l.beat.Unlocking?
    case Rearm => l.beat.Rearming? && !l.locked
  }

  function BeatNext(interval: int, skew: int, l: Lease, now: int, cancelled: bool, step: BeatStep): Lease
    requires BeatEnabled(l, now, cancelled, step)
  {
    match step
    case Fire => l.(beat := Fired(l.beat.due))
    case Stop => l.(beat := Stopped)
    case Decide =>
      l.(requests := l.requests + 1,
         beat := if MustRegister(now, skew, l.registration.expiresAt) then Registering(l.beat.due)
                 else Heartbeating(l.beat.due, l.registration.token))
    case RegisterAnswer(reply) =>
      (match ReadRegistration(reply, now)
       case Ok(ack) => l.(beat := Renewing(l.beat.due, ack), acked := l.acked + {ack})
       case Err(_) => l.(beat := Rearming(l.beat.due)))
    case HeartbeatAnswer(reply) =>
      (match ReadHeartbeat(reply, now)
       case Ok(expires) =>
         l.(acked := l.acked + {Registration(l.beat.token, expires)},
            beat := if expires != ZERO_TIME then Extending(l.beat.due, expires) else Rearming(l.beat.due))
       case Err(_) => l.(beat := Rearming(l.beat.due)))
    case Lock =>
      l.(locked := true,
         beat := if l.beat.Renewing? then WritingToken(l.beat.due, l.beat.ack)
                 else WritingExpiry(l.beat.due, l.beat.expires))
    case WriteToken =>
      l.(registration := l.registration.(token := l.beat.ack.token),
         beat := WritingExpiry(l.beat.due, l.beat.ack.expiresAt))
    case WriteExpiry =>
      l.(registration := l.registration.(expiresAt := l.beat.expires), beat := Unlocking(l.beat.due))
    case Unlock => l.(locked := false, beat := Rearming(l.beat.due))
    case Rearm =>
      l.(beat := Armed(now + MaintenanceDelay(now, l.registration.expiresAt, interval, skew)))
  }

  // ---- coherence ------------------------------------------------------------

  predicate InCriticalSection(beat: Beat) {
    beat.WritingToken? || beat.WritingExpiry? || beat.Unlocking?
  }

  /** A reader that holds the lock sees a pair the server acknowledged for that very token. Inside
      the critical section the pair may be torn, and the step that mends it is on its way. */
  predicate Coherent(l: Lease) {
    && (l.locked <==> InCriticalSection(l.beat))
    && (!l.locked ==> l.registration in l.acked)
    && match l.beat
       case Heartbeating(_, token) => token == l.registration.token
       case Renewing(_, ack) => ack in l.acked
       case WritingToken(_, ack) => ack in l.acked
       case Extending(_, expires) => Registration(l.registration.token, expires) in l.acked
       case WritingExpiry(_, expires) => Registration(l.registration.token, expires) in l.acked
       case Unlocking(_) => l.registration in l.acked
       case _ => true
  }

  lemma CoherentStep(interval: int, skew: int, l: Lease, now: int, cancelled: bool, step: BeatStep)
    requires Coherent(l) && BeatEnabled(l, now, cancelled, step)
    ensures Coherent(BeatNext(interval, skew, l, now, cancelled, step))
    ensures l.acked <= BeatNext(interval, skew, l, now, cancelled, step).acked
  {
  }

  /** Every token the server acknowledged can be used. */
  predicate Named(l: Lease) {
    forall ack | ack in l.acked :: !Blank(ack.token)
  }

  lemma NamedStep(interval: int, skew: int, l: Lease, now: int, cancelled: bool, step: BeatStep)
    requires Coherent(l) && Named(l) && BeatEnabled(l, now, cancelled, step)
    ensures Named(BeatNext(interval, skew, l, now, cancelled, step))
  {
    if step.RegisterAnswer? {
      AcceptedRegistration(step.registered, now);
    }
  }

  /** The registration changes only inside the critical section, so a failed or malformed
      maintenance answer leaves it as it was. */
  lemma OnlyWritesChangeTheRegistration(interval: int, skew: int, l: Lease, now: int, cancelled: bool, step: BeatStep)
    requires BeatEnabled(l, now, cancelled, step)
    requires BeatNext(interval, skew, l, now, cancelled, step).registration != l.registration
    ensures InCriticalSection(l.beat)
  {
  }

  /** No acknowledgment is on its way into the registration. */
  predicate Unwritten(beat: Beat) {
    !beat.Renewing? && !beat.Extending? && !InCriticalSection(beat)
  }

  /** The step is not a maintenance answer, or one that failed or was malformed. */
  predicate Fails(step: BeatStep, now: int) {
    match step
    case RegisterAnswer(reply) => ReadRegistration(reply, now).Err?
    case HeartbeatAnswer(reply) => ReadHeartbeat(reply, now).Err?
    case _ => true
  }

  lemma FailedStep(interval: int, skew: int, l: Lease, now: int, cancelled: bool, step: BeatStep)
    requires Unwritten(l.beat) && BeatEnabled(l, now, cancelled, step) && Fails(step, now)
    ensures var l' := BeatNext(interval, skew, l, now, cancelled, step);
      Unwritten(l'.beat) && l'.registration == l.registration && l'.acked == l.acked && l'.locked == l.locked
  {
    if BeatNext(interval, skew, l, now, cancelled, step).registration != l.registration {
      OnlyWritesChangeTheRegistration(interval, skew, l, now, cancelled, step);
    }
  }

  // ---- when a pass is due -------------------------------------------------------

  /** The timer fires when the heartbeat interval is over or the refresh point has come, whichever is first;
      past that point, when a second or, if shorter, the interval is over. */
  predicate DueAt(due: int, now: int, expires: int, interval: int, skew: int) {
    if now < expires - skew then due == (if now + interval < expires - skew then now + interval else expires - skew)
    else due == now + (if interval < 1_000_000_000 then interval else 1_000_000_000)
  }

  lemma PassesAreDue(ack: Registration, l: Lease, now: int, later: int, interval: int, skew: int)
    requires l.beat.Rearming? && !l.locked && interval > 0
    ensures Open(ack, now, interval, skew).beat.Armed?
            && DueAt(Open(ack, now, interval, skew).beat.due, now, ack.expiresAt, interval, skew)
    ensures var l' := BeatNext(interval, skew, l, now, false, Rearm);
      && l'.beat.Armed? && DueAt(l'.beat.due, now, l.registration.expiresAt, interval, skew)
      && (BeatEnabled(l', later, false, Fire) <==> later >= l'.beat.due)
  {
    DelayIsTimely(now, ack.expiresAt, interval, skew);
    DelayIsTimely(now, l.registration.expiresAt, interval, skew);
  }

  // ---- which request a pass makes ----------------------------------------------

  /** Up to the refresh point a pass heartbeats the shared token, after it it registers anew. So no heartbeat
      is sent for a registration that has expired. */
  lemma PassChoosesByExpiry(interval: int, skew: int, l: Lease, now: int, cancelled: bool)
    requires l.beat.Fired? && !l.locked && skew >= 0
    ensures var l' := BeatNext(interval, skew, l, now, cancelled, Decide);
      && (now <= l.registration.expiresAt - skew ==> l'.beat == Heartbeating(l.beat.due, l.registration.token))
      && (now > l.registration.expiresAt - skew ==> l'.beat == Registering(l.beat.due))
      && (l'.beat.Heartbeating? ==> now <= l.registration.expiresAt)
      && l'.requests == l.requests + 1 && l'.registration == l.registration
  {
  }

  /** No new registration is on its way. */
  predicate NotRegistering(beat: Beat) {
    !beat.Registering? && !beat.Renewing? && !beat.WritingToken?
  }

  /** Not the decision of a pass, or one before the refresh point. */
  predicate DecidesEarly(l: Lease, skew: int, now: int, step: BeatStep) {
    step.Decide? ==> now <= l.registration.expiresAt - skew
  }

  lemma EarlyStepKeepsToken(interval: int, skew: int, l: Lease, now: int, cancelled: bool, step: BeatStep)
    requires NotRegistering(l.beat) && BeatEnabled(l, now, cancelled, step) && DecidesEarly(l, skew, now, step)
    ensures var l' := BeatNext(interval, skew, l, now, cancelled, step);
      NotRegistering(l'.beat) && l'.registration.token == l.registration.token
  {
  }

  // ---- a pass as a whole --------------------------------------------------------

  /** A pass from the decision to the unlocking, with nobody in between. */
  function Pass(interval: int, skew: int, l: Lease, decidedAt: int, answeredAt: int,
                registering: Exchange<RegistrationWire>, beating: Exchange<Stamp>): Lease
    requires l.beat.Fired? && !l.locked
  {
    var l1 := BeatNext(interval, skew, l, decidedAt, false, Decide);
    var answer := if l1.beat.Registering? then RegisterAnswer(registering) else HeartbeatAnswer(beating);
    Write(interval, skew, BeatNext(interval, skew, l1, answeredAt, false, answer), answeredAt)
  }

  /** The critical section, if there is something to write. */
  function Write(interval: int, skew: int, l: Lease, now: int): Lease
    requires !l.locked && (l.beat.Renewing? || l.beat.Extending? || l.beat.Rearming?)
  {
    if l.beat.Rearming? then l
    else
      var l1 := BeatNext(interval, skew, l, now, false, Lock);
      var l2 := if l1.beat.WritingToken? then BeatNext(interval, skew, l1, now, false, WriteToken) else l1;
      BeatNext(interval, skew, BeatNext(interval, skew, l2, now, false, WriteExpiry), now, false, Unlock)
  }

  /** The steps of the goroutine add up to what the method does: the registration is replaced as a whole or
      extended if the request succeeded, is as it was if not, and the lock is free again. */
  lemma PassIsUpkeep(interval: int, skew: int, l: Lease, decidedAt: int, answeredAt: int,
                     registering: Exchange<RegistrationWire>, beating: Exchange<Stamp>)
    requires l.beat.Fired? && !l.locked
    ensures var l' := Pass(interval, skew, l, decidedAt, answeredAt, registering, beating);
      && l'.beat == Rearming(l.beat.due) && !l'.locked
      && l'.registration == match Upkeep(l.registration, skew, decidedAt, answeredAt, registering, beating)
                            case Ok(pair) => pair
                            case Err(_) => l.registration
  {
  }

  // ---- how long the lease lasts -----------------------------------------------

  /** How much later than planned the timer can be due after `failures` failed passes in a row, when each
      takes at most `pass` from the moment it was due and is followed by the short retry delay. */
  function Slip(failures: nat, interval: int, pass: int): int {
    failures * (Min(SECOND, interval) + pass)
  }

  lemma SlipNext(failures: nat, interval: int, pass: int)
    ensures Slip(failures + 1, interval, pass) == Slip(failures, interval, pass) + Min(SECOND, interval) + pass
    ensures Slip(0, interval, pass) == 0
  {
  }

  /** Passes that failed in a row since the registration was last renewed or not yet due for renewal. */
  function FailuresAfter(failures: nat, l: Lease, skew: int, now: int, step: BeatStep): nat {
    match step
    case RegisterAnswer(reply) => if ReadRegistration(reply, now).Err? then failures + 1 else failures
    case HeartbeatAnswer(reply) => if ReadHeartbeat(reply, now).Err? then failures + 1 else failures
    case Unlock => 0
    case Rearm => if now < l.registration.expiresAt - skew then 0 else failures
    case _ => failures
  }

  /** The timing the lease relies on: a pass, lateness of its timer included, is over less than `pass` after
      its timer was due, and if it renewed the registration, that then leaves more than `skew`. */
  predicate TimelyTick(l: Lease, skew: int, pass: int, failures: nat, to: int) {
    match l.beat
    case Armed(due) => to < due + pass
    case Fired(due) => to < due + pass
    case Registering(due) => to < due + pass
    case Heartbeating(due, _) => to < due + pass
    case Renewing(due, ack) => to < due + pass && to + skew < ack.expiresAt
    case WritingToken(due, ack) => to < due + pass && to + skew < ack.expiresAt
    case Extending(due, expires) => to < due + pass && to + skew < expires
    case WritingExpiry(due, expires) => to < due + pass && to + skew < expires
    case Unlocking(_) => to + skew < l.registration.expiresAt
    case Rearming(due) => if failures == 0 then to + skew < l.registration.expiresAt else to < due + pass
    case Stopped => true
  }

  /** An acknowledgment leaves more than `skew`; nothing is asked of a failure. */
  predicate TimelyAnswer(step: BeatStep, skew: int, now: int) {
    match step
    case RegisterAnswer(reply) =>
      (match ReadRegistration(reply, now)
       case Ok(ack) => now + skew < ack.expiresAt
       case Err(_) => true)
    case HeartbeatAnswer(reply) =>
      (match ReadHeartbeat(reply, now)
       case Ok(expires) => now + skew < expires
       case Err(_) => true)
    case _ => true
  }

  /** The expiry that armed the timer of this pass is still the shared one. */
  predicate BeforeExpiryWrite(beat: Beat) {
    !beat.Unlocking? && !beat.Rearming? && !beat.Stopped?
  }

  /** The timer is due at most `Slip(failures)` after the refresh point, and the pass under way ends in time. */
  predicate Fresh(l: Lease, interval: int, skew: int, pass: int, failures: nat, now: int) {
    && ZERO_TIME < now
    && (BeforeExpiryWrite(l.beat) ==>
          l.beat.due <= l.registration.expiresAt - skew + Slip(failures, interval, pass) && now < l.beat.due + pass)
    && match l.beat
       case Renewing(_, ack) => now + skew < ack.expiresAt
       case WritingToken(_, ack) => now + skew < ack.expiresAt
       case Extending(_, expires) => now + skew < expires
       case WritingExpiry(_, expires) => now + skew < expires
       case Unlocking(_) => now + skew < l.registration.expiresAt
       case Rearming(due) =>
         if failures == 0 then now + skew < l.registration.expiresAt
         else due <= l.registration.expiresAt - skew + Slip(failures - 1, interval, pass) && now < due + pass
       case _ => true
  }

  lemma FreshAtStart(ack: Registration, now: int, interval: int, skew: int, pass: int)
    requires ZERO_TIME < now && now + skew < ack.expiresAt && interval >= 1 && pass >= 0
    ensures Fresh(Open(ack, now, interval, skew), interval, skew, pass, 0, now)
  {
    DelayIsTimely(now, ack.expiresAt, interval, skew);
    SlipNext(0, interval, pass);
  }

  lemma FreshTick(l: Lease, interval: int, skew: int, pass: int, failures: nat, now: int, to: int)
    requires Fresh(l, interval, skew, pass, failures, now) && now <= to && TimelyTick(l, skew, pass, failures, to)
    ensures Fresh(l, interval, skew, pass, failures, to)
  {
  }

  lemma FreshStep(
    interval: int, skew: int, pass: int, l: Lease, failures: nat, now: int, cancelled: bool, step: BeatStep)
    requires interval >= 1 && pass >= 0 && Fresh(l, interval, skew, pass, failures, now)
    requires BeatEnabled(l, now, cancelled, step) && TimelyAnswer(step, skew, now)
    ensures Fresh(BeatNext(interval, skew, l, now, cancelled, step), interval, skew, pass,
                  FailuresAfter(failures, l, skew, now, step), now)
  {
    SlipNext(failures, interval, pass);
    if step.Rearm? {
      DelayIsTimely(now, l.registration.expiresAt, interval, skew);
      if failures > 0 {
        SlipNext(failures - 1, interval, pass);
      }
    }
  }

  /** The skew covers the slip of this many failures and one more pass. */
  predicate Covered(failures: nat, interval: int, skew: int, pass: int) {
    Slip(failures, interval, pass) + pass <= skew
  }

  lemma FreshMeansUnexpired(l: Lease, interval: int, skew: int, pass: int, failures: nat, now: int)
    requires Fresh(l, interval, skew, pass, failures, now) && interval >= 1 && skew >= 0 && pass >= 0
    requires Covered(failures, interval, skew, pass) && !l.beat.Stopped?
    ensures now < l.registration.expiresAt
  {
    if failures > 0 {
      SlipNext(failures - 1, interval, pass);
    }
  }
}
