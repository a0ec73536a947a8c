/** Reading the executor endpoints' replies (agent/serverapi/tool_protocol.go).
    Instants are integers; 0 is Go's zero `time.Time`. */
module Protocol {
  import opened Prelude
  import opened Text
  import opened Errors

  const ZERO_TIME := 0

  /** One HTTP exchange whose body has already been decoded into the expected shape, or not. */
  datatype Exchange<+T> =
    | NoResponse(err: GoError)
    | Refused(status: int, code: string)     // status outside 200..299
    | Undecodable
    | Decoded(status: int, body: T)

  /** `client.do` (lines 211-224). */
  function Do<T>(reply: Exchange<T>): Result<T, GoError> {
    match reply
    case NoResponse(err) => Err(err)
    case Refused(status, code) => Err(Api(ApiError("POST", "", status, code, "", "", "", false, ""), None))
    case Undecodable => Err(Protocol("serverapi: malformed successful response"))
    case Decoded(_, body) => Ok(body)
  }

  /** A timestamp field: absent, not a string, or a string with what `time.Parse` makes of it. */
  datatype Stamp = Absent | NotString | Stamped(parsed: Option<int>)

  function Parsed(stamp: Stamp): Option<int> {
    if stamp.Stamped? then stamp.parsed else None
  }

  datatype Registration = Registration(token: string, expiresAt: int)

  datatype RegistrationWire = RegistrationWire(token: string, expiresAt: Stamp)

  /** `registerExecutor` (lines 113-126). */
  function ReadRegistration(reply: Exchange<RegistrationWire>, now: int): Result<Registration, GoError> {
    match Do(reply)
    case Err(err) => Err(err)
    case Ok(wire) =>
      var expires := Parsed(wire.expiresAt);
      if Blank(wire.token) || expires.None? || !(now < expires.value)
      then Err(Protocol("serverapi: malformed registration response"))
      else Ok(Registration(wire.token, expires.value))
  }

  /** `heartbeatExecutor` (lines 128-138). */
  function ReadHeartbeat(reply: Exchange<Stamp>, now: int): Result<int, GoError> {
    match Do(reply)
    case Err(err) => Err(err)
    case Ok(stamp) =>
      var expires := Parsed(stamp);
      if expires.None? || !(now < expires.value)
      then Err(Protocol("serverapi: malformed heartbeat response"))
      else Ok(expires.value)
  }

  datatype Identity = Identity(namespace: string, name: string, version: string)

  datatype ClaimWire = ClaimWire(
    kind: string, outcomeToken: string, expiresAt: Stamp,
    tool: Identity, input: string, userID: string, labels: nat)

  datatype ClaimAck =
    | NoneAvailable
    | Claimed(outcomeToken: string, expiresAt: int, expiryIsValid: bool, tool: Identity)

  /** `client.claim` after the exchange (lines 154-171). */
  function ReadClaim(wire: ClaimWire, now: int): Result<ClaimAck, GoError> {
    var expires := Parsed(wire.expiresAt);
    var valid := expires.Some? && now < expires.value;
    if wire.kind == "none" then
      if wire.outcomeToken != "" || !wire.expiresAt.Absent? || wire.tool != Identity("", "", "")
         || wire.input != "" || wire.userID != "" || wire.labels != 0
      then Err(Protocol("serverapi: malformed empty claim response"))
      else Ok(NoneAvailable)
    else if wire.kind == "claimed" then
      if Blank(wire.outcomeToken) || Blank(wire.tool.namespace) || Blank(wire.tool.name)
         || Blank(wire.tool.version) || wire.input == "" || Blank(wire.userID)
      then Err(Protocol("serverapi: malformed claimed response"))
      else Ok(Claimed(wire.outcomeToken, if expires.Some? then expires.value else ZERO_TIME, valid, wire.tool))
    else Err(Protocol("serverapi: malformed claim response"))
  }

  /** The decoded `recorded` flag, None when missing or null. */
  type OutcomeWire = Option<bool>

  /** `client.submitOutcome` after the exchange (lines 189-208). */
  function ReadOutcome(reply: Exchange<OutcomeWire>): Option<GoError> {
    match reply
    case NoResponse(err) => Some(err)
    case Refused(status, code) => Some(Api(ApiError("POST", "", status, code, "", "", "", false, ""), None))
    case Undecodable => Some(Protocol("serverapi: malformed outcome response"))
    case Decoded(status, body) =>
      if status != 200 then Some(Protocol("serverapi: malformed outcome response: unexpected status"))
      else if body.None? then Some(Protocol("serverapi: malformed outcome response: recorded must be boolean"))
      else None
  }

  /** The reply carries this instant. */
  predicate Carries(stamp: Stamp, instant: int) {
    stamp == Stamped(Some(instant))
  }

  /** A registration is accepted exactly if it decodes to a usable token with time left; then it is taken as it
      is. A decoded one that is refused is final. */
  lemma AcceptedRegistration(reply: Exchange<RegistrationWire>, now: int)
    ensures match ReadRegistration(reply, now)
            case Ok(r) => !Blank(r.token) && now < r.expiresAt && reply.Decoded? && r.token == reply.body.token
                          && Carries(reply.body.expiresAt, r.expiresAt)
            case Err(err) =>
              && (reply.Decoded? || reply.Undecodable? ==> !IsRetryable(Some(err)))
              && (reply.Refused? ==> HttpStatus(Some(err)) == reply.status && ErrorCode(Some(err)) == reply.code)
              && (reply.NoResponse? ==> err == reply.err)
    ensures ReadRegistration(reply, now).Ok? <==>
              reply.Decoded? && !Blank(reply.body.token) && exists t :: Carries(reply.body.expiresAt, t) && now < t
  {
    if reply.Decoded? && ReadRegistration(reply, now).Ok? {
      assert Carries(reply.body.expiresAt, ReadRegistration(reply, now).value.expiresAt);
    }
  }

  /** A heartbeat is accepted exactly if it carries an instant ahead, which becomes the expiry. */
  lemma AcceptedHeartbeat(reply: Exchange<Stamp>, now: int, t: int)
    ensures ReadHeartbeat(reply, now) == Ok(t) <==> reply.Decoded? && Carries(reply.body, t) && now < t
  {
  }

  /** Everything needed to run a call and report it; labels are optional. */
  predicate Complete(wire: ClaimWire) {
    && wire.kind == "claimed"
    && !Blank(wire.outcomeToken) && !Blank(wire.userID) && wire.input != ""
    && !Blank(wire.tool.namespace) && !Blank(wire.tool.name) && !Blank(wire.tool.version)
  }

  /** A claim is accepted exactly if it is complete, whatever the clock and the labels, and an empty reply
      exactly if it is empty. The deadline is valid exactly if it is an instant ahead, and the zero time if
      it is none. Anything else is an error that must not be retried. */
  lemma AcceptedClaim(wire: ClaimWire, now: int, later: int)
    ensures ReadClaim(wire, now).Ok? <==> ReadClaim(wire, later).Ok?
    ensures match ReadClaim(wire, now)
            case Ok(Claimed(token, expiresAt, valid, tool)) =>
              && Complete(wire) && token == wire.outcomeToken && tool == wire.tool
              && (valid <==> Carries(wire.expiresAt, expiresAt) && now < expiresAt)
              && ((forall t :: !Carries(wire.expiresAt, t)) ==> expiresAt == ZERO_TIME && !valid)
              && (forall t | Carries(wire.expiresAt, t) :: expiresAt == t)
            case Ok(NoneAvailable) => wire == ClaimWire("none", "", Absent, Identity("", "", ""), "", "", 0)
            case Err(err) => !IsRetryable(Some(err))
    ensures Complete(wire) <==> ReadClaim(wire, now).Ok? && ReadClaim(wire, now).value.Claimed?
    ensures ReadClaim(ClaimWire("none", "", Absent, Identity("", "", ""), "", "", 0), now) == Ok(NoneAvailable)
  {
    if ReadClaim(wire, now).Ok? && ReadClaim(wire, now).value.Claimed? && wire.expiresAt.Stamped? && wire.expiresAt.parsed.Some? {
      assert Carries(wire.expiresAt, wire.expiresAt.parsed.value);
    }
  }

  /** A throttled, timed out or failing server, or a failure of the transport that may pass. */
  predicate WorthRepeating(reply: Exchange<OutcomeWire>) {
    || (reply.NoResponse? && IsRetryable(Some(reply.err)))
    || (reply.Refused? && RetryableStatus(reply.status))
  }

  /** 200 with an explicit boolean. */
  predicate Settled(reply: Exchange<OutcomeWire>) {
    reply.Decoded? && reply.status == 200 && reply.body.Some?
  }

  lemma OutcomeReplies(reply: Exchange<OutcomeWire>)
    ensures IsRetryable(ReadOutcome(reply)) <==> WorthRepeating(reply)
    ensures reply.Refused? ==>
              (WorthRepeating(reply) <==> reply.status == 408 || reply.status == 429 || reply.status >= 500)
    ensures ReadOutcome(reply).None? <==> Settled(reply)
    ensures reply.Refused? ==> HttpStatus(ReadOutcome(reply)) == reply.status && ErrorCode(ReadOutcome(reply)) == reply.code
  {
  }
}
