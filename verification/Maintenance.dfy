/** Keeping the executor registration alive (agent/serverapi/tool_worker.go:239-291). */
module Maintenance {
  import opened Prelude
  import opened Errors
  import opened Protocol

  const SECOND := 1_000_000_000

  function Min(a: int, b: int): int {
    if a <= b then a else b
  }

  function MaintenanceDelay(now: int, expires: int, interval: int, skew: int): int {
    var delay := expires - skew - now;
    if delay <= 0 then Min(SECOND, interval)
    else if delay < interval then delay
    else interval
  }

  /** The timer is always armed, never beyond the heartbeat interval, and never beyond the
      refresh point while that lies ahead. */
  lemma DelayIsTimely(now: int, expires: int, interval: int, skew: int)
    requires interval > 0
    ensures var delay := MaintenanceDelay(now, expires, interval, skew);
      0 < delay <= interval && (now < expires - skew ==> now + delay <= expires - skew)
      && (now < expires - skew && delay < interval ==> now + delay == expires - skew)
      && (now < expires - skew && delay != interval ==> now + delay == expires - skew)
      && (expires - skew <= now ==> delay == (if interval < 1_000_000_000 then interval else 1_000_000_000))
  {
  }

  /** The request a maintenance pass makes: a fresh registration near expiry, else a heartbeat. */
  predicate MustRegister(now: int, skew: int, expires: int) {
    now + skew > expires
  }

  /** What one pass makes of the shared pair: the exchange that is not made is ignored. */
  function Upkeep(pair: Registration, skew: int, decidedAt: int, answeredAt: int,
                  registering: Exchange<RegistrationWire>, beating: Exchange<Stamp>): Result<Registration, GoError>
  {
    if MustRegister(decidedAt, skew, pair.expiresAt) then ReadRegistration(registering, answeredAt)
    else
      match ReadHeartbeat(beating, answeredAt)
      case Ok(expires) => Ok(if expires == ZERO_TIME then pair else pair.(expiresAt := expires))
      case Err(e) => Err(e)
  }

  /** The registration shared between the heartbeat loop and the claim loop. */
  class SharedRegistration {
    var token: string
    var expiresAt: int

    constructor (ack: Registration)
      ensures Pair() == ack
    {
      token, expiresAt := ack.token, ack.expiresAt;
    }

    function Pair(): Registration
      reads this
    {
      Registration(token, expiresAt)
    }

    /** `maintainRegistration`. `decidedAt` and `answeredAt` are the two clock readings, and the
        exchange that is not made is ignored. The pair that results is the old one, or one the
        server acknowledged as a whole during this pass. */
    method Maintain(skew: int, decidedAt: int, answeredAt: int,
                    registering: Exchange<RegistrationWire>, beating: Exchange<Stamp>)
      returns (err: Option<GoError>)
      modifies this
      ensures match Upkeep(old(Pair()), skew, decidedAt, answeredAt, registering, beating)
              case Ok(pair) => err.None? && Pair() == pair
              case Err(e) => err == Some(e) && Pair() == old(Pair())
      ensures decidedAt > old(expiresAt) - skew ==>
                match ReadRegistration(registering, answeredAt)
                case Ok(ack) => err.None? && Pair() == ack && answeredAt < expiresAt
                case Err(e) => err == Some(e) && Pair() == old(Pair())
      ensures decidedAt <= old(expiresAt) - skew ==>
                token == old(token)
                && match ReadHeartbeat(beating, answeredAt)
                   case Ok(expires) =>
                     err.None? && expiresAt == (if expires == ZERO_TIME then old(expiresAt) else expires)
                   case Err(e) => err == Some(e) && Pair() == old(Pair())
    {
      var expires := expiresAt;
      if decidedAt + skew > expires {
        var renewed := ReadRegistration(registering, answeredAt);
        if renewed.Err? {
          return Some(renewed.error);
        }
        token, expiresAt := renewed.value.token, renewed.value.expiresAt;
      } else {
        var heartbeat := ReadHeartbeat(beating, answeredAt);
        if heartbeat.Err? {
          return Some(heartbeat.error);
        }
        if heartbeat.value != ZERO_TIME {
          expiresAt := heartbeat.value;
        }
      }
      err := None;
    }
  }
}
