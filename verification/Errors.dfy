/** Wrapped Go errors and the questions asked of them (agent/serverapi/client.go:86-160).
    A value of `GoError` is a non-nil error whose `Unwrap` calls all return normally. */
module Errors {
  import opened Prelude

  datatype ApiError = ApiError(
    verb: string, path: string, statusCode: int, code: string,
    kind: string, message: string, details: string,
    outcomeUnknown: bool, idempotencyKey: string)

  datatype ToolError = ToolError(code: string, message: string, details: Option<string>)

  datatype GoError =
    | Plain(message: string)                                // errors.New
    | MalformedProtocol                                     // errMalformedProtocol
    | Canceled                                              // context.Canceled
    | DeadlineExceeded                                      // context.DeadlineExceeded, itself a net.Error
    | Network(message: string, isDeadline: bool)            // a net.Error, matching DeadlineExceeded or not
    | UrlError(inner: GoError)                              // *url.Error, a net.Error around the transport's error
    | Wrapped(inner: GoError)                               // fmt.Errorf("...%w")
    | Protocol(message: string)                             // protocolError, unwraps to errMalformedProtocol
    | Api(error: ApiError, cause: Option<GoError>)          // Error
    | ApiRef(error: ApiError, cause: Option<GoError>)       // a non-nil *Error
    | Tool(public: Option<ToolError>)                       // *agent.ToolError, None for a typed nil
    | NilValue                                              // a typed nil of any other error type

  datatype Sentinel = MalformedTarget | CanceledTarget | DeadlineTarget

  predicate Matches(e: GoError, target: Sentinel) {
    match target
    case MalformedTarget => e.MalformedProtocol?
    case CanceledTarget => e.Canceled?
    case DeadlineTarget => e.DeadlineExceeded? || (e.Network? && e.isDeadline)
  }

  /** `errors.Is`. */
  predicate Is(e: GoError, target: Sentinel) {
    || Matches(e, target)
    || match e
       case UrlError(inner) => Is(inner, target)
       case Wrapped(inner) => Is(inner, target)
       case Protocol(_) => target.MalformedTarget?
       case Api(_, Some(cause)) => Is(cause, target)
       case ApiRef(_, Some(cause)) => Is(cause, target)
       case _ => false
  }

  /** `errors.As` into an `Error` value. */
  function AsValue(e: GoError): Option<ApiError> {
    match e
    case Api(error, _) => Some(error)
    case ApiRef(_, Some(cause)) => AsValue(cause)
    case UrlError(inner) => AsValue(inner)
    case Wrapped(inner) => AsValue(inner)
    case _ => None
  }

  /** `errors.As` into an `*Error`. */
  function AsRef(e: GoError): Option<ApiError> {
    match e
    case ApiRef(error, _) => Some(error)
    case Api(_, Some(cause)) => AsRef(cause)
    case UrlError(inner) => AsRef(inner)
    case Wrapped(inner) => AsRef(inner)
    case _ => None
  }

  /** `errors.As` into a `net.Error`. */
  predicate AsNetwork(e: GoError) {
    match e
    case Network(_, _) => true
    case DeadlineExceeded => true
    case UrlError(_) => true
    case Wrapped(inner) => AsNetwork(inner)
    case Api(_, Some(cause)) => AsNetwork(cause)
    case ApiRef(_, Some(cause)) => AsNetwork(cause)
    case _ => false
  }

  /** `errors.As` into an `*agent.ToolError`; the outer option says whether one was found. */
  function AsTool(e: GoError): Option<Option<ToolError>> {
    match e
    case Tool(public) => Some(public)
    case UrlError(inner) => AsTool(inner)
    case Wrapped(inner) => AsTool(inner)
    case Api(_, Some(cause)) => AsTool(cause)
    case ApiRef(_, Some(cause)) => AsTool(cause)
    case _ => None
  }

  /** Client code prefers an `Error` value anywhere in the chain to an `*Error`. */
  function AsError(e: GoError): Option<ApiError> {
    match AsValue(e)
    case Some(value) => Some(value)
    case None => AsRef(e)
  }

  const TOO_MANY_REQUESTS := 429
  const REQUEST_TIMEOUT := 408

  predicate RetryableStatus(status: int) {
    status == REQUEST_TIMEOUT || status == TOO_MANY_REQUESTS || status >= 500
  }

  predicate IsRetryable(err: Option<GoError>) {
    match err
    case None => false
    case Some(e) =>
      if Is(e, MalformedTarget) then false
      else if Is(e, CanceledTarget) || Is(e, DeadlineTarget) then false
      else
        match AsError(e)
        case Some(api) =>
          if api.outcomeUnknown then false
          else if api.statusCode != 0 then RetryableStatus(api.statusCode)
          else AsNetwork(e)
        case None => AsNetwork(e)
  }

  function ErrorCode(err: Option<GoError>): string {
    if err.Some? && AsError(err.value).Some? then AsError(err.value).value.code else ""
  }

  function HttpStatus(err: Option<GoError>): int {
    if err.Some? && AsError(err.value).Some? then AsError(err.value).value.statusCode else 0
  }

  /** `errors.Unwrap`. */
  function Unwrap(e: GoError): Option<GoError> {
    match e
    case UrlError(inner) => Some(inner)
    case Wrapped(inner) => Some(inner)
    case Protocol(_) => Some(MalformedProtocol)
    case Api(_, cause) => cause
    case ApiRef(_, cause) => cause
    case _ => None
  }

  function Depth(e: GoError): nat {
    match e
    case UrlError(inner) => 1 + Depth(inner)
    case Wrapped(inner) => 1 + Depth(inner)
    case Protocol(_) => 1
    case Api(_, Some(cause)) => 1 + Depth(cause)
    case ApiRef(_, Some(cause)) => 1 + Depth(cause)
    case _ => 0
  }

  /** Every error met on the way down, outermost first. */
  function Chain(e: GoError): seq<GoError>
    decreases Depth(e)
  {
    match Unwrap(e)
    case None => [e]
    case Some(inner) => [e] + Chain(inner)
  }

  predicate NetworkLink(e: GoError) {
    e.Network? || e.DeadlineExceeded? || e.UrlError?
  }

  /** `errors.Is` finds its target exactly when some link of the chain is that target. */
  lemma {:induction false} IsReadsTheChain(e: GoError, target: Sentinel)
    ensures Is(e, target) <==> exists link :: link in Chain(e) && Matches(link, target)
    decreases Depth(e)
  {
    assert e in Chain(e);
    if Unwrap(e).Some? {
      var inner := Unwrap(e).value;
      IsReadsTheChain(inner, target);
      assert Is(e, target) == (Matches(e, target) || Is(inner, target));
      assert forall link :: link in Chain(e) <==> link == e || link in Chain(inner);
    }
  }

  /** `errors.As` finds a network error exactly when some link of the chain is one. */
  lemma {:induction false} AsNetworkReadsTheChain(e: GoError)
    ensures AsNetwork(e) <==> exists link :: link in Chain(e) && NetworkLink(link)
    decreases Depth(e)
  {
    assert e in Chain(e);
    if Unwrap(e).Some? {
      var inner := Unwrap(e).value;
      AsNetworkReadsTheChain(inner);
      assert AsNetwork(e) == (NetworkLink(e) || AsNetwork(inner));
      assert forall link :: link in Chain(e) <==> link == e || link in Chain(inner);
    } else {
      assert AsNetwork(e) == NetworkLink(e);
      assert Chain(e) == [e];
    }
  }

  predicate ApiLink(e: GoError) {
    e.Api? || e.ApiRef?
  }

  /** Likewise for the API errors, values or pointers. */
  lemma {:induction false} AsErrorReadsTheChain(e: GoError)
    ensures AsError(e).Some? <==> exists link :: link in Chain(e) && ApiLink(link)
    decreases Depth(e)
  {
    assert e in Chain(e);
    if Unwrap(e).Some? {
      var inner := Unwrap(e).value;
      AsErrorReadsTheChain(inner);
      assert AsError(e).Some? == (ApiLink(e) || AsError(inner).Some?);
      assert forall link :: link in Chain(e) <==> link == e || link in Chain(inner);
    } else {
      assert AsError(e).Some? == ApiLink(e);
      assert Chain(e) == [e];
    }
  }

  /** A tool error that is found is a link of the chain, and if none is found there is none. */
  lemma {:induction false} AsToolReadsTheChain(e: GoError)
    ensures AsTool(e).Some? ==> Tool(AsTool(e).value) in Chain(e)
    ensures AsTool(e).None? ==> forall link | link in Chain(e) :: !link.Tool?
    decreases Depth(e)
  {
    if Unwrap(e).Some? {
      AsToolReadsTheChain(Unwrap(e).value);
    }
  }

  /** `k` is the first link of the chain that is a tool error. */
  ghost predicate FirstTool(e: GoError, k: nat) {
    k < |Chain(e)| && Chain(e)[k].Tool? && forall j | 0 <= j < k :: !Chain(e)[j].Tool?
  }

  ghost predicate FirstValue(e: GoError, k: nat) {
    k < |Chain(e)| && Chain(e)[k].Api? && forall j | 0 <= j < k :: !Chain(e)[j].Api?
  }

  ghost predicate FirstRef(e: GoError, k: nat) {
    k < |Chain(e)| && Chain(e)[k].ApiRef? && forall j | 0 <= j < k :: !Chain(e)[j].ApiRef?
  }

  lemma ChainTail(e: GoError, k: nat)
    requires Unwrap(e).Some?
    ensures |Chain(e)| == 1 + |Chain(Unwrap(e).value)| && Chain(e)[0] == e
    ensures 0 < k < |Chain(e)| ==> Chain(e)[k] == Chain(Unwrap(e).value)[k - 1]
  {
  }

  /** `errors.As` finds the first link of its type. */
  lemma {:induction false} AsToolFindsTheFirst(e: GoError, k: nat)
    requires FirstTool(e, k)
    ensures AsTool(e) == Some(Chain(e)[k].public)
    decreases k
  {
    if k > 0 {
      var inner := Unwrap(e).value;
      forall j | 0 <= j < k ensures Chain(inner)[j] == Chain(e)[j + 1] {
        ChainTail(e, j + 1);
      }
      ChainTail(e, 0);
      AsToolFindsTheFirst(inner, k - 1);
    }
  }

  lemma {:induction false} AsValueFindsTheFirst(e: GoError, k: nat)
    requires FirstValue(e, k)
    ensures AsValue(e) == Some(Chain(e)[k].error)
    decreases k
  {
    if k > 0 {
      var inner := Unwrap(e).value;
      forall j | 0 <= j < k ensures Chain(inner)[j] == Chain(e)[j + 1] {
        ChainTail(e, j + 1);
      }
      ChainTail(e, 0);
      AsValueFindsTheFirst(inner, k - 1);
    }
  }

  lemma {:induction false} AsRefFindsTheFirst(e: GoError, k: nat)
    requires FirstRef(e, k)
    ensures AsRef(e) == Some(Chain(e)[k].error)
    decreases k
  {
    if k > 0 {
      var inner := Unwrap(e).value;
      forall j | 0 <= j < k ensures Chain(inner)[j] == Chain(e)[j + 1] {
        ChainTail(e, j + 1);
      }
      ChainTail(e, 0);
      AsRefFindsTheFirst(inner, k - 1);
    }
  }

  /** An API error in the chain, a value anywhere before a pointer, decides alone whether its status is
      retryable; the numbers are those of the protocol. */
  ghost predicate DecidedBy(e: GoError, api: ApiError) {
    || (exists k: nat :: FirstValue(e, k) && Chain(e)[k].error == api)
    || ((forall link | link in Chain(e) :: !link.Api?) && exists k: nat :: FirstRef(e, k) && Chain(e)[k].error == api)
  }

  lemma {:induction false} NoSuchLink(e: GoError)
    ensures (forall link | link in Chain(e) :: !link.Api?) ==> AsValue(e).None?
    decreases Depth(e)
  {
    assert e in Chain(e);
    if Unwrap(e).Some? {
      NoSuchLink(Unwrap(e).value);
    }
  }

  lemma DecidedByIsFound(e: GoError, api: ApiError)
    requires DecidedBy(e, api)
    ensures AsError(e) == Some(api)
  {
    if k: nat :| FirstValue(e, k) && Chain(e)[k].error == api {
      AsValueFindsTheFirst(e, k);
    } else {
      var k: nat :| FirstRef(e, k) && Chain(e)[k].error == api;
      AsRefFindsTheFirst(e, k);
      NoSuchLink(e);
    }
  }

  /** What makes an error retryable: no fatal link, and either an API error of known outcome with status 408,
      429 or from 500 on, or, without a status, a network error. Code and status are that API error's. */
  lemma RetryabilityByStatus(e: GoError, api: ApiError)
    requires DecidedBy(e, api)
    ensures ErrorCode(Some(e)) == api.code && HttpStatus(Some(e)) == api.statusCode
    ensures IsRetryable(Some(e)) <==>
              && (forall link | link in Chain(e) :: !FatalLink(link))
              && !api.outcomeUnknown
              && (if api.statusCode == 0 then exists link :: link in Chain(e) && NetworkLink(link)
                  else api.statusCode == 408 || api.statusCode == 429 || api.statusCode >= 500)
  {
    DecidedByIsFound(e, api);
    FatalLinksAreFound(e);
    AsNetworkReadsTheChain(e);
  }

  lemma RetryabilityWithoutStatus(e: GoError)
    requires forall link | link in Chain(e) :: !ApiLink(link)
    ensures ErrorCode(Some(e)) == "" && HttpStatus(Some(e)) == 0
    ensures IsRetryable(Some(e)) <==>
              && (forall link | link in Chain(e) :: !FatalLink(link))
              && exists link :: link in Chain(e) && NetworkLink(link)
  {
    AsErrorReadsTheChain(e);
    FatalLinksAreFound(e);
    AsNetworkReadsTheChain(e);
  }

  lemma FatalLinksAreFound(e: GoError)
    ensures (Is(e, MalformedTarget) || Is(e, CanceledTarget) || Is(e, DeadlineTarget)) <==>
              exists link :: link in Chain(e) && FatalLink(link)
  {
    IsReadsTheChain(e, MalformedTarget);
    IsReadsTheChain(e, CanceledTarget);
    IsReadsTheChain(e, DeadlineTarget);
    assert forall link :: FatalLink(link) <==>
      Matches(link, MalformedTarget) || Matches(link, CanceledTarget) || Matches(link, DeadlineTarget);
  }

  /** A refusal without a cause. */
  lemma RefusalIsRetryableByStatus(api: ApiError)
    requires !api.outcomeUnknown
    ensures IsRetryable(Some(Api(api, None))) <==> api.statusCode == 408 || api.statusCode == 429 || api.statusCode >= 500
  {
  }

  predicate FatalLink(e: GoError) {
    e.MalformedProtocol? || e.Canceled? || e.DeadlineExceeded? || (e.Network? && e.isDeadline)
  }

  predicate ReasonLink(e: GoError) {
    NetworkLink(e) || ApiLink(e)
  }

  /** One link that is malformed, canceled or matches the deadline error forbids a retry, wherever it is.
      Other timeouts, such as that of a TLS handshake, do not. */
  lemma FatalLinkForbidsRetry(e: GoError, link: GoError)
    requires link in Chain(e) && FatalLink(link)
    ensures !IsRetryable(Some(e))
  {
    IsReadsTheChain(e, MalformedTarget);
    IsReadsTheChain(e, CanceledTarget);
    IsReadsTheChain(e, DeadlineTarget);
    assert Matches(link, MalformedTarget) || Matches(link, CanceledTarget) || Matches(link, DeadlineTarget);
  }

  /** A chain without an API error or a network error gives no reason to retry. */
  lemma RetryHasAReason(e: GoError)
    requires IsRetryable(Some(e))
    ensures exists link :: link in Chain(e) && ReasonLink(link)
  {
    AsNetworkReadsTheChain(e);
    AsErrorReadsTheChain(e);
    if AsNetwork(e) {
      var link :| link in Chain(e) && NetworkLink(link);
      assert ReasonLink(link);
    } else {
      var link :| link in Chain(e) && ApiLink(link);
      assert ReasonLink(link);
    }
  }

  /** `n` layers of `fmt.Errorf("...%w")`. */
  function Wrap(e: GoError, n: nat): GoError {
    if n == 0 then e else Wrapped(Wrap(e, n - 1))
  }

  /** Plain wrapping is invisible to every question the client answers about an error. */
  lemma {:induction false} WrappingIsTransparent(e: GoError, n: nat)
    ensures IsRetryable(Some(Wrap(e, n))) == IsRetryable(Some(e))
    ensures ErrorCode(Some(Wrap(e, n))) == ErrorCode(Some(e))
    ensures HttpStatus(Some(Wrap(e, n))) == HttpStatus(Some(e))
    ensures AsError(Wrap(e, n)) == AsError(e)
    ensures AsTool(Wrap(e, n)) == AsTool(e)
    ensures Depth(Wrap(e, n)) == Depth(e) + n
  {
    if n > 0 {
      WrappingIsTransparent(e, n - 1);
      var inner := Wrap(e, n - 1);
      assert AsError(Wrapped(inner)) == AsError(inner);
      assert forall target :: Is(Wrapped(inner), target) == Is(inner, target);
    }
  }
}
