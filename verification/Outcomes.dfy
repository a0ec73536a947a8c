/** What a tool call reports to the server (agent/serverapi/types.go:40-62,
    agent/serverapi/tool_worker.go:199-237, agent/tool.go:146-164). */
module Outcomes {
  import opened Prelude
  import opened Text
  import opened Errors

  const UNKNOWN_CODE := "unknown"
  const UNKNOWN_MESSAGE := "Tool execution failed"

  datatype AgentToolError = AgentToolError(code: string, message: string, details: Option<string>)

  datatype Outcome = Outcome(status: string, result: Option<string>, error: Option<AgentToolError>)

  function Succeeded(result: string): Outcome {
    Outcome("succeeded", Some(result), None)
  }

  function Failed(code: string, message: string, details: Option<string>): Outcome {
    Outcome("failed", None, Some(AgentToolError(code, message, details)))
  }

  function InternalFailure(): Outcome {
    Failed(UNKNOWN_CODE, UNKNOWN_MESSAGE, None)
  }

  /** The two shapes the outcome endpoint accepts. */
  predicate Reportable(o: Outcome) {
    || (o.status == "succeeded" && o.result.Some? && o.error.None?)
    || (o.status == "failed" && o.result.None? && o.error.Some?
        && !Blank(o.error.value.code) && !Blank(o.error.value.message))
  }

  /** The `details` argument of `NewToolError`: absent, JSON, or something that cannot be cloned as JSON. */
  datatype Details = NoDetails | Json(text: string) | NotJson

  /** `agent.NewToolError`. */
  function NewToolError(code: string, message: string, details: Details): ToolError {
    if details.NotJson? then ToolError(UNKNOWN_CODE, UNKNOWN_MESSAGE, None)
    else
      ToolError(
        if Blank(code) then UNKNOWN_CODE else code,
        if Blank(message) then UNKNOWN_MESSAGE else message,
        if details.Json? then Some(details.text) else None)
  }

  /** What running a tool yields: its encoded result, or an error (a recovered panic included). */
  datatype HandlerResult = Returned(json: string) | Raised(err: GoError)

  /** `isNilError`: the error interface holds a nil pointer. */
  predicate IsNilError(e: GoError) {
    e.NilValue? || e == Tool(None)
  }

  /** `ToolWorker.execute`, for an identity that is registered or not. */
  function Execute(registered: bool, handler: HandlerResult): Outcome {
    if !registered then InternalFailure()
    else
      match handler
      case Returned(json) => Succeeded(json)
      case Raised(e) =>
        if IsNilError(e) then InternalFailure()
        else
          match AsTool(e)
          case None => InternalFailure()
          case Some(None) => InternalFailure()
          case Some(Some(public)) =>
            if Blank(public.code) || Blank(public.message) then InternalFailure()
            else Failed(public.code, public.message, public.details)
  }

  lemma UnknownIsNotBlank()
    ensures !Blank(UNKNOWN_CODE) && !Blank(UNKNOWN_MESSAGE)
  {
    assert !IsSpace(UNKNOWN_CODE[0]) && !IsSpace(UNKNOWN_MESSAGE[0]);
  }

  /** A tool error of which something may be revealed. */
  predicate Revealing(link: GoError) {
    link.Tool? && link.public.Some? && !Blank(link.public.value.code) && !Blank(link.public.value.message)
  }

  /** What `outcome` says of a handler that ended so: its result as it is, or the first tool error of the
      chain, or else no more than that it failed. */
  ghost predicate Reports(handler: HandlerResult, outcome: Outcome) {
    match handler
    case Returned(json) => outcome.status == "succeeded" && outcome.result == Some(json) && outcome.error.None?
    case Raised(e) =>
      && outcome.status == "failed" && outcome.result.None? && outcome.error.Some?
      && (forall k: nat | FirstTool(e, k) && Revealing(Chain(e)[k]) ::
            && outcome.error.value.code == Chain(e)[k].public.value.code
            && outcome.error.value.message == Chain(e)[k].public.value.message
            && outcome.error.value.details == Chain(e)[k].public.value.details)
      && ((forall k: nat | FirstTool(e, k) :: !Revealing(Chain(e)[k])) ==> SaysNothing(outcome))
  }

  predicate SaysNothing(outcome: Outcome) {
    && outcome.status == "failed" && outcome.result.None? && outcome.error.Some?
    && outcome.error.value.code == "unknown" && outcome.error.value.message == "Tool execution failed"
    && outcome.error.value.details.None?
  }

  lemma {:induction false} FirstToolExists(e: GoError) returns (k: nat)
    requires AsTool(e).Some?
    ensures FirstTool(e, k)
    decreases Depth(e)
  {
    k := 0;
    if !e.Tool? {
      var inner := Unwrap(e).value;
      assert forall j | 0 <= j < |Chain(inner)| :: Chain(inner)[j] == Chain(e)[j + 1];
      k := FirstToolExists(inner);
      k := k + 1;
    }
  }

  /** A registered tool's result or error is what is reported; an identity nobody registered says nothing. */
  lemma ExecuteReports(handler: HandlerResult)
    ensures Reports(handler, Execute(true, handler))
    ensures SaysNothing(Execute(false, handler)) && SaysNothing(InternalFailure())
  {
    if handler.Raised? {
      var e := handler.err;
      forall k: nat | FirstTool(e, k) ensures AsTool(e) == Some(Chain(e)[k].public) {
        AsToolFindsTheFirst(e, k);
      }
      if AsTool(e).Some? {
        var k := FirstToolExists(e);
        AsToolFindsTheFirst(e, k);
      }
      if IsNilError(e) {
        NilErrorsAreBare(e);
      }
    }
  }

  lemma NilErrorsAreBare(e: GoError)
    requires IsNilError(e)
    ensures Chain(e) == [e]
  {
  }

  /** Every result and every error chain becomes an outcome the server accepts. */
  lemma ExecuteIsReportable(registered: bool, handler: HandlerResult)
    ensures Reportable(Execute(registered, handler))
    ensures Execute(registered, handler).result.Some? <==> registered && handler.Returned?
  {
    UnknownIsNotBlank();
  }

  /** Only a nonblank tool error in the chain reveals anything: all other errors, typed nils
      and blank tool errors included, map to one constant. */
  lemma ErrorsRevealOnlyToolErrors(e: GoError)
    ensures Execute(true, Raised(e)) != InternalFailure() ==>
              exists link :: link in Chain(e) && link.Tool? && link.public.Some?
                && Execute(true, Raised(e)) == Failed(link.public.value.code, link.public.value.message, link.public.value.details)
    ensures (forall link | link in Chain(e) :: !link.Tool?) ==> Execute(true, Raised(e)) == InternalFailure()
  {
    AsToolReadsTheChain(e);
    if Execute(true, Raised(e)) != InternalFailure() {
      assert Tool(AsTool(e).value) in Chain(e);
    }
  }

  /** A tool error made by the constructor reaches the server under any depth of wrapping as it was made:
      code, message and details as given, blanks replaced, and nothing of it if the details are not JSON. */
  lemma ConstructedToolErrorIsReported(code: string, message: string, details: Details, n: nat)
    ensures var o := Execute(true, Raised(Wrap(Tool(Some(NewToolError(code, message, details))), n)));
      && o.status == "failed" && o.result.None? && o.error.Some?
      && o.error.value.code == (if details.NotJson? || Blank(code) then "unknown" else code)
      && o.error.value.message == (if details.NotJson? || Blank(message) then "Tool execution failed" else message)
      && o.error.value.details == (if details.Json? then Some(details.text) else None)
  {
    UnknownIsNotBlank();
    var e := Tool(Some(NewToolError(code, message, details)));
    WrappingIsTransparent(e, n);
    assert AsTool(e) == Some(e.public);
  }
}
