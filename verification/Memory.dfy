/** The memory client (agent/serverapi/memory.go): local checks, the one request each call may
    make, and the classification of its outcome as applied, rejected or unknown. */
module Memory {
  import opened Prelude
  import opened Text
  import opened Errors

  const MAX_VERSION := 9007199254740991
  const MAX_TEXT_BYTES := 2048
  const MAX_ID_LENGTH := 256
  const ZERO_INSTANT := 0

  /** A Go string used as text: UTF-8, or bytes that are not. */
  datatype GoText = Utf8(chars: string) | NotUtf8

  datatype Time = Time(instant: int, offset: int)

  datatype Block = Block(
    id: string, text: GoText, version: int, managedBy: string, createdBy: string, updatedBy: string,
    createdAt: Time, updatedAt: Time)

  /** What ECMAScript's `trim` removes: U+FEFF included, U+0085 not. */
  predicate Trimmed(c: char) {
    var n := c as int;
    || 0x09 <= n <= 0x0d || n == 0x20 || n == 0xa0 || n == 0x1680 || 0x2000 <= n <= 0x200a
    || n == 0x2028 || n == 0x2029 || n == 0x202f || n == 0x205f || n == 0x3000 || n == 0xfeff
  }

  /** The cutset of `validMemoryText`. */
  const WHITESPACE: string := "\t\n\U{b}\U{c}\r \U{a0}\U{1680}\U{2000}\U{2001}\U{2002}\U{2003}\U{2004}\U{2005}\U{2006}\U{2007}\U{2008}\U{2009}\U{200a}\U{2028}\U{2029}\U{202f}\U{205f}\U{3000}\U{feff}"

  /** Exactly the cutset is trimmed. Go's own notion of space differs in two characters: it has U+0085, and
      does not have U+FEFF. */
  lemma TrimmedIsTheCutset(c: char)
    ensures Trimmed(c) <==> c in WHITESPACE
    ensures Trimmed(c) <==> (IsSpace(c) && c != '\U{85}') || c == '\U{feff}'
  {
  }

  predicate ValidText(text: GoText) {
    && text.Utf8? && NulFree(text.chars)
    && (exists i :: 0 <= i < |text.chars| && !Trimmed(text.chars[i]))
    && Utf8Length(text.chars) <= MAX_TEXT_BYTES
  }

  predicate ValidActor(actor: string) {
    actor == "user" || actor == "agent" || actor == "service"
  }

  predicate ValidId(id: string) {
    1 <= Utf16Length(id) <= MAX_ID_LENGTH
  }

  predicate KeyChar(c: char) {
    'a' <= c <= 'z' || 'A' <= c <= 'Z' || '0' <= c <= '9' || c == '.' || c == '_' || c == ':' || c == '-'
  }

  predicate ValidKey(key: string) {
    ValidId(key) && forall i | 0 <= i < |key| :: KeyChar(key[i])
  }

  predicate ValidVersion(version: int) {
    1 <= version <= MAX_VERSION
  }

  // ---- results and their validation -----------------------------------------

  datatype MemoryResult =
    | ListResult(blocks: Option<seq<Block>>)
    | CreateResult(operation: string, block: Block)
    | UpdateResult(operation: string, block: Block)
    | DeleteResult(operation: string, id: string, version: int)

  predicate ValidBlock(b: Block) {
    && ValidId(b.id) && ValidText(b.text) && ValidVersion(b.version)
    && ValidActor(b.managedBy) && ValidActor(b.createdBy) && ValidActor(b.updatedBy)
    && b.createdAt.instant != ZERO_INSTANT && b.updatedAt.instant != ZERO_INSTANT
  }

  function Utc(t: Time): Time {
    Time(t.instant, 0)
  }

  function InUtc(b: Block): Block {
    b.(createdAt := Utc(b.createdAt), updatedAt := Utc(b.updatedAt))
  }

  function AllInUtc(blocks: seq<Block>): seq<Block> {
    seq(|blocks|, i requires 0 <= i < |blocks| => InUtc(blocks[i]))
  }

  predicate ValidResult(r: MemoryResult) {
    match r
    case ListResult(blocks) => blocks.Some? && forall i | 0 <= i < |blocks.value| :: ValidBlock(blocks.value[i])
    case CreateResult(operation, block) => operation == "create" && ValidBlock(block)
    case UpdateResult(operation, block) => operation == "update" && ValidBlock(block)
    case DeleteResult(operation, id, version) => operation == "delete" && ValidId(id) && ValidVersion(version)
  }

  function ResultInUtc(r: MemoryResult): MemoryResult {
    match r
    case ListResult(Some(blocks)) => ListResult(Some(AllInUtc(blocks)))
    case CreateResult(operation, block) => CreateResult(operation, InUtc(block))
    case UpdateResult(operation, block) => UpdateResult(operation, InUtc(block))
    case _ => r
  }

  /** The list case of `validMemoryResult` with `validMemoryBlock` inlined (lines 287-308): blocks
      are normalised in place, one after another, up to the first that is not valid. */
  method CheckBlocks(blocks: array<Block>) returns (ok: bool)
    modifies blocks
    ensures ok <==> forall i | 0 <= i < blocks.Length :: ValidBlock(old(blocks[i]))
    ensures ok ==> blocks[..] == AllInUtc(old(blocks[..]))
    ensures !ok ==> exists bad | 0 <= bad < blocks.Length ::
              !ValidBlock(old(blocks[bad])) && blocks[bad..] == old(blocks[bad..])
              && blocks[..bad] == AllInUtc(old(blocks[..bad]))
  {
    for i := 0 to blocks.Length
      invariant forall j | 0 <= j < i :: ValidBlock(old(blocks[j])) && blocks[j] == InUtc(old(blocks[j]))
      invariant forall j | i <= j < blocks.Length :: blocks[j] == old(blocks[j])
    {
      var b := blocks[i];
      if !ValidId(b.id) || !ValidText(b.text) || b.version < 1 || b.version > MAX_VERSION
         || !ValidActor(b.managedBy) || !ValidActor(b.createdBy) || !ValidActor(b.updatedBy)
         || b.createdAt.instant == ZERO_INSTANT || b.updatedAt.instant == ZERO_INSTANT {
        assert blocks[i..] == old(blocks[i..]);
        assert blocks[..i] == AllInUtc(old(blocks[..i]));
        return false;
      }
      blocks[i] := b.(createdAt := Time(b.createdAt.instant, 0), updatedAt := Time(b.updatedAt.instant, 0));
    }
    assert blocks[..] == AllInUtc(old(blocks[..]));
    ok := true;
  }

  // ---- one exchange ---------------------------------------------------------

  datatype Verb = GET | POST | PATCH | DELETE

  predicate Writes(verb: Verb) {
    !verb.GET?
  }

  predicate Conditional(verb: Verb) {
    verb.PATCH? || verb.DELETE?
  }

  datatype Problem = Problem(kind: string, code: string, message: string, details: string)

  /** The error body of a refused request, when it decodes: flat, or nested under "error". */
  datatype Envelope = Unreadable | Envelope(outer: Problem, nested: Option<Problem>)

  /** The body of a success: not one JSON value, not UTF-8, of the wrong shape, or decoded. */
  datatype Payload = NotJson | BadUtf8 | WrongShape | Decoded(result: MemoryResult)

  datatype HttpReply =
    | Lost(err: GoError)
    | Answer(status: int, envelope: Envelope, payload: Payload)

  /** The payload has the shape the caller asked to decode into. */
  predicate Expected(verb: Verb, r: MemoryResult) {
    match verb
    case GET => r.ListResult?
    case POST => r.CreateResult?
    case PATCH => r.UpdateResult?
    case DELETE => r.DeleteResult?
  }

  predicate Success(status: int) {
    200 <= status < 300
  }

  /** Statuses that leave open whether a write happened. */
  predicate Uncertain(status: int) {
    status < 400 || status == REQUEST_TIMEOUT || status >= 500
  }

  function BaseError(key: string): ApiError {
    ApiError("", "", 0, "", "", "", "", false, key)
  }

  /** The checks `memoryRequest` makes before it sends anything (lines 174-222). */
  function Admit(verb: Verb, userID: string, memoryID: string, version: int, key: string, ctxErr: Option<GoError>)
    : Option<GoError>
  {
    if !ValidId(userID) then Some(GoError.Plain("serverapi: invalid user ID"))
    else if Conditional(verb) && !ValidId(memoryID) then Some(GoError.Plain("serverapi: invalid memory ID"))
    else if Conditional(verb) && !ValidVersion(version) then Some(GoError.Plain("serverapi: memory version"))
    else if ctxErr.Some? then Some(Api(BaseError(key), ctxErr))
    else None
  }

  /** How the reply to a request that was sent is judged (lines 223-274). */
  function Judge(verb: Verb, key: string, reply: HttpReply): Result<MemoryResult, GoError> {
    match reply
    case Lost(err) => Err(Api(BaseError(key).(outcomeUnknown := Writes(verb)), Some(err)))
    case Answer(status, envelope, payload) =>
      if !Success(status) then
        var problem := if envelope.Unreadable? then Problem("", "", "", "")
                       else if envelope.nested.Some? then envelope.nested.value else envelope.outer;
        Err(Api(ApiError("", "", status, problem.code, problem.kind, problem.message, problem.details,
                         Writes(verb) && Uncertain(status), key), None))
      else if payload.Decoded? && Expected(verb, payload.result) && ValidResult(payload.result) then
        Ok(ResultInUtc(payload.result))
      else
        Err(Api(BaseError(key).(statusCode := status, outcomeUnknown := Writes(verb)),
                Some(Protocol("serverapi: malformed memory response"))))
  }

  /** `memoryRequest`. `reply` is what the network would answer; `sent` counts the requests made. */
  method MemoryRequest(verb: Verb, userID: string, memoryID: string, version: int, key: string,
                       ctxErr: Option<GoError>, reply: HttpReply)
    returns (sent: nat, outcome: Result<MemoryResult, GoError>)
    ensures sent <= 1 && (sent == 1 <==> Admit(verb, userID, memoryID, version, key, ctxErr).None?)
    ensures outcome == match Admit(verb, userID, memoryID, version, key, ctxErr)
                       case Some(err) => Err(err)
                       case None => Judge(verb, key, reply)
  {
    sent := 0;
    if !ValidId(userID) {
      return sent, Err(GoError.Plain("serverapi: invalid user ID"));
    }
    var conditional := verb.PATCH? || verb.DELETE?;
    if conditional {
      if !ValidId(memoryID) {
        return sent, Err(GoError.Plain("serverapi: invalid memory ID"));
      }
      if version < 1 || version > MAX_VERSION {
        return sent, Err(GoError.Plain("serverapi: memory version"));
      }
    }
    var write := !verb.GET?;
    var apiErr := BaseError(key);
    if ctxErr.Some? {
      return sent, Err(Api(apiErr, ctxErr));
    }
    sent := sent + 1;
    if reply.Lost? {
      apiErr := apiErr.(outcomeUnknown := write);
      return sent, Err(Api(apiErr, Some(reply.err)));
    }
    apiErr := apiErr.(statusCode := reply.status);
    if reply.status < 200 || reply.status >= 300 {
      if reply.envelope.Envelope? {
        var outer := reply.envelope.outer;
        apiErr := apiErr.(kind := outer.kind, code := outer.code, message := outer.message, details := outer.details);
        if reply.envelope.nested.Some? {
          var inner := reply.envelope.nested.value;
          apiErr := apiErr.(kind := inner.kind, code := inner.code, message := inner.message, details := inner.details);
        }
      }
      apiErr := apiErr.(outcomeUnknown :=
        write && (reply.status < 400 || reply.status == REQUEST_TIMEOUT || reply.status >= 500));
      return sent, Err(Api(apiErr, None));
    }
    var ok := reply.payload.Decoded? && Expected(verb, reply.payload.result);
    var result := if ok then reply.payload.result else ListResult(None);
    if ok {
      match result {
        case ListResult(Some(found)) =>
          var blocks := new Block[|found|](i requires 0 <= i < |found| => found[i]);
          assert blocks[..] == found;
          ok := CheckBlocks(blocks);
          result := ListResult(Some(blocks[..]));
        case ListResult(None) =>
          ok := false;
        case _ =>
          ok := ValidResult(result);
          result := ResultInUtc(result);
      }
    }
    if !ok {
      apiErr := apiErr.(outcomeUnknown := write);
      return sent, Err(Api(apiErr, Some(Protocol("serverapi: malformed memory response"))));
    }
    outcome := Ok(result);
  }

  // ---- the error algebra of writes and reads --------------------------------

  predicate OutcomeUnknown(e: GoError) {
    AsError(e).Some? && AsError(e).value.outcomeUnknown
  }

  /** A context that has ended reports one of these. */
  predicate ContextError(e: GoError) {
    e.Canceled? || e.DeadlineExceeded?
  }

  /** Every error of a write, under any depth of plain wrapping, is retryable exactly when its status is 429. */
  lemma WriteRetryableIffThrottled(
    verb: Verb, userID: string, memoryID: string, version: int, key: string,
    ctxErr: Option<GoError>, reply: HttpReply, e: GoError, depth: nat)
    requires Writes(verb) && (ctxErr.Some? ==> ContextError(ctxErr.value))
    requires || Admit(verb, userID, memoryID, version, key, ctxErr) == Some(e)
             || (Admit(verb, userID, memoryID, version, key, ctxErr).None? && Judge(verb, key, reply) == Err(e))
    ensures IsRetryable(Some(Wrap(e, depth))) <==> HttpStatus(Some(Wrap(e, depth))) == TOO_MANY_REQUESTS
  {
    WrappingIsTransparent(e, depth);
    if Admit(verb, userID, memoryID, version, key, ctxErr) == Some(e) && e.Api? {
      var cause := ctxErr.value;
      var target := if cause.Canceled? then CanceledTarget else DeadlineTarget;
      assert Is(cause, target) && Is(e, target);
    }
  }

  /** A read is never of unknown outcome, and stays retryable after a network failure or a status that says so. */
  lemma ReadsAreNeverUnknown(key: string, reply: HttpReply, e: GoError)
    requires Judge(GET, key, reply) == Err(e)
    ensures !OutcomeUnknown(e)
    ensures reply.Lost? ==>
              (IsRetryable(Some(e)) <==>
                AsNetwork(reply.err) && !Is(reply.err, MalformedTarget) && !Is(reply.err, CanceledTarget) && !Is(reply.err, DeadlineTarget))
    ensures reply.Answer? ==> (IsRetryable(Some(e)) <==> !Success(reply.status) && reply.status != 0 && RetryableStatus(reply.status))
  {
  }

  /** Every error after the local checks carries the key of the request and the status of the reply, and a
      refusal the code of its error body, the nested one if there is one. */
  lemma ErrorsDescribeTheReply(verb: Verb, key: string, reply: HttpReply, e: GoError)
    requires Judge(verb, key, reply) == Err(e)
    ensures AsError(e).Some? && AsError(e).value.idempotencyKey == key
    ensures HttpStatus(Some(e)) == (if reply.Answer? then reply.status else 0)
    ensures reply.Answer? && !(200 <= reply.status <= 299) && reply.envelope.Envelope? ==>
              ErrorCode(Some(e)) == match reply.envelope.nested
                                    case Some(inner) => inner.code
                                    case None => reply.envelope.outer.code
  {
  }

  // ---- keys -----------------------------------------------------------------

  newtype Byte = n: int | 0 <= n < 256

  const HEX: string := "0123456789abcdef"

  function Hex(bytes: seq<Byte>): string {
    if bytes == [] then ""
    else [HEX[bytes[0] as int / 16], HEX[bytes[0] as int % 16]] + Hex(bytes[1..])
  }

  /** The key `CreateMemory` makes up from sixteen random bytes (lines 125-129). */
  function GeneratedKey(nonce: seq<Byte>): string {
    "aimount-go-" + Hex(nonce)
  }

  lemma {:induction false} HexIsPlain(bytes: seq<Byte>)
    ensures |Hex(bytes)| == 2 * |bytes|
    ensures forall i | 0 <= i < |Hex(bytes)| :: KeyChar(Hex(bytes)[i]) && Hex(bytes)[i] as int < 128
  {
    if bytes != [] {
      HexIsPlain(bytes[1..]);
      assert forall d | 0 <= d < 16 :: KeyChar(HEX[d]) && HEX[d] as int < 128;
    }
  }

  lemma {:induction false} HexInjective(a: seq<Byte>, b: seq<Byte>)
    requires |a| == |b| && Hex(a) == Hex(b)
    ensures a == b
  {
    if a != [] {
      assert Hex(a)[0] == HEX[a[0] as int / 16] && Hex(a)[1] == HEX[a[0] as int % 16];
      assert Hex(b)[0] == HEX[b[0] as int / 16] && Hex(b)[1] == HEX[b[0] as int % 16];
      HexDigitsDistinct(a[0] as int / 16, b[0] as int / 16);
      HexDigitsDistinct(a[0] as int % 16, b[0] as int % 16);
      assert Hex(a)[2..] == Hex(a[1..]) && Hex(b)[2..] == Hex(b[1..]);
      HexInjective(a[1..], b[1..]);
      assert a == [a[0]] + a[1..] && b == [b[0]] + b[1..];
    }
  }

  lemma HexDigitsDistinct(x: nat, y: nat)
    requires x < 16 && y < 16 && HEX[x] == HEX[y]
    ensures x == y
  {
  }

  /** Every random value makes its own key, under the client's prefix. */
  lemma GeneratedKeysDiffer(a: seq<Byte>, b: seq<Byte>)
    requires |a| == |b| == 16
    ensures GeneratedKey(a) == GeneratedKey(b) <==> a == b
    ensures "aimount-go-" <= GeneratedKey(a) && |GeneratedKey(a)| == 43
  {
    HexIsPlain(a);
    assert GeneratedKey(a)[11..] == Hex(a) && GeneratedKey(b)[11..] == Hex(b);
    if GeneratedKey(a) == GeneratedKey(b) {
      HexInjective(a, b);
    }
  }

  /** A generated key passes the check that a retry with it will have to pass. */
  lemma GeneratedKeyIsValid(nonce: seq<Byte>)
    requires |nonce| == 16
    ensures ValidKey(GeneratedKey(nonce)) && GeneratedKey(nonce) != ""
  {
    HexIsPlain(nonce);
    var prefix := "aimount-go-";
    assert forall i | 0 <= i < |prefix| :: KeyChar(prefix[i]) && prefix[i] as int < 128;
    var key := GeneratedKey(nonce);
    assert forall i | 0 <= i < |key| :: key[i] == (if i < |prefix| then prefix[i] else Hex(nonce)[i - |prefix|]);
    Utf16LengthOfBasic(key);
  }
}
