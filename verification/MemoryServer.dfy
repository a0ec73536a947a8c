/** The environment of the memory client, taken from README.md:83-132 as assumptions: the memory of
    one agent and end user with compare-and-set on versions and replay of creations, and a network
    that may lose, replace or damage what passes through it. One write of the client against it. */
module MemoryServer {
  import opened Prelude
  import opened Text
  import opened Errors
  import opened Keys
  import opened Memory

  const RETENTION := 24 * 60 * 60 * 1_000_000_000

  datatype Content = Content(text: string, managedBy: string)

  datatype Receipt = Receipt(content: Content, block: Block, at: int)

  datatype Creation = Creation(key: string, id: string)

  /** `created` records every block ever made and the key it was made under. */
  datatype Server = Server(
    blocks: map<string, Block>, receipts: map<string, Receipt>, issued: nat, created: seq<Creation>)

  datatype Request =
    | Create(key: string, content: Content)
    | Update(id: string, version: int, text: string)
    | Delete(id: string, version: int)

  function IdOf(n: nat): string {
    "memory-" + Decimal(n)
  }

  function NewBlock(id: string, content: Content, now: int): Block {
    Block(id, Utf8(content.text), 1, content.managedBy, "service", "service", Time(now, 0), Time(now, 0))
  }

  function Refuse(status: int): HttpReply {
    Answer(status, Unreadable, NotJson)
  }

  function Accept(status: int, r: MemoryResult): HttpReply {
    Answer(status, Unreadable, Decoded(r))
  }

  predicate Replays(s: Server, key: string, now: int) {
    key in s.receipts && now < s.receipts[key].at + RETENTION
  }

  /** What the server does with a request, or answers when it refuses on other grounds (limits,
      permissions, throttling). */
  function Handle(s: Server, now: int, req: Request, refusal: Option<int>): (Server, HttpReply) {
    if refusal.Some? then (s, Refuse(refusal.value))
    else
      match req
      case Create(key, content) =>
        if Replays(s, key, now) then
          if s.receipts[key].content == content then (s, Accept(201, CreateResult("create", s.receipts[key].block)))
          else (s, Refuse(409))
        else
          var block := NewBlock(IdOf(s.issued), content, now);
          (Server(s.blocks[block.id := block], s.receipts[key := Receipt(content, block, now)],
                  s.issued + 1, s.created + [Creation(key, block.id)]),
           Accept(201, CreateResult("create", block)))
      case Update(id, version, text) =>
        if id !in s.blocks then (s, Refuse(404))
        else if s.blocks[id].version != version then (s, Refuse(412))
        else if s.blocks[id].text == Utf8(text) then (s, Accept(200, UpdateResult("update", s.blocks[id])))
        else
          var block := s.blocks[id].(text := Utf8(text), version := version + 1, updatedBy := "service", updatedAt := Time(now, 0));
          (s.(blocks := s.blocks[id := block]), Accept(200, UpdateResult("update", block)))
      case Delete(id, version) =>
        if id !in s.blocks then (s, Refuse(404))
        else if s.blocks[id].version != version then (s, Refuse(412))
        else (s.(blocks := s.blocks - {id}), Accept(200, DeleteResult("delete", id, version)))
  }

  /** What becomes of one request and its reply on the way. */
  datatype Fate =
    | Delivered                                 // handled, and the genuine reply comes back
    | Unreached(err: GoError)                   // never handled; the client sees a transport error
    | Dropped(err: GoError)                     // handled; the client sees a transport error
    | Damaged(envelope: Envelope, body: Payload) // handled; the genuine status, an unusable success body
    | Replaced(status: int, reached: bool)      // a redirect, timeout or failure, handled or not
    | Barred(status: int)                       // rejected on the way by a 4xx, not handled

  predicate KnownRejection(status: int) {
    400 <= status < 500 && status != REQUEST_TIMEOUT
  }

  /** The assumptions: a 4xx other than 408 means the write was not applied, and whatever else
      stands in for the genuine reply is recognisably not a success. */
  predicate PlausibleFate(fate: Fate, refusal: Option<int>) {
    && (refusal.Some? ==> KnownRejection(refusal.value))
    && match fate
       case Damaged(_, body) => body.Decoded? ==> !ValidResult(body.result)
       case Replaced(status, _) => !Success(status) && Uncertain(status)
       case Barred(status) => KnownRejection(status)
       case _ => true
  }

  function Travel(s: Server, now: int, req: Request, refusal: Option<int>, fate: Fate): (Server, HttpReply) {
    var handled := Handle(s, now, req, refusal);
    match fate
    case Delivered => handled
    case Unreached(err) => (s, Lost(err))
    case Dropped(err) => (handled.0, Lost(err))
    case Damaged(envelope, body) =>
      (handled.0, if handled.1.Answer? then Answer(handled.1.status, envelope, body) else handled.1)
    case Replaced(status, reached) => (if reached then handled.0 else s, Refuse(status))
    case Barred(status) => (s, Refuse(status))
  }

  // ---- the client's writes --------------------------------------------------

  datatype Write =
    | CreateMemory(userID: string, text: GoText, managedBy: string, key: string)
    | UpdateMemory(userID: string, memoryID: string, version: int, text: GoText)
    | DeleteMemory(userID: string, memoryID: string, version: int)

  function VerbOf(w: Write): Verb {
    match w
    case CreateMemory(_, _, _, _) => POST
    case UpdateMemory(_, _, _, _) => PATCH
    case DeleteMemory(_, _, _) => DELETE
  }

  function KeyOf(w: Write): string {
    if w.CreateMemory? then w.key else ""
  }

  /** The checks of the public method, then those of `memoryRequest` (lines 116-168, 174-222).
      A creation's key has already been generated if the caller gave none. */
  function Precheck(w: Write, ctxErr: Option<GoError>): Option<GoError> {
    match w
    case CreateMemory(userID, text, managedBy, key) =>
      if !ValidText(text) then Some(GoError.Plain("serverapi: memory text"))
      else if managedBy != "" && !ValidActor(managedBy) then Some(GoError.Plain("serverapi: memory managedBy"))
      else if !ValidKey(key) then Some(GoError.Plain("serverapi: invalid idempotency key"))
      else Admit(POST, userID, "", 0, key, ctxErr)
    case UpdateMemory(userID, memoryID, version, text) =>
      if !ValidText(text) then Some(GoError.Plain("serverapi: memory text"))
      else Admit(PATCH, userID, memoryID, version, "", ctxErr)
    case DeleteMemory(userID, memoryID, version) => Admit(DELETE, userID, memoryID, version, "", ctxErr)
  }

  /** The request on the wire; an omitted manager means service. */
  function RequestOf(w: Write): Request
    requires Precheck(w, None).None?
  {
    match w
    case CreateMemory(_, text, managedBy, key) =>
      Create(key, Content(text.chars, if managedBy == "" then "service" else managedBy))
    case UpdateMemory(_, memoryID, version, text) => Update(memoryID, version, text.chars)
    case DeleteMemory(_, memoryID, version) => Delete(memoryID, version)
  }

  datatype Performed = Performed(server: Server, sent: nat, result: Result<MemoryResult, GoError>)

  /** Circumstances of one call: its context on entry, the server's clock and mood, the network. */
  datatype Circumstance = Circumstance(ctxErr: Option<GoError>, now: int, refusal: Option<int>, fate: Fate)

  predicate PlausibleCircumstance(at: Circumstance) {
    && PlausibleFate(at.fate, at.refusal)
    && (at.ctxErr.Some? ==> ContextError(at.ctxErr.value))
  }

  function Perform(s: Server, w: Write, at: Circumstance): Performed {
    match Precheck(w, at.ctxErr)
    case Some(err) => Performed(s, 0, Err(err))
    case None =>
      assert Precheck(w, None).None?;
      var (server, reply) := Travel(s, at.now, RequestOf(w), at.refusal, at.fate);
      Performed(server, 1, Judge(VerbOf(w), KeyOf(w), reply))
  }

  /** What the server would make of the write if it arrived. */
  function Applied(s: Server, w: Write, at: Circumstance): Server
    requires Precheck(w, None).None?
  {
    Handle(s, at.now, RequestOf(w), at.refusal).0
  }

  // ---- the trichotomy -------------------------------------------------------

  /** Each write sends at most one request. Success means the server applied it, once. A known
      failure means it was not applied. Any other failure was dispatched, is marked unknown, and
      leaves only the two possibilities: not applied so far, or applied once. */
  lemma WriteTrichotomy(s: Server, w: Write, at: Circumstance)
    requires PlausibleCircumstance(at)
    ensures var p := Perform(s, w, at);
      && p.sent <= 1
      && (p.sent == 0 ==> p.server == s && p.result.Err? && !OutcomeUnknown(p.result.error))
      && (p.sent == 1 ==> Precheck(w, None).None?)
      && (p.result.Ok? ==>
            p.sent == 1 && p.server == Applied(s, w, at) && Holds(p.server, w, at.now, p.result.value))
      && (p.result.Err? && !OutcomeUnknown(p.result.error) ==> p.server == s)
      && (p.result.Err? && OutcomeUnknown(p.result.error) ==>
            p.sent == 1 && (p.server == s || p.server == Applied(s, w, at)))
  {
    if Precheck(w, at.ctxErr).None? {
      JudgedTruly(s, w, at);
    } else {
      LocalFailuresAreKnown(w, at);
    }
  }

  /** What a success says about the server's state: the write's effect is there, as reported. */
  predicate Holds(s: Server, w: Write, now: int, r: MemoryResult) {
    match w
    case CreateMemory(_, text, managedBy, key) =>
      && r.CreateResult? && key in s.receipts
      && r.block == InUtc(s.receipts[key].block)
      && text.Utf8? && s.receipts[key].content.text == text.chars
      && s.receipts[key].content.managedBy == (if managedBy == "" then "service" else managedBy)
      && now < s.receipts[key].at + RETENTION
    case UpdateMemory(_, memoryID, version, text) =>
      && r.UpdateResult? && memoryID in s.blocks
      && r.block == InUtc(s.blocks[memoryID]) && s.blocks[memoryID].text == text
      && version <= s.blocks[memoryID].version <= version + 1
    case DeleteMemory(_, memoryID, version) =>
      r == DeleteResult("delete", memoryID, version) && memoryID !in s.blocks
  }

  lemma LocalFailuresAreKnown(w: Write, at: Circumstance)
    requires PlausibleCircumstance(at) && Precheck(w, at.ctxErr).Some?
    ensures !OutcomeUnknown(Precheck(w, at.ctxErr).value)
  {
  }

  /** A reply that reads as a success is the genuine one, and a known rejection leaves no trace. */
  lemma TravelIsHonest(s: Server, now: int, req: Request, refusal: Option<int>, fate: Fate)
    requires PlausibleFate(fate, refusal)
    ensures var (server, reply) := Travel(s, now, req, refusal, fate);
      && (server == s || server == Handle(s, now, req, refusal).0)
      && (reply.Answer? && KnownRejection(reply.status) ==> server == s)
      && (reply.Answer? && Success(reply.status) && reply.payload.Decoded? && ValidResult(reply.payload.result) ==>
            (server, reply) == Handle(s, now, req, refusal))
  {
    HandleIsTransactional(s, now, req, refusal);
  }

  /** The client's reading of a write's reply: success, known rejection, or unknown. */
  lemma WritesAreClassified(verb: Verb, key: string, reply: HttpReply)
    requires Writes(verb)
    ensures match Judge(verb, key, reply)
            case Ok(r) =>
              reply.Answer? && Success(reply.status) && reply.payload.Decoded? && ValidResult(reply.payload.result)
              && Expected(verb, reply.payload.result) && r == ResultInUtc(reply.payload.result)
            case Err(e) => OutcomeUnknown(e) <==> !(reply.Answer? && KnownRejection(reply.status))
  {
  }

  lemma HandledSuccessHolds(s: Server, w: Write, now: int, refusal: Option<int>)
    requires Precheck(w, None).None? && (refusal.Some? ==> KnownRejection(refusal.value))
    requires var reply := Handle(s, now, RequestOf(w), refusal).1; reply.Answer? && Success(reply.status)
    ensures var (server, reply) := Handle(s, now, RequestOf(w), refusal);
      reply.payload.Decoded? && Holds(server, w, now, ResultInUtc(reply.payload.result))
  {
  }

  lemma JudgedTruly(s: Server, w: Write, at: Circumstance)
    requires PlausibleCircumstance(at) && Precheck(w, at.ctxErr).None?
    ensures Precheck(w, None).None?
    ensures var (server, reply) := Travel(s, at.now, RequestOf(w), at.refusal, at.fate);
      match Judge(VerbOf(w), KeyOf(w), reply)
      case Ok(r) => server == Applied(s, w, at) && Holds(server, w, at.now, r)
      case Err(e) =>
        if OutcomeUnknown(e) then server == s || server == Applied(s, w, at) else server == s
  {
    assert Precheck(w, None).None?;
    var reply := Travel(s, at.now, RequestOf(w), at.refusal, at.fate).1;
    TravelIsHonest(s, at.now, RequestOf(w), at.refusal, at.fate);
    WritesAreClassified(VerbOf(w), KeyOf(w), reply);
    if Judge(VerbOf(w), KeyOf(w), reply).Ok? {
      HandledSuccessHolds(s, w, at.now, at.refusal);
    }
  }

  /** The server answers a request it refuses with a known rejection and leaves its state alone. */
  lemma HandleIsTransactional(s: Server, now: int, req: Request, refusal: Option<int>)
    requires refusal.Some? ==> KnownRejection(refusal.value)
    ensures var (server, reply) := Handle(s, now, req, refusal);
      reply.Answer? && (Success(reply.status) || (KnownRejection(reply.status) && server == s))
  {
  }

  // ---- a success is recognised ------------------------------------------------

  /** What README.md:81-85 promises of texts, actors and blocks. */
  predicate PromisedText(text: GoText) {
    && text.Utf8? && '\0' !in text.chars && Utf8Length(text.chars) <= 2048
    && exists i :: 0 <= i < |text.chars| && text.chars[i] !in WHITESPACE
  }

  predicate PromisedActor(actor: string) {
    actor in {"user", "agent", "service"}
  }

  predicate PromisedId(id: string) {
    0 < Utf16Length(id) <= 256
  }

  predicate PromisedBlock(b: Block) {
    && PromisedId(b.id) && PromisedText(b.text) && 1 <= b.version <= 9007199254740991
    && PromisedActor(b.managedBy) && PromisedActor(b.createdBy) && PromisedActor(b.updatedBy)
    && b.createdAt.instant != 0 && b.updatedAt.instant != 0
  }

  predicate Promised(s: Server) {
    && (forall id | id in s.blocks :: PromisedBlock(s.blocks[id]))
    && (forall key | key in s.receipts :: PromisedBlock(s.receipts[key].block))
  }

  /** The server refuses what it could not serve without breaking its promises. */
  predicate Serveable(s: Server, now: int, req: Request) {
    now != 0 &&
    match req
    case Create(_, content) =>
      PromisedText(Utf8(content.text)) && PromisedActor(content.managedBy) && PromisedId(IdOf(s.issued))
    case Update(id, _, text) => PromisedText(Utf8(text)) && (id in s.blocks ==> s.blocks[id].version < 9007199254740991)
    case Delete(id, version) => true
  }

  predicate Conscientious(s: Server, now: int, req: Request, refusal: Option<int>) {
    refusal.Some? || Serveable(s, now, req)
  }

  const EMPTY := Server(map[], map[], 0, [])

  /** The promises hold of an empty server and are kept whatever it handles. */
  lemma PromisesAreKept(s: Server, now: int, req: Request, refusal: Option<int>)
    requires Promised(s) && Conscientious(s, now, req, refusal)
    ensures Promised(EMPTY) && Promised(Handle(s, now, req, refusal).0)
  {
  }

  /** The client's own notions are the promised ones. */
  lemma NotionsAgree(text: GoText, actor: string, id: string, b: Block)
    ensures ValidText(text) <==> PromisedText(text)
    ensures ValidActor(actor) <==> PromisedActor(actor)
    ensures ValidId(id) <==> PromisedId(id)
    ensures ValidBlock(b) <==> PromisedBlock(b)
  {
    forall t: GoText | t == text || t == b.text ensures ValidText(t) <==> PromisedText(t) {
      TextsAgree(t);
    }
  }

  lemma TextsAgree(text: GoText)
    ensures ValidText(text) <==> PromisedText(text)
  {
    if text.Utf8? {
      forall i | 0 <= i < |text.chars| ensures Trimmed(text.chars[i]) <==> text.chars[i] in WHITESPACE {
        TrimmedIsTheCutset(text.chars[i]);
      }
    }
  }

  /** A write goes out exactly if the context is alive and what it names is in order. */
  lemma WritesAreSentIff(w: Write, ctxErr: Option<GoError>)
    ensures Precheck(w, ctxErr).None? <==>
              && ctxErr.None? && PromisedId(w.userID)
              && match w
                 case CreateMemory(_, text, managedBy, key) =>
                   && PromisedText(text) && (managedBy == "" || PromisedActor(managedBy)) && PromisedId(key)
                   && forall i | 0 <= i < |key| :: KeyCode(key[i] as int)
                 case UpdateMemory(_, memoryID, version, text) =>
                   PromisedText(text) && PromisedId(memoryID) && 1 <= version <= 9007199254740991
                 case DeleteMemory(_, memoryID, version) => PromisedId(memoryID) && 1 <= version <= 9007199254740991
  {
    match w
    case CreateMemory(_, text, managedBy, key) =>
      TextsAgree(text);
      assert forall c: char :: KeyChar(c) <==> KeyCode(c as int);
    case UpdateMemory(_, _, _, text) => TextsAgree(text);
    case DeleteMemory(_, _, _) =>
  }

  /** ASCII letters and digits, hyphen, dot, colon and underscore. */
  predicate KeyCode(n: int) {
    97 <= n <= 122 || 65 <= n <= 90 || 48 <= n <= 57 || n == 45 || n == 46 || n == 58 || n == 95
  }

  /** The converse of the trichotomy: if a write goes out and the server's genuine reply arrives, the client
      reports a success exactly if the server made one, with its effect; and a refusal with its status. */
  lemma GenuineRepliesAreReported(s: Server, w: Write, at: Circumstance)
    requires Precheck(w, at.ctxErr).None? && at.fate.Delivered? && Promised(s)
    requires PlausibleCircumstance(at)
    ensures Precheck(w, None).None?
    ensures Conscientious(s, at.now, RequestOf(w), at.refusal) ==>
              var p, reply := Perform(s, w, at), Handle(s, at.now, RequestOf(w), at.refusal).1;
              && reply.Answer?
              && (p.result.Ok? <==> 200 <= reply.status <= 299)
              && (p.result.Ok? ==> p.server == Applied(s, w, at) && Holds(p.server, w, at.now, p.result.value))
              && (p.result.Err? ==> HttpStatus(Some(p.result.error)) == reply.status && !OutcomeUnknown(p.result.error))
  {
    assert Precheck(w, None).None?;
    WriteTrichotomy(s, w, at);
    if Conscientious(s, at.now, RequestOf(w), at.refusal) {
      HandleIsTransactional(s, at.now, RequestOf(w), at.refusal);
      if Success(Handle(s, at.now, RequestOf(w), at.refusal).1.status) {
        GenuineSuccessIsValid(s, w, at);
      }
    }
  }

  lemma GenuineSuccessIsValid(s: Server, w: Write, at: Circumstance)
    requires Precheck(w, None).None? && Promised(s) && Conscientious(s, at.now, RequestOf(w), at.refusal)
    requires at.refusal.Some? ==> KnownRejection(at.refusal.value)
    requires var reply := Handle(s, at.now, RequestOf(w), at.refusal).1; reply.Answer? && Success(reply.status)
    ensures var reply := Handle(s, at.now, RequestOf(w), at.refusal).1;
      reply.payload.Decoded? && Expected(VerbOf(w), reply.payload.result) && ValidResult(reply.payload.result)
  {
    PromisesAreKept(s, at.now, RequestOf(w), at.refusal);
    var r := Handle(s, at.now, RequestOf(w), at.refusal).1.payload.result;
    if r.CreateResult? || r.UpdateResult? {
      NotionsAgree(r.block.text, "", "", r.block);
    }
  }

  /** A success has the shape, the operation and the contents of the call's own. */
  lemma SuccessesAreTheCallsOwn(verb: Verb, key: string, reply: HttpReply)
    ensures var result := Judge(verb, key, reply);
      result.Ok? ==>
        match verb
        case GET =>
          && result.value.ListResult? && result.value.blocks.Some?
        case POST => result.value.CreateResult? && result.value.operation == "create" && PromisedBlock(result.value.block)
        case PATCH => result.value.UpdateResult? && result.value.operation == "update" && PromisedBlock(result.value.block)
        case DELETE =>
          && result.value.DeleteResult? && result.value.operation == "delete" && PromisedId(result.value.id)
          && 1 <= result.value.version <= 9007199254740991
  {
    var result := Judge(verb, key, reply);
    if result.Ok? && (result.value.CreateResult? || result.value.UpdateResult?) {
      NotionsAgree(result.value.block.text, "", "", result.value.block);
    }
  }

  /** A delivered list of promised blocks comes back whole, in order and in UTC; any other list is an error. */
  lemma ListsComeBackWhole(blocks: seq<Block>, envelope: Envelope)
    ensures var result := Judge(GET, "", Answer(200, envelope, Decoded(ListResult(Some(blocks)))));
      && (result.Ok? <==> forall i | 0 <= i < |blocks| :: PromisedBlock(blocks[i]))
      && (result.Ok? ==>
            && result.value.ListResult? && result.value.blocks.Some? && |result.value.blocks.value| == |blocks|
            && forall i | 0 <= i < |blocks| ::
                 result.value.blocks.value[i] ==
                   blocks[i].(createdAt := Time(blocks[i].createdAt.instant, 0), updatedAt := Time(blocks[i].updatedAt.instant, 0)))
  {
    forall i | 0 <= i < |blocks| ensures ValidBlock(blocks[i]) <==> PromisedBlock(blocks[i]) {
      NotionsAgree(blocks[i].text, "", "", blocks[i]);
    }
  }

  // ---- an unknown outcome -------------------------------------------------------

  /** `guess` tells from the result of the call whether it changed the server. */
  predicate GuessedRight(guess: Result<MemoryResult, GoError> -> bool, s: Server, p: Performed) {
    guess(p.result) <==> p.server != s
  }

  /** The mark of uncertainty is needed exactly where it matters. If the server would apply the write, then
      whatever rule a client follows, one of two plausible fates of the same call, with the same result,
      proves it wrong; if it would not, no fate changes anything. */
  lemma UnknownIsUndecidable(
    s: Server, w: Write, at: Circumstance, err: GoError, guess: Result<MemoryResult, GoError> -> bool)
    requires PlausibleCircumstance(at) && Precheck(w, at.ctxErr).None?
    ensures Precheck(w, None).None?
    ensures var lost, late := at.(fate := Unreached(err)), at.(fate := Dropped(err));
      && PlausibleCircumstance(lost) && PlausibleCircumstance(late)
      && (Applied(s, w, at) != s ==>
            !(GuessedRight(guess, s, Perform(s, w, lost)) && GuessedRight(guess, s, Perform(s, w, late))))
    ensures Applied(s, w, at) == s ==> Perform(s, w, at).server == s
  {
    WriteTrichotomy(s, w, at);
  }

  /** An error of a write that the client calls retryable is a write the server did not apply. */
  lemma RetryableWriteWasNotApplied(s: Server, w: Write, at: Circumstance, depth: nat)
    requires PlausibleCircumstance(at)
    requires Perform(s, w, at).result.Err? && IsRetryable(Some(Wrap(Perform(s, w, at).result.error, depth)))
    ensures Perform(s, w, at).server == s
    ensures HttpStatus(Some(Perform(s, w, at).result.error)) == TOO_MANY_REQUESTS
  {
    WriteTrichotomy(s, w, at);
    var e := Perform(s, w, at).result.error;
    WrappingIsTransparent(e, depth);
    if Precheck(w, at.ctxErr).Some? {
      PrecheckErrorsAreFinal(w, at.ctxErr);
    }
    AdmittedByPrecheck(w, at.ctxErr);
    var reply := Travel(s, at.now, RequestOf(w), at.refusal, at.fate).1;
    WriteRetryableIffThrottled(VerbOf(w), w.userID, IdIn(w), VersionIn(w), KeyOf(w), at.ctxErr, reply, e, depth);
  }

  lemma PrecheckErrorsAreFinal(w: Write, ctxErr: Option<GoError>)
    requires ctxErr.Some? ==> ContextError(ctxErr.value)
    requires Precheck(w, ctxErr).Some?
    ensures !IsRetryable(Precheck(w, ctxErr))
  {
    if ctxErr.Some? {
      var e := Api(BaseError(KeyOf(w)), ctxErr);
      var target := if ctxErr.value.Canceled? then CanceledTarget else DeadlineTarget;
      assert Is(ctxErr.value, target) && Is(e, target);
    }
  }

  lemma AdmittedByPrecheck(w: Write, ctxErr: Option<GoError>)
    ensures Precheck(w, ctxErr).None? ==>
              Precheck(w, None).None? && Admit(VerbOf(w), w.userID, IdIn(w), VersionIn(w), KeyOf(w), ctxErr).None?
  {
  }

  function IdIn(w: Write): string {
    if w.CreateMemory? then "" else w.memoryID
  }

  function VersionIn(w: Write): int {
    if w.CreateMemory? then 0 else w.version
  }
}
