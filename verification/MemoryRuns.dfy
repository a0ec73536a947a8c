/** Whole runs of memory writes under any losses: a creation repeated with its returned key
    (agent/serverapi/memory.go:116-142, README.md:87-105) and an update repeated at its observed
    version (memory.go:146-158, README.md:109-111), interleaved with other writers. */
module MemoryRuns {
  import opened Prelude
  import opened Text
  import opened Errors
  import opened Keys
  import opened Memory
  import opened MemoryServer

  // ---- CreateMemory ---------------------------------------------------------

  datatype CreateParams = CreateParams(userID: string, text: GoText, managedBy: string, key: string)

  /** `CreateMemoryResult` with its error; the key is empty until it has been chosen. */
  datatype CreateReturn = CreateReturn(key: string, result: Result<Block, GoError>)

  function AsWrite(p: CreateParams): Write {
    CreateMemory(p.userID, p.text, p.managedBy, p.key)
  }

  function BlockOf(r: Result<MemoryResult, GoError>): Result<Block, GoError> {
    match r
    case Ok(CreateResult(_, block)) => Ok(block)
    case Ok(_) => Err(GoError.Plain("serverapi: malformed memory response"))
    case Err(e) => Err(e)
  }

  /** `CreateMemory`. `nonce` is what the random source yields, should a key be needed. */
  function CallCreate(s: Server, p: CreateParams, nonce: Option<seq<Byte>>, at: Circumstance): (Server, CreateReturn) {
    if !ValidText(p.text) then (s, CreateReturn("", Err(GoError.Plain("serverapi: memory text"))))
    else if p.managedBy != "" && !ValidActor(p.managedBy) then
      (s, CreateReturn("", Err(GoError.Plain("serverapi: memory managedBy"))))
    else if p.key == "" && nonce.None? then
      (s, CreateReturn("", Err(Wrapped(GoError.Plain("serverapi: generate memory idempotency key")))))
    else
      var key := if p.key == "" then GeneratedKey(nonce.value) else p.key;
      if p.key != "" && !ValidKey(key) then (s, CreateReturn("", Err(GoError.Plain("serverapi: invalid idempotency key"))))
      else
        var performed := Perform(s, AsWrite(p.(key := key)), at);
        (performed.server, CreateReturn(key, BlockOf(performed.result)))
  }

  /** The content is one the client does not reject locally. */
  predicate Sendable(p: CreateParams) {
    ValidText(p.text) && (p.managedBy == "" || ValidActor(p.managedBy))
  }

  function ContentOf(p: CreateParams): Content
    requires Sendable(p)
  {
    Content(p.text.chars, if p.managedBy == "" then "service" else p.managedBy)
  }

  /** A keyless call and the same call with the key it generates do and return the same; the key
      is the one on the request, is returned whatever happens, and is accepted when passed back. */
  lemma GeneratedKeyIsTheKey(s: Server, p: CreateParams, nonce: seq<Byte>, at: Circumstance)
    requires Sendable(p) && p.key == "" && |nonce| == 16
    ensures var key := GeneratedKey(nonce);
      && ValidKey(key) && CallCreate(s, p, Some(nonce), at).1.key == key
      && forall other :: CallCreate(s, p.(key := key), other, at) == CallCreate(s, p, Some(nonce), at)
  {
    GeneratedKeyIsValid(nonce);
  }

  /** A creation whose genuine success arrives returns the block the server has on record; whatever else
      happens after the local checks, the error carries the key. */
  lemma CreationReports(s: Server, p: CreateParams, at: Circumstance)
    requires Sendable(p) && ValidKey(p.key) && ValidId(p.userID) && Promised(s) && PlausibleCircumstance(at)
    requires Conscientious(s, at.now, Create(p.key, ContentOf(p)), at.refusal)
    ensures var (s', returned) := CallCreate(s, p, None, at);
      && (at.ctxErr.None? && at.fate.Delivered? ==>
            (returned.result.Ok? <==> 200 <= Handle(s, at.now, Create(p.key, ContentOf(p)), at.refusal).1.status <= 299))
      && (returned.result.Ok? ==> p.key in s'.receipts && returned.result.value == InUtc(s'.receipts[p.key].block))
      && (returned.result.Err? ==>
            AsError(returned.result.error).Some? && AsError(returned.result.error).value.idempotencyKey == p.key)
  {
    var w := AsWrite(p);
    CallIsItsWrite(s, p, at);
    WriteTrichotomy(s, w, at);
    if Perform(s, w, at).result.Err? {
      CreationErrorsCarryTheKey(s, p, at);
    }
    if at.ctxErr.None? && at.fate.Delivered? {
      GenuineRepliesAreReported(s, w, at);
    }
  }

  lemma CallIsItsWrite(s: Server, p: CreateParams, at: Circumstance)
    requires Sendable(p) && ValidKey(p.key) && ValidId(p.userID)
    ensures Precheck(AsWrite(p), None).None? && RequestOf(AsWrite(p)) == Create(p.key, ContentOf(p))
    ensures Precheck(AsWrite(p), at.ctxErr).None? <==> at.ctxErr.None?
    ensures var (s', returned) := CallCreate(s, p, None, at);
      s' == Perform(s, AsWrite(p), at).server && returned == CreateReturn(p.key, BlockOf(Perform(s, AsWrite(p), at).result))
  {
    assert p.key != "" by { assert Utf16Length("") == 0; }
  }

  lemma CreationErrorsCarryTheKey(s: Server, p: CreateParams, at: Circumstance)
    requires Sendable(p) && ValidKey(p.key) && ValidId(p.userID) && PlausibleCircumstance(at)
    requires Perform(s, AsWrite(p), at).result.Err?
    ensures var e := Perform(s, AsWrite(p), at).result.error;
      AsError(e).Some? && AsError(e).value.idempotencyKey == p.key
  {
    CallIsItsWrite(s, p, at);
    if at.ctxErr.None? {
      var reply := Travel(s, at.now, RequestOf(AsWrite(p)), at.refusal, at.fate).1;
      ErrorsDescribeTheReply(POST, p.key, reply, Perform(s, AsWrite(p), at).result.error);
    }
  }

  /** A creation whose reply was lost is recovered: the repetition with the returned key, if its own reply
      arrives within the retention, reports the block that the first call made. */
  lemma RepetitionRecovers(s: Server, p: CreateParams, first: Circumstance, second: Circumstance, err: GoError)
    requires Sendable(p) && ValidKey(p.key) && ValidId(p.userID) && Promised(s) && p.key !in s.receipts
    requires first == Circumstance(None, first.now, None, Dropped(err)) && second == Circumstance(None, second.now, None, Delivered)
    requires Serveable(s, first.now, Create(p.key, ContentOf(p)))
    requires first.now <= second.now < first.now + RETENTION
    ensures var (s1, lost) := CallCreate(s, p, None, first);
      var (s2, found) := CallCreate(s1, p.(key := lost.key), None, second);
      && lost.result.Err? && lost.key == p.key && s2 == s1
      && |s1.created| == |s.created| + 1 && s1.created[|s.created|].key == p.key
      && found.result == Ok(InUtc(NewBlock(IdOf(s.issued), ContentOf(p), first.now)))
  {
    var w := AsWrite(p);
    CallIsItsWrite(s, p, first);
    var s1 := Handle(s, first.now, RequestOf(w), None).0;
    PromisesAreKept(s, first.now, RequestOf(w), None);
    CallIsItsWrite(s1, p, second);
    NotionsAgree(Utf8(""), "", "", s1.receipts[p.key].block);
  }

  // ---- runs of one creation -------------------------------------------------

  /** The application retries, a request it has already given up on reaches the server after all, or
      anyone else's request does. */
  datatype Event =
    | Retry(nonce: Option<seq<Byte>>, at: Circumstance)
    | Late(now: int, refusal: Option<int>)
    | Foreign(now: int, req: Request, refusal: Option<int>)

  /** The server after a late arrival of the write; a write that fails the local checks was never sent. */
  function Arrival(s: Server, w: Write, now: int, refusal: Option<int>): Server {
    if Precheck(w, None).None? then Handle(s, now, RequestOf(w), refusal).0 else s
  }

  /** A run: every retry passes back the key the previous call returned. */
  function RunCreate(s: Server, p: CreateParams, events: seq<Event>): (Server, seq<CreateReturn>)
    decreases |events|
  {
    if events == [] then (s, [])
    else
      match events[0]
      case Retry(nonce, at) =>
        var (s', returned) := CallCreate(s, p, nonce, at);
        var (last, more) := RunCreate(s', p.(key := returned.key), events[1..]);
        (last, [returned] + more)
      case Late(now, refusal) => RunCreate(Arrival(s, AsWrite(p), now, refusal), p, events[1..])
      case Foreign(now, req, refusal) => RunCreate(Handle(s, now, req, refusal).0, p, events[1..])
  }

  /** The key is used within the retention of the creation made with it, or, before there is one, with
      this content only. */
  predicate KeyRespected(s: Server, key: string, content: Content, now: int, used: Content) {
    if key in s.receipts then Replays(s, key, now) else used == content
  }

  /** The network is plausible and whoever uses the key respects it. */
  predicate Orderly(s: Server, p: CreateParams, events: seq<Event>)
    requires Sendable(p)
    decreases |events|
  {
    events == [] ||
    match events[0]
    case Retry(nonce, at) =>
      && PlausibleCircumstance(at)
      && KeyRespected(s, p.key, ContentOf(p), at.now, ContentOf(p))
      && Orderly(CallCreate(s, p, nonce, at).0, p, events[1..])
    case Late(now, refusal) =>
      && KeyRespected(s, p.key, ContentOf(p), now, ContentOf(p))
      && Orderly(Arrival(s, AsWrite(p), now, refusal), p, events[1..])
    case Foreign(now, req, refusal) =>
      && (req.Create? && req.key == p.key ==> KeyRespected(s, p.key, ContentOf(p), now, req.content))
      && Orderly(Handle(s, now, req, refusal).0, p, events[1..])
  }

  function CreatedUnder(created: seq<Creation>, key: string): nat {
    if created == [] then 0
    else CreatedUnder(created[..|created| - 1], key) + (if created[|created| - 1].key == key then 1 else 0)
  }

  lemma CreatedUnderAppend(created: seq<Creation>, more: Creation, key: string)
    ensures CreatedUnder(created + [more], key) == CreatedUnder(created, key) + (if more.key == key then 1 else 0)
  {
    assert (created + [more])[..|created|] == created;
  }

  /** Not created yet, or created once with this content and on record. */
  predicate Settled(s: Server, key: string, content: Content) {
    if key in s.receipts then CreatedUnder(s.created, key) == 1 && s.receipts[key].content == content
    else CreatedUnder(s.created, key) == 0
  }

  /** Whatever the server handles, at whatever time and on whose behalf, the key stays settled. */
  lemma HandlingKeepsReceipt(s: Server, now: int, req: Request, refusal: Option<int>, key: string, content: Content)
    requires Settled(s, key, content)
    requires req.Create? && req.key == key ==> KeyRespected(s, key, content, now, req.content)
    ensures var s' := Handle(s, now, req, refusal).0;
      && Settled(s', key, content)
      && (key in s.receipts ==> key in s'.receipts && s'.receipts[key] == s.receipts[key])
      && (req.Create? && req.key == key && key in s.receipts ==> s' == s)
  {
    if req.Create? {
      var s' := Handle(s, now, req, refusal).0;
      var creation := Creation(req.key, IdOf(s.issued));
      HandlingCreates(s, now, req, refusal);
      CreatedUnderAppend(s.created, creation, key);
      if s' != s && req.key == key {
        assert key !in s.receipts;
      }
    }
  }

  lemma HandlingCreates(s: Server, now: int, req: Request, refusal: Option<int>)
    requires req.Create?
    ensures var s' := Handle(s, now, req, refusal).0;
      || s' == s
      || (&& !Replays(s, req.key, now)
          && s'.created == s.created + [Creation(req.key, IdOf(s.issued))]
          && s'.receipts.Keys == s.receipts.Keys + {req.key} && s'.receipts[req.key].content == req.content
          && forall key | key in s.receipts && key != req.key :: s'.receipts[key] == s.receipts[key])
  {
  }

  lemma RetryKeepsReceipt(s: Server, p: CreateParams, nonce: Option<seq<Byte>>, at: Circumstance)
    requires Sendable(p) && ValidKey(p.key) && PlausibleCircumstance(at)
    requires Settled(s, p.key, ContentOf(p)) && KeyRespected(s, p.key, ContentOf(p), at.now, ContentOf(p))
    ensures var (s', returned) := CallCreate(s, p, nonce, at);
      && Settled(s', p.key, ContentOf(p)) && returned.key == p.key
      && (p.key in s.receipts ==> s' == s)
      && (returned.result.Ok? ==> p.key in s'.receipts && returned.result.value == InUtc(s'.receipts[p.key].block))
  {
    var w := AsWrite(p);
    assert p.key != "" by { assert Utf16Length("") == 0; }
    WriteTrichotomy(s, w, at);
    if Precheck(w, at.ctxErr).None? {
      assert Precheck(w, None).None? && RequestOf(w) == Create(p.key, ContentOf(p));
      HandlingKeepsReceipt(s, at.now, RequestOf(w), at.refusal, p.key, ContentOf(p));
    }
  }

  /** However often a creation is repeated with its key and its content within the retention, whatever
      replies are lost, however late a request arrives and whatever others write, at most one block is
      created, every success reports that block, and every call returns the key. */
  lemma {:induction false} CreationReplay(s: Server, p: CreateParams, events: seq<Event>)
    requires Sendable(p) && ValidKey(p.key) && Settled(s, p.key, ContentOf(p)) && Orderly(s, p, events)
    ensures var (last, answers) := RunCreate(s, p, events);
      && Settled(last, p.key, ContentOf(p)) && CreatedUnder(last.created, p.key) <= 1
      && (p.key in s.receipts ==> p.key in last.receipts && last.receipts[p.key] == s.receipts[p.key])
      && (forall r | r in answers ::
            r.key == p.key && (r.result.Ok? ==> p.key in last.receipts && r.result.value == InUtc(last.receipts[p.key].block)))
    decreases |events|
  {
    if events != [] {
      match events[0] {
        case Retry(nonce, at) =>
          RetryKeepsReceipt(s, p, nonce, at);
          var (s', returned) := CallCreate(s, p, nonce, at);
          assert p.(key := returned.key) == p;
          CreationReplay(s', p, events[1..]);
        case Late(now, refusal) =>
          if Precheck(AsWrite(p), None).None? {
            HandlingKeepsReceipt(s, now, RequestOf(AsWrite(p)), refusal, p.key, ContentOf(p));
          }
          CreationReplay(Arrival(s, AsWrite(p), now, refusal), p, events[1..]);
        case Foreign(now, req, refusal) =>
          HandlingKeepsReceipt(s, now, req, refusal, p.key, ContentOf(p));
          CreationReplay(Handle(s, now, req, refusal).0, p, events[1..]);
      }
    }
  }

  /** The same for a run whose first call had no key: it is the run made with the key generated first. */
  lemma KeylessCreationReplay(s: Server, p: CreateParams, nonce: seq<Byte>, at: Circumstance, events: seq<Event>)
    requires Sendable(p) && p.key == "" && |nonce| == 16
    requires var keyed := p.(key := GeneratedKey(nonce));
      keyed.key !in s.receipts && CreatedUnder(s.created, keyed.key) == 0
      && Orderly(s, keyed, [Retry(Some(nonce), at)] + events)
    ensures var (last, answers) := RunCreate(s, p, [Retry(Some(nonce), at)] + events);
      && CreatedUnder(last.created, GeneratedKey(nonce)) <= 1
      && (forall r | r in answers ::
            r.key == GeneratedKey(nonce)
            && (r.result.Ok? ==> (
                  && GeneratedKey(nonce) in last.receipts
                  && r.result.value == InUtc(last.receipts[GeneratedKey(nonce)].block))))
  {
    var keyed, run := p.(key := GeneratedKey(nonce)), [Retry(Some(nonce), at)] + events;
    GeneratedKeyIsTheKey(s, p, nonce, at);
    assert run[0] == Retry(Some(nonce), at) && run[1..] == events;
    assert RunCreate(s, p, run) == RunCreate(s, keyed, run);
    CreationReplay(s, keyed, run);
  }

  /** A repetition that arrives does to the server what its one request does. */
  lemma RepeatIsHandled(s: Server, p: CreateParams, now: int)
    requires Sendable(p) && ValidKey(p.key) && ValidId(p.userID)
    ensures CallCreate(s, p, None, Circumstance(None, now, None, Delivered)).0
            == Handle(s, now, Create(p.key, ContentOf(p)), None).0
  {
    assert p.key != "" by { assert Utf16Length("") == 0; }
    assert Precheck(AsWrite(p), None).None? && RequestOf(AsWrite(p)) == Create(p.key, ContentOf(p));
  }

  /** The retention is exact: a repetition that the server handles makes another block if and only if the
      key has expired. */
  lemma RepeatCreatesIffExpired(s: Server, p: CreateParams, now: int)
    requires Sendable(p) && ValidKey(p.key) && ValidId(p.userID) && p.key in s.receipts
    ensures var s' := CallCreate(s, p, None, Circumstance(None, now, None, Delivered)).0;
      && (CreatedUnder(s'.created, p.key) > CreatedUnder(s.created, p.key) <==> s.receipts[p.key].at + RETENTION <= now)
      && CreatedUnder(s'.created, p.key) <= CreatedUnder(s.created, p.key) + 1
  {
    RepeatIsHandled(s, p, now);
    CreatedUnderAppend(s.created, Creation(p.key, IdOf(s.issued)), p.key);
  }

  // ---- runs of one update or deletion ----------------------------------------

  /** Ids are never used twice. */
  predicate IdsIssued(s: Server) {
    forall id | id in s.blocks :: Issued(s, id)
  }

  predicate Issued(s: Server, id: string) {
    exists n: nat :: n < s.issued && id == IdOf(n)
  }

  lemma IdOfInjective(m: nat, n: nat)
    requires IdOf(m) == IdOf(n)
    ensures m == n
  {
    assert IdOf(m)[7..] == Decimal(m) && IdOf(n)[7..] == Decimal(n);
    DecimalInjective(m, n);
  }

  lemma NextIdIsFresh(s: Server)
    ensures !Issued(s, IdOf(s.issued))
  {
    if Issued(s, IdOf(s.issued)) {
      var n: nat :| n < s.issued && IdOf(s.issued) == IdOf(n);
      IdOfInjective(s.issued, n);
    }
  }

  /** Block `id` has been given out and is gone, or is past `version`. */
  predicate Beyond(s: Server, id: string, version: int) {
    Issued(s, id) && (id in s.blocks ==> s.blocks[id].version > version)
  }

  /** The request names the block and the version its caller observed. */
  predicate Observed(req: Request, id: string, version: int) {
    || (req.Update? && req.id == id && req.version == version)
    || (req.Delete? && req.id == id && req.version == version)
  }

  lemma HandleKeepsBeyond(s: Server, now: int, req: Request, refusal: Option<int>, id: string, version: int)
    requires IdsIssued(s)
    ensures var s' := Handle(s, now, req, refusal).0;
      && IdsIssued(s')
      && (Beyond(s, id, version) ==> Beyond(s', id, version))
      && (Observed(req, id, version) && s' != s ==>
            !Beyond(s, id, version) && Beyond(s', id, version))
  {
    var s' := Handle(s, now, req, refusal).0;
    NextIdIsFresh(s);
    forall other | Issued(s, other) ensures Issued(s', other) {
      var n: nat :| n < s.issued && other == IdOf(n);
      assert n < s'.issued;
    }
    if req.Create? && s'.issued == s.issued + 1 {
      assert s.issued < s'.issued && IdOf(s.issued) == IdOf(s.issued);
      assert Issued(s', IdOf(s.issued));
    }
  }

  /** How many of the repetitions, late arrivals included, changed the server. */
  function TimesApplied(s: Server, w: Write, events: seq<Event>): nat
    decreases |events|
  {
    if events == [] then 0
    else
      match events[0]
      case Retry(_, at) =>
        var s' := Perform(s, w, at).server;
        (if s' != s then 1 else 0) + TimesApplied(s', w, events[1..])
      case Late(now, refusal) =>
        var s' := Arrival(s, w, now, refusal);
        (if s' != s then 1 else 0) + TimesApplied(s', w, events[1..])
      case Foreign(now, req, refusal) => TimesApplied(Handle(s, now, req, refusal).0, w, events[1..])
  }

  /** An update or deletion repeated any number of times at the version once observed is applied at most
      once, whatever replies are lost, however late a request arrives and whatever others write: it can
      never undo a later change, nor reach a block created after the deletion. */
  lemma {:induction false} ConditionalWriteAppliesAtMostOnce(s: Server, w: Write, events: seq<Event>)
    requires !w.CreateMemory? && IdsIssued(s)
    requires forall i | 0 <= i < |events| && events[i].Retry? :: PlausibleCircumstance(events[i].at)
    ensures TimesApplied(s, w, events) <= 1
    ensures Beyond(s, w.memoryID, w.version) ==> TimesApplied(s, w, events) == 0
    decreases |events|
  {
    if events != [] {
      var rest := events[1..];
      assert forall i | 0 <= i < |rest| :: rest[i] == events[i + 1];
      match events[0] {
        case Retry(_, at) =>
          ConditionalStep(s, w, at);
          ConditionalWriteAppliesAtMostOnce(Perform(s, w, at).server, w, rest);
        case Late(now, refusal) =>
          ConditionalArrival(s, w, now, refusal);
          ConditionalWriteAppliesAtMostOnce(Arrival(s, w, now, refusal), w, rest);
        case Foreign(now, req, refusal) =>
          HandleKeepsBeyond(s, now, req, refusal, w.memoryID, w.version);
          ConditionalWriteAppliesAtMostOnce(Handle(s, now, req, refusal).0, w, rest);
      }
    }
  }

  lemma ConditionalArrival(s: Server, w: Write, now: int, refusal: Option<int>)
    requires !w.CreateMemory? && IdsIssued(s)
    ensures var s' := Arrival(s, w, now, refusal);
      && IdsIssued(s')
      && (Beyond(s, w.memoryID, w.version) ==> s' == s)
      && (s' != s ==> Beyond(s', w.memoryID, w.version))
  {
    if Precheck(w, None).None? {
      HandleKeepsBeyond(s, now, RequestOf(w), refusal, w.memoryID, w.version);
    }
  }

  lemma ConditionalStep(s: Server, w: Write, at: Circumstance)
    requires !w.CreateMemory? && IdsIssued(s) && PlausibleCircumstance(at)
    ensures var s' := Perform(s, w, at).server;
      IdsIssued(s')
      && (Beyond(s, w.memoryID, w.version) ==> s' == s)
      && (s' != s ==> Beyond(s', w.memoryID, w.version))
  {
    WriteTrichotomy(s, w, at);
    ConditionalArrival(s, w, at.now, at.refusal);
  }
}
