# Verified model of aimount-go

This project models the parts of the aimount Go SDK where correctness depends on more than one function, and
proves what those parts promise together:

- **the tool worker** (`agent/serverapi/tool_worker.go`): the claim loop with its semaphore and reusable
  idempotency key, one supervisor and one executor per claim, and the heartbeat goroutine that rewrites the shared
  registration under a lock;
- **the memory client** (`agent/serverapi/memory.go`): the classification of every write as applied, rejected or of
  unknown outcome, and what repeating a creation or an update can do;
- **the error algebra** (`agent/serverapi/client.go`): retryability, code and status of wrapped error chains;
- **tool input admission and the registry** (`agent/tool.go`): the token-level key check, the decoder behind it, the
  input schema, and the identities under which tools are kept;
- **small algorithms**: redaction, idempotency-key preimages, maintenance and retry arithmetic.

## How it is modelled

`ToolWorker.Run` is concurrent, so it is a step system. Three processes are defined on their own — `ClaimLoop`,
`Lease` (the heartbeat goroutine) and `Calls` (supervisor and executor of one claim, with `Delivery` for the retry
loop) — each with a program counter per blocking point, a guard (`...Enabled`) and a transition (`...Next`). `Worker`
interleaves them with the clock, with cancellation and with the claim server. A step carries every choice the
scheduler, a `select`, the network or a handler makes, so a statement about all step sequences (`Runs`, `After`,
`Reachable`) is a statement about all interleavings. Every guard is only what blocks the program at that point.

Sequential code keeps its imperative form: the retry loop, `maintainRegistration` on a shared object, `memoryRequest`
setting up its error field by field, block validation normalising an array in place, the JSON token reader, the key
check, `describeInput`, `parseSchemaTag`, `NewToolNamespace`, `NewToolWorker` and `redact` are methods, proved against
a specification whose own properties are lemmas. The deadline test of the retry loop, the reading of its replies and
the choice between heartbeat and registration are single definitions used by both forms; `Lease.PassIsUpkeep` relates
the steps of a maintenance pass to the method.

| module | about |
|---|---|
| `Prelude`, `Text`, `Keys`, `Errors`, `Outcomes`, `Protocol` | shared types, key preimages, error chains, outcomes, reply reading |
| `Delivery`, `Maintenance`, `Calls`, `ClaimLoop`, `Lease` | the worker's processes |
| `Worker`, `Slots`, `Handling`, `Grants`, `Answers`, `Shutdown`, `System`, `Blocking`, `Progress`, `Termination`, `ReturnTime`, `Pacing`, `Limits` | the composed system, its invariants, and the theorems about every reachable state and every run (`System`, `Answers`, `Blocking`, `Progress`, `Termination`, `ReturnTime`, `Pacing`, `Limits`) |
| `Memory`, `MemoryServer`, `MemoryRuns` | the memory client, its environment, whole runs |
| `ToolInput`, `InputSchema`, `Admission`, `Registry` | the key check, schema and decoding, the two combined, tools and worker construction |
| `Redaction` | secret redaction |

Functions without a contract define the model and cite the code they stand for in their comments; what is proved about
them is in the table. Lemmas that are not in the table are steps of the proofs. Time is an integer, 0 being Go's zero
`time.Time`.

## Environment assumptions

- SHA-256 truncated to 16 bytes is injective on the strings it is given: a key is represented by its preimage. The
  process nonce is any NUL-free string.
- The handler of a tool yields one of the results `Config.mayReturn` allows it, or never returns; nothing else is
  assumed about handlers.
- The claim server answers a repeated key with its stored reply, may handle a request late, and may fail any request
  with any error. The network may lose any reply.
- A claim or outcome request made after its context has ended does not go out and fails with an error that is not
  retryable. Maintenance requests are not held to this; they may even succeed after cancellation.
- The memory server is the one README.md:83-132 describes: compare-and-set on the version (`If-Match`, section 13.1.1
  of RFC 9110), replay of a creation for 24 hours, and 4xx other than 408 meaning "not applied". A proxy may replace a
  reply by a redirect, timeout or failure, or damage it, but does not forge a valid success. A request the client has
  given up on may still be handled at any later time. Block ids are not used twice. Where a genuine reply is said to be
  recognised, the server's blocks are as README.md:81-83 promises, and it refuses a request it could not serve without
  breaking that (`Serveable`).

## Where the code decides

- `README.md:191` says that cancelling the context stops new claims. No claim goes out any more, but the code can still
  make one request on the ended context, if cancellation comes after the check at `tool_worker.go:96`, and can still
  start one call, if a claim was in flight. `CancellationStopsWork` gives the bounds, `ClaimsIffPastItsCheck` and
  `CallsIffClaimInFlight` the exact conditions, `ClaimAfterCancellation` and `CallAfterCancellation` the runs.
- A slot acquired by the semaphore select just before cancellation is seen is not released (`tool_worker.go:91-98`).
  It is counted as the loop's slot; `Run` does not need it any more.
- After a cancellation a result that is ready before its deadline can be dropped, because both cases of the select at
  `tool_worker.go:160-165` may be ready when the supervisor looks (`PunctualResultDropped`). This happens exactly if
  `awaitResult` had returned before the result was buffered (`DroppedIffLookedAway`), so never to a result that was
  ready before cancellation and deadline (`PromptResultIsDelivered`).
- The `pointer != nil` test in `asError` (`client.go:108`) never sees a nil pointer: walking a chain through a typed-nil
  `*Error` panics before. Such chains are outside the model.

## Model

| member | source | states |
|---|---|---|
| System.SlotConservation | agent/serverapi/tool_worker.go:86-151 | In every reachable interleaving the semaphore holds the loop's slot plus the executors not past their deferred release; handlers never exceed the limit, fewer than the limit are alive, expired claims included, from the last check before a claim until its reply is dealt with, and no release blocks |
| Blocking.AcquiresIffRoom | agent/serverapi/tool_worker.go:86-95 | In every reachable state the loop can take a slot exactly if fewer executors are alive than the limit allows |
| Blocking.LimitIsReached | agent/serverapi/tool_worker.go:86-151 | For every configuration a run in which as many handlers are alive as the limit allows |
| Blocking.LoopIsBlockedIff | agent/serverapi/tool_worker.go:88-177 | The claim loop is blocked exactly while the semaphore is full, the registration is being written, a pause is not over, or it waits for supervisors or heartbeat after the loop |
| Blocking.ClaimsCanEnd | agent/serverapi/tool_worker.go:107-112 | A claim that went out can be answered exactly with the server's stored reply and can fail with any error; a doomed one only with a final error |
| Blocking.BeatIsBlockedIff | agent/serverapi/tool_worker.go:239-257 | The heartbeat goroutine is blocked exactly while its timer is not due and the run goes on, never by the lock |
| Blocking.SupervisorIsBlockedIff | agent/serverapi/tool_worker.go:152-197 | A supervisor is blocked exactly while its selects wait for channel, context and deadline, or in a pause; with a result in the channel both selects can take it |
| Blocking.ExecutorWaitsForHandler | agent/serverapi/tool_worker.go:148-151 | A handler can return whatever its tool can yield, exactly while it runs |
| Blocking.ResultIsSubmitted | agent/serverapi/tool_worker.go:107-172 | A run in which a claim is granted, its registered tool returns any JSON, and exactly that is submitted as success under the claim's token and key |
| System.ClaimKeyLaw | agent/serverapi/tool_worker.go:99-123 | Two claim requests of a run carry the same key iff all requests between them used one token and every reply in between was a retryable error |
| ClaimLoop.KeyLaw | agent/serverapi/tool_worker.go:102-123 | The same law for the claim loop alone, for any nonce without NUL |
| ClaimLoop.KeyStep | agent/serverapi/tool_worker.go:88-141 | Every step of the loop keeps: keys derived from token and attempt, attempts advancing exactly when the key is not reused, and the live key being the last request's |
| ClaimLoop.PcStep | agent/serverapi/tool_worker.go:90-141 | The loop's slot changes hands exactly as the semaphore does, except that a dispatch passes it to the executor |
| System.CallsAreGranted | agent/serverapi/tool_worker.go:107-148 | Every call was read out of the reply the server stored under its request's key: its outcome token, deadline and tool are the granted ones, and the deadline was valid |
| System.GrantsDispatchedOnce | agent/serverapi/tool_worker.go:107-142 | No two calls are started for the same stored reply, whatever replies were lost |
| System.NoGrantIsForgotten | agent/serverapi/tool_worker.go:88-128 | Every reply the server stored was acted on, given up for a changed token or a non-retryable error, or is still the answer to the live key, unless the worker is cancelled |
| System.OneUndeliveredGrant | agent/serverapi/tool_worker.go:99-123 | In every reachable state at most one stored reply is neither acted on nor given up, and unless the worker is cancelled it is the one under the live key |
| System.RefusedClaimKeepsItsKey | agent/serverapi/tool_worker.go:117-119 | A claim refused with status 408, 429 or a 5xx is repeated under its key, and with any other status under a new one |
| ClaimLoop.RepliesAreTakenAsMeant | agent/serverapi/tool_protocol.go:154-171 | The empty reply means nothing to do; a complete claim, with or without labels, is dispatched if its deadline is an instant ahead and declined if not; anything else is an error not to be retried |
| Grants.OneOutstandingKey | agent/serverapi/tool_worker.go:99-123 | At most one claim key is outstanding at any time, and until shutdown it is the live one |
| Grants.ActedOnce | agent/serverapi/tool_worker.go:117-123 | The reply under one key is acted on at most once |
| System.OutcomeAgreement | agent/serverapi/tool_worker.go:129-172 | All submissions for one claim are identical, carry the claim's token, never blank, and key, are acceptable to the server, and report what a handler of the tool named by the claim returned in that claim's own call: its JSON as success, or code, message and details of the first tool error of its error, or the constant failure; a claim with an invalid deadline or an unregistered tool gets the constant failure |
| Answers.ClaimsAreAnswered | agent/serverapi/tool_worker.go:129-172 | Every declined claim has had its failure submitted, or the loop is about to; every dispatched claim whose supervisor has ended has had an outcome submitted, unless the deadline came first |
| System.OutcomeIsDelivered | agent/serverapi/tool_worker.go:293-307 | A call's delivery ends exactly on a settling or final reply, for lack of time, or with its context, and makes one request per attempt |
| System.RejectionIsDelivered | agent/serverapi/tool_worker.go:129-140 | The same for the failure of a declined claim; the loop goes on to the next claim exactly then |
| System.SilenceMeansDeadline | agent/serverapi/tool_worker.go:152-166 | A supervisor that ends without submitting ends at or after its claim's deadline |
| System.BufferedResultIsDelivered | agent/serverapi/tool_worker.go:147-197 | A result buffered while awaitResult is running is the one delivered, for every select choice and every continuation of the run |
| Limits.PromptResultIsDelivered | agent/serverapi/tool_worker.go:144-172 | A result ready before its claim's deadline and before cancellation is the one submitted, in every continuation, an immediate cancellation included |
| Limits.DroppedIffLookedAway | agent/serverapi/tool_worker.go:147-165 | A buffered result can be dropped in some continuation exactly if awaitResult has already returned without it |
| Limits.PunctualResultDropped | agent/serverapi/tool_worker.go:158-165 | A run in which a result that was ready before its claim's deadline is not submitted |
| Limits.PressedStep | agent/serverapi/tool_worker.go:153-197 | A supervisor leaves its blocking select without a result only on cancellation or at the deadline, and waits for the deadline only after a cancellation |
| Calls.SecuredStep | agent/serverapi/tool_worker.go:180-197 | No step of supervisor or executor loses a result buffered before awaitResult's last look |
| Calls.CallStepInv | agent/serverapi/tool_worker.go:142-172 | Every step keeps the agreement of handler result, channel, supervisor and delivery |
| System.AttemptsAreBounded | agent/serverapi/tool_worker.go:293-314 | At every moment a delivery has made at most max(0, deadline - start)/poll + 1 attempts, and one only if it began after the deadline; its context is alive when it begins and outlives the cancellation of the run |
| System.RejectionsAreBounded | agent/serverapi/tool_worker.go:129-138 | The failure for a declined claim is sent once if the claim names a past deadline, and otherwise only while the pauses fit into thirty seconds |
| Delivery.SubmitOutcomeWithRetry | agent/serverapi/tool_worker.go:293-307 | Every attempt carries the same key, token and outcome; the loop goes on exactly while the reply is worth repeating, another attempt fits before the deadline and the context lasts; it returns what ended it, within the bound |
| Delivery.LoopReadsStatus | agent/serverapi/tool_worker.go:296-305 | After 408, 429 and any 5xx the loop goes on while time is left, after any other refusal it ends; and there is no error exactly if the server settled the outcome |
| Delivery.RetryTakesPlace | agent/serverapi/tool_worker.go:296-305 | A repeatable failure with time left leads to the next attempt after a pause of exactly the poll interval |
| Delivery.PacedStep | agent/serverapi/tool_worker.go:293-324 | Each step of a delivery keeps attempts at least one poll interval apart, inside the deadline and the context |
| Delivery.PacedBound | agent/serverapi/tool_worker.go:300-305 | The spacing implies the attempt bound |
| System.RegistrationCoherence | agent/serverapi/tool_worker.go:83-101 | Whenever the lock is free the shared token and expiry are a pair the server acknowledged together, and every claim used an acknowledged token that is not blank |
| Lease.CoherentStep | agent/serverapi/tool_worker.go:270-291 | Every heartbeat step keeps that pair coherent, including through the torn state inside the critical section |
| System.FailedMaintenanceChangesNothing | agent/serverapi/tool_worker.go:275-290 | While maintenance passes fail or are malformed, over any number of them and any run, the registration and what is known to be acknowledged stay as they were and the lock stays free |
| Maintenance.SharedRegistration.Maintain | agent/serverapi/tool_worker.go:270-291 | A maintenance pass heartbeats up to the refresh point and registers anew after it, leaves the pair as it was on an error, and otherwise installs what was acknowledged |
| System.MaintenanceMatchesExpiry | agent/serverapi/tool_worker.go:270-291 | In every reachable state a pass heartbeats the live token up to expiry minus skew and registers anew after it; an expired token is never sent a heartbeat |
| System.EarlyPassesKeepTheToken | agent/serverapi/tool_worker.go:270-291 | Over any run only a pass decided after the refresh point gives the worker another token |
| Maintenance.DelayIsTimely | agent/serverapi/tool_worker.go:259-268 | The delay is positive, at most the heartbeat interval, and never passes expiry minus skew while that lies ahead |
| Lease.PassesAreDue | agent/serverapi/tool_worker.go:239-268 | The first and every later timer is due when the heartbeat interval is over or the refresh point has come, whichever is first, and past that point after a second or the shorter interval |
| System.LeaseNeverExpires | agent/serverapi/tool_worker.go:239-291 | If acknowledgments leave more than the skew and each pass is over within some time of its timer's due time, the registration is unexpired before shutdown in every state in which the skew covers the passes, heartbeats or re-registrations, that have failed in a row since the refresh point: each costs that time and the retry delay, and one more may be under way |
| Lease.FreshStep | agent/serverapi/tool_worker.go:239-291 | Every heartbeat step, of a pass that succeeds or fails, keeps the timer within the slip of the failures so far |
| Lease.PassIsUpkeep | agent/serverapi/tool_worker.go:270-291 | The goroutine's steps from decision to unlocking add up to what the method does |
| System.Quiescence | agent/serverapi/tool_worker.go:174-177 | When Run has returned, heartbeat and supervisors have ended, no request follows in any continuation, and a handler without a result is past its claim's deadline |
| System.ReturnNeedsCancellation | agent/serverapi/tool_worker.go:90-178 | Run returns only in runs in which it is cancelled |
| System.CancellationStopsWork | agent/serverapi/tool_worker.go:90-115 | After cancellation no claim goes out: at most one more request is made, on a context that has ended, and none if the loop was not past its check; at most one more call is started, and only if a claim was in flight |
| Limits.CallsIffClaimInFlight | agent/serverapi/tool_worker.go:107-142 | Once cancelled, the worker can start another call exactly if a claim that went out before is in flight and its reply, if stored, still grants a call |
| Limits.CallAfterCancellation | agent/serverapi/tool_worker.go:107-142 | A run in which a call is started after cancellation |
| Limits.ClaimsIffPastItsCheck | agent/serverapi/tool_worker.go:90-107 | Once cancelled, the loop can make another claim request, in vain, exactly if it is past its last check of the context and has not made it yet |
| Limits.ClaimAfterCancellation | agent/serverapi/tool_worker.go:96-107 | A run in which a claim request is made, in vain, after cancellation |
| Shutdown.AfterCancellation | agent/serverapi/tool_worker.go:90-115 | Over any run after cancellation, requests and calls stay within what the program point and the claim in flight allow, and all requests made since are doomed |
| Termination.MovesAreBounded | agent/serverapi/tool_worker.go:88-177 | Once cancelled, the worker makes a bounded number of moves while the clock stands still, under every schedule and whatever servers and handlers do |
| Termination.StuckIsReturnedOrWaiting | agent/serverapi/tool_worker.go:142-178 | Once cancelled, a worker that can do nothing but wait for handlers, with no reply to come, has returned or waits for a claim's deadline that is still ahead |
| Termination.StepWorks | agent/serverapi/tool_worker.go:88-324 | Every move of a cancelled worker uses up some of the work left at that instant |
| ReturnTime.RunReturnsInTime | agent/serverapi/tool_worker.go:152-177 | If processes that can move do so before time passes, timers are on time and requests are answered by the end of their contexts, Run returns within thirty seconds of the cancellation or the last deadline of its claims, whichever is later, however long handlers take |
| ReturnTime.TimeIsNotLocked | agent/serverapi/tool_worker.go:152-177 | In a cancelled worker that has not returned, under these conditions, a process can move, a reply can come, or time can pass |
| ReturnTime.CallStaysOnTime | agent/serverapi/tool_worker.go:152-172 | No step of a call makes its supervisor late |
| Progress.RunCanAlwaysReturn | agent/serverapi/tool_worker.go:142-178 | From every reachable state cancellation and the passing of deadlines let Run return without any step of any handler |
| System.InvStep | agent/serverapi/tool_worker.go:88-177 | Every step of the whole system keeps all invariants together |
| Handling.LinkStep | agent/serverapi/tool_worker.go:107-172 | Every step keeps claims, calls and rejections pointing at each other one to one |
| Handling.SentStep | agent/serverapi/tool_worker.go:131-172 | Every submission ever made belongs to an answered claim and matches it |
| Pacing.PollsAreSpaced | agent/serverapi/tool_worker.go:88-127 | Claim requests with only failures and empty replies between them are a poll interval apart each, so a worker without work makes at most span / interval more requests within any span |
| Pacing.PausesEnd | agent/serverapi/tool_worker.go:113-127 | A pause is over exactly after the poll interval, and only cancellation cuts it short |
| Pacing.PaceLoopStep | agent/serverapi/tool_worker.go:108-127 | Every step of the loop keeps a pause of at least the poll interval between a fruitless request and the next |
| Registry.NewToolWorker | agent/serverapi/tool_worker.go:29-68 | Construction fails exactly without client or namespaces, on a zero namespace or a repeated name; otherwise every tool is found under its identity, one entry per tool, and the worker's configuration is usable by the step system and knows every tool, whatever the options |
| Registry.ToolWorker.TryStart | agent/serverapi/tool_worker.go:71-73 | Only the first start proceeds |
| Registry.NewToolNamespace | agent/tool.go:179-196 | Construction succeeds exactly for a valid name and nonempty, valid, pairwise distinct tools; otherwise it blames the name or the lack of tools, or else the first tool that is zero or repeats an earlier one, accordingly |
| Registry.JoinedKeyIsIdentity | agent/tool.go:189-193 | Joined name/NUL/version keys are equal iff name and version are, although versions may contain NUL |
| Registry.RoutingNamesAreWords | agent/tool.go:204-215 | Routing names are exactly the nonempty words of ASCII letters and digits joined by single underscores, up to the length |
| Registry.EnlistedSize | agent/serverapi/tool_worker.go:62-65 | Registering a namespace adds one entry per tool |
| Registry.StaysEnlisted | agent/serverapi/tool_worker.go:62-65 | No later tool of a namespace overwrites an earlier one |
| Registry.ConstructedToolsAreToldApart | agent/tool.go:83-99 | A constructed tool is rebuilt from its own definition, and two constructed tools share a joined key iff the names and versions given to the constructor agree |
| Registry.PairMakesNamespace | agent/tool.go:83-99 | Two constructed tools make a namespace iff its name is valid and they differ in name or version |
| Keys.ClaimKeyInjective | agent/serverapi/idempotency.go:11-14 | Claim key preimages are equal iff token and attempt are, even when tokens contain NUL |
| Keys.OutcomeKeyInjective | agent/serverapi/idempotency.go:11-14 | Outcome key preimages identify their token and never equal a claim key preimage |
| Keys.DecimalReadsBack | agent/serverapi/tool_worker.go:104-104 | Reading an attempt's digits back gives the attempt |
| Errors.IsReadsTheChain | agent/serverapi/client.go:126-135 | errors.Is answers by membership in the unwrapped chain |
| Errors.FatalLinkForbidsRetry | agent/serverapi/client.go:130-135 | One malformed or cancelled link, or one that matches the deadline error, forbids a retry wherever it is in the chain |
| Errors.RetryHasAReason | agent/serverapi/client.go:136-145 | Nothing is retryable without an API error or a network error in its chain |
| Errors.WrappingIsTransparent | agent/serverapi/client.go:102-160 | Plain wrapping of any depth changes neither retryability, code, status nor the tool error found |
| Errors.RetryabilityByStatus | agent/serverapi/client.go:102-160 | With an API error in the chain, a value before any pointer, an error is retryable exactly if no link is fatal, the outcome is known, and the status is 408, 429 or at least 500, or there is none and a network error instead; code and status are that error's |
| Errors.AsToolFindsTheFirst | agent/serverapi/tool_worker.go:213-214 | errors.As finds the first tool error of the chain |
| Outcomes.ExecuteReports | agent/serverapi/tool_worker.go:199-227 | A result is reported as it is; an error by code, message and details of its first tool error, if that is not nil or blank; everything else, typed nils and unknown tools included, as the constant failure |
| Outcomes.ExecuteIsReportable | agent/serverapi/tool_worker.go:199-227 | Every handler result and error chain becomes a success with a result and no error, or a failure with nonblank code and message |
| Outcomes.ErrorsRevealOnlyToolErrors | agent/serverapi/tool_worker.go:209-226 | Anything but the constant internal failure comes from a non-nil tool error in the chain |
| Outcomes.ConstructedToolErrorIsReported | agent/tool.go:146-164 | A tool error reaches the server under any wrapping with the code, message and details it was constructed with, blanks replaced, and with nothing of them if the details are not JSON |
| Memory.MemoryRequest | agent/serverapi/memory.go:170-275 | At most one request is sent, exactly when the local checks pass, and the outcome is the specified classification of its reply |
| Memory.CheckBlocks | agent/serverapi/memory.go:287-308 | Blocks are accepted iff all are valid, and then normalised to UTC in place; on failure exactly the blocks before the first invalid one are |
| Memory.WriteRetryableIffThrottled | agent/serverapi/memory.go:218-275 | Every error of a write, under any wrapping, is retryable iff its status is 429 |
| Memory.ReadsAreNeverUnknown | agent/serverapi/memory.go:210-275 | A read's outcome is never unknown, and it is retryable exactly after a retryable status or a live network failure |
| Memory.GeneratedKeyIsValid | agent/serverapi/memory.go:123-132 | A generated key always passes the validation a retry will apply |
| Memory.GeneratedKeysDiffer | agent/serverapi/memory.go:125-129 | Generated keys are equal only for equal random values |
| Memory.ErrorsDescribeTheReply | agent/serverapi/memory.go:218-260 | Every error of a request carries its key and the status of the reply, and a refusal the code of its error body |
| Memory.TrimmedIsTheCutset | agent/serverapi/memory.go:281-285 | Exactly the listed whitespace is trimmed, which differs from Go's in U+0085 and U+FEFF |
| Memory.HexIsPlain | agent/serverapi/session.go:219-229 | Hexadecimal text of any bytes consists of key characters |
| MemoryServer.WriteTrichotomy | agent/serverapi/memory.go:223-274 | Each write sends at most one request; success means applied once with the reported effect, a known failure means not applied, and any other dispatched failure is marked unknown and is one of the two so far |
| MemoryServer.GenuineRepliesAreReported | agent/serverapi/memory.go:223-274 | When the server's own reply arrives, the client reports a success exactly if it is one, with its effect, and otherwise its status |
| MemoryServer.PromisesAreKept | README.md:81-83 | The blocks of the server stay what the documentation promises, whatever it handles |
| MemoryServer.WritesAreSentIff | agent/serverapi/memory.go:114-222 | A write is sent exactly if the context is alive and user, text, manager, key, id and version are as documented |
| MemoryServer.ListsComeBackWhole | agent/serverapi/memory.go:287-308 | A delivered list is accepted exactly if all its blocks are as promised, and comes back whole, in order and in UTC |
| MemoryServer.SuccessesAreTheCallsOwn | agent/serverapi/memory.go:298-318 | A reported success has the operation and the kind of contents of the call |
| MemoryServer.UnknownIsUndecidable | README.md:107-132 | Whenever the server would apply a write, no rule can tell from the result whether it did: two fates with the same result refute it. Otherwise no fate changes anything |
| MemoryServer.RetryableWriteWasNotApplied | README.md:109-111 | A write error the client calls retryable is a write the server did not apply |
| MemoryRuns.GeneratedKeyIsTheKey | agent/serverapi/memory.go:116-142 | A keyless creation behaves as the one with its generated key, returns that key whatever happens, and the key is accepted back |
| MemoryRuns.CreationReplay | README.md:87-105 | Repeating a creation with its returned key within retention creates at most one block and every success reports it, under any losses, late arrivals and other writers, who may even use the key within retention |
| MemoryRuns.CreationReports | agent/serverapi/memory.go:114-142 | A creation whose genuine reply arrives succeeds exactly if the server did and returns the block on record; every error after the local checks carries the key |
| MemoryRuns.RepetitionRecovers | README.md:87-105 | After a lost reply, the repetition with the returned key reports the block that the first call made |
| MemoryRuns.KeylessCreationReplay | agent/serverapi/memory.go:114-142 | The same when the first call had no key |
| MemoryRuns.RepeatCreatesIffExpired | README.md:105-105 | A repetition that is handled makes another block iff the retention of its key is over |
| MemoryRuns.ConditionalWriteAppliesAtMostOnce | README.md:109-111 | An update or deletion repeated at its observed version is applied at most once, late arrivals included, and never after another writer has changed or deleted the block |
| ToolInput.ValidateInputKeys | agent/tool.go:349-393 | The token loop accepts an input iff the recogniser of flat objects does |
| ToolInput.Decoder.Token | agent/tool.go:352-390 | The token reader's separator loop yields the next token of the grammar state it is in |
| ToolInput.AcceptsExactlyFlatObjects | agent/tool.go:349-393 | Accepted inputs are exactly the renderings of one flat object with distinct allowed names and non-null scalars, and nothing after it |
| ToolInput.ReadingIsUnique | agent/tool.go:349-393 | An accepted input has only one member list |
| Admission.DecodeInput | agent/tool.go:102-121 | The handler is called exactly if the input is one flat object of distinct described names with values that fit; it then gets the value holding exactly those members, and the check for trailing JSON never fires |
| Admission.ReadsWhatIsWritten | agent/tool.go:115-121 | Reading a rendered object gives its members back, in order, and what follows it |
| InputSchema.DescribeInput | agent/tool.go:248-323 | A type is described exactly if it is a plain named struct with supported fields whose names are distinct up to case; the schema lists exactly the visible fields with their kinds, descriptions and required names |
| InputSchema.ParseSchemaTag | agent/tool.go:325-337 | Options are accepted iff all are known; the last description wins and each required option repeats the name |
| InputSchema.DecodesExactly | agent/tool.go:102-116 | Distinct exact names decode each to its own field, none dropped or overwritten, failing only on a value that does not fit |
| InputSchema.OneEligibleField | agent/tool.go:281-285 | With names distinct up to case at most one field is eligible for any spelling |
| InputSchema.OrderDoesNotMatter | agent/tool.go:102-116 | Accepted members decode to the same value in any order |
| InputSchema.AdmissibleNames | agent/tool.go:365-382 | Accepted members have distinct allowed names and scalar values |
| Redaction.RedactIsClean | agent/serverapi/redact.go:12-18 | For every input no pattern matches anywhere in the output |
| Redaction.RedactIsFourPasses | agent/serverapi/redact.go:5-18 | Redaction is the four passes in the order of the list, each on the result of the one before |
| Redaction.RedactFixpoints | agent/serverapi/redact.go:12-18 | Redaction changes exactly the inputs in which a pattern matches, and is idempotent |
| Redaction.PassCreatesNothing | agent/serverapi/redact.go:14-16 | A pass creates no match of any pattern and leaves none of its own |
| Redaction.LeftmostLongest | agent/serverapi/redact.go:15-15 | A pass replaces the leftmost longest match by the mask and keeps the text before it |
| Redaction.PassesDoNotCommute | agent/serverapi/redact.go:5-10 | The order of the patterns matters |
| Redaction.RedactInput | agent/serverapi/redact.go:12-18 | The loop over the patterns computes the redaction, whose output is clean |

## Left out

- HTTP, TLS, URL escaping, JSON byte encoding and `time.Parse`: replies are decoded values, malformed, or errors; inputs are sequences of JSON lexemes.
- The initial registration of `Run` and its early returns (`tool_worker.go:74-80`): the step system starts at the first acknowledged registration.
- `RLock` sections are single atomic steps guarded by the writer's lock; other readers cannot delay a writer.
- Log output, panic recovery and `debug.Stack`: a handler yields a result or an error, or never returns.
- Error trees built with `errors.Join`, custom `Is`/`As` methods other than network timeouts, and chains through a typed-nil `*Error`, which panic when walked.
- Errors of `json.Marshal` and `http.NewRequest` before dispatch, and the nil-client check: they happen before any request and cannot be provoked by validated inputs of a constructed client.
- IDs and keys that are not valid UTF-8: Go measures them with replacement characters; memory text that is not UTF-8 is modelled, because the client rejects it.
- Memory limits (50 blocks, 16,384 bytes), permissions and throttling on the server: any refusal by a 4xx other than 408, at any time.
- Reads of the memory server: a GET changes nothing, and what it returns is not constrained beyond the client's validation.
- The schema's `required` list is not enforced by the worker, and is not claimed to be.
- Session calls, access tokens, manifest publication, the console API and the CLI: request wrappers with one-branch checks.
