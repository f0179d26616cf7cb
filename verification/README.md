# Internal developer platform: verified protocol cores

A Dafny model of the parts of an internal developer platform whose correctness depends on
order, on faults and on interleaving, with proofs of what they guarantee.

| modules | what they model |
|---|---|
| `Http`, `Recording` | a handler's calls on its response writer, and the recorder wrapped around it |
| `Redis`, `ReleaseScript` | the idempotency records, the commands and scripts on them, and the JSON text one script searches |
| `IdempotencyProtocol`, `IdempotencyTheorems`, `IdempotencyRestart`, `IdempotencyLimits`, `IdempotencyHashes`, `IdempotencyAnswers`, `IdempotencyMiddleware` | the API's idempotency layer: a state machine of requests, what every run of it keeps, what each request is answered, when a stored response can be lost early, the two ways out of the guarantees, when a record can lose its hash, and the middleware itself |
| `RepositoryRecord`, `RecordStore` | the scaffolder's repository records and the table they are kept in |
| `RepositoryProtocol`, `RepositoryTheorems`, `RepositoryConvergence`, `RepositoryBystanders`, `RepositoryLimits`, `CreateRepositoryUseCase` | claiming, creating or adopting, and saving a repository under at-least-once delivery |
| `NameReservation`, `NameWindow` | name reservations with an expiry in whole seconds, and exactly when a holder can lose its name early |
| `TaskQueueWorker`, `Redelivery` | the scaffolder's queue worker, and the queue with its dead-letter queue around it |
| `TokenCache`, `GitHubAppClientFactory` | the double-checked cache of the GitHub client |
| `Regex`, `ApplicationName` | the application-name rule in two languages |
| `ConfigSplit`, `ConsumeLoops` | list splitting, and the provisioner's two consume loops |
| `Common` | optional values and the three ways a remote call can go |

`dafny verify dfyconfig.toml` checks everything.

## How it is built

**Protocols.** Each concurrent core is a state machine: a `World`, an `Action` for every step
that something else can come between, `Enabled` and `Step`. A run is any sequence of worlds
that follow each other by enabled steps. A remote call carries a `Fault`: it succeeds, fails
before it took effect, or takes effect and loses its reply. Requests, deliveries and calls are
unbounded in number and interleave freely. Invariants are proved step by step, and the main
results are statements about every world of every run.

**Programs.** The code that works by changing things is modelled by classes and loops with the
source's own order of effects. Each is proved to do what its protocol says for one participant
running alone: `Serve` plays a script of protocol steps, `ExecuteAsync` and `GetClientAsync`
drive one delivery or call to its end. Such a lone participant makes any run a longer run
(`CallExtendsRun` and the two lemmas `DriveExtendsRun`), so the theorems cover it. The
interleaving of several of them is studied on the protocol, not on the objects.

**Assumptions.** They are conditions of the theorems, never facts taken for granted:

- `Prompt`: no live handler outlives its reservation's time to live.
- `key !in robbed`: no second release of one request has taken another's reservation under the
  key since the key was last reserved with nobody live on it. `SlipFreeIsOrderly` derives it from
  what can be seen step by step: no release of an unstored response takes effect and then panics.
  `UnrobbedReturns` says when it holds again.
- `!StrangerStores`: nobody on the key is about to store over a record it read with another hash.
  Where the key is not robbed that is proved (`UnrobbedIsIdle`).
- `NoOutsidersAt`, `NoRemovalsAt`, `Serial`: only this protocol creates the repository a
  statement is about; the host neither deletes nor renames it; deliveries of one request do not
  overlap.
- `MintsAhead`: a minted token expires more than the renewal margin after the clock readings
  its mint relied on.
- `AwsThrows`: calls to AWS throw no exception of the domain's own kinds.

Built into the state machines are: each store command runs atomically and at most once, Redis
keeps its keys until their deadline, a time to live is a positive whole number of milliseconds,
the timestamps inside an envelope come from the clock Redis runs on, a name reservation is
dropped only at or after its stored second, and the host finds a repository under its name
whatever the case. A Dafny character is a Unicode code point. Where a length matters it is
counted as the language does: in UTF-8 bytes for Go (`Utf8Length`), in UTF-16 units for .NET
(`Utf16Length`); the worker's error codes, cut at 256, have characters of one such unit each.
Bodies are bytes.

## What the proofs found

- **Completion does not check ownership again** (`redis_store.go:80-82`). The comment there
  argues that the caller is the only one wrapping the handler. Two things break that, and then a
  request can be replayed another body's response: a handler that outlives its reservation
  (`LateHandlerPoisonsTheCache`), and the next point.
- **A release can be made twice** (`idempotency_middleware.go:85-91` and `100-101`). If the
  release after a 5xx response takes effect and then panics, the deferred function releases the
  key once more, without asking whose it is by then, and so can take a live reservation of
  another request. Two handlers can then run on one key at once. Exclusion and the agreement of
  replays are lost exactly then (`ExclusionLostIff`, `AgreementLostIff`; `MisreplayHappens` is a
  run of it), and a record can lose its hash (`HashLostAfterSlipIff`). All of it is back once the
  key has been quiet (`ExclusionReturns`, `UnrobbedReturns`).
- **The release script can delete a completed record**, contrary to its comment
  (`redis_store.go:122-123`), if a stored header name or value is the word IN_FLIGHT or ends in
  a double quote and that word, and its request panics after completing or another request's
  second release is due. The key is then free at once. `FindsMarks` says which texts the script
  mistakes, and a hexadecimal hash is never one; `EarlyRestartIff` and `ThreatenedIff` say that a
  handler can start before the time to live is over exactly then.
- **An informational status is taken for the response's** (`idempotency_middleware.go:173-180`). After
  `WriteHeader(103)` the recorder drops the handler's answer: its client is sent 200 instead, and
  103 is recorded as a status to store, even if the answer was an error (`AnnouncementIsRecorded`).
  `RecorderIsTransparent` says exactly when the client sees other statuses than without it.
- **A header changed after the first write is replayed although its own client never received
  it** (`SentHeadersAreCapturedHeaders`, `LateHeaderIsReplayedOnly`).
- **A conflict can be one with oneself.** Two overlapping deliveries of a request can make the
  one that claimed first report that the repository exists (`OverlapConflictsWithItself`,
  `ConflictCauses`).
- **A claim outlives its conflict**, so a redelivered request adopts a repository that an
  outsider had made (`OutsiderIsAdoptedLater`).
- **A claim does overwrite a created record** of its own request with a bare claim until the
  save puts it back; the comment at `DynamoDbRepositoryRecordStore.cs:36-40` says both.
  `CreatedIsRewoundIff` says that no other step does, and `RedeliveryForgets` shows a redelivery
  that dies in between.
- **A replayed name reservation can end its window earlier** if a delivery of the same request
  that read the clock before wrote after it, and another request can then take the name inside
  the window (`StaleReplayShortens`, `OverlapBreaksTheWindow`). `ExposedIff` and `BreakableIff`
  say exactly when that can still happen.
- **Two callbacks for one delivery** are attempted exactly when reporting or deleting after a
  success throws an exception the worker reads as the task's own. An exception leaves the handler
  exactly when the message has no body at all, or when deleting after an accepted failure report
  throws (`HandleObeys`).
- **The name patterns differ** on single letters, and a .NET `$` matches before a final
  newline; neither matters after trimming and with the length bound (`RulesAgree`).
- **The consume loops count differently**: Kafka commits a message it cannot understand and
  counts it as processed, SQS leaves it and counts it as failed (`LoopsCountAlike`).

## Model

| member | source | states |
|---|---|---|
| `IdempotencyTheorems.MutualExclusion` | services/api/internal/adapters/inbound/http/idempotency_middleware.go:68-102 | in every world of every run, two requests with one key that are both between reservation and completion or release are the same request, unless the key is robbed: a second release of one request has taken the record of a live other one, and the key has not been reserved since with nobody live on it |
| `IdempotencyTheorems.ExclusionReturns` | services/api/internal/adapters/inbound/http/idempotency_middleware.go:68-102 | whatever happened before: from any world in which nobody on the key is live or about to release it a second time, exclusion holds until the next release that takes effect and panics, and whenever somebody is live the key is not robbed |
| `IdempotencyTheorems.UnrobbedReturns` | services/api/internal/adapters/outbound/idempotency/redis_store.go:46-71 | and from the first reservation after such a world on the key is not robbed, so that every guarantee for such keys is back |
| `IdempotencyTheorems.SlipFreeIsOrderly` | services/api/internal/adapters/inbound/http/idempotency_middleware.go:85-101 | that never happens on a key, and no second release is ever due, as long as no release of an unstored (5xx) response on it takes effect and then panics |
| `IdempotencyLimits.ExclusionLostIff` | services/api/internal/adapters/inbound/http/idempotency_middleware.go:85-101 | the exact condition: from a world in which no such release has yet happened on the key, a step and any further steps without one can lead to two live requests on the key exactly if that step is such a release |
| `IdempotencyLimits.AgreementLostIff` | services/api/internal/adapters/inbound/http/idempotency_middleware.go:85-101 | the same for replays: they can lead to a replay that is not its owner's response exactly then |
| `IdempotencyLimits.SlipLosesBoth` | services/api/internal/adapters/inbound/http/idempotency_middleware.go:85-101 | and from the first such release on a key they do lead to two live requests on the key, and to a request replayed the bytes of another whose body had a different hash |
| `IdempotencyLimits.MisreplayHappens` | services/api/internal/adapters/inbound/http/idempotency_middleware.go:85-101 | it happens: for every key and every time to live, a run from the empty store in which, with no handler late, a request is replayed another body's response through such a release |
| `IdempotencyLimits.SlipLetsTwoIn` | services/api/internal/adapters/inbound/http/idempotency_middleware.go:85-101 | the run, from any such release on a key not yet robbed: a new request takes the freed key, the second release deletes its reservation, and another request with another hash takes the key while the first handler runs, the clock standing still |
| `IdempotencyLimits.ThirdIsReplayedFirst` | services/api/internal/adapters/outbound/idempotency/redis_store.go:80-120 | from there the first handler's completion lands in the second one's record and is replayed to a request with the second one's hash |
| `IdempotencyRestart.NoRerunWithinTtl` | services/api/internal/adapters/outbound/idempotency/redis_store.go:46-141 | after a completion is stored at time t and nobody can still come to release it or to store a marked one over it, a handler for that key starts only at t plus the time to live or later, whatever else happens in between |
| `IdempotencyRestart.EarlyRestartIff` | services/api/internal/adapters/inbound/http/idempotency_middleware.go:85-101 | the exact condition, in every run: once a completion is stored, the run can go on to a handler for the key starting before its time to live is over exactly if somebody can still come to release it: it is marked and a live or second release is due, or a request still live can yet store a marked one |
| `IdempotencyRestart.ThreatenedIff` | services/api/internal/adapters/inbound/http/idempotency_middleware.go:85-101 | while the key has not been robbed that is exactly if the completion is marked, and its request panics or another request's second release is due |
| `IdempotencyRestart.HoldingStays` | services/api/internal/adapters/outbound/idempotency/redis_store.go:80-134 | from any world of any run, robbed keys included: a key that holds a completion which nobody can come to free keeps holding one until the given time |
| `IdempotencyTheorems.CompletionIsImmutable` | services/api/internal/adapters/outbound/idempotency/redis_store.go:80-134 | a stored completion that is at rest is found unchanged in every later world until its own deadline |
| `IdempotencyTheorems.CompletionRestsIff` | services/api/internal/adapters/inbound/http/idempotency_middleware.go:85-101 | while the key has not been robbed, it is at rest exactly unless it is marked, and its request panics or another request's second release is due |
| `IdempotencyTheorems.RecordStays` | services/api/internal/adapters/outbound/idempotency/redis_store.go:122-141 | wherever in a run a record is met on whose key nobody may still store, nor release what the script takes for a reservation, no reserve, complete or release by anybody alters it until its deadline |
| `IdempotencyTheorems.PanicAfterCompletion` | services/api/internal/adapters/inbound/http/idempotency_middleware.go:85-98 | a request that panics just after storing its completion loses it to the deferred release exactly if the completion is one the script mistakes for a reservation |
| `IdempotencyAnswers.RetryIsReplayed` | services/api/internal/adapters/inbound/http/idempotency_middleware.go:68-148 | in every run: after a completion is stored under a key that is not robbed, and nobody can come to free it, every request with the key whose reservation and read work before the time to live is over gets no handler, and is replayed the owner's status, bytes and captured headers if it has the owner's hash, and told a mismatch if it has not |
| `IdempotencyAnswers.StoredIsHeld` | services/api/internal/adapters/outbound/idempotency/redis_store.go:80-120 | because until then the key holds that response under that hash |
| `IdempotencyAnswers.FetchVerdict` | services/api/internal/adapters/inbound/http/idempotency_middleware.go:118-148 | a record that is found ends its request in a mismatch exactly if the hashes differ, in progress exactly if they agree and it is in flight, and in a replay exactly if they agree and it is completed, with the record's own status, headers and bytes, zero standing for 200 |
| `IdempotencyAnswers.ReserveVerdict` | services/api/internal/adapters/outbound/idempotency/redis_store.go:46-78 | a reservation starts the handler exactly if the key is free and the reply arrives, and what record it then leaves |
| `IdempotencyAnswers.ReturnVerdict` | services/api/internal/adapters/inbound/http/idempotency_middleware.go:95-101 | in every run a handler's response is to be stored exactly if the status its calls amount to is below 500, and its key to be released exactly otherwise |
| `IdempotencyAnswers.CompletionVerdict` | services/api/internal/adapters/outbound/idempotency/redis_store.go:92-120 | in every run a fault-free completion on a key that is not robbed goes through, and leaves the response to the handler's calls under the request's own hash for the whole time to live |
| `IdempotencyAnswers.ReleaseVerdict` | services/api/internal/adapters/outbound/idempotency/redis_store.go:122-141 | in every run a release that takes effect, of a response that is not stored, frees its key |
| `IdempotencyAnswers.EndVerdict` | services/api/internal/adapters/inbound/http/idempotency_middleware.go:85-91 | a crash leaves the record as it is, a panic leads to the deferred release |
| `IdempotencyProtocol.PlaysFollows` | services/api/internal/adapters/inbound/http/idempotency_middleware.go:68-102 | actions that can be played pass through a sequence of worlds as runs do |
| `IdempotencyMiddleware.CallExtendsRun` | services/api/internal/adapters/inbound/http/idempotency_middleware.go:68-102 | a call added to any run by a request of its own makes it a longer run, with the store and the outcome that the middleware's own contract states, so every theorem about runs covers it |
| `IdempotencyMiddleware.PlayCall` | services/api/internal/adapters/inbound/http/idempotency_middleware.go:68-102 | one call is its script of steps, whatever other requests are around |
| `Http.RecorderIsTransparent` | services/api/internal/adapters/inbound/http/idempotency_middleware.go:169-188 | a handler behind the recorder shows its client exactly the statuses, headers and bytes it would show without it, unless an informational status comes first and another WriteHeader before any bytes; and the same statuses exactly if that does not happen, or what it drops is a 200 |
| `Http.AnnouncementIsRecorded` | services/api/internal/adapters/inbound/http/idempotency_middleware.go:173-180 | otherwise: after an informational status the client is sent 200 in place of the answer's status, and the informational one is recorded, and stored even if the answer is an error |
| `Http.StatusesAgreeIff` | services/api/internal/adapters/inbound/http/idempotency_middleware.go:173-188 | the statuses with and without the recorder, read off the list of calls |
| `Recording.ResponseWriter.Serve` | services/api/internal/adapters/inbound/http/idempotency_middleware.go:36-40 | running a handler on the writer itself: the new state is that of passing on its calls one by one |
| `IdempotencyTheorems.CacheAgreement` | services/api/internal/adapters/inbound/http/idempotency_middleware.go:108-212 | every replay in every run, under a key that is not robbed at that time, has then and ever after the status, the bytes and, outside the six skipped names, the first header values that the handler of one earlier request, the key's owner, with the same key and hash gave its writer |
| `IdempotencyTheorems.CallsAreFinal` | services/api/internal/adapters/inbound/http/idempotency_middleware.go:93-102 | what a finished handler wrote, and so what is replayed for it, never changes again |
| `IdempotencyTheorems.RecordKeepsHash` | services/api/internal/adapters/outbound/idempotency/redis_store.go:80-110 | from reservation through completion a living record keeps the hash it was reserved with, robbed keys, late handlers and repeated releases included, if nobody on the key was then about to store over a record it had read with another hash |
| `IdempotencyTheorems.RecordKeepsOwner` | services/api/internal/adapters/outbound/idempotency/redis_store.go:80-110 | on a key that is not robbed nobody is, and the record keeps its owner too |
| `IdempotencyTheorems.UnrobbedIsIdle` | services/api/internal/adapters/outbound/idempotency/redis_store.go:59-71 | because such a key is reserved only with nobody live on it |
| `IdempotencyHashes.RecordHashLostIff` | services/api/internal/adapters/outbound/idempotency/redis_store.go:80-120 | the exact condition, in every run: once a key is reserved, the run can go on to its living record having another hash exactly if somebody on the key was about to store under one |
| `IdempotencyTheorems.HashBinding` | services/api/internal/adapters/inbound/http/idempotency_middleware.go:118-125 | while that record lives no handler starts for its key, and only a request with its hash learns that it is in flight or what it stored |
| `IdempotencyHashes.HashBindingLostIff` | services/api/internal/adapters/inbound/http/idempotency_middleware.go:118-125 | the exact condition for that: the run can go on to a request with another hash learning it exactly if somebody on the key was about to store under one |
| `IdempotencyHashes.HashLostAfterSlipIff` | services/api/internal/adapters/inbound/http/idempotency_middleware.go:85-101 | and how it comes to that: from a world in which no release on the key has yet taken effect and panicked, a step and any further ones without one can lead to a living record losing its hash exactly if that step is such a release |
| `IdempotencyHashes.StrayLosesHash` | services/api/internal/adapters/outbound/idempotency/redis_store.go:80-120 | the run: a request that has read its record loses it to the second release, another reserves the key, and the first one stores its own hash over that record |
| `IdempotencyHashes.HashLossHappens` | services/api/internal/adapters/outbound/idempotency/redis_store.go:80-120 | it happens, for every key and time to live, from the empty store and with no handler late |
| `IdempotencyLimits.LateHandlerPoisonsTheCache` | services/api/internal/adapters/outbound/idempotency/redis_store.go:80-82 | without the assumption on the time to live: for every key and time to live a run from the empty store, with no panicking release, in which a request is replayed the bytes of another whose body had a different hash |
| `IdempotencyTheorems.RunKeepsInv` | services/api/internal/adapters/inbound/http/idempotency_middleware.go:68-102 | the invariant below holds in every world of every run that keeps the assumption on the time to live |
| `IdempotencyProtocol.StepKeepsInv` | services/api/internal/adapters/inbound/http/idempotency_middleware.go:68-102 | every step keeps, for each key that is not robbed: a live request owns the unexpired in-flight record of its key, every record is rooted in the request that last reserved it and holds that request's response once completed; and every replay made while its key was not robbed has its source |
| `IdempotencyProtocol.ReserveKeepsOwners` | services/api/internal/adapters/outbound/idempotency/redis_store.go:59-71 | a reservation that takes a lapsed key never takes it from a request that is still live |
| `IdempotencyMiddleware.Serve` | services/api/internal/adapters/inbound/http/idempotency_middleware.go:33-105 | one call, imperatively: which of the four kinds of answer it gives; without a fault, that it serves and leaves the response stored exactly if its status is below 500 and the key free otherwise, or answers a taken key from its record; its effect on the store and its outcome for every combination of faults, as those of playing its script of protocol steps; and exactly what the client is sent, including by a handler that runs without a key |
| `IdempotencyMiddleware.CleanCallAnswers` | services/api/internal/adapters/inbound/http/idempotency_middleware.go:68-102 | those verdicts on a fault-free call, for every store, handler and hash |
| `IdempotencyMiddleware.CleanCallSettles` | services/api/internal/adapters/inbound/http/idempotency_middleware.go:95-101 | and on the part that owns the key, with the bound of 500 read off the handler's calls |
| `IdempotencyMiddleware.RefusalsSent` | services/api/internal/adapters/inbound/http/idempotency_middleware.go:68-136 | the status, code and content type of each refusal as the client gets them, and Retry-After for a request in progress |
| `IdempotencyMiddleware.ServedSends` | services/api/internal/adapters/inbound/http/idempotency_middleware.go:93-98 | a served client gets what its handler wrote; a failure to store shows in the header map alone |
| `IdempotencyMiddleware.Decide` | services/api/internal/adapters/inbound/http/idempotency_middleware.go:68-102 | the part of it from the reservation on, with the same verdicts |
| `IdempotencyMiddleware.Run` | services/api/internal/adapters/inbound/http/idempotency_middleware.go:83-102 | the part of it that owns the key: handler behind the recorder; without a fault the response is stored exactly if its status is below 500 and the key is freed otherwise, as it is after a panic; and the second release after a release that panicked |
| `IdempotencyMiddleware.Record` | services/api/internal/adapters/inbound/http/idempotency_middleware.go:83-95 | the handler behind its recorder leaves the client what its calls amount to, and the recorder with that status, those bytes and the captured headers |
| `IdempotencyMiddleware.ReplayCachedResponse` | services/api/internal/adapters/inbound/http/idempotency_middleware.go:118-149 | the verdict on a found record, in terms of its hash, state, status, headers and bytes, and what is sent for each |
| `IdempotencyMiddleware.Replay` | services/api/internal/adapters/inbound/http/idempotency_middleware.go:137-148 | a replay sets the stored headers and the marker over what is there, then the status, zero standing for 200, then the bytes |
| `IdempotencyMiddleware.ReplayShowsTheResponse` | services/api/internal/adapters/inbound/http/idempotency_middleware.go:137-148 | the client of a replay sees the statuses, the bytes and the kept first header values the original client's handler produced; other headers are those the outer layers set; a status of zero is replayed as 200 |
| `IdempotencyMiddleware.RespondWithError` | services/api/internal/adapters/inbound/http/validation.go:174-178 | an error response: content type, status, then the encoded code |
| `IdempotencyMiddleware.PlayGranted` | services/api/internal/adapters/inbound/http/idempotency_middleware.go:78-102 | a call that gets the key plays reserve, its handler's calls and its ending, and ends with the settled store |
| `IdempotencyMiddleware.PlayRefused` | services/api/internal/adapters/inbound/http/idempotency_middleware.go:68-81 | a call that does not get the key plays at most two steps and ends with the store's verdict |
| `IdempotencyMiddleware.PlayEnding` | services/api/internal/adapters/inbound/http/idempotency_middleware.go:85-102 | after the handler: which of the completion, the release and the deferred release takes effect, for every combination of faults and panics |
| `Http.RecorderIsFaithful` | services/api/internal/adapters/inbound/http/idempotency_middleware.go:173-188 | after any sequence of calls the recorder holds the first status and all bytes, the wrapped writer was given those bytes and sends that status, with 200 between if it was informational and bytes followed, and the header map holds what the last call on each name set |
| `Http.SentHeadersAreCapturedHeaders` | services/api/internal/adapters/inbound/http/idempotency_middleware.go:193-212 | the headers captured at the end are those the client received with the final status exactly if no kept header's first value changed after it |
| `Http.LateHeaderIsReplayedOnly` | services/api/internal/adapters/inbound/http/idempotency_middleware.go:93-98 | a header set after the first write is replayed although its own client never received it |
| `Http.CapturedIsFirstValues` | services/api/internal/adapters/inbound/http/idempotency_middleware.go:193-212 | capturing keeps the first value of each name outside the six skipped ones, and nothing else |
| `Http.CapturedNames` | services/api/internal/adapters/inbound/http/idempotency_middleware.go:193-212 | which names are captured, and with which value |
| `Recording.ResponseRecorder.WriteHeader` | services/api/internal/adapters/inbound/http/idempotency_middleware.go:173-180 | only the first status counts and is passed on; the whole new state is the recorder specification's |
| `Recording.ResponseRecorder.Write` | services/api/internal/adapters/inbound/http/idempotency_middleware.go:182-188 | a write without a status sends 200 first; bytes go to the buffer and to the client |
| `Recording.ResponseRecorder.Serve` | services/api/internal/adapters/inbound/http/idempotency_middleware.go:93 | running a handler's calls in place is folding the specification over them |
| `Recording.ResponseRecorder.CapturedHeaders` | services/api/internal/adapters/inbound/http/idempotency_middleware.go:193-212 | the loop over the header map, in any order, builds the captured map |
| `Redis.RedisStore.Reserve` | services/api/internal/adapters/outbound/idempotency/redis_store.go:46-78 | the new database and exactly when the result is created, existing or an error, for every pair of faults of the two commands |
| `Redis.RedisStore.Complete` | services/api/internal/adapters/outbound/idempotency/redis_store.go:92-120 | a found key is overwritten with a fresh time to live keeping hash and creation time, a missing one is no error, a failed read changes nothing |
| `Redis.RedisStore.Release` | services/api/internal/adapters/outbound/idempotency/redis_store.go:136-141 | deletes the key exactly if the script reached the store and its text test succeeds |
| `ReleaseScript.FindsMarks` | services/api/internal/adapters/outbound/idempotency/redis_store.go:124-134 | on the JSON text of any envelope the search for the quoted word succeeds exactly if the state is in flight or the hash, a header name or a header value is the word or ends in a double quote followed by it |
| `ReleaseScript.BenignTextTellsState` | services/api/internal/adapters/outbound/idempotency/redis_store.go:124-134 | so with a hexadecimal hash and no such header the search tells in-flight from completed records |
| `ReleaseScript.HexIsUnmarked` | services/api/internal/adapters/inbound/http/idempotency_middleware.go:65-66 | a hexadecimal hash never misleads the search |
| `ReleaseScript.FindsItems` | services/api/internal/adapters/outbound/idempotency/redis_store.go:34-42 | in any rendered object of quoted strings the search finds a word exactly if some string ends in it |
| `ReleaseScript.ContainsIsPiece` | services/api/internal/adapters/outbound/idempotency/redis_store.go:129 | a quoted word occurs in a text exactly if it is a whole piece between two of its double quotes |
| `ReleaseScript.QuotedPieces` | services/api/internal/adapters/outbound/idempotency/redis_store.go:34-42 | among the pieces of an escaped string is the word exactly if the string is it or ends in it after a double quote |
| `ReleaseScript.RenderPieces` | services/api/internal/adapters/outbound/idempotency/redis_store.go:34-42 | the pieces of a rendered object, by induction over its strings |
| `ReleaseScript.ItemsEndIn` | services/api/internal/adapters/outbound/idempotency/redis_store.go:34-42 | of an envelope's strings only the state, the hash and the headers can end in the word: not the keys, the base 64 body or the timestamps |
| `ReleaseScript.EscapeChar` | services/api/internal/adapters/outbound/idempotency/redis_store.go:54 | how one character is escaped, and that an escape never contains a bare double quote |
| `ReleaseScript.Base64` | services/api/internal/adapters/outbound/idempotency/redis_store.go:39 | the encoded body uses only the base 64 alphabet, so it holds neither quote nor underscore |
| `RepositoryConvergence.CrashConvergence` | services/scaffolder/src/Scaffolder.Application/CreateRepository/CreateRepositoryUseCase.cs:37-109 | from a vacant slot and name, any deliveries of one command interrupted anywhere, each call having taken effect or not, followed by one fault-free delivery end in success and leave inventory and host exactly as one clean delivery would, but for the claim's time and the report that the repository existed |
| `RepositoryBystanders.ConvergenceAmongOthers` | services/scaffolder/src/Scaffolder.Application/CreateRepository/CreateRepositoryUseCase.cs:37-109 | the same with company: while a command's deliveries are interrupted, anything at all may happen under other names, and its last delivery ends as alone but for the host's number, changing nothing under any other name |
| `RepositoryBystanders.StepStaysUndisturbed` | services/scaffolder/src/Scaffolder.Application/CreateRepository/CreateRepositoryUseCase.cs:55-93 | every step of anybody under another name, and every step of the command's own deliveries, leaves its slot and name in the hands of its own deliveries |
| `RepositoryConvergence.CleanRunConverges` | services/scaffolder/src/Scaffolder.Application/CreateRepository/CreateRepositoryUseCase.cs:37-109 | a fault-free delivery from any world that is ready for it: its steps are playable and what they leave, no more |
| `RepositoryConvergence.OwnPlayKeepsInterrupted` | services/scaffolder/src/Scaffolder.Application/CreateRepository/CreateRepositoryUseCase.cs:55-93 | any interleaving of interrupted deliveries leaves at most a claim of the request and the one repository |
| `RepositoryTheorems.AdoptionSoundness` | services/scaffolder/src/Scaffolder.Application/CreateRepository/CreateRepositoryUseCase.cs:67-91 | if only this protocol creates a repository, whoever adopts it adopts the very repository that an effective create of another delivery of the same request left under that name, over all interleavings, overlaps and removals included, and outsiders under other names |
| `RepositoryTheorems.AdoptedWasMinted` | services/scaffolder/src/Scaffolder.Infrastructure/GitHub/OctokitRepositoryHost.cs:59-74 | the half of it that needs no condition: whatever repository a delivery has adopted from a recorded maker is the one that an earlier create of that maker made, outsiders and removals allowed |
| `RepositoryTheorems.SuccessAgreement` | services/scaffolder/src/Scaffolder.Application/CreateRepository/CreateRepositoryUseCase.cs:67-108 | if the host neither deletes nor renames it, all successes for one name return the same repository and at most one reports that it did not exist before; outsiders allowed |
| `RepositoryTheorems.ConflictSoundness` | services/scaffolder/src/Scaffolder.Application/CreateRepository/CreateRepositoryUseCase.cs:55-93 | with non-overlapping deliveries, and no removal of the repository and no outsider creating it, a conflict is raised only if a different request owns the slot |
| `RepositoryTheorems.ConflictCauses` | services/scaffolder/src/Scaffolder.Application/CreateRepository/CreateRepositoryUseCase.cs:55-93 | without the condition on overlaps: exactly when a step raises a conflict, and that a refused create is then always due to another delivery of the same request |
| `RepositoryTheorems.SlotOwnership` | services/scaffolder/src/Scaffolder.Infrastructure/Persistence/DynamoDbRepositoryRecordStore.cs:31-107 | in every run a claimed slot keeps its request for ever and its record is its own, created exactly if it holds a repository whose full name matches up to case |
| `RepositoryTheorems.ForeignWritesFail` | services/scaffolder/src/Scaffolder.Infrastructure/Persistence/DynamoDbRepositoryRecordStore.cs:41-107 | a claim or save by any other request leaves the inventory unchanged, and without a fault is a conflict |
| `RepositoryTheorems.StepKeepsAdoption` | services/scaffolder/src/Scaffolder.Application/CreateRepository/CreateRepositoryUseCase.cs:67-91 | for each name, every step but an outsider creating it keeps: its hosted repository was made by a delivery that had claimed its slot, adoptions of it are rightful |
| `RepositoryTheorems.FindAdopts` | services/scaffolder/src/Scaffolder.Application/CreateRepository/CreateRepositoryUseCase.cs:72-91 | a find adopts only what another delivery of its own request made |
| `RepositoryTheorems.StepKeepsAgreement` | services/scaffolder/src/Scaffolder.Application/CreateRepository/CreateRepositoryUseCase.cs:67-93 | for each name, every step but its removal keeps: what a delivery holds is what the host has, and what it did not adopt it made |
| `RepositoryTheorems.StepKeepsSerial` | services/scaffolder/src/Scaffolder.Application/CreateRepository/CreateRepositoryUseCase.cs:55-93 | for each name, every serial step but an outsider's or a removal keeps: a delivery that claimed first finds its name free on the host |
| `RepositoryTheorems.FirstClaimIsFree` | services/scaffolder/src/Scaffolder.Infrastructure/Persistence/DynamoDbRepositoryRecordStore.cs:51-56 | while a slot is unclaimed nobody has made its repository |
| `RepositoryLimits.OverlapConflictsWithItself` | services/scaffolder/src/Scaffolder.Application/CreateRepository/CreateRepositoryUseCase.cs:72 | for every acceptable command a run of two overlapping deliveries exists whose first claimer reports a conflict although its request owns the slot |
| `RepositoryLimits.OutsiderIsAdoptedLater` | services/scaffolder/src/Scaffolder.Application/CreateRepository/CreateRepositoryUseCase.cs:55-91 | for every acceptable command a run exists in which a repository made by an outsider is reported as a conflict and then adopted by a later delivery, the claim never having been released |
| `RepositoryLimits.RedeliveryForgets` | services/scaffolder/src/Scaffolder.Infrastructure/Persistence/DynamoDbRepositoryRecordStore.cs:36-41 | for every acceptable command a run exists whose redelivery dies after its claim and leaves the inventory without the repository that had been saved, although the host still has it |
| `RepositoryTheorems.CreatedIsRewoundIff` | services/scaffolder/src/Scaffolder.Infrastructure/Persistence/DynamoDbRepositoryRecordStore.cs:36-41 | in every run a created record goes back to a bare claim exactly at a claim that takes effect by a delivery of the very request that owns the slot |
| `RepositoryTheorems.FindReturnsWhatWasMade` | services/scaffolder/src/Scaffolder.Infrastructure/GitHub/OctokitRepositoryHost.cs:59-74 | in every run a clean find under a name returns the very repository that a create had made there, whatever the case of the name and even if that create reported a fault, unless the host removed it |
| `RepositoryProtocol.StepKeepsInv` | services/scaffolder/src/Scaffolder.Infrastructure/Persistence/DynamoDbRepositoryRecordStore.cs:31-107 | every step, outsiders' and removals included, keeps the deliveries' claims theirs and the records consistent and under their own slots |
| `RepositoryProtocol.StepKeepsOwners` | services/scaffolder/src/Scaffolder.Infrastructure/Persistence/DynamoDbRepositoryRecordStore.cs:41-107 | no step lets a claimed slot change hands, from any state at all |
| `CreateRepositoryUseCase.UseCase.ExecuteAsync` | services/scaffolder/src/Scaffolder.Application/CreateRepository/CreateRepositoryUseCase.cs:37-109 | one execution, imperatively, over the table and the host: without a fault, exactly which of success, conflict and rejection it ends in, with which repository, record and host; for every combination of faults, the effects and the outcome of one delivery of the protocol running alone |
| `CreateRepositoryUseCase.CleanDriveComes` | services/scaffolder/src/Scaffolder.Application/CreateRepository/CreateRepositoryUseCase.cs:37-109 | those outcomes of a fault-free delivery running alone, from every inventory and host |
| `CreateRepositoryUseCase.UseCase.CreateOrAdopt` | services/scaffolder/src/Scaffolder.Application/CreateRepository/CreateRepositoryUseCase.cs:67-91 | the part from the create on: only a delivery whose claim was a replay goes on to adopt |
| `CreateRepositoryUseCase.UseCase.Adopt` | services/scaffolder/src/Scaffolder.Application/CreateRepository/CreateRepositoryUseCase.cs:72-91 | the part that looks for the repository the host refused to create |
| `CreateRepositoryUseCase.UseCase.Finish` | services/scaffolder/src/Scaffolder.Application/CreateRepository/CreateRepositoryUseCase.cs:93-108 | the part that marks the claim created and saves it |
| `CreateRepositoryUseCase.DriveIsPlay` | services/scaffolder/src/Scaffolder.Application/CreateRepository/CreateRepositoryUseCase.cs:37-109 | running alone is playing a sequence of enabled protocol steps |
| `CreateRepositoryUseCase.DriveExtendsRun` | services/scaffolder/src/Scaffolder.Application/CreateRepository/CreateRepositoryUseCase.cs:37-109 | so an execution at the end of any run makes it a longer run, and every theorem about runs covers it |
| `RepositoryProtocol.PlaysFollows` | services/scaffolder/src/Scaffolder.Application/CreateRepository/CreateRepositoryUseCase.cs:37-109 | actions that can be played pass through a sequence of worlds as runs do |
| `CreateRepositoryUseCase.RepositoryHost.CreateAsync` | services/scaffolder/src/Scaffolder.Infrastructure/GitHub/OctokitRepositoryHost.cs:23-57 | the host's new state and reply, names compared without regard to case |
| `RecordStore.DynamoDbRepositoryRecordStore.ClaimAsync` | services/scaffolder/src/Scaffolder.Infrastructure/Persistence/DynamoDbRepositoryRecordStore.cs:25-70 | the new inventory, exactly when the claim is created, already held or refused, and that the item lands under its own key and nothing else is written |
| `RecordStore.DynamoDbRepositoryRecordStore.SaveCreatedAsync` | services/scaffolder/src/Scaffolder.Infrastructure/Persistence/DynamoDbRepositoryRecordStore.cs:72-108 | the new inventory, exactly when the save succeeds, conflicts or is rejected before the write, and that the item lands under its own key |
| `RecordStore.ToItem` | services/scaffolder/src/Scaffolder.Infrastructure/Persistence/DynamoDbRepositoryRecordStore.cs:110-143 | the item carries its own key, the request that its conditions compare, and the host's identifier exactly if it has a hosted repository; of a consistent record it then says created |
| `RecordStore.ItemIsKeyed` | services/scaffolder/src/Scaffolder.Infrastructure/Persistence/DynamoDbRepositoryRecordStore.cs:114-128 | the item's key is REPO# with the full name, and META, and it is indexed by its template |
| `RecordStore.SameKeyIff` | services/scaffolder/src/Scaffolder.Infrastructure/Persistence/DynamoDbRepositoryRecordStore.cs:114-115 | two records share a key exactly if their full names are the same, under one owner exactly if their names are |
| `RecordStore.ItemTellsRecord` | services/scaffolder/src/Scaffolder.Infrastructure/Persistence/DynamoDbRepositoryRecordStore.cs:110-143 | owner, name, request, template, status, time and the four fields of the hosted repository can be read back from the attributes named for them |
| `RepositoryRecord.FoldIsInjectiveOnNames` | services/scaffolder/src/Scaffolder.Domain/Model/RepositoryRecord.cs:76-88 | ignoring case confuses no two valid names under one owner |
| `RepositoryRecord.FoldIff` | services/scaffolder/src/Scaffolder.Domain/Model/RepositoryRecord.cs:76-88 | two names are the same ignoring case exactly if they differ in nothing but the case of ASCII letters |
| `TokenCache.ReturnedClientsLast` | services/scaffolder/src/Scaffolder.Infrastructure/GitHub/GitHubAppClientFactory.cs:51-86 | in every interleaving of field accesses, a returned client's own token outlives the clock value its call last read by more than the renewal margin |
| `TokenCache.MintsAreLicensed` | services/scaffolder/src/Scaffolder.Infrastructure/GitHub/GitHubAppClientFactory.cs:60-72 | each mint after the first was licensed by a clock reading no earlier than the previous expiry minus the margin, and its token lasts longer |
| `TokenCache.OneMinter` | services/scaffolder/src/Scaffolder.Infrastructure/GitHub/GitHubAppClientFactory.cs:58-85 | at most one call is inside the gate |
| `TokenCache.StepKeepsInv` | services/scaffolder/src/Scaffolder.Infrastructure/GitHub/GitHubAppClientFactory.cs:51-86 | every step keeps: the expiry field never runs ahead of the client field and agrees with it except between the two writes, which is what the fast path relies on |
| `GitHubAppClientFactory.Factory.GetClientAsync` | services/scaffolder/src/Scaffolder.Infrastructure/GitHub/GitHubAppClientFactory.cs:51-86 | one call, imperatively: it answers with the cached client exactly as long as that is usable for five more minutes at either reading, and otherwise with a new one if minting works, leaving both fields so; as one protocol call running alone; and the gate is released even if minting throws |
| `GitHubAppClientFactory.DriveExtendsRun` | services/scaffolder/src/Scaffolder.Infrastructure/GitHub/GitHubAppClientFactory.cs:51-86 | a call that runs alone at the end of any run makes it a longer run, so every theorem about runs covers it |
| `NameReservation.ExclusiveWindow` | services/scaffolder/src/Scaffolder.Infrastructure/Persistence/DynamoDbNameReservationStore.cs:28-66 | with deliveries of a request one after another, after a request takes a name with a clock reading of t no other takes it before the whole second of t plus the time to live |
| `NameWindow.ExposedIff` | services/scaffolder/src/Scaffolder.Infrastructure/Persistence/DynamoDbNameReservationStore.cs:36-40 | in any run, overlaps included: right after a request takes a name, the run can go on to another request taking it inside the window exactly if another delivery of the holder has read the clock for an earlier second and is yet to write |
| `NameWindow.BreakableIff` | services/scaffolder/src/Scaffolder.Infrastructure/Persistence/DynamoDbNameReservationStore.cs:36-40 | the same for every world and every clock reading up to then: exactly if the holder is not stored to the end of the window, or such a delivery is yet to write |
| `NameWindow.OverlapBreaksTheWindow` | services/scaffolder/src/Scaffolder.Application/ReserveName/ReserveNameUseCase.cs:25-32 | it happens: for every valid name and every two requests, a run of two overlapping deliveries of the first in which the second takes the name a whole second before the first one's window ends |
| `NameReservation.OnlyStaleReplaysBreakTheWindow` | services/scaffolder/src/Scaffolder.Infrastructure/Persistence/DynamoDbNameReservationStore.cs:36-40 | in any run, overlaps included, a name changes hands inside the window only if its holder meanwhile replayed with a clock reading whose window ends in an earlier second |
| `NameReservation.ReplayBreaksIff` | services/scaffolder/src/Scaffolder.Infrastructure/Persistence/DynamoDbNameReservationStore.cs:36-53 | a replay takes away its own holder's guard exactly if it is such a one |
| `NameReservation.ReplayNeverShortens` | services/scaffolder/src/Scaffolder.Infrastructure/Persistence/DynamoDbNameReservationStore.cs:36-53 | with deliveries one after another a replay by the holder never brings the stored expiry forward |
| `NameReservation.ReplayShortensIff` | services/scaffolder/src/Scaffolder.Infrastructure/Persistence/DynamoDbNameReservationStore.cs:36-40 | in any run it does exactly if the window of its own clock reading ends in an earlier second than that of the stored one |
| `NameReservation.StaleReplayShortens` | services/scaffolder/src/Scaffolder.Application/ReserveName/ReserveNameUseCase.cs:25-32 | two overlapping deliveries of one request that bring the expiry forward, for every valid name |
| `NameReservation.ReportIsWithinASecond` | services/scaffolder/src/Scaffolder.Application/ReserveName/ReserveNameUseCase.cs:41-45 | what the caller is told exceeds what is stored by less than a second, and a replay is reported as one |
| `NameReservation.ToItem` | services/scaffolder/src/Scaffolder.Infrastructure/Persistence/DynamoDbNameReservationStore.cs:77-78 | the stored second is the whole second the window ends in |
| `NameReservation.StepKeepsGuard` | services/scaffolder/src/Scaffolder.Infrastructure/Persistence/DynamoDbNameReservationStore.cs:36-53 | no step but a stale replay ends a holder's window early |
| `NameReservation.StepKeepsInTurn` | services/scaffolder/src/Scaffolder.Application/ReserveName/ReserveNameUseCase.cs:26-32 | serial steps keep at most one delivery of a request between its clock reading and its write, never behind what is stored |
| `NameReservation.DynamoDbNameReservationStore.ReserveAsync` | services/scaffolder/src/Scaffolder.Infrastructure/Persistence/DynamoDbNameReservationStore.cs:22-66 | the conditional write: a free name and one held by the request are reserved, with the item written, one held by another is a conflict and stays |
| `NameReservation.Execute` | services/scaffolder/src/Scaffolder.Application/ReserveName/ReserveNameUseCase.cs:19-46 | the use case, error paths included: invalid name, rejected arguments, conflict, fault; and what a success reports and leaves |
| `ApplicationName.RulesAgree` | services/api/internal/adapters/inbound/http/validation.go:64-92 | Go accepts a string exactly if C# parses it to itself and exactly if it is 3 to 40 characters of the plain rule; whatever C# parses Go accepts |
| `ApplicationName.ParseIsRule` | services/scaffolder/src/Scaffolder.Domain/ValueObjects/ApplicationName.cs:21-46 | C# parses a string to exactly its trimmed form, exactly if that is valid by the plain rule |
| `ApplicationName.ParseFails` | services/scaffolder/src/Scaffolder.Domain/ValueObjects/ApplicationName.cs:21-46 | and otherwise exactly which of the three errors it raises |
| `ApplicationName.TrimIsStripped` | services/scaffolder/src/Scaffolder.Domain/ValueObjects/ApplicationName.cs:28 | trimming takes the white space off both ends and nothing else |
| `ApplicationName.PatternsDifferOnSingleLetters` | services/scaffolder/src/Scaffolder.Domain/ValueObjects/ApplicationName.cs:65 | without the length bound, on strings without a newline, the two patterns differ exactly on single lowercase letters |
| `ApplicationName.GoPattern` | services/api/internal/adapters/inbound/http/validation.go:64 | the Go pattern matches exactly the strings of the plain rule |
| `ApplicationName.NetPattern` | services/scaffolder/src/Scaffolder.Domain/ValueObjects/ApplicationName.cs:65-66 | the C# pattern, lookahead included, matches exactly those of at least two characters, up to one final newline |
| `ApplicationName.GoLoop` | services/api/internal/adapters/inbound/http/validation.go:64 | what the Go pattern's starred group matches between any two positions |
| `ApplicationName.NetLoop` | services/scaffolder/src/Scaffolder.Domain/ValueObjects/ApplicationName.cs:65 | what the C# pattern's starred group with lookahead matches between any two positions |
| `TaskQueueWorker.HandleObeys` | services/scaffolder/src/Scaffolder.Worker/TaskQueueWorker.cs:107-230 | whatever the awaits of one delivery do: deletions follow an accepted outcome for the same token, no token means no call at all, exactly when two callbacks are attempted, and exactly when an exception leaves the handler |
| `TaskQueueWorker.HandleReports` | services/scaffolder/src/Scaffolder.Worker/TaskQueueWorker.cs:136-227 | exactly the calls a delivery makes: the output reported, then the deletion; after a domain exception, an unknown task or a malformed payload the failure reported under its name, then the deletion; after any other exception nothing more; and without a token nothing at all |
| `TaskQueueWorker.SuccessIsReported` | services/scaffolder/src/Scaffolder.Worker/TaskQueueWorker.cs:136-144 | so a task that returns, every call completing, is reported with its output and its message deleted, and nothing else |
| `TaskQueueWorker.RunEnds` | services/scaffolder/src/Scaffolder.Worker/TaskQueueWorker.cs:61-101 | a run goes on exactly as long as the worker gets past every receive, and halts exactly at a stop signal |
| `TaskQueueWorker.QueueFaultIsPassedOver` | services/scaffolder/src/Scaffolder.Worker/TaskQueueWorker.cs:84-91 | a queue fault changes nothing in a run |
| `TaskQueueWorker.RunObeys` | services/scaffolder/src/Scaffolder.Worker/TaskQueueWorker.cs:47-105 | every delivery of every run is one received message handled by that rule, with at most one callback as long as the success report and deletion throw nothing the worker takes for the task's own |
| `TaskQueueWorker.RunInOrder` | services/scaffolder/src/Scaffolder.Worker/TaskQueueWorker.cs:61-102 | a run handles the received messages in order, leaving none out, until it is stopped or an exception escapes, and which exception can |
| `TaskQueueWorker.Worker.ExecuteAsync` | services/scaffolder/src/Scaffolder.Worker/TaskQueueWorker.cs:47-105 | the polling loop, imperatively, over any sequence of receives: the deliveries made and how it ended |
| `TaskQueueWorker.Worker.HandleBatch` | services/scaffolder/src/Scaffolder.Worker/TaskQueueWorker.cs:93-101 | the loop over one batch |
| `TaskQueueWorker.Worker.HandleAsync` | services/scaffolder/src/Scaffolder.Worker/TaskQueueWorker.cs:107-177 | one delivery, imperatively: its calls in order and what escapes, in terms of the message and of what its awaits do alone: the output reported first and the message deleted after it, a caught exception reported under its own name |
| `TaskQueueWorker.Worker.RunTask` | services/scaffolder/src/Scaffolder.Worker/TaskQueueWorker.cs:136-176 | the task, its report and the handlers around them, with the same verdict on its calls |
| `TaskQueueWorker.Worker.SendFailure` | services/scaffolder/src/Scaffolder.Worker/TaskQueueWorker.cs:179-227 | the error is reported whole or as its first 256 characters; a deletion comes last and only if that report was accepted; only the deletion's own fault escapes |
| `TaskQueueWorker.ReportIsCaught` | services/scaffolder/src/Scaffolder.Worker/TaskQueueWorker.cs:148-163 | those properties leave one possible handling of a caught exception |
| `TaskQueueWorker.Worker.ResolveQueueUrl` | services/scaffolder/src/Scaffolder.Worker/TaskQueueWorker.cs:238-264 | the first attempt that works decides; none working means the worker was stopped |
| `Redelivery.BoundedHandlerCalls` | infra/modules/aws/sqs/main.tf:36-39 | in every run n messages cause at most n times the allowed receives of handler calls |
| `Redelivery.StepKeepsInv` | infra/modules/aws/sqs/main.tf:36-39 | every step keeps calls made, copies out and receives left together within what the messages were allowed |
| `Redelivery.StepChangesLeft` | infra/modules/aws/sqs/main.tf:36-39 | the sum of remaining receives falls by one with each delivery and is otherwise only raised by a new message |
| `Redelivery.MovesAreBounded` | infra/modules/aws/sqs/main.tf:36-39 | in every run the queue moves a message at most twice per allowed receive and once more |
| `Redelivery.RestIsDeletedOrDeadLettered` | services/scaffolder/src/Scaffolder.Worker/TaskQueueWorker.cs:22-30 | a message the queue can move no more is deleted or dead-lettered, and exactly then; without a token it is dead-lettered |
| `Redelivery.UndeletedEndsDeadLettered` | infra/modules/aws/sqs/main.tf:36-39 | receiving and letting lapse an undeleted message uses up its receives and puts it aside, all others untouched |
| `Redelivery.PoisonIsNeverDeleted` | services/scaffolder/src/Scaffolder.Worker/TaskQueueWorker.cs:115-127 | in every run a message that yields no token is not deleted, and handling it touches no message |
| `Redelivery.ReportedIsDeleted` | services/scaffolder/src/Scaffolder.Worker/TaskQueueWorker.cs:136-230 | handling a message whose outcome is reported, the calls completing, deletes it |
| `Redelivery.GoneStays` | services/scaffolder/src/Scaffolder.Worker/TaskQueueWorker.cs:229-230 | and in every run it stays deleted and is never received again |
| `Redelivery.MessagesAreKept` | services/scaffolder/src/Scaffolder.Worker/TaskQueueWorker.cs:229-230 | no step loses a message, and only a deletion in the handling of its own copy removes it |
| `ConfigSplit.SplitString` | services/api/internal/config/config.go:222-239 | the loop that reassigns its own index ends, and cuts at the leftmost occurrence each time; an empty separator leaves the string whole |
| `ConfigSplit.JoinUndoesSplit` | services/api/internal/config/config.go:222-239 | joining the pieces with the separator gives the string back |
| `ConfigSplit.PiecesAvoidSeparator` | services/api/internal/config/config.go:222-239 | no piece contains the separator, and each but the last runs up to its first occurrence |
| `ConfigSplit.SplitAndTrim` | services/api/internal/config/config.go:211-220 | keeps in order exactly the pieces that are not blank, trimmed |
| `ConfigSplit.KeptInOrder` | services/api/internal/config/config.go:211-220 | what is kept are the trimmed forms of exactly the pieces that trim to something, in their order |
| `ConfigSplit.TrimSpace` | services/api/internal/config/config.go:242-252 | the two loops take away all leading and trailing spaces, tabs and line ends |
| `ConfigSplit.TrimStripsBlanks` | services/api/internal/config/config.go:242-252 | what they take away is one of the four at every place |
| `ConfigSplit.TrimIsInside` | services/api/internal/config/config.go:242-252 | what is left starts and ends with none of the four |
| `ConfigSplit.SplitBrokers` | services/provisioner/cmd/consumer/main.go:140-148 | the provisioner's splitter keeps in order the pieces that are not blank to the standard library |
| `ConfigSplit.SplittersAgree` | services/provisioner/cmd/consumer/main.go:139-148 | the two splitters agree on a string exactly if no piece, trimmed of the four, still starts or ends with another kind of space |
| `ConfigSplit.SplittersAgreeOnPlainSpaces` | services/api/internal/config/config.go:211-252 | so they agree on every string whose only spaces are the four |
| `ConsumeLoops.Consumer.RunSqs` | services/provisioner/internal/consumer/sqs.go:29-100 | over any receives the messages dispatched are those received, in order, each understood one is deleted at once after its dispatch and no other is, processed counts the deletions that succeed, and at every loop boundary received is processed plus failed |
| `ConsumeLoops.Consumer.HandleBatch` | services/provisioner/internal/consumer/sqs.go:50-97 | within a batch the gap between received and counted is exactly the messages not yet handled |
| `ConsumeLoops.Consumer.HandleSqs` | services/provisioner/internal/consumer/sqs.go:61-96 | one message: dispatched, deleted exactly if understood, and counted |
| `ConsumeLoops.Consumer.RunKafka` | services/provisioner/internal/consumer/kafka.go:40-76 | over any fetches every message is dispatched in order and committed at once after its dispatch, exactly once, processed counts the commits that succeed, and received is processed plus failed |
| `ConsumeLoops.Consumer.HandleKafka` | services/provisioner/internal/consumer/kafka.go:50-75 | one message: dispatched, committed and counted |
| `ConsumeLoops.SqsDeletesOnlyAccepted` | services/provisioner/internal/consumer/sqs.go:64-87 | SQS deletes only the message Dispatch has just accepted |
| `ConsumeLoops.KafkaCommitsOnlyDispatched` | services/provisioner/internal/consumer/kafka.go:62-67 | Kafka commits only the message it has just given to Dispatch |
| `ConsumeLoops.EventsCallFor` | services/provisioner/internal/consumer/sqs.go:50-97 | for any messages the calls of either loop: all dispatched in order, each acknowledgement due right after its dispatch and none other, and how many are processed |
| `ConsumeLoops.Parse` | services/provisioner/internal/provision/request.go:107-131 | a request is understood exactly if it decodes and the three fields hold more than white space, and otherwise which of them are named missing |
| `ConsumeLoops.Dispatch` | services/provisioner/internal/consumer/dispatch.go:23-40 | and Dispatch accepts exactly those |
| `ConsumeLoops.LoopsClassifyAlike` | services/provisioner/internal/consumer/dispatch.go:23-40 | the loops count a message alike exactly if it is understood or its acknowledgement fails |
| `ConsumeLoops.LoopsCountAlike` | services/provisioner/internal/consumer/kafka.go:62-74 | over any messages Kafka counts at least as many as processed, and as many exactly if all are counted alike |

## Left out

- Redis eviction, restarts and client retries; a remote call that takes effect only after its caller has gone on; clocks of API replicas that differ from Redis's; a time to live that is not positive or not whole milliseconds.
- SHA-256, UUID parsing, reading the request body and cancelling a request context: a valid key, the body's hash and each command's fault are inputs.
- JSON decoding in general: a stored envelope is read back as it was written. Header values that are not valid UTF-8 would not be.
- The order in which a JSON encoder lists headers is any; names and values are the encoder's strings.
- net/http itself, beyond which statuses, headers and bytes it sends: the headers of informational statuses, invalid status codes, short writes, connection upgrades.
- Messages and request identifiers inside error responses: an error is its status and its code, encoded in any way.
- Interleaving on the imperative objects: `Serve`, `ExecuteAsync` and `GetClientAsync` are proved for one participant at a time, interleaving on the protocols they refine.
- IdempotencyTheorems.MutualExclusion: leaves out robbed keys, because for those it is false; `ExclusionLostIff` proves both directions and `ExclusionReturns` says when it is true again.
- IdempotencyTheorems.CacheAgreement: leaves out replays made while the key is robbed, because for those it is false; `AgreementLostIff` proves both directions.
- IdempotencyTheorems.HashBinding: leaves out reservations made while somebody on the key is about to store under another hash, because for those it is false; `HashBindingLostIff` and `RecordHashLostIff` prove both directions.
- IdempotencyTheorems.CompletionIsImmutable: leaves out completions not at rest, because for those it is false; `CompletionRestsIff` says which they are.
- IdempotencyRestart.NoRerunWithinTtl: leaves out completions that somebody can still come to free, because for those it is false; `EarlyRestartIff` proves both directions.
- NameReservation.ExclusiveWindow: assumes deliveries of a request one after another, because overlapping ones make it false, as `OverlapBreaksTheWindow` shows; `ExposedIff` proves both directions for all runs.
- TaskQueueWorker.RunObeys: at most one callback is stated under the condition on AWS exceptions, because without it two are possible; `HandleObeys` says exactly when.
- ConsumeLoops.LoopsClassifyAlike: the loops do not classify messages alike that decode but miss a field; the lemma gives the exact condition.
- Redirected or renamed repositories, repositories under several owners, and case folding beyond ASCII letters; the blueprint's description, visibility and initial commit.
- Octokit, the AWS SDK, the signed request, the private key and its caching: a remote call's reply, a minted token's expiry and exceptions are inputs.
- Tearing and underflow of the expiry field, and weaker memory models: times are integers counted from the smallest one, and accesses are sequentially consistent.
- A `GetClientAsync` call cancelled while it waits for the gate is a step of the protocol (`Break`), not of the class.
- Retention expiry of queues, receipt handles that expire, and the delays between retries.
- The failure report's cause text, the task dispatcher and the tasks themselves.
- Stop signals are points in the input (a stopped receive, a message before which the worker is stopped); an exception that a stop signal causes is one of the exceptions an await may throw.
- Confirmed and released reservations, rehydrating records, and value objects other than the application name.
- Lone surrogates and invalid UTF-8 in names, lists and error codes.
- Telemetry, logging, authentication, request validation beyond the name, request splitting into halves, Terraform and Kubernetes files other than the redrive policy.
