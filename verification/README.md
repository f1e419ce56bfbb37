# Verified model of axiler-fin's stateful engines

axiler-fin is a multi-tenant financial platform made of small HTTP services. This project
models the four engines in it that keep state, and proves what they guarantee over whole
runs: the per-tenant token bucket, the abuse detector's request histories, transfers between
accounts, and the edge middleware that composes the first two.

| file | what it holds |
|---|---|
| `RateLimit.dfy`, `RateLimitProofs.dfy` | the token bucket as a class and as a value, runs over all tenants, and its theorems |
| `LimiterStatus.dfy` | what `GetStatus` and `SetLimit` mean over whole runs |
| `RateLimitLimits.dfy` | where the bucket departs from its documentation, and exactly when it does not |
| `RequestHistory.dfy`, `AbuseDetector.dfy` | request histories as values; the detector and its records as classes updated in place |
| `DetectReport.dfy` | when `Detect` reports, how severe and why, from the request, the body and the stored lists alone |
| `RequestLog.dfy`, `Signals.dfy` | the pruned histories against the complete event log; the aggregated signal and the body scan |
| `Admission.dfy` | how many requests of a source are let through when handlers overlap |
| `Locks.dfy` | the two lock levels of the detector: mutual exclusion, no deadlock, every run ends |
| `Accounts.dfy`, `Decimal.dfy` | account generation, account IDs, the database, per-tenant totals |
| `Transfer.dfy`, `TransferSteps.dfy`, `TransferRuns.dfy` | one transfer; any number interleaved by micro-steps; whole runs |
| `Edge.dfy`, `EdgeProofs.dfy`, `EdgeAdmission.dfy` | the middleware and what its composition of limiter and detector guarantees |
| `EdgeRuns.dfy` | whole runs seen from the backend and from the limiter; refused requests leave no trace |
| `EdgeOverlap.dfy` | the middleware with any number of requests in flight, one check at a time |
| `Common.dfy` | options, minimum and maximum, sums over lists |

`dafny verify dfyconfig.toml` checks everything.

## How the model is built

The limiter, the detector with its records, the database, the transfer handler and the
middleware are classes whose methods follow the Go bodies, loops included. Each method is proved
against a function on values (`AfterAllow`, `Track`, `Clean`, `DetectSignal`, `Moved`, `Served`,
...), and the theorems are about those functions: over runs, against independent definitions
such as "room in every window", "the complete log" or "the run without the other tenants".

Assumptions. Tokens, seconds and money are exact reals where the code has float64 and
`time.Time`. Each clock reading is a parameter; a call that reads the clock several times takes
several readings, and a theorem that needs the readings in order says so. Limiter operations are
atomic because each one runs wholly under the mutex. In `EdgeOverlap` each check is one atomic
step, and what the checks other than the bot check say is any function of what they see;
`SetupIsDetector` gives the detector's own. In `RequestLog`, `Admission` and `EdgeOverlap` a
cleanup is atomic with respect to one fetch-and-use of a history; in `Locks` it is not. Single
reads and writes of a balance are atomic. What JSON decoding, token validation and the pattern
matchers report is an arbitrary input: in particular the three body patterns are arbitrary
predicates, since the command-injection pattern as written (cmd/edge-service/abuse.go:77) has an
empty alternative and matches every body.

## Where the code differs from its documentation

* "Requests per minute" is a refill rate, not a cap: the most a half-open minute can admit under
  a limit L from 1 up is 2 * L - 1, and every limit reaches it (`MinuteCap`, `BusyMinute`). The
  documented cap holds exactly for L = 0 and L = 1 (`LimitIsMinuteCapOnlyUpToOne`); as shipped,
  1999, 999 and 499 requests can pass in a minute (`ShippedMinutes`).
* `GetStatus` can report "requests allowed" for a call that is then denied, exactly when the
  limit was lowered below 1 (`StatusHonoured`), which every shipped tenant can meet (`StatusCanBreak`).
* A denied call leaves no trace while the limit stays fixed (`DeniedCallInvisible`). Across a
  change of limit it does so exactly when the new limit admits nothing, or the tenant was seen
  before and either the limit is in fact unchanged or no time has passed since its last call
  (`DeniedCallTrace`, `DeniedCallInvisibleIff`, with the trace `DeniedCallNoticed`).
* The payload check says it preserves the body for the handler; it keeps the scanned prefix
  only, so a body survives exactly when it fits (`BodySurvivesScanWhenShort`). The middleware
  hands on the bytes first read nevertheless.
* The method check counts the raw list. It is wrong about the last minute exactly when the sixth
  last request is older than a minute and still stored (`MethodCheckWrongIff`); a cleanup changes
  its answer exactly when that request is stored and at least five minutes old
  (`CleanupChangesAnswerIff`, with the history `CleanupChangesMethodCheck`).
* The size check looks at the declared length only: a body of any size passes it when no length
  is declared (`SizeLimitMeansDeclaredLength`).
* The velocity check reads histories nothing is ever tracked in, and so never fires
  (`VelocityNeverFires`).
* The balance check holds no lock: with k transfers between check and debit a balance can
  drop to -(k - 1) times the amount, and no further (`BoundedOverdraft`, `OverdraftAttained`).

## Model

| member | source | states |
|---|---|---|
| `RateLimit.TenantLimiter.constructor` | pkg/ratelimit/ratelimit.go:18-28 | three tenants with limits 1000, 500, 250, no tokens and no refresh times yet |
| `RateLimit.TenantLimiter.Allow` | pkg/ratelimit/ratelimit.go:31-66 | admits exactly when the tenant is known and its clamped, lazily refilled bucket holds a token; the whole new state of the three maps |
| `RateLimit.TenantLimiter.GetStatus` | pkg/ratelimit/ratelimit.go:69-82 | reports stored limit and tokens, zero for an unknown tenant, without refilling |
| `RateLimit.TenantLimiter.SetLimit` | pkg/ratelimit/ratelimit.go:85-93 | replaces the limit and presets tokens only when there are none |
| `RateLimitProofs.BucketIsTightestWindow` | pkg/ratelimit/ratelimit.go:41-65 | after any run with a fixed limit the stored tokens are the minimum, over all past calls, of what the window since that call still grants |
| `RateLimitProofs.WindowCharacterisation` | pkg/ratelimit/ratelimit.go:41-65 | a call is admitted if and only if every window ending at it has room for one more; any limit, any clock, other tenants interleaved |
| `RateLimitProofs.RateBound` | pkg/ratelimit/ratelimit.go:43-57 | while limits change within 0..M, admissions from call i to call j are at most M + (M/60) times the time between, retroactive refill and preset tokens included |
| `RateLimitProofs.MinuteAdmitsBelowTwiceLimit` | pkg/ratelimit/ratelimit.go:54-63 | fewer than twice the largest limit in any half-open minute |
| `RateLimitLimits.BusyMinute` | pkg/ratelimit/ratelimit.go:41-63 | from any state and any limit L from 1 up, a new tenant's first minute can admit 2 * L - 1 requests |
| `RateLimitLimits.MinuteCap` | pkg/ratelimit/ratelimit.go:11-63 | a number caps every half-open minute of the runs with a fixed limit if and only if it is at least 2 * L - 1 (at least 0 for limits below 1) |
| `RateLimitLimits.LimitIsMinuteCapOnlyUpToOne` | pkg/ratelimit/ratelimit.go:11-63 | the limit caps every half-open minute if and only if it is 0 or 1 |
| `RateLimitLimits.ShippedMinutes` | pkg/ratelimit/ratelimit.go:18-63 | the exact caps of the three shipped tenants: 1999, 999 and 499 |
| `RateLimitProofs.Isolation` | pkg/ratelimit/ratelimit.go:35-92 | a tenant's answers and state are those of the run from which all other tenants' calls are removed |
| `RateLimitProofs.ReachableWellKeyed` | pkg/ratelimit/ratelimit.go:35-92 | in every reachable state keys(last) is within keys(tokens) is within keys(limits), and no limit is ever dropped |
| `RateLimitProofs.StatusHonoured` | pkg/ratelimit/ratelimit.go:43-81 | a status of "requests allowed" is honoured by the tenant's next call if and only if the limit is at least 1 |
| `LimiterStatus.StatusNamesLimit` | pkg/ratelimit/ratelimit.go:69-93 | in every run the status names the limit last set or else the shipped one, no tokens for a tenant never seen, and is positive from one token on |
| `LimiterStatus.TokensAreTightestWindow` | pkg/ratelimit/ratelimit.go:41-82 | under a fixed limit the reported tokens are what the tightest window of the tenant's calls leaves |
| `LimiterStatus.AllowedMeansOneMore` | pkg/ratelimit/ratelimit.go:43-82 | with a limit of at least 1 the status is positive if and only if one more call at the time of the last one would be admitted |
| `LimiterStatus.StatusAfterCall` | pkg/ratelimit/ratelimit.go:31-82 | after one more call the status reports the topped-up bucket less the token taken, whatever limits were set |
| `LimiterStatus.StatusAfterSetLimit` | pkg/ratelimit/ratelimit.go:69-93 | setting a limit reports it, leaves the tokens of a tenant seen before, gives a new one that many, and changes nothing for others |
| `RateLimitProofs.DeniedCallInvisible` | pkg/ratelimit/ratelimit.go:50-65 | deleting a denied call from a trace changes no other answer, for any tenant, while the limit is fixed |
| `RateLimitLimits.StatusCanBreak` | pkg/ratelimit/ratelimit.go:18-93 | from the shipped state every tenant can be told "requests allowed" and be denied at all later times |
| `RateLimitLimits.DeniedCallTrace` | pkg/ratelimit/ratelimit.go:41-93 | after a change of limit all later calls are answered as if a denied call had not been made if and only if the limit is below 1 or unchanged, or no time had passed since the last call |
| `RateLimitLimits.DeniedCallInvisibleIff` | pkg/ratelimit/ratelimit.go:41-93 | the same condition for all continuations of a whole trace over all tenants |
| `RequestHistory.KeepAfter` | cmd/edge-service/abuse.go:510-517 | the pruning loop keeps exactly the entries after the cutoff, in order |
| `RequestHistory.CountAfter` | cmd/edge-service/abuse.go:412-417 | the counting loop counts exactly those entries |
| `AbuseDetector.RequestRecord.Record` | cmd/edge-service/abuse.go:501-517 | appends, counts abuse, keeps the last minute |
| `AbuseDetector.RequestRecord.RecordFailure` | cmd/edge-service/abuse.go:582-595 | appends a failure, keeps and counts the last minute |
| `AbuseDetector.Detector.constructor` | cmd/edge-service/abuse.go:64-79 | no histories and the default thresholds |
| `AbuseDetector.Detector.GetOrCreateHistory` | cmd/edge-service/abuse.go:521-534 | returns the one record of a key, creating an empty one of its own if there is none; nothing else changes |
| `AbuseDetector.Detector.CheckPayloadInjection` | cmd/edge-service/abuse.go:187-232 | first matching pattern of the scanned prefix wins; the prefix is what stays on the request |
| `AbuseDetector.Detector.CheckRateLimit` | cmd/edge-service/abuse.go:235-268 | signal from the last second of the source's stored requests |
| `AbuseDetector.Detector.CheckVelocity` | cmd/edge-service/abuse.go:271-305 | signal from the last minute stored under the velocity key |
| `AbuseDetector.Detector.CheckHttpMethods` | cmd/edge-service/abuse.go:340-364 | signal from the raw length of the stored list |
| `AbuseDetector.Detector.CheckBotPatterns` | cmd/edge-service/abuse.go:398-433 | signal from the last minute of the source's stored requests |
| `AbuseDetector.Detector.TrackRequest` | cmd/edge-service/abuse.go:494-518 | updates exactly the source's history |
| `AbuseDetector.Detector.TrackFailedAuth` | cmd/edge-service/abuse.go:575-596 | updates exactly the source's failures and returns their number |
| `AbuseDetector.Detector.CleanupOldData` | cmd/edge-service/abuse.go:537-572 | trims every history to five minutes and deletes exactly the emptied ones |
| `AbuseDetector.Detector.RunChecks` | cmd/edge-service/abuse.go:83-109 | folds the nine results, each as seen from the state before the call |
| `AbuseDetector.Detector.Detect` | cmd/edge-service/abuse.go:82-115 | the aggregated signal, the tracked request with its abuse flag, and the body left behind |
| `AbuseDetector.CheckStep` | cmd/edge-service/abuse.go:89-109 | no check disturbs what a later check sees; only the payload check changes the body |
| `DetectReport.DetectFires` | cmd/edge-service/abuse.go:82-433 | Detect reports a request if and only if its declared length, one of the string checks, a pattern in the looked-at prefix of its body, or one of the four conditions on the stored lists says so |
| `DetectReport.ShippedDetectFires` | cmd/edge-service/abuse.go:64-433 | the same with the shipped numbers: 10485760 bytes, 100 per second, 1000 per minute |
| `DetectReport.DetectReports` | cmd/edge-service/abuse.go:89-433 | severity is the greatest and the reason the concatenation, in order, over exactly the findings made, each with its own severity and text |
| `DetectReport.BodyAlone` | cmd/edge-service/abuse.go:187-232 | a body alone is rated 9 for SQL, else 8 for XSS, else 9 for a command, and only the first match is named |
| `Signals.AggregateIsFaithful` | cmd/edge-service/abuse.go:101-109 | detected if and only if some check fired; severity is the maximum, reasons and recommendations the concatenation, over the fired checks in order |
| `Signals.SilentIffNoCheckFires` | cmd/edge-service/abuse.go:82-112 | a request is let through if and only if each of the nine checks is silent about it |
| `Signals.SizeLimitMeansDeclaredLength` | cmd/edge-service/abuse.go:82-132 | a declared length over the limit is always reported, first and with severity at least 8; with the other checks silent nothing but the declared length decides |
| `Signals.DetectSeverity` | cmd/edge-service/abuse.go:56-109 | a detection has a severity on the documented scale, a non-detection is the empty signal |
| `Signals.BodySurvivesScanWhenShort` | cmd/edge-service/abuse.go:194-204 | what stays is the scanned prefix; the body is preserved if and only if it fits 10000 bytes and the declared length |
| `RequestLog.StoredIsLogTail` | cmd/edge-service/abuse.go:509-596 | after any run the stored lists are exactly the tails of the complete logs beyond a horizon, despite pruning, deletion and recreation |
| `RequestLog.CleanupKeepsIff` | cmd/edge-service/abuse.go:537-572 | a cleanup keeps a history if and only if a stored request or failure of it is younger than five minutes |
| `RequestLog.OthersKeepHistories` | cmd/edge-service/abuse.go:494-596 | nothing else removes a history, and exactly the fetched one is created |
| `RequestLog.LastRequestIsLastTracked` | cmd/edge-service/abuse.go:501-503 | the stored last request is the last tracked one since the history was created, whatever was pruned |
| `RequestLog.WindowCountIsLogCount` | cmd/edge-service/abuse.go:244-290 | windows of up to a minute over the stored list equal those over the complete log |
| `RequestLog.ChecksSeeTheLog` | cmd/edge-service/abuse.go:244-420 | the rate, velocity and bot checks fire exactly on the complete log's counts; the bot check's list-length guard never matters |
| `RequestLog.FailedAuthCountsTheLog` | cmd/edge-service/abuse.go:582-595 | the returned count is the complete log's count of the last minute |
| `RequestLog.MethodCheckSeesHorizon` | cmd/edge-service/abuse.go:340-364 | the method check fires if and only if the method is unusual and the sixth last request of the complete log lies beyond the pruning horizon |
| `RequestLog.MethodCheckWrongIff` | cmd/edge-service/abuse.go:355 | its answer differs from "more than 5 in the last minute" if and only if that request is older than a minute and beyond the horizon |
| `RequestLog.CleanupChangesAnswerIff` | cmd/edge-service/abuse.go:355-570 | a cleanup changes its answer if and only if that request is beyond the horizon and at least five minutes old |
| `RequestLog.SuspiciousCountsSinceCreation` | cmd/edge-service/abuse.go:505-507 | a surviving history's suspicious count is the number of its detected requests since it was last created |
| `Admission.ConcurrentAdmissionBound` | cmd/edge-service/abuse.go:408-517 | with at most k passed handlers between check and track, any half-open minute lets at most 50 + k requests of a source through |
| `Admission.SequentialAdmissionBound` | cmd/edge-service/abuse.go:408-517 | one request at a time: at most 51 |
| `Admission.AdmissionBoundAttained` | cmd/edge-service/abuse.go:408-517 | for every k some run reaches 50 + k |
| `Admission.DetectIsFlagOrBot` | cmd/edge-service/abuse.go:89-108 | Detect lets a request through exactly when neither the first eight checks nor the bot check fire |
| `Admission.DetectEvents` | cmd/edge-service/abuse.go:82-112 | a Detect call leaves the store that its events leave |
| `Locks.DetectorNeverDeadlocks` | cmd/edge-service/abuse.go:235-596 | any number of Detect, TrackFailedAuth and CleanupOldData calls: until all have returned some thread can step, and all return after boundedly many steps |
| `Locks.NoDeadlock` | cmd/edge-service/abuse.go:238-545 | the same for arbitrary programs of fetch-then-lock and sweep operations |
| `Locks.MutualExclusion` | cmd/edge-service/abuse.go:498-565 | no two threads are ever in the same history's section or both under the map lock |
| `Locks.MapIsGuarded` | cmd/edge-service/abuse.go:521-570 | in every run only the holder of the map lock changes the map, by adding the fetched key or removing a locked history found empty |
| `Locks.DetectProgramMatches` | cmd/edge-service/abuse.go:89-498 | the histories a Detect thread locks are those its nine checks look at, in order, and then the tracked one |
| `Decimal.Padded3Form` | pkg/models/data.go:100-104 | what is printed has digits only, at least three, no leading zero when longer, and reads back as the number |
| `Decimal.IntegerForm` | cmd/edge-service/abuse.go:127 | a printed integer is a minus sign if negative and the digits that read back as its absolute value |
| `Accounts.IdDetermines` | pkg/models/data.go:100-104 | an account ID determines its tenant and number |
| `Accounts.GenerateAccounts` | pkg/models/data.go:69-117 | exactly one fresh account per draw, keyed by its own ID, distinct keys holding distinct objects |
| `Accounts.GeneratedFromDraw` | pkg/models/data.go:81-111 | each account has the drawn tenant, owner, currency and status, 1000 plus the drawn dollars and cents, an age of 1 to 4320 hours, and the ID acc_tenant_number with the count of its tenant's draws so far |
| `Accounts.MadeDistinct` | pkg/models/data.go:81-113 | no two generated accounts share an ID |
| `Accounts.NumbersContiguous` | pkg/models/data.go:75-104 | a tenant's accounts are numbered from 1 without gaps |
| `Accounts.GeneratedInRange` | pkg/models/data.go:82-107 | balances lie in 1000.00 .. 499999.99, numbers do not exceed the tenant's count, tenants are the three known ones |
| `Accounts.SyntheticDatabase.constructor` | pkg/models/models.go:112-122 | one hundred generated accounts |
| `Accounts.SyntheticDatabase.GetAccountsByTenant` | pkg/models/models.go:125-133 | exactly the tenant's accounts, each once; their balances sum to the tenant's total |
| `Accounts.TotalUpdate` | pkg/models/models.go:125-133 | replacing one account shifts the tenant's total by the difference |
| `Transfer.TransferService.HandleTransfer` | cmd/transfer-service/main.go:145-239 | the status in the order of the checks, and the balances afterwards, on shared account objects |
| `Transfer.TransferService.Execute` | cmd/transfer-service/main.go:211-215 | debit then credit, also when both accounts are the same object |
| `Transfer.AnsweredExactlyWhen` | cmd/transfer-service/main.go:167-208 | each answer if and only if: completed exactly when both accounts exist, both are the tenant's and 0 < amount <= balance, also for a transfer to itself |
| `Transfer.MovedExactly` | cmd/transfer-service/main.go:166-215 | one amount leaves one account and enters the other, nothing else changes; a transfer to itself and a refused one change nothing |
| `Transfer.NonInterference` | cmd/transfer-service/main.go:162-215 | in any sequential run a tenant's statuses and balances are those of the run without the other tenants' requests |
| `Transfer.SequentialSafety` | cmd/transfer-service/main.go:190-215 | one at a time, no balance becomes negative and every tenant's total is conserved |
| `TransferSteps.WriterIsAlone` | cmd/transfer-service/main.go:161-215 | in every interleaving at most one handler is between lock and unlock, and no map reader meanwhile |
| `TransferSteps.TransfersFinish` | cmd/transfer-service/main.go:161-215 | in every run some transfer can move until all are answered, and no schedule makes more than ten moves per transfer |
| `TransferSteps.NoLostUpdate` | cmd/transfer-service/main.go:212-215 | at every micro-step every balance is its initial value plus credits minus debits so far |
| `TransferSteps.Conservation` | cmd/transfer-service/main.go:179-215 | at every micro-step each tenant's total plus what is debited and not yet credited equals its initial total |
| `TransferSteps.BoundedOverdraft` | cmd/transfer-service/main.go:199-215 | with at most k debits pending, none above M, a balance never drops below -(k - 1) * M; never negative for k = 1 |
| `TransferRuns.OverdraftAttained` | cmd/transfer-service/main.go:199-215 | for every k and amount some interleaving reaches exactly that balance |
| `TransferRuns.SerialIsSequential` | cmd/transfer-service/main.go:161-215 | scheduled one after the other, the micro-steps give handleTransfer's statuses and balances |
| `TransferRuns.InterleavedNonInterference` | cmd/transfer-service/main.go:161-215 | in every interleaving a tenant's statuses and balances are those of a run in which only its own handlers move |
| `Edge.TenantIsPrefix` | cmd/edge-service/main.go:291-298 | a key made as {tenant}_key_{random} gives its tenant back |
| `Edge.Middleware.ScreenRequest` | cmd/edge-service/main.go:107-161 | body, secret and tenant stages in order, with "unknown" for a missing tenant |
| `Edge.Middleware.InspectAndForward` | cmd/edge-service/main.go:180-209 | abusive requests are blocked with the reasons; others go on with the body as first read, once |
| `Edge.Middleware.ServeHTTP` | cmd/edge-service/main.go:102-223 | outcome and whole new state of limiter, histories and backend |
| `EdgeRuns.ForwardedWhenPassing` | cmd/edge-service/main.go:108-209 | a request is handed on if and only if body, secret, tenant and limiter pass and each single check is silent; then once and whole |
| `EdgeRuns.RefusedExactlyWhen` | cmd/edge-service/main.go:107-178 | each refusal before the detector if and only if: unreadable body, secret, malformed or invalid token, denied by the limiter |
| `EdgeRuns.BlockedExactlyWhen` | cmd/edge-service/main.go:164-209 | an admitted request is blocked if and only if something is wrong with it, its body or the stored lists, with the joined reasons; otherwise it is handed on |
| `EdgeRuns.RefusalTellsStatus` | cmd/edge-service/main.go:164-178 | in every run a rate-limited request is told its tenant's limit and the bucket it found, less than one token, never that requests are allowed |
| `EdgeRuns.LoginTenant` | cmd/edge-service/main.go:135-161 | a login key names its tenant, "unknown" when it names none |
| `EdgeRuns.BackendGetsPassingBodies` | cmd/edge-service/main.go:108-209 | in every run the backend gets exactly the bodies first read of the requests that pass every control, in order |
| `EdgeRuns.LimiterRunsAlone` | cmd/edge-service/main.go:164-178 | the limiter's state in a run is that of a run of its own calls, which the requests alone determine |
| `EdgeRuns.TenantForwardingBound` | cmd/edge-service/main.go:164-209 | over all addresses, no window hands on more requests of a tenant than its limit plus its rate, no half-open minute as many as twice the limit |
| `EdgeRuns.RefusedRequestsInvisible` | cmd/edge-service/main.go:108-178 | deleting from a run every request stopped before the detector changes no other answer, no history and nothing the backend gets |
| `EdgeProofs.KeysAreInjective` | cmd/edge-service/abuse.go:238 | a tenant&#124;ip key determines tenant and address when the tenant has no separator |
| `EdgeProofs.OnlyConfiguredTracked` | cmd/edge-service/main.go:164-181 | in every run stored requests belong to a configured tenant's source |
| `EdgeProofs.VelocityNeverFires` | cmd/edge-service/abuse.go:275-293 | in every run velocity histories are empty and the velocity check is silent |
| `EdgeProofs.HistoryBoundedByLimit` | cmd/edge-service/main.go:164-181 | in every sequential run a source's list never holds more than twice its tenant's limit, because the limiter runs first |
| `EdgeProofs.ConfiguredTenantsArePlain` | pkg/ratelimit/ratelimit.go:20-24 | the shipped tenants meet the naming condition of the edge theorems |
| `EdgeAdmission.ForwardingBound` | cmd/edge-service/main.go:164-209 | no half-open minute of a sequential middleware run forwards more than 51 requests of one source |
| `EdgeOverlap.SerialIsSequential` | cmd/edge-service/main.go:102-223 | with the detector's checks and moved one request after the other, the overlapping middleware is the sequential one |
| `EdgeOverlap.OverlappingForwardingBound` | cmd/edge-service/main.go:164-209 | however requests overlap, with at most k of a source between last check and tracking, at most 50 + k of them are handed on in a half-open minute |
| `EdgeOverlap.OverlappingTenantBound` | cmd/edge-service/main.go:164-209 | however requests overlap, of the requests the limiter saw in a window no more of one tenant are handed on than its limit plus its rate, in a half-open minute fewer than twice the limit |

## Left out

- float64 rounding, NaN, the "%.2f" of the status and the resolution of the clock: numbers are exact.
- JWT handling, RSA keys, JSON decoding, regular expressions and client address extraction: library work; what they report is an input.
- The header, user-agent and path checks: string lists only; each is an arbitrary signal carried by the request.
- The texts of recommendations: they are listed in the check functions and never sent; no theorem is about them.
- MaxFailedAuthPerMinute and GetFingerprint: the detector never uses them.
- HTTP plumbing, reverse proxying, headers, metrics, logging, trace IDs, health and failure toggles, Vault: no state the theorems depend on.
- The search and auth services: a lookup and an equality test over data that never changes.
- Orphaned histories: a cleanup between fetching a history and locking it makes the tracked entry vanish; the log theorems take cleanup as atomic, only the lock theorems do not.
- Lists under overlapping requests: `HistoryBoundedByLimit` is about requests served one at a time; an overlapping request may be tracked long after the limiter admitted it, so the limit does not bound the list.
- `TransferSteps` names accounts by key and holds balances in a map instead of objects; that a key stands for one object is what `GenerateAccounts` guarantees.
- Owner, currency and status of generated accounts: picked from fixed lists of names in the source, any names here.
- Weak memory effects on the unlocked balance read: reads and writes are atomic.
- The Transfers and Ledger fields of the database: never written.
