# SentinelAI in Dafny

This project models the parts of the SentinelAI backend that make promises over every input and every run:
the hash-chained audit log, incident correlation, retry behind a circuit breaker, the sliding-window rate
limiter, the case lifecycle with its approval gate, metering and quotas, and the risk score. `dafny verify
dfyconfig.toml` checks all of it.

| file | models |
|---|---|
| `Basics.dfy` | strings as code points, their sort order, sorted lists |
| `Json.dfy` | the canonical JSON text and a parser that undoes it (RFC 8259, sections 4, 5 and 7) |
| `Audit.dfy` | the audit chain, tampering, the service that records and verifies |
| `Domain.dfy` | the entities shared by the other modules |
| `Risk.dfy` | enrichment, the multiplier and the risk score in exact arithmetic |
| `Correlation.dfy` | first-fit grouping against connected components, the roll-up, incident risk |
| `Resilience.dfy` | the breaker, retry with backoff, the load on a dead dependency |
| `Detecting.dfy` | the detection loop over one shared breaker |
| `RateLimit.dfy` | the sliding window against the full history |
| `Cases.dfy` | planning, rows with header and payload, workflow, approval gate |
| `Metering.dfy` | prices, rollups, the provider total |
| `Quotas.dfy` | quota checks with several runs in flight |
| `Pipeline.dfy` | detection, enrichment, verdict and planning composed into one run |
| `Reporting.dfy` | the first page of cases and the incidents made of it |
| `Backend.dfy` | the routes, one request after another, each committing or rolling back over all tables |
| `Isolation.dfy` | what one tenant sees does not depend on other tenants' requests |
| `Overlap.dfy` | two requests on one case at once: what a commit writes over what others committed |
| `SharedLog.dfy` | the audit table under concurrent sessions |
| `Sessions.dfy` | requests in flight, every step of every session interleaving with the others |
| `SessionBooks.dfy` | the books under concurrency; a session alone is one serial request |
| `SessionCases.dfy` | containment times and dispatches under concurrency |
| `SessionIsolation.dfy` | tenants under concurrency |
| `SessionQuotas.dfy` | the search quota under concurrency |
| `LostUpdates.dfy` | the inputs on which overlapping requests go wrong |

How to read it. Where the program changes state in place there is a class or a loop, and its contract equates
the new state with a function of the old one (`Recorded`, `Retry`, `Served`, `Apply`, `Step`); the theorems are
about those functions. Theorems about runs quantify over every sequence of steps.
Names, numbers and orders that the program fixes (plans, prices, gated actions, the sixty seconds, the sort order, the
hashed text) are stated as such in lemmas of their own, apart from the functions that use them.

Two levels of concurrency. `Cases`, `Audit`, `Backend` and `Isolation` serve requests one after another. `Sessions`
drops that: a request begins (checks, reads its case, calls the executor), for each audit entry reads the last hash and
later places its row, and commits or rolls back, and the steps of any number of sessions interleave in any order.
Committed data only is visible to others, an update writes the columns whose value the request changed, and nothing is
locked between read and commit. `ServedAlone` shows that a session no other step interleaves with is exactly one serial
request. These survive every interleaving: the approval gate (`GateHolds`), the books (`BooksHold`), the exact counts of
executor calls (`CallsExact`), containment times (`StampedIffTransitioned`), metered searches (`SearchesMatchSessions`),
the bill (`BillHolds`), the quota bound (`SessionsWithinQuota`) and that others' steps leave a tenant's view alone
(`OthersLeaveViewAlone`). Header agreement, legal progress and verifying chains do not; `HeadersAgreeIff`, `StepEvolvesIff` and `ChainVerifiesIff` give the exact condition for each, a check that
a commit could make, and `LostUpdates` the failing inputs.

Assumptions, all written as parameters or hypotheses: the hash is injective on texts, never empty, and prints without
surrogate pairs (`GoodHash`; `GoodHashExists` shows such functions exist); audit details are storable dictionaries
(`Storable`); the rate limiter's clock never steps back (`ClockStepBackBreaksTheCap` shows why); new investigation ids
are stored under no tenant, the id alone being the primary key (`FreshId`; `ForeignIdRefusesRun` shows why); an
enrichment provider answers the same question the same way; searches, model answers, connectors, times and month starts
are inputs.

Where the code and its own words differ, the model follows the code:

- `docs/SECURITY.md` says editing or deleting any historical row breaks the chain. Cutting off the tail does not
  (`OnlyPrefixesVerify`, `DeletionDetected`), nor does rewriting a row and recomputing every later hash
  (`RewriteVerifies`); only the last hash then tells.
- `correlate` calls itself union-find, but never merges two existing groups. `ComponentsIffNeverBridging` gives the
  exact condition under which its incidents are the connected components, and `BridgeLeavesGroupsApart` the case
  where they are not.
- The breaker's comment speaks of one trial call when half-open. It lets a whole retry burst through, and the load
  bound counts bursts; `LoadCapAttained` shows the bound is reached.
- `metering.py` says callers shield requests from a metering failure. The routes do not: an exception there rolls the
  request back like any other.
- `execute_action` moves a case to contained without stamping the time. A case carries the time exactly when some
  committed transition moved it there (`StampedIffTransitioned`). For requests served one after another a contained case
  is unstamped exactly when only executions ever contained it (`UnstampedIffOnlyExecuted`); overlapping ones may differ
  (`ExecuteInsideContain`). An approved action reaches the executor once for every execute request (`CallsExact`).
- The repository methods read a row, await, and write the whole payload back without a lock or a version, so a request
  may undo what another committed in between (`AssignInsideApprove`, `ApproveInsideApprove`, `ExecuteInsideApprove`,
  `ResolveInsideContain`), and two records of one tenant may be chained to the same row (`RecordInsideRecord`).
- A pipeline run reports incidents for the first fifty cases only (`Reporting.FirstPage`).

## Model

| member | source | states |
|---|---|---|
| Basics.LessIsDictionaryOrder | backend/app/services/audit.py:39 | the sort order: the first differing code point decides, or the end of the shorter string |
| Json.ReadStringInverts | backend/app/services/audit.py:29-41 | reading an escaped string gives it back with adjacent surrogate pairs joined, for every string of code points |
| Json.EscapeKernel | backend/app/services/audit.py:29-41 | two strings print alike if and only if they are equal after joining surrogate pairs |
| Json.PairedStringsCollide | backend/app/services/audit.py:29-41 | the failing case: a surrogate pair and the character it encodes print the same text |
| Json.ReadValueInverts | backend/app/services/audit.py:29-41 | the parser undoes the printer for every nested value, whatever text follows |
| Json.NormalizeKernel | backend/app/services/audit.py:29-41 | sorting every object by key identifies exactly the values that are equal as dictionaries, at any depth |
| Json.CanonicalRoundTrip | backend/app/services/audit.py:29-41 | the canonical text parses to a value equal to the original as a dictionary, the keys of every object in it strictly ascending by code point |
| Json.CanonicalKernel | backend/app/services/audit.py:29-41 | canonical texts are equal if and only if the values are equal up to the order of entries |
| Json.CanonicalIgnoresInsertionOrder | backend/app/services/audit.py:29-41 | the order in which a dictionary was filled does not change its text |
| Json.LayoutSpelledOut | backend/app/services/audit.py:29-41 | the text layout: literals, quoted strings, bare commas and colons, no blanks |
| Json.EscapeSpelledOut | backend/app/services/audit.py:29-41 | how each code point is written: itself, one of seven short escapes, or lower-case `\u` escapes, a surrogate pair beyond the basic plane |
| Json.EmitAscii | backend/app/services/audit.py:29-42 | every text is printable ASCII, whatever the strings hold |
| Audit.GoodHashExists | backend/app/services/audit.py:42 | a hash with the assumed properties exists, so no theorem is empty |
| Audit.HashKernel | backend/app/services/audit.py:20-42 | two rows hash alike if and only if every hashed field and the previous hash are equal |
| Audit.HashedText | backend/app/services/audit.py:20-42 | the very text hashed for a row: seven named members in the order of their names, each with its own field |
| Audit.HashFixesPast | backend/app/services/audit.py:98-119 | a hash found in two verifying logs stands at the same place in both and all rows up to it agree, by descent to the empty root |
| Audit.SameTipSameLog | backend/app/services/audit.py:98-119 | two verifying logs with the same last hash have the same length and the same rows |
| Audit.OnlyPrefixesVerify | backend/app/services/audit.py:98-119 | rows drawn from an honest chain, dropped, repeated or reordered at will, verify if and only if they are a prefix of it |
| Audit.DeletionDetected | backend/app/services/audit.py:98-119 | deleting one row goes unnoticed if and only if it is the last |
| Audit.EditDetected | backend/app/services/audit.py:98-119 | overwriting one row goes unnoticed only with its old previous hash and a recomputed hash, and, unless it is the last row, with all hashed fields equal |
| Audit.RewriteVerifies | backend/app/services/audit.py:98-119 | rewriting one row and recomputing every later hash verifies; the last hash is the old one exactly when no hashed field changed |
| Audit.RecordExtendsOneChain | backend/app/services/audit.py:49-86 | a record adds one row to its tenant's chain, leaves other tenants' rows alone, and changes no tenant's verdict |
| Audit.InterleavedRecordsVerify | backend/app/services/audit.py:49-119 | after records of any tenants in any order, each completed and committed before the next, every tenant's chain verifies and holds its own fields in order |
| Audit.RacingRecordsBreakTheChain | backend/app/services/audit.py:49-86 | two records that read the same last hash before either appends leave a chain that does not verify |
| Audit.AuditService.Record | backend/app/services/audit.py:59-86 | appends exactly the row chained to the tenant's last hash, an absent detail counting as empty, and keeps every chain intact |
| Audit.AuditService.VerifyChain | backend/app/services/audit.py:98-119 | the loop returns true exactly when every link of the tenant's chain is intact |
| Risk.Enrichment.Boost | backend/app/services/enrichment.py:22-31 | the multiplier lies in [0.95, 1.86875] and carries the 1.25 factor exactly for malicious intelligence |
| Risk.MultiplierExact | backend/app/services/enrichment.py:22-31 | the multiplier entry by entry, by the names of criticalities, verdict and privilege |
| Risk.Enrich | backend/app/services/enrichment.py:79-91 | indicators are the flagged addresses in order; the kept intelligence is that of the last flagged address, else of the first, and malicious exactly when some listed address is |
| Risk.FlaggedIsFilter | backend/app/services/enrichment.py:84-88 | flagged are exactly the addresses answered with a malicious verdict, in order and with repetitions |
| Risk.StoredBoostBounds | backend/app/agents/orchestrator.py:57-63 | the multiplier rounded to three decimals lies in [0.95, 1.869] |
| Risk.Round3Exact | backend/app/agents/orchestrator.py:62 | the stored multiplier is the nearest thousandth, the even one of two equally near |
| Risk.RiskInRange | backend/app/db/repositories.py:339-352 | the score lies in 0..100 for every multiplier that is not negative |
| Risk.TruePositiveReaches | backend/app/db/repositories.py:339-352 | a true positive scores at least n exactly when weight, confidence and multiplier together reach n |
| Risk.FalsePositiveReaches | backend/app/db/repositories.py:339-352 | a false positive scores at least n exactly when a fifth of its weight does |
| Risk.UnjudgedReaches | backend/app/db/repositories.py:339-352 | without a verdict the score reaches n exactly when weight times multiplier does |
| Risk.RiskMonotone | backend/app/db/repositories.py:339-352 | for true positives the score is monotone in severity, confidence and multiplier |
| Risk.FalsePositiveNeverOutscores | backend/app/db/repositories.py:339-352 | at equal severity a false positive never outscores a true positive |
| Correlation.MembersConnected | backend/app/services/correlation.py:31-47 | any two members of an incident are joined by a walk of related investigations that stays inside the incident |
| Correlation.ComponentsIffNeverBridging | backend/app/services/correlation.py:31-47 | incidents are exactly the connected components if and only if any two earlier investigations that an arriving one is related to were connected without it |
| Correlation.BridgeLeavesGroupsApart | backend/app/services/correlation.py:31-47 | the failing case: an investigation related to two unrelated earlier ones leaves them in different incidents |
| Correlation.BridgeExample | backend/app/services/correlation.py:31-47 | such a bridging investigation, under an id of its own, exists for every unrelated pair one of which has indicators |
| Correlation.NoIndicatorsNeverBridge | backend/app/services/correlation.py:31-47 | without indicators nothing bridges, so incidents are exactly the entities |
| Correlation.GroupsPartition | backend/app/services/correlation.py:31-47 | the concatenated groups are a permutation of the input and no group is empty |
| Correlation.KeysMatch | backend/app/services/correlation.py:36-43 | a group's accumulated keys match an investigation exactly when one of its members is related to it |
| Correlation.LabelsShape | backend/app/services/correlation.py:36-47 | each investigation joins the earliest incident with a related member, or opens a new one when there is none |
| Correlation.GroupInvestigations | backend/app/services/correlation.py:31-47 | the grouping loop over mutable key sets computes the first-fit groups, in input order |
| Correlation.RollUp | backend/app/services/correlation.py:50-68 | severity is the maximum over members, entity and title come from the first most severe one, indicators and tactics are the exact unions, strictly ascending by code point |
| Correlation.NamedAfterFirstWorst | backend/app/services/correlation.py:50-66 | an incident takes title, entity and severity from its most severe member, the earliest of several |
| Correlation.Correlate | backend/app/services/correlation.py:29-70 | one incident per group, in order, each summarising exactly its members |
| Correlation.IncidentRiskIsWorstMember | backend/app/api/routes.py:237-241 | with unique ids an incident's risk is the highest score among its own members and one of them has it |
| Resilience.BreakerTracksStreak | backend/app/core/resilience.py:21-47 | after any signals the count is the current failure streak, and the breaker is stamped if and only if the streak reached the threshold, with the last failure's time |
| Resilience.RetryExact | backend/app/core/resilience.py:50-81 | calls made are min(attempts, first stop + 1); sleeps total base * (2^s - 1); the failure count ends at 0, old + retries, or old + attempts |
| Resilience.CallTimesExact | backend/app/core/resilience.py:62-79 | call i comes after all earlier lateness and durations, its own lateness and base * (2^i - 1) of sleep; consecutive calls are at least base * 2^i apart; the clock ends with the last call |
| Resilience.RetryHeard | backend/app/core/resilience.py:40-77 | the breaker hears of every success, and of every retryable failure when its call ends |
| Resilience.RetryStamps | backend/app/core/resilience.py:44-47 | a retried call that fails stamps the breaker with the end of its last failing call, exactly when its failures reach the threshold |
| Resilience.WithRetry | backend/app/core/resilience.py:50-81 | the loop behaves as the specification says: result, clock, call times, sleep and breaker |
| Resilience.OpenBreakerSpacesBursts | backend/app/core/resilience.py:31-47 | once open, every call after the first m bursts comes at least m + 1 reset periods after the stamp |
| Resilience.CeilDivIsCeiling | backend/app/core/resilience.py:31-47 | the number of bursts before the breaker opens is the least whose calls reach the threshold: ceil(T/a) |
| Resilience.LoopIsRetry | backend/app/core/resilience.py:50-81 | the retry loop, pass by pass, does what the specification by the first stop says |
| Resilience.DeadDependencyLoad | backend/app/core/resilience.py:31-81 | a dead dependency is called at most ceil(T/a)*a + a*floor(D/R) times until D after the breaker opened |
| Resilience.LoadCapAttained | backend/app/core/resilience.py:31-81 | that bound is attained: a half-open breaker passes a whole burst in every reset period |
| Detecting.DetectionAddressesExact | backend/app/agents/detection_agent.py:101-109 | a detection lists exactly the source and destination addresses of its events, strictly ascending by code point |
| Detecting.DetectionUsersExact | backend/app/agents/detection_agent.py:110-112 | a detection lists exactly the users of its events, strictly ascending by code point |
| Detecting.CompletedRunDetects | backend/app/agents/detection_agent.py:83-127 | a completed run detects, in rule order, once for each enabled rule whose search was answered within three attempts with at least the minimum of events, and for no other; each detection tells what its rule says and its search found |
| Detecting.SearchSchedule | backend/app/agents/detection_agent.py:93-98 | a search takes up to three attempts with rests of 50 and 100 milliseconds; it is answered exactly when one of them is |
| Detecting.FreshRunNeverShortCircuits | backend/app/agents/detection_agent.py:83-127 | from a clean breaker no search meets an open circuit; the run completes if and only if every enabled rule is answered, with one successful search each, and then detects exactly what `CompletedRunDetects` says |
| Detecting.DetectionAgent.Run | backend/app/agents/detection_agent.py:83-127 | the loop produces the specified detections, search count, failure, clock and breaker; completed, it has made one successful search per enabled rule and detects exactly what `CompletedRunDetects` says |
| RateLimit.ServedByHistory | backend/app/core/middleware.py:72-83 | a request is admitted exactly when the full history holds fewer than `limit` admissions of its client at most 60 seconds old, and the window then equals those admissions |
| RateLimit.RunsFollowHistory | backend/app/core/middleware.py:69-83 | in every run each client's window agrees with the full history |
| RateLimit.AtMostLimitPerWindow | backend/app/core/middleware.py:69-83 | no closed 60-second interval holds more than `limit` admissions of a client, whatever others do |
| RateLimit.ClockStepBackBreaksTheCap | backend/app/core/middleware.py:73-76 | the failing case without a monotone clock: three admissions in a window under a limit of two |
| RateLimit.RateLimiter.Dispatch | backend/app/core/middleware.py:69-83 | one request prunes, decides and appends as specified, and touches no other client's window |
| Cases.Plan | backend/app/agents/response_agent.py:23-39 | false positives plan nothing; otherwise the suggestions but monitor, close_as_fp and manual_review, in order, aimed at the entity, unexecuted, awaiting approval exactly for isolate_host, disable_user, block_ip and kill_process |
| Cases.PlannedExactly | backend/app/agents/response_agent.py:12-39 | the same of every list of suggestions, and nothing else is set on a planned action |
| Cases.Investigate | backend/app/agents/orchestrator.py:50-99 | opening status by verdict, recommended severity, the indicators and the rounded multiplier of the context stored, exactly the planned actions |
| Cases.SaveAgreesIff | backend/app/db/repositories.py:179-205 | a save leaves header and payload in agreement if and only if the assignee column it leaves is the payload's |
| Cases.RunKeeps | backend/app/db/repositories.py:179-315 | after any sequence of requests served one after another, header columns equal what the payload gives, statuses are never new or triaged, executed implies not awaiting approval |
| Cases.GatedActionsAreApprovedFirst | backend/app/db/repositories.py:261-315 | served one after another, isolate_host, disable_user, block_ip and kill_process reach the executor only after an earlier approval of the same tenant, investigation and index |
| Cases.OnlyItsOwnCase | backend/app/db/repositories.py:179-315 | a save, assignment, approval, execution or transition touches no row but the one of its tenant and id |
| Cases.ApprovalEnablesExecution | backend/app/db/repositories.py:261-315 | once approved, an action can be executed: the executor sees its stored type and target, its report is recorded on it, and no other action changes |
| Cases.StepsEvolveRows | backend/app/services/workflow.py:15-40 | for requests served one after another: every status change, also the one inside execute, is an allowed edge; action lists keep length, types and targets; approval and execution are never withdrawn |
| Cases.DispatchesExact | backend/app/db/repositories.py:279-315 | for requests served one after another an action reaches the executor exactly once for each execute request that finds it in range and not awaiting approval |
| Cases.ExecutionRepeats | backend/app/db/repositories.py:279-315 | sending an approved action to the executor n times dispatches it n times, and it may be sent again |
| Cases.OnlyTransitionsStampContainment | backend/app/db/repositories.py:433-437 | for requests served one after another a case carries a containment time if and only if some transition request moved it to contained |
| Cases.UnstampedIffOnlyExecuted | backend/app/db/repositories.py:308-312 | for requests served one after another a contained case lacks its containment time exactly when nothing but executions ever contained it |
| Cases.ExecutionLeavesUnstamped | backend/app/db/repositories.py:308-312 | the failing case: executing an investigating case contains it and leaves the time unset |
| Cases.StampsAreFirstMoves | backend/app/db/repositories.py:433-437 | for requests served one after another the two stamps are the times of the first transition to investigating and of the first to contained |
| Cases.TransitionServedIff | backend/app/services/workflow.py:15-40 | a transition is served exactly along eleven edges between the named statuses |
| Cases.RefusalsExact | backend/app/db/repositories.py:248-439 | which operations are refused and for which reason, exactly; a refused one leaves every row |
| Cases.EffectsExact | backend/app/db/repositories.py:179-439 | what a save, an assignment and a transition leave in their row, and that nothing else changes |
| Cases.StatusRoundTrip | backend/app/db/repositories.py:420-424 | status texts parse back to their statuses |
| Cases.InvestigationRepository.SaveInvestigation | backend/app/db/repositories.py:179-205 | inserts or updates the one row of its key as specified, or fails on an id that another tenant holds |
| Cases.InvestigationRepository.SetAssignee | backend/app/db/repositories.py:248-259 | writes column and payload together, or refuses an unknown case |
| Cases.InvestigationRepository.ApproveAction | backend/app/db/repositories.py:261-277 | clears the approval flag of exactly one action, or refuses |
| Cases.InvestigationRepository.ExecuteAction | backend/app/db/repositories.py:279-315 | refuses, fails or records the executor's report on exactly one approved action, containing an investigating case |
| Cases.InvestigationRepository.TransitionStatus | backend/app/db/repositories.py:404-439 | moves along an allowed edge and stamps first acknowledgement and containment, or refuses |
| Metering.SplittingTokens | backend/app/services/metering.py:55-67 | splitting a token quantity into n events never lowers its price and adds at most n - 1 block prices |
| Metering.PricesExact | backend/app/services/metering.py:28-67 | prices by the names of the kinds: by the unit, tokens by the block begun, anything else free and no kind |
| Metering.KindsConserveCost | backend/app/services/metering.py:106-133 | the per-kind sums add up to the cost of all events |
| Metering.AdjacentWindowsAddUp | backend/app/services/metering.py:123-126 | disjoint adjacent windows add up |
| Metering.MeetingWindowsShareTheInstant | backend/app/services/metering.py:123-126 | windows that share an end count the events of that instant twice, and nothing else |
| Metering.MeteringService.Record | backend/app/services/metering.py:88-104 | appends one priced event, or nothing for an unknown kind |
| Metering.MeteringService.RollUp | backend/app/services/metering.py:106-133 | the total is the cost of the tenant's events in the window; the lines are exactly the kinds present with their sums |
| Metering.MeteringService.ProviderUsage | backend/app/api/provider_routes.py:222-241 | one row per listed tenant but the platform's, in order, each with the cost of all its events; the grand total is the cost of every event of all of them |
| Metering.UsageRowsExact | backend/app/api/provider_routes.py:222-241 | a tenant has a row with the cost of all its events exactly when it is listed and not the platform |
| Quotas.AllowedIffFits | backend/app/services/quotas.py:65-106 | under a finite limit a positive request is allowed exactly when it fits in what remains |
| Quotas.PlanLimits | backend/app/services/quotas.py:41-100 | the monthly limits by the names of plans and kinds |
| Quotas.StatusExact | backend/app/services/quotas.py:93-106 | what a check answers: allowed while usage stays within the limit, a warning from four fifths of it |
| Quotas.StepKeepsBound | backend/app/services/quotas.py:83-115 | no step of any tenant lifts a tenant's usage plus promises above limit + (k - 1) * w |
| Quotas.OverageBound | backend/app/api/routes.py:184-207 | with at most k runs in flight wanting at most w each, committed plus promised searches never exceed limit + (k - 1) * w, across commits, rollbacks and month ends; k = 1 gives the exact cap |
| Quotas.EndingSettles | backend/app/api/routes.py:184-207 | a commit turns its promise into usage of its tenant; a rolled back run gives its promise up |
| SessionQuotas.SessionsWithinQuota | backend/app/api/routes.py:184-207 | the same bound for every interleaving of the sessions of all tenants, whose runs make that check |
| Quotas.OverageAttained | backend/app/services/quotas.py:11-15 | the bound is reached: after k overlapping checks and their k commits committed usage is limit + (k - 1) * w |
| Backend.SavedAllBooks | backend/app/api/routes.py:213-222 | saving a batch adds one row and one creation entry per investigation, for its own tenant only |
| Backend.StepKeeps | backend/app/db/session.py:40-49 | a request served by itself, whether it commits, is refused or is rolled back, keeps every audit chain intact and the case store consistent |
| Backend.RunsKeepBooks | backend/app/api/routes.py:202-222 | after any requests served one after another, per tenant: stored investigations = creation entries = metered model calls, executions = execution entries = metered actions, chains verify, headers agree, the gate held |
| Backend.HandleMetersSearches | backend/app/api/routes.py:205-207 | a served run raises its tenant's metered searches by the number of enabled rules, whatever it found, and nobody else's; no other request meters searches |
| Backend.SearchesMatchRuns | backend/app/api/routes.py:205-207 | after any requests served one after another a tenant's metered searches are the sum over its committed runs |
| Backend.BillAddsUp | backend/app/services/metering.py:88-133 | after any requests served one after another a tenant's cost is its searches, model calls and actions, each at list price |
| Backend.CaseRequestLogs | backend/app/api/routes.py:286-443 | what a served case request logs and meters, by the names in the log |
| Backend.RunLogs | backend/app/api/routes.py:205-222 | what a served run logs and meters: a creation entry per investigation, in order, one search event and, if it found something, one model event |
| Backend.RunServedIff | backend/app/api/routes.py:184-222 | a run is served exactly when its searches fit the plan's month and no id of its investigations is held by another tenant |
| Backend.StepIsAtomic | backend/app/db/session.py:40-49 | a request that is refused or fails later leaves every table as it was |
| Backend.Routes.CountEnabled | backend/app/api/routes.py:184-185 | the searches checked and metered are the enabled rules, the number a completed detection run makes |
| Reporting.FirstPage | backend/app/db/repositories.py:221-246 | the first page: all of the tenant's cases if they fit, otherwise fifty, worst score first, none outside scoring higher |
| Reporting.FirstPageExact | backend/app/db/repositories.py:221-246 | the same without its vocabulary: at most fifty different cases of the tenant, scores descending, none left out that scores higher |
| Reporting.Report | backend/app/api/routes.py:223-227 | one incident per group of the listed cases, summarising exactly its members, with the worst score of the listed cases it names |
| Reporting.ReportsHaveWorstScores | backend/app/api/routes.py:237-241 | when the listed cases have different ids, every incident carries the worst score of its own members |
| Reporting.PageIdsUnique | backend/app/db/repositories.py:221-246 | the cases of a page have different ids |
| Backend.RunsMatchIds | backend/app/db/repositories.py:179-205 | after any requests every stored payload carries the id of its row |
| Pipeline.Orchestrator.RunFullPipeline | backend/app/agents/orchestrator.py:44-99 | one investigation per detection of the sweep, in order, each enriched, judged and planned as specified; an exception ends the run |
| Pipeline.FreshPipeline | backend/app/agents/orchestrator.py:44-48 | a fresh pipeline fails exactly when some enabled rule is not answered, and otherwise investigates exactly one detection per rule that found its minimum of events, in rule order, all as planned |
| Pipeline.InvestigatedExactly | backend/app/agents/orchestrator.py:50-99 | what a detection becomes: the malicious addresses are its indicators; host, addresses and first user give the rounded multiplier; the verdict gives status, severity and actions |
| Backend.Routes.RunInvestigations | backend/app/api/routes.py:169-234 | the route commits the specified state for the investigations of its own pipeline run or rolls back to the old one; on commit metered searches grow by the number of enabled rules, the searches its sweep made, for its tenant only, and the tenant's incidents are those of its first page of cases with their members' worst scores |
| Backend.Routes.ApproveAction | backend/app/api/routes.py:286-307 | approves and audits, or changes nothing |
| Backend.Routes.ExecuteAction | backend/app/api/routes.py:315-363 | executes with the executor's answer, meters and audits together; a later failure undoes all but the executor's call |
| Backend.Routes.TransitionStatus | backend/app/api/routes.py:371-401 | moves and audits, or changes nothing |
| Backend.Routes.AssignInvestigation | backend/app/api/routes.py:425-443 | assigns and audits, or changes nothing |
| Isolation.HandleAlike | backend/app/api/routes.py:169-443 | unless a run meets an id that another tenant holds, whether a request is served, and what it leaves its tenant, depend only on that tenant's cases, audit rows and usage |
| Isolation.ForeignIdRefusesRun | backend/app/db/models.py:53-57 | the failing case: an id stored under another tenant refuses the run |
| Isolation.HandleElsewhere | backend/app/api/routes.py:169-443 | a served request leaves every other tenant's cases, audit rows and usage as they were |
| Isolation.TenantsDoNotInterfere | backend/app/db/repositories.py:1-6 | after any requests of all tenants to the five modelled routes, served one after another, a tenant's cases, audit rows and usage are those it would have had alone, if its runs met no id held by another tenant |
| Overlap.CommitAgreesIff | backend/app/db/repositories.py:248-315 | a commit keeps header and payload in agreement if and only if, should it rewrite the payload, the status and assignee columns it does not write are still as it read them |
| Overlap.CommitEvolvesIff | backend/app/db/repositories.py:248-315 | a commit is a legal step of the stored row if and only if the workflow allows its status change from the status now stored, nobody else approved or executed an action it overwrites, and nobody else set a stamp it sets |
| Overlap.UndisturbedIsCurrent | backend/app/db/repositories.py:248-315 | with nothing committed on the case since the read, both conditions hold |
| SharedLog.AppendKeepsChainIff | backend/app/services/audit.py:49-86 | a row appended to a chain keeps it verifying if and only if the hash it names is still the last one |
| SharedLog.CommitChainsIff | backend/app/services/audit.py:49-119 | a session's commit keeps a tenant's chain verifying if and only if the hash its first row for the tenant names is still the tenant's last one |
| SharedLog.BrokenStaysBroken | backend/app/services/audit.py:98-119 | no later commit repairs a chain that does not verify |
| Sessions.GateHolds | backend/app/db/repositories.py:261-315 | under every interleaving of sessions the approval gate holds for every call of the executor, stored row and row held by a session |
| Sessions.ApprovedBeforeCalled | backend/app/db/repositories.py:261-315 | under every interleaving the same four types reach the executor only after a committed approval of the same tenant, investigation and index |
| Sessions.ExecutedAwaitsNone | backend/app/db/repositories.py:261-315 | under every interleaving a stored action that was executed awaits no approval |
| Sessions.HeadersAgreeIff | backend/app/db/repositories.py:248-439 | headers agree with payloads throughout a run of interleaved sessions if and only if every commit that rewrites a payload finds the status and assignee it copies still stored |
| Sessions.StepEvolvesIff | backend/app/db/repositories.py:248-439 | in any run of interleaved sessions the next step changes every case legally if and only if a commit passes the progress checks against the row then stored |
| Sessions.ChainVerifiesIff | backend/app/services/audit.py:49-119 | after any interleaving of sessions a tenant's committed chain verifies if and only if every commit found the tenant's last hash unchanged since its own first entry read it |
| SessionBooks.BooksHold | backend/app/api/routes.py:202-222 | under every interleaving, per tenant: stored investigations = creation entries = metered model calls, committed executions = execution entries = metered actions |
| SessionBooks.SearchesMatchSessions | backend/app/api/routes.py:205-207 | under every interleaving a tenant's metered searches are the sum over its committed runs |
| SessionBooks.BillHolds | backend/app/services/metering.py:88-133 | under every interleaving a tenant's cost is its searches, model calls and actions, each at list price |
| SessionBooks.ServedAlone | backend/app/db/session.py:40-49 | a session that nothing interleaves with leaves exactly what the serial route leaves, committed or rolled back |
| LostUpdates.AssignInsideApprove | backend/app/db/repositories.py:248-277 | the failing case: an assignment that commits inside an approval leaves column and payload naming different analysts |
| LostUpdates.ApproveInsideApprove | backend/app/db/repositories.py:261-277 | the failing case: an approval that commits inside another approval of the same case is withdrawn |
| LostUpdates.ExecuteInsideApprove | backend/app/db/repositories.py:261-315 | the failing case: an execution that commits inside an approval leaves no record in the case |
| LostUpdates.ResolveInsideContain | backend/app/db/repositories.py:404-439 | the failing case: two transitions that both read an investigating case take it from resolved to contained, which is no edge |
| LostUpdates.ExecuteInsideContain | backend/app/db/repositories.py:279-439 | the failing case of the serial result on stamps: an execution that commits inside a transition to contained is the step that contains the case, yet the case ends stamped |
| LostUpdates.RecordInsideRecord | backend/app/services/audit.py:49-86 | the failing case: two sessions that both record for a tenant before either commits, whenever they read the last hash, leave a chain that does not verify |
| SessionCases.StampedIffTransitioned | backend/app/db/repositories.py:433-437 | under every interleaving a stored case carries a containment time if and only if some committed transition moved it to contained |
| SessionCases.CallsExact | backend/app/db/repositories.py:279-315 | under every interleaving an action reaches the executor exactly once for each request that begins by finding it in range and not awaiting approval |
| SessionIsolation.OthersLeaveViewAlone | backend/app/db/repositories.py:1-6 | in every run of interleaved sessions a step of another tenant's session leaves this tenant's committed cases, audit rows and usage as they were |

## Left out

- Floating-point numbers in audit details, and binary rounding anywhere: values are integers, strings, lists and maps; the score uses exact reals.
- White space in JSON: the parser reads the compact text the printer writes, which is all the chain depends on.
- The internals of SHA-256; the hash is a parameter with stated properties.
- Calls of `with_retry` without a breaker: one branch less of the same loop.
- Creation times as the second key of the case listing: cases of equal score are listed in any order.
- The incident table under interleaved sessions: each run replaces it as a whole; it is modelled in the serial route only.
- Isolation.TenantsDoNotInterfere: covers the five modelled routes served one after another; provider routes, which by design write into a tenant's audit log, are not modelled.
- Stronger database isolation levels: sessions read committed data, the default; a deployment that serialises transactions would refuse some of the interleavings.
- Incident and detection identifiers, creation times, rationale, timeline and summary texts: generated or descriptive.
- Notifications, metrics, logging and service-level clocks: presentational.
- Role checks, tenant administration, credentials, login and token revocation: finite tables or one-branch facts.
- The splitting of a commit into several database writes: a commit takes place as one step.
- Backend.Routes.ExecuteAction: the connector list is one function from type and target to a report or an exception.
- The React client, deployment files and network clients for Splunk and the hosted models.
