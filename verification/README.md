# higgsgo: a Dafny model of its billing feed, job protocol and pool controls

The project models seven components of higgsgo, a gateway that resells generation jobs run on a
pool of upstream accounts, and proves what each of them keeps over whole runs.

| files | component |
|---|---|
| `BillingText`, `BillingOrder`, `BillingExpr`, `BillingMeaning`, `BillingTheorems`, `BillingDeterminism`, `PriceMerge` | the price feed: two price tables are merged, deduplicated, sorted and compiled to a first-match ternary expression, which is printed, parsed and evaluated |
| `TerminalProtocol`, `SlotProtocol`, `PollWorker`, `Metering` | the end of a job: compare-and-swap, slot release, usage row, billing counters and notification under any interleaving of observers |
| `Bearer` | rotation of the admin bearer against lock-free readers |
| `Failover`, `ThrottleLadder`, `OutageGuard`, `ThrottleCalls`, `ControllerCalls` | failure streaks, the throttle ladder and the pool-wide outage guard |
| `RateLimit` | the per-key token bucket with lazy eviction |
| `PricingFloor`, `CreditLookup` | unit cost over purchase batches, the retail floor, and the two credit lookups |
| `CreditRecon`, `InvoiceWatch`, `AuditExport` | budgets per month and per day, and the paged audit export |

Conventions. An object whose methods update its fields is a class; each method is proved against a
function of the old state, and the lemmas are about that function or about runs of it. A protocol
is a state machine: one step is one load, one store, one SQL statement or one critical section,
`Run` executes a list of steps, and a theorem over all lists of steps is a theorem over all
interleavings. History fields (`log`, `seen`, `retries`, ...) are written by the steps and read by
no step's guard. Where Go leaves an order open (map iteration, `sort.Slice` on ties) the model says
what any outcome satisfies and the theorems hold for all of them. Clock readings are parameters;
Go floats are reals; integers are unbounded.

Results that differ from what the code or its documents say of themselves:

- An empty mode sorts before a named one, and an empty audio value no later than one the comparator
  does not know, so they hide it: prices survive compilation exactly when no tier hides another
  (`CompilationPreservesPrices`, `KnownAudioPreservesPrices`).
- A row without dimensions is printed as `call : rest`. docs/PRICING-DOWNSTREAM-CONTRACT.md section
  6.2 has no such production, so the text parses exactly when there is none
  (`TextParsesIffDimensioned`). The model follows the code.
- The contract's section 5 looks a request up by exact equality. The chain does so exactly when every
  tier names all three dimensions (`ChainIsExactLookupIff`).
- "Sort keys so the DSL is deterministic" holds exactly when, among the rows that may survive the
  dedupe, different ones have different keys and do not tie (`TextIsDeterminedIff`,
  `FeedIsDeterminedIff`; for one list under any deterministic sort `SortedTextIsDeterminedIff`). Two
  rows of one key (a variant in two units) and two audio values that the comparator does not know
  fail it (`SharedKeyDependsOnOrder`, `TiedOrdersDiffer`).
- One stale progress write after a terminal transition lets a second observer win, release and
  notify again (`StaleProgressWinsTwice`); everything happens exactly once exactly when a back-fill
  has closed the row as often as such writes reopened it (`EffectsExactlyOnceIff`).
- An upstream word that the code does not know is stored as the row's status. The row is then
  neither listed nor winnable, and its slot stays taken (`UnknownWordStrands`).
- Stale progress writes leave the slot counter short, never too high: within one lifetime it is right
  exactly when clamped decrements have made up for the jobs they left open (`SlotsBalance`,
  `CounterIsRightIff`).
- Zeroing the slot counters at boot is called safe because nothing polls earlier jobs; the poller
  does, so the counter falls short by the jobs open at the boot until the clamp has absorbed as many
  decrements (`ShortfallAfterBoot`, `CounterRecoversIff`).
- The outage guard counts distinct accounts and also counts plain failures; writing the row before
  the status does not close the race between deciders. The overshoot is k - 1 and concurrent calls
  reach it (`DisablesAreBounded`, `ControllerCalls.BoundIsAttained`). Disable rows, as opposed to
  accounts, are bounded exactly when the limit is one (`RowsAreBoundedIff`), and with that limit most
  failures never disable (`LimitOneNeverDisables`).
- A throttle record on an account that was just evicted sets it back to throttled first and may leave
  it there (`LateThrottleMayUndoDisable`).
- The calculator's rounding error is at most one micro per credit exactly when the eligible credits
  are a whole number (`AccurateIffWholeCredits`).
- The credit index and the scan agree under an exact condition on the rule table, not always
  (`IndexRefinesScanIff`, `UnitsSetThemApart`).
- The 60-day memory of alerts is enough exactly for passes of at most 29 days (`AlertsOnceIff`).
- An exhaustion alert is for a spent window if scans of one account do not overlap; if they may, only
  when no time at all passes between the failed reservation and the alert. Otherwise it may land on
  the next window, with budget left, and mute it (`SerialAlertsAreDue`, `AlertsAreDueIff`).
- The rate limiter reads the clock before it takes the lock. Readings that are served out of order by
  up to a skew cost twice the skew at the idle limit: eviction is invisible exactly when rate times
  (3600 - 2 skew) is at least the burst (`EvictionIsInvisibleIff`).

## Model

| member | source | states |
|---|---|---|
| BillingText.QuoteNote | internal/api/v1/downstream_pricing.go:459-476 | the byte loop produces the quotation whose properties the next rows state |
| BillingText.QuotedRoundTrip | internal/api/v1/downstream_pricing.go:455-476 | a printed token followed by any text parses to the original string and leaves that text: tokens are self-delimiting |
| BillingText.QuotedIsCanonical | internal/api/v1/downstream_pricing.go:455-476 | the other direction: every token the parser accepts is the quotation of its value |
| BillingText.BodyIsCanonical | internal/api/v1/downstream_pricing.go:463-473 | an accepted token body is the escaped form of its value up to the closing quote |
| BillingExpr.EscapeMeans | internal/api/v1/downstream_pricing.go:459-474 | escaping acts on each character alone: quote and backslash get a backslash, every other character stands for itself |
| BillingText.IntRoundTrip | internal/api/v1/downstream_pricing.go:371 | a printed integer, negative included, reads back to itself before any text that does not start with a digit |
| BillingText.CallRoundTrip | internal/api/v1/downstream_pricing.go:371 | a printed tier call parses back to its label, price and note, whatever they contain |
| BillingText.ClauseRoundTrip | internal/api/v1/downstream_pricing.go:431-439 | a printed dimension clause parses back to its parameter and value |
| BillingText.GuardRoundTrip | internal/api/v1/downstream_pricing.go:429-444 | a printed guard parses back to the list of its clauses |
| BillingExpr.PlainClause | internal/api/v1/downstream_pricing.go:431-439 | without quotes and backslashes a clause is the literal has(param("name"),"value") |
| BillingExpr.TwoClauses | internal/api/v1/downstream_pricing.go:429-444 | two clauses are joined by the literal && between spaces |
| BillingOrder.TieCondition | internal/api/v1/downstream_pricing.go:347-359 | the comparator is asymmetric, and two tiers tie exactly when resolution, mode and audio rank agree |
| BillingOrder.LessTransitive | internal/api/v1/downstream_pricing.go:347-359 | the comparator is transitive, so sorting by it is well defined |
| BillingOrder.LessTotal | internal/api/v1/downstream_pricing.go:540-550 | on known audio values any two tiers with different dimensions are ordered |
| BillingOrder.CompareResolutionTotal | internal/api/v1/downstream_pricing.go:482-499 | resolutions compare equal only when they are the same string, and swapping the arguments flips the sign |
| BillingOrder.LessMeans | internal/api/v1/downstream_pricing.go:347-359 | the comparator is the order of the named picture heights, higher first, then other names, tiers without a resolution last; then on, voice_control, off, other audio; then mode |
| Wrappers.StringLessMeans | internal/api/v1/downstream_pricing.go:482-499 | strings compare by the first character in which they differ, a proper prefix first |
| BillingOrder.SortIsUnique | internal/api/v1/downstream_pricing.go:347 | the unstable sort has one possible result when no two elements tie |
| BillingExpr.TierLabelFrom | internal/api/v1/downstream_pricing.go:396-411 | the label built part by part is the joined list of named dimensions, or "default" |
| BillingExpr.BuildGuard | internal/api/v1/downstream_pricing.go:429-444 | the text is the guard of the tier, and empty exactly when the tier has no dimension |
| BillingExpr.AppendClause | internal/api/v1/downstream_pricing.go:431-439 | an empty dimension adds nothing, a named one adds its printed clause |
| BillingExpr.ClassifyRow | internal/api/v1/downstream_pricing.go:297-322 | the loop body's updates give the tier whose price covers the duration and whose note lists unit, duration and a differing official price |
| BillingExpr.ClassifyRows | internal/api/v1/downstream_pricing.go:296-323 | the loop yields one tier per row, in order |
| BillingExpr.NoteSays | internal/api/v1/downstream_pricing.go:300-318 | a row's note is its unit, its duration if it has one, and its official price for the whole duration if that is set and differs from the price |
| BillingExpr.LabelSays | internal/api/v1/downstream_pricing.go:396-411 | a row's label is its named dimensions in order, or "default" |
| BillingExpr.Bucket | internal/api/v1/downstream_pricing.go:331-339 | keys in order of first appearance, each with the tier that the dedupe keeps |
| BillingExpr.EmitChain | internal/api/v1/downstream_pricing.go:368-381 | the inside-out loop prints the tiers first to last, ending in the unpriced call |
| BillingExpr.BuildBillingExpr | internal/api/v1/downstream_pricing.go:287-382 | the result is a text that the build may print for these rows under some outcome of the sort; empty for no rows |
| BillingExpr.UnpricedText | internal/api/v1/downstream_pricing.go:451-453 | the literal fallback text is the print of the call unpriced, 0, no matching variant |
| BillingMeaning.PrintedChainParses | internal/api/v1/downstream_pricing.go:368-381 | the printed chain parses to exactly its tiers, or to nothing when one has no dimension |
| BillingMeaning.TiersRoundTrip | internal/api/v1/downstream_pricing.go:361-382 | printing then parsing is the identity on tier lists without a dimensionless tier |
| BillingMeaning.PrintingIsInjective | internal/api/v1/downstream_pricing.go:361-382 | two tier lists print the same text only when they are the same list, whether or not the text is in the grammar |
| BillingMeaning.GuardMeaning | internal/api/v1/downstream_pricing.go:429-444 | a tier's guard holds on a request exactly when each named dimension equals the request's |
| BillingMeaning.EvalIsFirstMatch | internal/api/v1/downstream_pricing.go:361-367 | evaluating the chain charges the first matching tier, or the unpriced call |
| BillingMeaning.LastRowWins | internal/api/v1/downstream_pricing.go:325-339 | of the rows that share a key, the last one survives the dedupe |
| BillingMeaning.CollapseMembers | internal/api/v1/downstream_pricing.go:331-339 | the dedupe keeps distinct keys, invents no tier and loses no key |
| BillingMeaning.PipeFreeKeys | internal/api/v1/downstream_pricing.go:334 | without a pipe in resolution and audio, keys are equal only when the dimensions are |
| BillingTheorems.TextParsesIffDimensioned | internal/api/v1/downstream_pricing.go:287-382 | the emitted text is in the grammar exactly when every tier has a dimension |
| BillingTheorems.EmittedOrder | internal/api/v1/downstream_pricing.go:341-381 | every text that may be printed lists the surviving tiers in that order: of two named pictures the higher comes first |
| BillingTheorems.RequestsPayFirstMatch | internal/api/v1/downstream_pricing.go:341-381 | every request is charged the first matching tier in sort order, or unpriced |
| BillingTheorems.UnmatchedIsUnpriced | internal/api/v1/downstream_pricing.go:446-453 | a request that no tier matches is answered by the unpriced call |
| BillingTheorems.HidesMeans | internal/api/v1/downstream_pricing.go:347-359 | for any audio values: a tier matches another's request and is not put behind it by the comparator exactly when it hides it, as read off the dimensions |
| BillingTheorems.TierIsChargedIff | internal/api/v1/downstream_pricing.go:347-381 | for any audio values: the request that names a tier's dimensions is charged that tier in every outcome of the sort exactly when no tier hides it |
| BillingTheorems.TierIsChargedIffNotShadowed | internal/api/v1/downstream_pricing.go:347-359 | for a tier with a known audio value, in any one outcome: exactly when no tier of the same resolution and audio leaves the mode empty while it names one |
| BillingTheorems.CompilationPreservesPrices | internal/api/v1/downstream_pricing.go:287-382 | for any audio values: every tier's own request can only be charged its own price exactly when no tier hides another |
| BillingTheorems.KnownAudioPreservesPrices | internal/api/v1/downstream_pricing.go:287-382 | with known audio values, for any one text: exactly when no (resolution, audio) group mixes empty and named modes |
| BillingTheorems.RowsPayTheirPrice | internal/api/v1/downstream_pricing.go:287-382 | from rows to money, for any audio values: the request with the dimensions of a row that no row hides pays the row's price with the duration folded in |
| BillingTheorems.ChainIsExactLookupIff | docs/PRICING-DOWNSTREAM-CONTRACT.md:333-356 | the chain answers the contract's exact-equality lookup on all requests exactly when all tiers name all three dimensions |
| BillingDeterminism.TextIsDeterminedIff | internal/api/v1/downstream_pricing.go:325-359 | rows kept from observations and rows of overrides, each in any order: one text is possible exactly when the tiers that may survive the dedupe differ in their keys and do not tie |
| BillingDeterminism.ListTextIsDeterminedIff | internal/api/v1/downstream_pricing.go:325-359 | for one list in any order: exactly when different tiers have different keys and the comparator orders them |
| BillingDeterminism.TextIsOrderIndependent | internal/api/v1/downstream_pricing.go:331-359 | in particular, with distinct keys and known audio values the text depends on the set of tiers alone |
| BillingDeterminism.SharedKeyDependsOnOrder | internal/api/v1/downstream_pricing.go:325-339 | in any list, two different possible survivors with one key give two different texts |
| BillingDeterminism.TiedOrdersDiffer | internal/api/v1/downstream_pricing.go:528-550 | two orders of the same rows that only swap two tied tiers give different texts under any deterministic comparison sort |
| BillingDeterminism.SortedTextIsDeterminedIff | internal/api/v1/downstream_pricing.go:331-359 | so under any such sort one list has one text for all its orders exactly when different tiers have different keys and do not tie |
| BillingDeterminism.SorterExists | internal/api/v1/downstream_pricing.go:347 | such a sort exists |
| PriceMerge.MergeObservationsAndOverrides | internal/api/v1/downstream_pricing.go:184-265 | for any walk over the two maps: exactly the merged rows of the known variants, each once, under their alias |
| PriceMerge.IndexObservations | internal/api/v1/downstream_pricing.go:191-205 | the map holds exactly the variants with a published observation, each with the first |
| PriceMerge.IndexOverrides | internal/api/v1/downstream_pricing.go:206-215 | the map holds exactly the variants with an effective override, each with the last |
| PriceMerge.KeptObservationIsFirst | internal/api/v1/downstream_pricing.go:192-205 | the kept observation is the first published one of the variant; none is kept only if there is none |
| PriceMerge.KeptOverrideIsLast | internal/api/v1/downstream_pricing.go:207-215 | the kept override is the last effective one of the variant |
| PriceMerge.RowsComeFromTables | internal/api/v1/downstream_pricing.go:184-265 | against the two tables, field by field: a variant has a row exactly when some observation or override prices it; price and duration are those of its last override, else of its first observation; the official price is that of its first observation, else the override's own |
| PriceMerge.OneRowPerVariant | internal/api/v1/downstream_pricing.go:217-264 | one row per variant, never two |
| PriceMerge.MergesArePermutations | internal/api/v1/downstream_pricing.go:223-263 | two walks over the maps differ by a permutation of each alias's rows |
| PriceMerge.FeedIsDeterminedIff | internal/api/v1/downstream_pricing.go:184-382 | over all map orders and all the sort may do with ties, an alias has one text exactly when its rows, override rows last, meet that condition |
| PriceMerge.FeedIsDeterministic | internal/api/v1/downstream_pricing.go:184-382 | in particular for variants that differ in a dimension, have no pipe in resolution and audio, and use known audio values |
| TerminalProtocol.WinRuns | internal/core/pollworker/worker.go:308-412 | an undisturbed observer either loses and changes nothing or leaves terminal row, released slot, usage row and one notice |
| TerminalProtocol.CasKeeps | internal/ports/storage.go:281-294 | a compare-and-swap by any observer keeps the job's balance of wins, lives and pending effects |
| TerminalProtocol.BackFillKeeps | internal/core/metering/metering.go:177-201 | so does the recorder's unguarded status write, which may absorb a live row |
| TerminalProtocol.WinsAreBounded | internal/core/pollworker/worker.go:236-349 | over every interleaving a job is won at most once more than progress writes landed on its terminal row, with the exact count |
| TerminalProtocol.EffectsAtMostOnce | internal/core/pollworker/worker.go:320-412 | release, metering and notice run at most once per win, and a job never has two usage rows |
| TerminalProtocol.EffectsExactlyOnceIff | internal/core/pollworker/worker.go:320-484 | within one process lifetime, for a terminal row that no observer still works on, each effect ran as often as the job was won, and once exactly when back-fills closed the row as often as progress writes reopened it; one usage row in any case |
| TerminalProtocol.UnknownWordStrands | internal/adapters/storage/sqlite/job_store.go:437-451 | a row with a word of upstream's that the code does not know keeps it over any run without a progress write on it: no win and no release |
| SlotProtocol.SlotsBalance | internal/core/pollworker/worker.go:187-256 | over every run, stale progress writes and restarts included: in_flight, the jobs that such writes left open and what boots dropped add up to the slots in use and the clamped decrements, and in_flight never exceeds the slots in use |
| SlotProtocol.CounterIsRightIff | internal/core/pollworker/worker.go:187-256 | within one process lifetime in_flight equals the slots in use exactly when the clamped decrements equal the reopened jobs less those a back-fill closed again |
| SlotProtocol.SlotsAreConserved | internal/core/pollworker/worker.go:187-206 | in particular, without such writes and boots it equals them and the clamp never fires |
| SlotProtocol.ShortfallAfterBoot | internal/adapters/storage/sqlite/account_store.go:265-288 | from a boot to the next, over any run: slots in use exceed in_flight by exactly the jobs open at the boot plus those reopened since, less the decrements clamped since, and never more are clamped |
| SlotProtocol.CounterRecoversIff | internal/adapters/storage/sqlite/account_store.go:249-288 | so the counter is right again exactly when the decrements clamped since have reached that number |
| SlotProtocol.RebootForgetsSlots | internal/adapters/storage/sqlite/account_store.go:265-288 | such a boot exists: an open job holds a slot and the counter reads zero |
| SlotProtocol.ReleaseEffect | internal/adapters/storage/sqlite/account_store.go:249-263 | a release never adds to the slots in use, pays one back on the counter unless that is zero, and then is recorded as clamped |
| SlotProtocol.StaleProgressWinsTwice | internal/core/pollworker/worker.go:247-256 | a concrete run in which one stale progress write gives two wins, two releases, two notices and a clamp, and still one usage row |
| PollWorker.Worker.Terminate | internal/core/pollworker/worker.go:423-484 | the compare-and-swap and its side effects are the winner's steps of the protocol, in order |
| PollWorker.DomainStatus | internal/core/pollworker/worker.go:517-529 | completed maps to completed, the other terminal words to refunded or failed by the refund flag, never to timeout; any other word is stored as it is |
| PollWorker.Stored | internal/core/pollworker/worker.go:253-256 | exactly queued, pending and in_progress are stored as live statuses, no word that is not terminal as a terminal one, and an unknown word verbatim |
| PollWorker.Worker.PollOne | internal/core/pollworker/worker.go:210-413 | one poll writes exactly the protocol steps that deadline, spacing and reply call for, and sets the poll gate |
| PollWorker.Worker.Tick | internal/core/pollworker/worker.go:169-185 | a pass over a snapshot, stale or not, is a run of the protocol |
| PollWorker.PollSettles | internal/core/pollworker/worker.go:210-413 | one poll of a live row, exactly: past the deadline it ends as timeout, on a due terminal word with details as completed, refunded or failed by word and flag, with exactly one more win, release, metering and notice; otherwise nothing but the row's own status can change, and not without an answer |
| PollWorker.PollLeavesOthers | internal/core/pollworker/worker.go:210-413 | a poll of a live row with a fresh status, whatever upstream says, revives nothing and touches row, effects and usage of no other job |
| PollWorker.UndisturbedTick | internal/core/pollworker/worker.go:169-185 | on an undisturbed snapshot a pass revives no row and its wins are exactly the rows it terminates |
| PollWorker.TickSettles | internal/core/pollworker/worker.go:169-185 | after a pass over an undisturbed snapshot every job is settled by its own poll: overdue jobs and those with a due terminal answer have that terminal row and each effect once, the others are not terminal |
| PollWorker.GateOfFirst | internal/core/pollworker/worker.go:222-237 | whether a job is due in a pass depends on the polls before the pass unless an earlier job of the pass names the same upstream job |
| PollWorker.AsksAreSpaced | internal/core/pollworker/worker.go:218-237 | over any polls with a nondecreasing clock, two questions about one upstream job are at least the interval apart |
| Metering.Recorder.OnJobTerminal | internal/core/metering/metering.go:86-253 | the four stores afterwards are those of the ledger function; a repeated job id changes nothing and is reported |
| Metering.Recorder.Price | internal/core/metering/metering.go:94-117 | the reassigned locals end as actual cost, effective markup and charge |
| Metering.Actual | internal/core/metering/metering.go:94-110 | never negative; with a known positive drop, cost and balance add up to the balance before; otherwise the quoted cost, or zero if that is negative |
| Metering.Recorder.InsertUsage | internal/adapters/storage/sqlite/usage_store.go:68-108 | refused exactly when the job has a row, else appended |
| Metering.ChargeIsSound | internal/core/metering/metering.go:98-117 | charges are non-negative, monotone in actual cost and in markup, the cost times a positive markup rounded down, and equal to the cost without a markup |
| Metering.UsageRow | internal/core/metering/metering.go:86-175 | the usage row of a first call: ids, actual cost, the multiplier that was applied, the product rounded down, and the resolved account or else the job's |
| Metering.JobRowsMatch | internal/core/metering/metering.go:177-201 | over any run the jobs row tells the same status, actual cost and charge as the job's usage row, a zero leaving what was there |
| Metering.RecordedJobs | internal/core/metering/metering.go:153-175 | after any calls a job has a usage row exactly when it had one or some call named it |
| Metering.RowsStayUnique | internal/adapters/storage/sqlite/usage_store.go:101-104 | usage rows stay unique by job over any run |
| Metering.BillingIsConserved | internal/core/metering/metering.go:213-241 | over any calls with repeats each key and each group grows by exactly the charges of the first call of each distinct job |
| Metering.CountersMatchRows | internal/core/metering/metering.go:128-224 | a key's counter and the charges of its usage rows move together, so the counter can be rebuilt from the rows |
| Metering.RepeatsChangeNothing | internal/core/metering/metering.go:162-168 | calls for recorded jobs, with whatever balances and markups, leave every store as it was |
| Bearer.ValidateBearer | internal/core/bearer/manager.go:270-283 | accepted exactly when at least 16 bytes long and free of the four whitespace characters |
| Bearer.Manager.Load | internal/core/bearer/manager.go:123-154 | a stored non-empty bearer, else the configured one; a failed read changes nothing |
| Bearer.Manager.Accepts | internal/core/bearer/manager.go:182-212 | the verdict is that of the cells at the moment of the call |
| Bearer.Manager.Rotate | internal/core/bearer/manager.go:221-250 | invalid bearers and store failures change nothing; otherwise the cells are rotated |
| Bearer.RotationMeaning | internal/core/bearer/manager.go:214-250 | after a rotation exactly the new bearer, and the replaced one for the grace window, are accepted |
| Bearer.StepInv | internal/core/bearer/manager.go:182-250 | every single load and store of rotator and readers keeps the invariant of cells and readers |
| Bearer.SeenIsWitnessed | internal/core/bearer/manager.go:182-250 | the recorded last time of a bearer is that of an actual state of the run |
| Bearer.AcceptedWasCurrent | internal/core/bearer/manager.go:182-212 | over every interleaving an accepted candidate was current at an instant no later than the verdict and less than 30 seconds before the call began, or during it |
| Bearer.CurrentIsServed | internal/core/bearer/manager.go:197-250 | over every interleaving a bearer current when the call began, which met at most one rotation, is accepted if it met none, or that rotation had not stored the new bearer by the verdict, or the verdict fell less than 30 seconds after that rotation's own clock reading |
| Bearer.ShortCallsSeeNoGap | internal/core/bearer/manager.go:34-37 | a call shorter than the grace window that begins between rotations and meets at most one sees no gap |
| Bearer.UndisturbedRotation | internal/core/bearer/manager.go:230-241 | the rotator's single steps, undisturbed, do what Rotate does |
| Bearer.UndisturbedAccepts | internal/core/bearer/manager.go:182-212 | a reader's single loads, undisturbed, decide what Accepts decides |
| Bearer.TwoRotationsOpenAGap | internal/core/bearer/manager.go:197-250 | with two overlapping rotations a bearer current at the start is turned away in a call of no duration |
| Failover.Resolve | internal/core/failover/controller.go:43-125 | field by field the override if positive, else the global value if positive, else the default; all results positive |
| Failover.SettingsComeFrom | internal/core/failover/controller.go:43-125 | each number is the first positive one of override, global value, fallback and constant; the enabled flag is the override's if it has one |
| Failover.SettingsWithout | internal/core/failover/controller.go:43-125 | a missing override row overrides nothing; without global settings both mechanisms are off and every number is a default |
| Failover.OverridesLeaveTheGuard | internal/core/failover/controller.go:81-124 | no override changes the outage window or limit |
| Failover.Controller.RecordFailure | internal/core/failover/controller.go:146-211 | log and rows afterwards are those of the failure transition |
| Failover.Controller.RecordThrottle | internal/core/failover/controller.go:258-347 | log and rows afterwards are those of the throttle transition |
| Failover.Controller.CoolDown | internal/core/failover/controller.go:305-346 | the account, if it exists, is throttled until the cooldown ends, and disabled at the top of the ladder with the guard open |
| Failover.Controller.RecordSuccess | internal/core/failover/controller.go:129-140 | only the account's streak is cleared |
| Failover.Controller.Disable | internal/core/failover/controller.go:381-404 | one disable row is appended and the account, if it exists, is disabled with its streak raised |
| Failover.GuardCounts | internal/core/failover/controller.go:362-375 | the guard is open exactly when the other recently disabled accounts plus the account itself, if recent, stay below the limit |
| Failover.FailureDisablesIff | internal/core/failover/controller.go:155-210 | a failure disables exactly when the streak is due and the guard has room after counting the failure's own row |
| Failover.LimitOneNeverDisables | internal/core/failover/controller.go:158-188 | with a limit of one a failure with a status other than 401 never disables |
| ThrottleLadder.RecordIsLocal | internal/core/failover/controller.go:129-347 | a record of one account moves neither the counts nor the status of another |
| ThrottleLadder.Feed | internal/core/failover/controller.go:129-347 | the controller's three entry points perform the transition that the ladder's runs are made of |
| ThrottleLadder.ThrottleClimbs | internal/core/failover/controller.go:266-346 | one throttle record takes the account from rung n to n + 1 with the status of that rung, whatever its status was, and a cooldown that ends the configured time later |
| ThrottleLadder.Climb | internal/core/failover/controller.go:258-347 | after n records inside both windows the status is that of rung n, decided by the guard at the last record, whatever other accounts do in between |
| ThrottleLadder.LadderHolds | internal/core/failover/controller.go:258-347 | with the guard open: unchanged below J, throttled from J, disabled from J + E - 1, for all n, J and E |
| ThrottleLadder.StreakIsExact | internal/core/failover/controller.go:129-211 | over every run the stored streak counts the account's failures since its last success, and its disables |
| ThrottleLadder.StreakLadder | internal/core/failover/controller.go:146-211 | below the limit n failures raise the streak by exactly n and leave the status; the failure that reaches the limit disables exactly when the guard has room after counting its own row, whatever other accounts do in between |
| ThrottleLadder.SuccessRestarts | internal/core/failover/controller.go:129-140 | after a success the count starts again at zero |
| ThrottleLadder.LateThrottleMayUndoDisable | internal/core/failover/controller.go:305-346 | at the top of the ladder a further record keeps a freshly disabled account disabled exactly when the others plus itself leave room, else it becomes throttled |
| OutageGuard.StepKeepsBudget | internal/core/failover/controller.go:362-404 | guard read, disable write, other rows and time each keep disabled plus pending within limit + k - 1 |
| OutageGuard.DisablesAreBounded | internal/core/failover/controller.go:185-210 | under every interleaving of k deciders each window sees at most limit + k - 1 accounts disabled |
| OutageGuard.RowsAreBounded | internal/adapters/storage/sqlite/failover_store.go:64-79 | with a limit of one the guard also bounds disable rows: at most k in every window, under every interleaving of k deciders |
| OutageGuard.RepeatDisablesAreUnbounded | internal/core/failover/controller.go:258-347 | with a limit above one, serial throttle records of a single account bring about any number of its disable rows at one instant |
| OutageGuard.RowsAreBoundedIff | internal/adapters/storage/sqlite/failover_store.go:64-79 | so serial calls keep to one disable row per window in every run exactly when the limit is one |
| OutageGuard.RecordsFollow | internal/core/failover/controller.go:146-347 | any run of the controller, one call at a time, is a run of the machine with one decider |
| OutageGuard.SerialDisablesAreBounded | internal/core/failover/controller.go:185-210 | called one at a time, with any overrides, at most the limit is disabled in every window |
| ControllerCalls.UndisturbedCall | internal/core/failover/controller.go:129-404 | for all three entry points and any overrides, a call's single reads and writes, undisturbed, leave log and accounts as the controller's method does |
| ControllerCalls.RunRefines | internal/core/failover/controller.go:146-347 | k concurrent calls of any kind, one read or write at a time, are a run of the guard machine |
| ControllerCalls.CallsAreBounded | internal/core/failover/controller.go:185-210 | so with any overrides they disable at most limit + k - 1 accounts in every window |
| ControllerCalls.RowsAreBounded | internal/adapters/storage/sqlite/failover_store.go:64-79 | and with a limit of one write at most k disable rows in every window |
| ControllerCalls.BoundIsAttained | internal/core/failover/controller.go:385-396 | for every limit, k and ladder some run of k concurrent throttle records, with all rows and marks they make, disables that many accounts at one instant |
| RateLimit.RateLimit.EffectiveParams | internal/api/middleware/ratelimit.go:79-89 | always positive; a non-positive setting is replaced by 5 per second and 10 |
| RateLimit.RateLimit.Allow | internal/api/middleware/ratelimit.go:94-138 | verdict and map afterwards are those of the request transition |
| RateLimit.RateLimit.Evict | internal/api/middleware/ratelimit.go:103-113 | whatever the scan order, exactly the other keys' buckets idle for more than an hour are gone |
| RateLimit.RequestAgrees | internal/api/middleware/ratelimit.go:94-138 | one request of any key, its reading behind an earlier one by up to the skew or not, keeps a key's shared bucket in agreement with its lone one, evicted or not |
| RateLimit.EvictionIsInvisible | internal/api/middleware/ratelimit.go:94-138 | in any run over the shared map whose readings are out of order by at most the skew, a key's verdicts are those of a bucket of its own that is never evicted |
| RateLimit.EvictionIsInvisibleIff | internal/api/middleware/ratelimit.go:16-20 | for every skew, that holds for all such runs exactly when rate times (3600 - 2 skew) is at least the burst |
| RateLimit.RateIsBounded | internal/api/middleware/ratelimit.go:115-137 | over every such run and interval at most burst + rate x (length + skew) requests of a key are admitted |
| RateLimit.RateIsBoundedIff | internal/api/middleware/ratelimit.go:115-137 | with readings in order the bound holds for all runs exactly when rate times 3600 is at least the burst |
| RateLimit.RefusedIff | internal/api/middleware/ratelimit.go:115-137 | a bucket refuses a request exactly when admitting it would exceed, since it or some earlier request, the burst plus the rate times the time between, readings in any order |
| RateLimit.ExceedsInOrder | internal/api/middleware/ratelimit.go:122-136 | with readings in order the time between is that between the two requests, so refusals are determined by times and verdicts alone |
| RateLimit.SharedRefusesIff | internal/api/middleware/ratelimit.go:94-138 | and so does the shared map under the condition that makes eviction invisible |
| RateLimit.SpacedRequestsAreServed | internal/api/middleware/ratelimit.go:94-138 | on the shared map, under any settings and any order of readings, a request at least 1/rate after the key's earlier ones is admitted, evicted or not |
| PricingFloor.EffectiveUnitCost | internal/core/pricingfloor/calculator.go:73-124 | the accumulating loop computes the cost that the following rows are about |
| PricingFloor.TotalsAreSums | internal/core/pricingfloor/calculator.go:76-102 | the totals are additive over batches; one batch adds its payment and accounts times credits if it passes the six conditions, else nothing |
| PricingFloor.UnitCostBounds | internal/core/pricingfloor/calculator.go:63-72 | 100 P < (r + 1) H and r (H - 99) <= 100 P |
| PricingFloor.AccurateIffWholeCredits | internal/core/pricingfloor/calculator.go:68-72 | the result is within a micro of the true average for every amount paid exactly when H is a multiple of 100 |
| PricingFloor.UnitCostIsAnAverage | internal/core/pricingfloor/calculator.go:42-72 | never below a lower bound of the batches' own unit costs, and never above an upper bound when credits are whole |
| PricingFloor.FallbackIff | internal/core/pricingfloor/calculator.go:103-117 | the fallback is used exactly when the eligible batches hold less than one credit |
| PricingFloor.IgnoresIneligible | internal/core/pricingfloor/calculator.go:76-98 | dropping the ineligible batches changes nothing |
| PricingFloor.OrderDoesNotMatter | internal/core/pricingfloor/calculator.go:76-102 | permuted batches give the same result |
| PricingFloor.RetailFloorWarning | internal/api/admin/pricing_decisions.go:177-235 | off, missing rule, below the floor or silent, in that order of precedence |
| PricingFloor.TruncDivMeans | internal/api/admin/pricing_decisions.go:206-210 | the division leaves a remainder smaller than the divisor and of the dividend's sign |
| PricingFloor.FloorIsTight | internal/api/admin/pricing_decisions.go:206-210 | the doubly truncated floor is at most the exact marked-up cost and less than markup + 1 below it |
| PricingFloor.WarningsAreTrue | internal/api/admin/pricing_decisions.go:211-218 | a warned price is below the exact marked-up cost, and a price clearly below it is always warned about |
| CreditLookup.LookupVariantCredits | internal/api/admin/pricing_decisions.go:250-299 | the three scan loops return the first rule of the first pass that has one |
| CreditLookup.ScanFirst | internal/api/admin/pricing_decisions.go:278-297 | one scan loop returns the first match |
| CreditLookup.BuildIndex | internal/api/admin/pricing_floor_suggestions.go:177-183 | the map holds exactly the rules' keys, each with the credits of its first rule |
| CreditLookup.LookupCreditsForFloor | internal/api/admin/pricing_floor_suggestions.go:348-391 | the answer is one that some iteration order allows |
| CreditLookup.FirstMeans | internal/api/admin/pricing_decisions.go:252-263 | a scan answers with the credits of a matching rule that no matching rule precedes, and with nothing only if none matches |
| CreditLookup.LookupTakes | internal/api/admin/pricing_decisions.go:250-299 | from the rules' fields: the first exact rule; else for a named resolution the first agnostic one of the kind in the mode the resolution stands for; else the first in any mode; else none |
| CreditLookup.IndexRefinesScanIff | internal/api/admin/pricing_floor_suggestions.go:338-342 | no iteration order sets index and scan apart exactly when there is an exact rule or no resolution, or the first rule in the folded mode costs what the first one in the variant's unit does, or, without such a rule, all leading agnostic rules cost the same |
| CreditLookup.OneUnitAgrees | internal/api/admin/pricing_floor_suggestions.go:348-391 | with an exact rule, or agnostic rules all in the variant's unit and one in the folded mode, index and scan agree |
| CreditLookup.OtherAnswersAreAgnostic | internal/api/admin/pricing_floor_suggestions.go:381-389 | any other non-zero answer is the credits of some resolution-agnostic rule of the kind |
| CreditLookup.UnitsSetThemApart | internal/api/admin/pricing_floor_suggestions.go:376-389 | a family of two-rule tables on which the two lookups may differ |
| CreditLookup.UnknownAliasIsZero | internal/api/admin/pricing_floor_suggestions.go:353-355 | without a job-set type the index answers zero, while the scan would use a rule that has none either |
| CreditRecon.TargetWindow | internal/core/creditrecon/creditrecon.go:284-290 | the interval is the month of a day earlier, first to first |
| CreditRecon.MonthOfIff | internal/core/creditrecon/creditrecon.go:287-288 | every day lies in exactly one month, the one the calendar search finds |
| CreditRecon.YearLength | internal/core/creditrecon/creditrecon.go:287-288 | a year begins 365 days after the one before, 366 if that is a leap year, before 1970 as well |
| CreditRecon.NextMonth | internal/core/creditrecon/creditrecon.go:287-288 | months follow one another without gap or overlap, across the turn of the year as well |
| CreditRecon.WindowIsClosedOnTheFirst | internal/core/creditrecon/creditrecon.go:279-283 | on the first of a month the window is the month just ended; on any other day the month under way |
| CreditRecon.SameTargetIsClose | internal/core/creditrecon/creditrecon.go:284-290 | passes with the same target month start less than 31 days apart |
| CreditRecon.Reconciler.ReserveAlert | internal/core/creditrecon/creditrecon.go:298-312 | fires exactly for an unknown key; whatever the scan order, a firing call drops exactly the entries of 60 days and more |
| CreditRecon.Reconciler.ReconOne | internal/core/creditrecon/creditrecon.go:188-259 | alerts exactly on a divergence beyond the threshold that was not alerted for this account and month |
| CreditRecon.SilentIffWithinThreshold | internal/core/creditrecon/creditrecon.go:261-277 | silent exactly when the local sum is within the threshold of the upstream total, a band that the local sum does not widen |
| CreditRecon.ThresholdIsLarger | internal/core/creditrecon/creditrecon.go:261-277 | the threshold is the larger of the floor in hundredths and the relative share of a positive upstream total |
| CreditRecon.NoSecondAlert | internal/core/creditrecon/creditrecon.go:292-312 | no account is alerted twice for a month in any run with a nondecreasing clock and passes of at most 29 days, overlapping ones included |
| CreditRecon.AlertsOnceIff | internal/core/creditrecon/creditrecon.go:292-312 | that holds for all runs with passes shorter than a bound exactly when the bound is at most 29 days and a nanosecond |
| CreditRecon.LateRunAlertsTwice | internal/core/creditrecon/creditrecon.go:305-309 | a run with a pass one nanosecond longer alerts an account twice |
| InvoiceWatch.Watcher.ReserveRetry | internal/core/invoicewatch/invoicewatch.go:195-209 | granted exactly while the current window has budget; the window is renewed once a day has passed |
| InvoiceWatch.Watcher.AlertExhausted | internal/core/invoicewatch/invoicewatch.go:213-243 | fires exactly if the window it finds was not alerted, and marks it |
| InvoiceWatch.Watcher.WatchOne | internal/core/invoicewatch/invoicewatch.go:156-189 | one uninterrupted scan retries while there is budget, then alerts once, then stays mute |
| InvoiceWatch.WindowsAreBudgeted | internal/core/invoicewatch/invoicewatch.go:195-226 | under every interleaving each window has at most three retries and one alert |
| InvoiceWatch.SixADay | internal/core/invoicewatch/invoicewatch.go:195-209 | at most six retries of an account in any closed interval of 24 hours |
| InvoiceWatch.SixAreReached | internal/core/invoicewatch/invoicewatch.go:200-203 | some run has six |
| InvoiceWatch.SerialAlertsAreDue | internal/core/invoicewatch/invoicewatch.go:187-189 | in every run in which scans of one account do not overlap, however long they take and whatever other accounts do, every alert is for a window with three retries on record |
| InvoiceWatch.AlertsAreDueIff | internal/core/invoicewatch/invoicewatch.go:187-226 | with scans that overlap, every alert of every run is due exactly when no time passes between a failed reservation and its alert |
| InvoiceWatch.AlertsAreDueOrLate | internal/core/invoicewatch/invoicewatch.go:213-226 | in every run, an alert on the window its call failed on found three retries in it, and one that found fewer landed on a window renewed at least a day later |
| InvoiceWatch.LateAlertIsReached | internal/core/invoicewatch/invoicewatch.go:213-226 | some run with one nanosecond between the two alerts for, and mutes, a window with one retry |
| AuditExport.FetchBatch | internal/api/admin/audit.go:275-289 | the page of the rest that the caller's limit and the batch size allow |
| AuditExport.StreamBatches | internal/api/admin/audit.go:295-328 | the loop terminates and emits the stream that the following rows are about |
| AuditExport.StreamingIsOneQuery | internal/api/admin/audit.go:291-328 | on a table that stands still the emitted rows are those of one query: offset to limit or end, once each, in order |
| AuditExport.OneQueryIffWholeBatches | internal/api/admin/audit.go:183-186 | that holds for all tables, limits and offsets exactly when the store serves pages of 500 |
| AuditExport.GrowingTableLosesNothing | internal/api/admin/audit.go:291-328 | rows arriving between pages of an unlimited export cost no row that was there |
| AuditExport.ArrivalsRepeatRows | internal/api/admin/audit.go:291-328 | after n arrivals a page begins with the last n rows of the page before |

## Left out

- HTTP handlers, routing, wire encodings, stores' SQL, logging, metrics, notification transport and configuration loading: plumbing.
- The synchronous job path: it appears only as a further observer of the protocol. Its own timeout branch in internal/core/proxy/service.go releases a slot without the compare-and-swap; that release is not a step of the model.
- Store errors, except where a branch changes the state proved about (bearer load and rotation, unknown accounts, keys, groups and jobs). A failed account lookup on the timeout path skips metering; the model always meters.
- Jobs without an account, whose release is skipped, and the failover feedback of a poll, which touches no state of the protocol.
- An upstream word spelled like one of the gateway's own final statuses (refunded, timeout) is kept apart from that status; neither is listed or winnable.
- The worker's `lastPolled` is a map; the original's is safe for concurrent use, which a single worker does not need. The terminal latency, result URL and poll count of the jobs row are not modelled.
- The `||` of the guard grammar: the code never prints it, and the model's parser does not read it. `has(param(x), v)` is read as equality of the request's field, as section 5 of the pricing contract requires.
- The alias filter's case folding is a parameter of the merge, and resolution ranks fold the characters that can occur in a ranked name.
- Strings are sequences of characters where Go has bytes; quoting acts on backslash and quote only, which never occur inside a multi-byte character. The separator dot is one character.
- The model-level official price of the feed's handler, the feed's model list and its caching.
- A failover controller without an event log or account store, the recoverer that lifts cooldowns, risk-marker matching, and Classify: a risk marker only changes the reason of a row.
- A controller call reads the clock once, and in ControllerCalls at each read or write; the original reads it at each insert and count.
- Event deletion: the guard theorems are about an append-only log that starts empty.
- Bearer generation, the store's contents and constant-time comparison.
- Rate limiting of requests without a key, which pass unlimited.
- RateLimit.RateIsBounded: for a positive skew the condition on the settings is sufficient; that it is needed is shown for readings in order.
- recommendPrice, compareOptional, row ordering and the official price band of the floor suggestions: each is one expression over its inputs.
- Floor arithmetic is modelled for any sign, but its error bound is stated for non-negative credits and costs.
- CreditRecon.Reconciler.ReserveAlert: the key is a pair of account and month number instead of a formatted string.
- Errors of the export's emit callback, which truncate the stream, and the table's filter; events with equal timestamps are assumed to keep their order.
- Integer overflow and floating-point rounding: integers are unbounded and reals are exact.
