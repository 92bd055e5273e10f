# fastcoder: verified models of its algorithms and control loops

This project models the in-memory algorithms and control loops of fastcoder, a story-to-code
agent, and proves properties of them. Each module follows one component; where the component
changes state step by step, the model is a class or a loop proved against a function on values,
and the theorems are lemmas about that function. Results hold for every answer of an outside
component and every run, and for every input that meets the conditions they state, such as unique
names in the configuration; for most properties that the code has only under a condition, that
condition is proved to be exact.

| file | component |
|---|---|
| `ImportGraph.dfy`, `CycleMarking.dfy` | import graph: depth-first cycle search, cycle marking, impact analysis, adding and removing files, whole builds |
| `PythonRegex.dfy`, `Ownership.dfy`, `LooseBackslashes.dfy` | CODEOWNERS globs: the compiler to regular-expression text, a reader and matcher for that text, lookup of owners, patterns with a backslash |
| `RateLimiting.dfy` | token buckets and the limiter with eviction of stale buckets |
| `StoryLifecycle.dfy`, `Convergence.dfy`, `ApprovalGates.dfy`, `Retries.dfy`, `Orchestration.dfy` | the orchestrator over its adapters: one story from submission to its end |
| `CircuitBreaking.dfy`, `ModelRouting.dfy` | circuit breakers, model routing, fallback and completion |
| `MemoryConsolidation.dfy` | the merge pass of memory consolidation |
| `SearchRanking.dfy`, `SemanticSearch.dfy` | inverted index, scoring, top-k and the answer cache |
| `GraphExpansion.dfy` | breadth-first expansion of the knowledge graph |
| `Migrations.dfy` | migrate and rollback over an abstract schema, with scripts that may fail |
| `Options.dfy`, `Sequences.dfy`, `TextOrder.dfy` | optional values; lists without repetition; Python's order on strings |

Parameters stand for what the code takes from outside: the clock (one reading per call of the
limiter or of a breaker, non-decreasing in runs of the limiter), the answers of analyzers,
generators, reviewers, test runners, scanners, deployers and verifiers, health probes, provider
replies, tokenizers, text-match counts, logarithm and square root. Token counts, times, costs,
scores and similarities are reals. A Python exception is an out-parameter or a result constructor.

## What the proofs found

Places where the code does not do what its names, comments or documentation suggest. The models
follow the code; each finding is proved by the named lemmas or methods.

- The shipped transition table lacks PLANNING to PLANNING, TESTING to TESTING and VERIFYING to
  VERIFYING, which the stages of `process_story` perform. Under it every run stops when planning
  starts, with the story FAILED and nothing generated or deployed (`ShippedStopsAtPlanning`,
  `Orchestrator.ProcessStory`). With budget, an open deployment gate and attached components that
  answer well (none raises, plans have tasks, reviews approve, reports have no failing test), a
  story becomes DONE exactly if the table has the transitions of `PathOpen`, a planner comes with
  an analyzer, and a generator with a planner (`ProcessStory`, `AssistedRun`).
- No iteration ever carries an error context, because the generator adapter is handed the context
  of an earlier iteration and none is ever made. Convergence is therefore always "progressing",
  and the loop never escalates or replans.
- `imported_by` is filled with the files that a node itself imports. It is the inverse of
  `imports` only if files import no known file but themselves, and impact analysis after a build
  walks along imports instead of importers (`BuildInverseIff`, `BuildMissesImporter`).
- Cycle marking is sound but incomplete: a file on a cycle can stay unmarked (`MarkingMissesAFile`).
  It is complete in every order of files and imports exactly if no file of the graph can hide
  behind a path that leads to it (`MarkingCompleteIff`); it is enough that simple cycles with a
  common edge run through the same files (`CyclesApartMarked`).
- A backslash in a CODEOWNERS pattern is kept before `{`, `}` and `]`; one backslash before anything
  else, or at the end, changes which paths the pattern matches (`KeepsMeaningIff`, for patterns
  with at most one backslash of the second kind). Of the patterns
  all of whose backslashes are kept, one that starts with a dot owns nothing, and one that starts
  with a slash owns something only as a directory pattern or as `/**` (`LeadingDotOwnsNothing`,
  `LeadingSlashOwnsIff`).
- Security scans never move a story, and quality gates do not either once it has iterations: the
  record type of an iteration has no field for their results, so storing them raises before they
  are looked at, and the handlers swallow that (`RunSecurityScan`, `RunQualityGates`).
- A story can become DONE without being deployed: a pending deployment gate leaves it in TESTING,
  from where a table with TESTING to VERIFYING lets it go on (`UndeployedRun`; exactly when in
  `ProcessStory`). Under a table without that transition, DONE with a deployer attached means that
  the deployer was called (`ProcessStory`).
- A deployment whose report says that it failed is treated as one that passed: the report is stored
  and never looked at (`DeployAndAdvance`), so the story becomes DONE all the same (`ProcessStory`).
- Eviction of stale buckets is observable, and the window bound fails, exactly when ten times
  requests_per_minute is below burst_size (`EvictionUnobservableIff`, `WindowBoundIff`).
- A success recorded while a breaker is OPEN erases the failure time. Since the router records
  failures only for requests that a breaker allowed, that provider's breaker then stays OPEN for
  good (`StuckForGood`, `StuckProviderStaysStuck`); the fallback branch of `complete` calls a
  provider whatever its own breaker says and records such successes (`StuckRun`).
  `can_execute` means "not open" only if half_open_max_calls is at least 1.
- The delay that `get_retry_after` reports is exact over whole runs, evictions included, exactly
  if the rate is positive and burst_size is at least 1 (`RetryAdviceIff`).
- The merge pass deletes by id. It computes the merge of every tier, whatever the contents, exactly
  if an id occurs twice only at the heads of two tiers (`PassIsMergeIff`); similar entries of a
  tier with the same id all vanish (`RepeatedIdVanishes`).
- The retry breaker opens on three failures in a row whatever their fingerprints (`Retries.BrokenIff`).
- `rollback` runs the down step of pending versions too (`RollbackRunsAppliedIff`).
- Rolling the shipped migration back drops the table of provider keys, also if the table and its
  rows were there before the migration, as the key store creates it. The schema is restored exactly
  if they were not (`ShippedRollback`, `ShippedReversibleIff`).
- `migrate` is documented as running within a transaction, but running a script commits what came
  before it: after a failure the database is as it was exactly if the first pending migration
  failed and its script changed nothing (`MigrateAtomicIff`, `HalfMigrated`).
- With a stuck_threshold below 1 the convergence detector can report a story without errors as
  stuck; `NoErrorsProgressIff` says for which settings.
- `doc_freq` counts occurrences of a token, not chunks; the brute-force weights use that count.

## Model

| member | source | states |
|---|---|---|
| `ImportGraph.DetectSound` | src/fastcoder/codebase/dependency_graph.py:163-199 | every reported list is a closed walk along imports between known files, simple except for its repeated end |
| `ImportGraph.DetectCutsEveryCycle` | src/fastcoder/codebase/dependency_graph.py:163-199 | every import cycle, simple or not, runs along the closing edge of some reported cycle, so the reported back edges cut all cycles |
| `ImportGraph.DetectEmptyIffAcyclic` | src/fastcoder/codebase/dependency_graph.py:163-199 | the answer is empty exactly when the import graph has no cycle, self-imports included |
| `ImportGraph.MarkingMeansCircular` | src/fastcoder/codebase/dependency_graph.py:201-207 | a newly marked file lies on an import cycle, every cycle has two consecutive marked files, no mark is taken back, and nothing but the flag changes |
| `ImportGraph.MarkingMissesAFile` | src/fastcoder/codebase/dependency_graph.py:201-207 | marking is incomplete: on three files a, b, c a file on a cycle stays unmarked |
| `CycleMarking.MarkingCompleteIff` | src/fastcoder/codebase/dependency_graph.py:163-207 | exactly when marking is complete: every order of files and imports marks every file on a cycle if and only if no file of the import graph can hide behind a path |
| `CycleMarking.CyclesApartMarked` | src/fastcoder/codebase/dependency_graph.py:163-207 | a condition on cycles: if simple cycles with a common edge run through the same files, every order marks every file on a cycle |
| `CycleMarking.MissedHides` | src/fastcoder/codebase/dependency_graph.py:163-207 | in every run a file on a cycle that is in no reported cycle can hide behind the path of its search |
| `CycleMarking.HidesIsMissed` | src/fastcoder/codebase/dependency_graph.py:163-207 | a file that can hide stays unmarked under some listing of the same files and imports |
| `ImportGraph.CycleSearch.Dfs` | src/fastcoder/codebase/dependency_graph.py:175-193 | the recursive search on shared, mutated variables computes the search function that the theorems are about, and terminates on cyclic graphs |
| `ImportGraph.DependencyGraph.DetectCircularDependencies` | src/fastcoder/codebase/dependency_graph.py:163-199 | the whole search over the nodes in insertion order computes the cycles of that function |
| `ImportGraph.DependencyGraph.MarkCircular` | src/fastcoder/codebase/dependency_graph.py:201-207 | the nested marking loops set the flag of exactly the files on a reported cycle and change nothing else |
| `ImportGraph.ImpactSetExact` | src/fastcoder/codebase/dependency_graph.py:141-161 | membership in the impact set is reachability from a changed file along stored back references, in any number of steps |
| `ImportGraph.ImpactSetClosed` | src/fastcoder/codebase/dependency_graph.py:141-161 | the impact set holds the changed files and all dependents of its members |
| `ImportGraph.ImpactSetLeast` | src/fastcoder/codebase/dependency_graph.py:141-161 | it is the least set that does |
| `ImportGraph.ImpactMonotone` | src/fastcoder/codebase/dependency_graph.py:141-161 | more changed files never impact fewer files |
| `ImportGraph.ImpactIdempotent` | src/fastcoder/codebase/dependency_graph.py:141-161 | the impact of the impacted files is the same set |
| `ImportGraph.ImpactListDetermined` | src/fastcoder/codebase/dependency_graph.py:141-161 | the sorted answer does not depend on the order or repetition of the changed files |
| `TextOrder.BelowIff` | src/fastcoder/codebase/dependency_graph.py:161 | the order of the sorted answer: a proper prefix comes first, otherwise the smaller character at the first difference decides |
| `ImportGraph.DependencyGraph.GetImpactedFiles` | src/fastcoder/codebase/dependency_graph.py:141-161 | the worklist ends on every graph and input list, with exactly the impact set, sorted and without repetition |
| `ImportGraph.DependencyGraph.EnqueueDependents` | src/fastcoder/codebase/dependency_graph.py:154-159 | one round keeps the loop invariants: all dependents of the current file are impacted, and whatever is new is also queued |
| `ImportGraph.DependencyGraph.AddFile` | src/fastcoder/codebase/dependency_graph.py:65-90 | the node and its imports are stored, and every importing node gets the new file as a back reference unless it has it; a new file comes last in the order, and back references stay without repetition |
| `ImportGraph.DependencyGraph.RemoveFile` | src/fastcoder/codebase/dependency_graph.py:92-113 | an unknown file changes nothing; otherwise the node goes, with the first occurrence of the file in the order and in every list, and what is left of the back references are those among the other files |
| `ImportGraph.RemoveFileNode` | src/fastcoder/codebase/dependency_graph.py:92-113 | both lists of every node that stays lose the first entry for the file, all others keep their order, and the flag stays |
| `ImportGraph.RemoveFileReferences` | src/fastcoder/codebase/dependency_graph.py:92-113 | from lists without repetition, which adding and building keep, removal leaves exactly the back references among the other files |
| `ImportGraph.RemoveFileImpact` | src/fastcoder/codebase/dependency_graph.py:92-161 | after a removal the impacted files are the changed ones and those reached along a path that avoids the file, which itself is impacted only if it is among the changed files |
| `ImportGraph.RemoveFileIsInducedSubgraph` | src/fastcoder/codebase/dependency_graph.py:92-113 | removal leaves exactly the import edges among the other files, even when imports are repeated |
| `ImportGraph.RemoveFileCycles` | src/fastcoder/codebase/dependency_graph.py:92-113 | removal leaves exactly the cycles that avoid the file |
| `ImportGraph.AddFileNode` | src/fastcoder/codebase/dependency_graph.py:83-90 | what adding a file does to any one node, the new one included: its imports, and at most one back reference appended |
| `ImportGraph.BuildImports` | src/fastcoder/codebase/dependency_graph.py:20-63 | after a build each node stores the resolved imports of its file, none if it was unreadable |
| `ImportGraph.BuildBackReferences` | src/fastcoder/codebase/dependency_graph.py:20-63 | after a build a node lists f as a back reference exactly if the node itself imports f and f was added no earlier |
| `ImportGraph.BuildInverseIff` | src/fastcoder/codebase/dependency_graph.py:86-90 | back references are the inverse of imports exactly if no file imports a known file other than itself |
| `ImportGraph.BuildImpactFollowsImports` | src/fastcoder/codebase/dependency_graph.py:141-161 | after a build every step of an impact path is an import edge |
| `ImportGraph.BuildMissesImporter` | src/fastcoder/codebase/dependency_graph.py:86-90 | the witness: a change of an imported file is not reported to impact its importer |
| `Ownership.GlobToRegex` | src/fastcoder/codebase/ownership_map.py:240-278 | the index-scanning loop emits the anchored text of the whole pattern |
| `Ownership.CompiledReadsBack` | src/fastcoder/codebase/ownership_map.py:240-278 | if every backslash is followed by a brace or a closing bracket, the emitted text reads as an anchor, exactly one intended piece per step, and an anchor |
| `Ownership.PiecesMatchGlob` | src/fastcoder/codebase/ownership_map.py:240-278 | the pieces match the rest of a one-line path exactly if the direct glob semantics does |
| `Ownership.CompilationPreservesMeaning` | src/fastcoder/codebase/ownership_map.py:225-278 | for such patterns, and paths without a newline, the compiled text matches exactly if the glob does |
| `LooseBackslashes.KeepsMeaningIff` | src/fastcoder/codebase/ownership_map.py:240-278 | among one-line patterns with at most one backslash before anything else, exactly those without one match the same one-line paths compiled and as globs |
| `LooseBackslashes.LooseDiffers` | src/fastcoder/codebase/ownership_map.py:240-278 | whatever follows the one loose backslash, some one-line path is decided differently |
| `Ownership.GlobMatchesItself` | src/fastcoder/codebase/ownership_map.py:225-227 | every pattern matches itself, so the equality shortcut adds nothing to globs |
| `Ownership.GlobKeepsDepth` | src/fastcoder/codebase/ownership_map.py:240-278 | a glob without a double star matches only paths with as many slashes as it has |
| `Ownership.PlainGlobIsText` | src/fastcoder/codebase/ownership_map.py:240-278 | a glob without stars and question marks matches its own text and nothing else |
| `Ownership.WildcardsAlone` | src/fastcoder/codebase/ownership_map.py:240-278 | what a double star, a star, a question mark, and a double star with a slash each match |
| `Ownership.LookupMeaning` | src/fastcoder/codebase/ownership_map.py:209-238 | the whole decision on one-line paths with a faithful engine and kept backslashes, stated with globs only; the equality shortcut is redundant on normalized paths |
| `Ownership.LeadingDotOwnsNothing` | src/fastcoder/codebase/ownership_map.py:190-238 | a pattern that starts with a dot, all of whose backslashes are kept, matches no looked-up path without a newline |
| `Ownership.LeadingSlashOwnsIff` | src/fastcoder/codebase/ownership_map.py:190-238 | a pattern that starts with a slash, all of whose backslashes are kept, matches a path without a newline only as the catch-all or as a directory prefix |
| `Ownership.EarlierEntryWins` | src/fastcoder/codebase/ownership_map.py:192-207 | entries appended later decide only files that no earlier entry matches |
| `Ownership.LStripSplits` | src/fastcoder/codebase/ownership_map.py:190 | normalizing strips exactly the longest beginning made of dots and slashes |
| `Ownership.OwnersAreFirst` | src/fastcoder/codebase/ownership_map.py:192-207 | the lookup answers for the first entry that does not miss: its owners if it is a hit, an exception if it raises; nobody if all miss |
| `Ownership.AnswerCases` | src/fastcoder/codebase/ownership_map.py:192-207 | nobody is answered exactly if all entries miss or the first that does not is a hit listing nobody, and the lookup raises exactly if that entry does |
| `Ownership.OwnersByGlob` | src/fastcoder/codebase/ownership_map.py:181-238 | in globs: with kept backslashes, a path without a newline belongs to the owners of the first entry whose pattern owns it, and to nobody if none does |
| `Ownership.OwnershipMap.PatternMatches` | src/fastcoder/codebase/ownership_map.py:209-238 | the branches of the pattern decision, with the compiled text given to the regular-expression engine |
| `Ownership.OwnershipMap.GetOwners` | src/fastcoder/codebase/ownership_map.py:181-207 | the owners of the first entry in insertion order whose decision on the normalized path is no miss, an exception if that decision raises, and nobody if all entries miss |
| `RateLimiting.RefillTwice` | src/fastcoder/api/rate_limiter.py:70-76 | refilling at t and again at u equals refilling once at u, and keeps the tokens within the capacity |
| `RateLimiting.RefillAllThenOnce` | src/fastcoder/api/rate_limiter.py:70-89 | the same for any number of intermediate looks at the bucket |
| `RateLimiting.RetryDelayExact` | src/fastcoder/api/rate_limiter.py:54-89 | with capacity at least 1 and no consumption between, a later request is served exactly if at least the reported delay has passed |
| `RateLimiting.RetryAdviceExact` | src/fastcoder/api/rate_limiter.py:117-193 | over whole runs of the limiter: a client told at t to wait d seconds, which makes no request until u while others make any calls and cause any deletions, is allowed at u exactly if u >= t + d |
| `RateLimiting.RetryAdviceIff` | src/fastcoder/api/rate_limiter.py:117-193 | this holds in all runs exactly if requests_per_minute is positive and burst_size at least 1 |
| `RateLimiting.RetryHeaderSuffices` | src/fastcoder/api/rate_limiter.py:221-233 | waiting the seconds of the Retry-After header (section 10.2.3 of RFC 9110) always suffices |
| `RateLimiting.ZeroCapacityNeverServes` | src/fastcoder/api/rate_limiter.py:54-76 | the capacity condition is needed: a bucket of capacity 0 never serves |
| `RateLimiting.StaleIsFull` | src/fastcoder/api/rate_limiter.py:181-193 | a bucket that becomes stale has become full, if ten times requests_per_minute is at least burst_size |
| `RateLimiting.StepSimulates` | src/fastcoder/api/rate_limiter.py:117-193 | one call on the evicting limiter and on one that never deletes gives the same answer and keeps them in step |
| `RateLimiting.RunSimulates` | src/fastcoder/api/rate_limiter.py:117-193 | hence so does every run from states in step |
| `RateLimiting.EvictionUnobservable` | src/fastcoder/api/rate_limiter.py:117-193 | every interleaved run gives the same answers as a limiter that never deletes a bucket |
| `RateLimiting.EvictionUnobservableIff` | src/fastcoder/api/rate_limiter.py:117-193 | this holds for all runs exactly if ten times requests_per_minute is at least burst_size |
| `RateLimiting.PlainWindowBound` | src/fastcoder/api/rate_limiter.py:54-76 | without eviction, at most burst_size plus d times requests_per_minute / 60 calls succeed per client in any interval of length d |
| `RateLimiting.WindowBound` | src/fastcoder/api/rate_limiter.py:117-179 | the same bound for the limiter with eviction, under the same condition |
| `RateLimiting.WindowBoundIff` | src/fastcoder/api/rate_limiter.py:117-193 | the bound holds for all runs, clients and intervals exactly under that condition |
| `RateLimiting.ExposingRunAllAllowed` | src/fastcoder/api/rate_limiter.py:181-193 | on all other configurations a run that lets a bucket become stale is served twice over |
| `RateLimiting.StepExact` | src/fastcoder/api/rate_limiter.py:54-151 | without eviction, a request is allowed exactly if its client has a token, which alone it spends; a refused request and a question about the delay spend nothing, and no other client is affected |
| `RateLimiting.AvailableLater` | src/fastcoder/api/rate_limiter.py:70-76 | between calls tokens accrue at the rate, up to the capacity |
| `RateLimiting.RefusalHasNoEffect` | src/fastcoder/api/rate_limiter.py:117-193 | over whole runs, leaving out a refused request or a question about the delay changes no other answer, under the same condition |
| `RateLimiting.ClientsIndependent` | src/fastcoder/api/rate_limiter.py:117-193 | over whole runs, every client gets the answers it would get if it were alone, under the same condition |
| `RateLimiting.StoredIffSeen` | src/fastcoder/api/rate_limiter.py:117-193 | on every configuration and run a client is stored, with the time of its last request or of the question that created it, exactly until a request comes more than 600 seconds later |
| `RateLimiting.TokenBucket.TryConsume` | src/fastcoder/api/rate_limiter.py:54-68 | the bucket is refilled, and the amount taken exactly if it is there |
| `RateLimiting.TokenBucket.GetRetryAfter` | src/fastcoder/api/rate_limiter.py:78-89 | the bucket is refilled and the delay reported; a rate of zero divides by zero |
| `RateLimiting.RateLimiter.CleanupStaleBuckets` | src/fastcoder/api/rate_limiter.py:181-193 | exactly the buckets last accessed more than 600 seconds ago are deleted |
| `RateLimiting.RateLimiter.GetOrCreateBucket` | src/fastcoder/api/rate_limiter.py:153-179 | an unknown client gets a fresh full bucket and an access time; all other buckets stay |
| `RateLimiting.RateLimiter.IsAllowed` | src/fastcoder/api/rate_limiter.py:117-139 | one call on the mutable limiter is one step of the value model, on its own and fresh buckets only |
| `RateLimiting.RateLimiter.GetRetryAfter` | src/fastcoder/api/rate_limiter.py:141-151 | one call is one step of the value model |
| `CircuitBreaking.FailureCounter` | src/fastcoder/llm/circuit_breaker.py:80-140 | the failure counter is the number of failures since the last success or half-open reset |
| `CircuitBreaking.OpensIff` | src/fastcoder/llm/circuit_breaker.py:101-114 | a breaker opens exactly at a failure that completes failure_threshold failures with no success or reset between |
| `CircuitBreaking.SuccessCounter` | src/fastcoder/llm/circuit_breaker.py:80-99 | while half open, the success counter is the number of successes since that state was entered or a failure came |
| `CircuitBreaking.ClosesIff` | src/fastcoder/llm/circuit_breaker.py:80-99 | a half-open breaker closes exactly at the success completing half_open_max_calls of them |
| `CircuitBreaking.OpenLeavesOnlyByQuery` | src/fastcoder/llm/circuit_breaker.py:116-140 | an open breaker never closes directly and becomes half open only at a query |
| `CircuitBreaking.HalfOpensIff` | src/fastcoder/llm/circuit_breaker.py:116-140 | a breaker enters HALF_OPEN exactly from OPEN, at a query no earlier than the timeout after the failure that is the last record |
| `CircuitBreaking.CanExecuteUnlessOpen` | src/fastcoder/llm/circuit_breaker.py:62-78 | on every reachable breaker can_execute is true exactly if the state is not OPEN |
| `CircuitBreaking.CanExecuteUnlessOpenIff` | src/fastcoder/llm/circuit_breaker.py:62-78 | that equivalence holds on all histories exactly if half_open_max_calls is at least 1 |
| `CircuitBreaking.FailureTime` | src/fastcoder/llm/circuit_breaker.py:80-114 | the failure time is that of the last record if it is a failure, and erased if it is a success |
| `CircuitBreaking.RecoveryExact` | src/fastcoder/llm/circuit_breaker.py:116-140 | an open breaker whose last record is a failure rejects before that time plus recovery_timeout and allows from then on |
| `CircuitBreaking.StuckOpen` | src/fastcoder/llm/circuit_breaker.py:80-140 | an open breaker whose last record is a success leaves OPEN by no run of queries and successes |
| `CircuitBreaking.StuckUntilFailure` | src/fastcoder/llm/circuit_breaker.py:101-140 | it recovers by way of another failure, after the timeout counted from there |
| `CircuitBreaking.StuckIsReachable` | src/fastcoder/llm/circuit_breaker.py:80-114 | under every configuration that state is reached |
| `CircuitBreaking.StuckForGood` | src/fastcoder/llm/circuit_breaker.py:62-140 | if failures are recorded only after an allowing query, the breaker is stuck whatever follows |
| `CircuitBreaking.StuckReachableWhenAsked` | src/fastcoder/llm/circuit_breaker.py:62-140 | such callers reach the stuck state under every configuration |
| `CircuitBreaking.CircuitBreaker.GetState` | src/fastcoder/llm/circuit_breaker.py:116-140 | the mutable breaker moves from OPEN to HALF_OPEN exactly when a failure time is set and the timeout has elapsed |
| `CircuitBreaking.CircuitBreaker.MayExecute` | src/fastcoder/llm/circuit_breaker.py:62-78 | asking is a query event of the history model |
| `CircuitBreaking.CircuitBreaker.RecordSuccess` | src/fastcoder/llm/circuit_breaker.py:80-99 | a success event of the history model |
| `CircuitBreaking.CircuitBreaker.RecordFailure` | src/fastcoder/llm/circuit_breaker.py:101-114 | a failure event of the history model |
| `ModelRouting.CreatesExactly` | src/fastcoder/llm/router.py:244-278 | with unique names the lookup returns the very model that was found, at half the sum of its prices |
| `ModelRouting.ModelRouter.Candidates` | src/fastcoder/llm/router.py:158-192 | the loops collect exactly the eligible models of a tier |
| `ModelRouting.ModelRouter.FindModelInTier` | src/fastcoder/llm/router.py:158-198 | an eligible model of the tier whose input and output price add up to no more than those of any other, none exactly if the tier has none |
| `ModelRouting.ModelRouter.CheckHealth` | src/fastcoder/llm/router.py:112-131 | known health is kept, unknown health is probed once per provider, and a raising probe ends the checks |
| `ModelRouting.ModelRouter.Route` | src/fastcoder/llm/router.py:200-242 | a model of the highest non-empty tier at or below the selected one among enabled, non-excluded, not-known-unhealthy providers whose prices add up to no more than those of any other there, reported at half that sum; it raises exactly if there is none |
| `ModelRouting.SelectTierIff` | src/fastcoder/llm/router.py:133-156 | when routing starts at the top and at the bottom tier: a preferred tier wins, and only code generation looks at the complexity |
| `ModelRouting.ModelRouter.Fallback` | src/fastcoder/llm/router.py:400-442 | never the failed or an excluded provider; the first usable name of the fallback chain and its first model, else after a top-tier failure the routing answer from the middle tier without it, else the first enabled provider that lists a model; the context changes only in the second case |
| `ModelRouting.ModelRouter.ChainEntryIsFirst` | src/fastcoder/llm/router.py:418-426 | the chain answers with its first name that is not excluded and has a configuration listing a model, and with none only if there is no such name |
| `ModelRouting.ModelRouter.WithModelsFacts` | src/fastcoder/llm/router.py:421-426 | a name of the chain stands for its first configuration entry that lists a model, if there is one |
| `ModelRouting.ModelRouter.LastResort` | src/fastcoder/llm/router.py:434-440 | the last resort is the first enabled, non-excluded provider that lists a model, none exactly if there is no such provider |
| `ModelRouting.ModelRouter.CompleteElsewhere` | src/fastcoder/llm/router.py:341-356 | on refusal the fallback provider alone is called, whatever its own breaker says, and if it answers its breaker is told of a success without having been asked |
| `ModelRouting.ModelRouter.CompleteAllowed` | src/fastcoder/llm/router.py:358-398 | the routed provider is called first and its outcome recorded; after a failure the fallback provider is called, unrecorded |
| `ModelRouting.ModelRouter.Complete` | src/fastcoder/llm/router.py:312-398 | the routing answer is honest, the routed provider is not called if its breaker refuses, the answer is that of the routed or the fallback provider, and breaker histories and tracked cost grow by exactly what happened; the breaker of the fallback provider guards nothing |
| `ModelRouting.ModelRouter.CallCostInPrices` | src/fastcoder/llm/router.py:280-310 | with unique names a call is charged by the prices of the model that answered, per thousand tokens of the prompt and of the completion |
| `ModelRouting.StuckProviderStaysStuck` | src/fastcoder/llm/router.py:312-398 | in every run of completions that do not overlap, an open breaker that has been told of a success rejects for good |
| `ModelRouting.StuckRun` | src/fastcoder/llm/router.py:312-398 | eleven completions reach that state from a new router: a provider that answers is rejected at every later time |
| `MemoryConsolidation.JaccardSymmetric` | src/fastcoder/memory/__init__.py:261-279 | similarity does not depend on the order of its arguments |
| `MemoryConsolidation.JaccardInCounts` | src/fastcoder/memory/__init__.py:261-279 | similarity times the number of all different words is the number of common words, and it is 0 if a side has none |
| `MemoryConsolidation.Similar` | src/fastcoder/memory/__init__.py:261-279 | two entries are similar exactly if both have words and ten times their common words are more than eight times all their words |
| `MemoryConsolidation.AbsorbKeeps` | src/fastcoder/memory/__init__.py:123-142 | one outer iteration removes exactly the later entries similar to the absorbing one and conserves use counts |
| `MemoryConsolidation.MergeDissimilar` | src/fastcoder/memory/__init__.py:120-142 | of any two survivors of a tier, counted in words, at most four fifths are common |
| `MemoryConsolidation.MergeCovers` | src/fastcoder/memory/__init__.py:120-142 | every removed entry has an earlier surviving entry of its tier with which, counted in words, more than four fifths are common |
| `MemoryConsolidation.MergeConservesUse` | src/fastcoder/memory/__init__.py:120-142 | the total use count of a tier is conserved |
| `MemoryConsolidation.MergeConservesMaxScore` | src/fastcoder/memory/__init__.py:120-142 | so is its maximum effectiveness score |
| `MemoryConsolidation.MaxScoreIsLargest` | src/fastcoder/memory/__init__.py:132-136 | that maximum is the score of an entry or the given floor, and neither the floor nor any entry exceeds it |
| `MemoryConsolidation.MergeIdempotent` | src/fastcoder/memory/__init__.py:120-142 | repeating the pass changes nothing |
| `MemoryConsolidation.AbsorbLater` | src/fastcoder/memory/__init__.py:126-142 | the inner loop takes over exactly the later similar entries whose ids are not merged yet, whatever the ids |
| `MemoryConsolidation.MergeTier` | src/fastcoder/memory/__init__.py:122-142 | the nested loops mark a tier as specified on any ids; with unique ids none of which is merged yet, the entries without a merged id are the merge of the tier |
| `MemoryConsolidation.MemoryStore.MergeSimilar` | src/fastcoder/memory/__init__.py:119-149 | on every store: of any two survivors of a tier at most four fifths of the words are common, merged_count and the evicted ids are exactly the ids that left the store, each once; and every tier becomes its merge if ids occur twice only at heads |
| `MemoryConsolidation.PassIsMergeIff` | src/fastcoder/memory/__init__.py:119-149 | for given ids the pass is the merge of every tier, for all contents, scores and use counts, exactly if an id occurs twice only at the heads of two tiers |
| `MemoryConsolidation.ConsolidatedIsMerge` | src/fastcoder/memory/__init__.py:119-149 | on such stores every tier becomes its merge, so what is proved of the merge holds of the pass |
| `MemoryConsolidation.ConsolidatedDissimilar` | src/fastcoder/memory/__init__.py:119-149 | on every store, of any two entries of a tier afterwards at most four fifths of the words are common |
| `MemoryConsolidation.ConsolidateTwice` | src/fastcoder/memory/__init__.py:119-149 | on every store a second pass merges nothing and changes nothing |
| `MemoryConsolidation.RepeatedIdVanishes` | src/fastcoder/memory/__init__.py:119-149 | entries of a tier with the same id and similar contents all leave the store |
| `MemoryConsolidation.MemoryStore.DeleteMerged` | src/fastcoder/memory/__init__.py:144-149 | the deletion loops remove exactly the entries with merged ids from every tier |
| `SearchRanking.SortSorts` | src/fastcoder/codebase/semantic_search.py:112-121 | sorting by score permutes the list and puts higher scores first |
| `SearchRanking.SortStable` | src/fastcoder/codebase/semantic_search.py:112-121 | results of equal score keep their order |
| `SemanticSearch.AddScoreEffect` | src/fastcoder/codebase/semantic_search.py:96-104 | adding to the score dict changes the one score and keeps one entry per chunk |
| `SemanticSearch.PostingsContribute` | src/fastcoder/codebase/semantic_search.py:96-104 | a posting list contributes to exactly the chunks that hold the token, each once, with its weight |
| `SemanticSearch.AccumulatedIsDirect` | src/fastcoder/codebase/semantic_search.py:21-57 | accumulated scores equal the direct per-chunk dot product, and a chunk has an entry exactly if it shares a token with the query |
| `SemanticSearch.DocFreqIsMultiplicity` | src/fastcoder/codebase/semantic_search.py:33-39 | the document frequency of a token is how often it occurs in the tokens of all chunks together |
| `SemanticSearch.WeightInCounts` | src/fastcoder/codebase/semantic_search.py:42-57 | the weight of a token in a chunk is its share of the tokens there, times one plus the logarithm of the chunks over one plus its document frequency |
| `SemanticSearch.QueryVectorIsUnit` | src/fastcoder/codebase/semantic_search.py:86-94 | the query vector has one term per token, in the order of first occurrence, weights proportional to the counts, and length one if sqrt is a square root |
| `SemanticSearch.SemanticAnswerIsTopK` | src/fastcoder/codebase/semantic_search.py:59-121 | for any top_k, if no chunk contains the query, the answer lists direct scores, and no chunk that shares a token and is left out scores higher |
| `SemanticSearch.TextAnswerIsTopK` | src/fastcoder/codebase/semantic_search.py:59-194 | as soon as a chunk contains the query, the answer lists such chunks only, with a tenth per match up to 1, and none that is left out scores higher |
| `SemanticSearch.CachedIsPrefix` | src/fastcoder/codebase/semantic_search.py:59-78 | a cached answer, sliced, is always a prefix of the fresh answer |
| `SemanticSearch.CachedIsFreshIff` | src/fastcoder/codebase/semantic_search.py:59-78 | for any two bounds it is the fresh answer exactly if the cached list is the whole ranking or holds at least top_k results, or a negative top_k leaves nothing |
| `SemanticSearch.SemanticSearch.Index` | src/fastcoder/codebase/semantic_search.py:21-57 | both passes leave exactly the index and frequencies of the new chunks and an empty cache |
| `SemanticSearch.SemanticSearch.AddChunk` | src/fastcoder/codebase/semantic_search.py:123-133 | the index is that of the old chunks and the new one |
| `SemanticSearch.SemanticSearch.RemoveChunksForFile` | src/fastcoder/codebase/semantic_search.py:135-144 | the index is that of the chunks of the other files, in order |
| `SemanticSearch.OthersExact` | src/fastcoder/codebase/semantic_search.py:135-144 | exactly the chunks of other files stay, as often as they were there |
| `SemanticSearch.OthersConcat` | src/fastcoder/codebase/semantic_search.py:135-144 | they stay in their order |
| `SemanticSearch.SemanticSearch.Search` | src/fastcoder/codebase/semantic_search.py:59-121 | a known query gets its cached answer, sliced; any other gets the fresh answer, cached unless it has neither hits nor tokens |
| `SemanticSearch.SemanticSearch.ExactTextHits` | src/fastcoder/codebase/semantic_search.py:168-194 | one hit for each chunk that contains the query, scored by its matches up to 1 |
| `SemanticSearch.TextHitsExact` | src/fastcoder/codebase/semantic_search.py:168-194 | a chunk is a hit exactly if it contains the query, with its score, once and in chunk order |
| `SemanticSearch.SemanticSearch.ScoreChunks` | src/fastcoder/codebase/semantic_search.py:96-110 | the loops over query terms and postings compute the accumulated scores |
| `GraphExpansion.NextLayer` | src/fastcoder/context/graphify_provider.py:211-223 | the nodes at distance k+1 are the unreached neighbours of those at distance k |
| `GraphExpansion.ExpandLevel` | src/fastcoder/context/graphify_provider.py:214-223 | one level finds exactly the unselected neighbours of the frontier and the links to them, each once |
| `GraphExpansion.Expand` | src/fastcoder/context/graphify_provider.py:211-249 | for any depth: selected are exactly the nodes within that distance, edges exactly the links from distance k to k+1 below it, each once, with both ends selected |
| `GraphExpansion.ExpandQuery` | src/fastcoder/context/graphify_provider.py:211-249 | the three levels of the code |
| `Migrations.MigrationManager.Register` | src/fastcoder/config/migrations.py:62-78 | a registered version is refused, any other is added |
| `Migrations.MigrationManager.GetCurrentVersion` | src/fastcoder/config/migrations.py:80-90 | the largest applied version, 0 if none is |
| `Migrations.MigrationManager.GetPending` | src/fastcoder/config/migrations.py:92-100 | exactly the registered versions above the current one, ascending |
| `Migrations.MigrationManager.Migrate` | src/fastcoder/config/migrations.py:121-150 | the up scripts of the pending versions run in ascending order, each committing the table rows before it; a script that fails or a row that cannot be entered ends the run with RuntimeError and leaves what was committed |
| `Migrations.MigrationManager.Rollback` | src/fastcoder/config/migrations.py:152-197 | the down scripts of every registered version above the target run last first and leave the table, a failing script ends the run in the same way; nothing happens if the target is not below the current version |
| `Migrations.MigrateExact` | src/fastcoder/config/migrations.py:121-150 | for any registry and table: the pending versions are those above the current one, ascending; the first of them ran through and have their rows, which were new, and the run stopped at the first script that failed or row that was not new, keeping what that script made of the schema |
| `Migrations.RollbackExact` | src/fastcoder/config/migrations.py:152-197 | for any registry and table: nothing happens unless the target is below the current version; otherwise the down scripts above it ran, last first, and lost their rows, up to the first that failed, which keeps its row and what it made of the schema |
| `Migrations.UpConcat` | src/fastcoder/config/migrations.py:121-150 | what a list of up scripts makes of a schema is what its parts make of it in turn |
| `Migrations.DownUndoesUp` | src/fastcoder/config/migrations.py:152-197 | running a list of versions down undoes running it up and takes them out of the table, if each is undone from the schema at which the others arrive |
| `Migrations.MigrateAtomicIff` | src/fastcoder/config/migrations.py:121-150 | a migrate that raises leaves the database as it was exactly if the first pending migration failed and its script changed nothing, and the table as it was exactly if the first failed |
| `Migrations.HalfMigrated` | src/fastcoder/config/migrations.py:121-150 | the witness: the first of two migrations stays applied when the second fails |
| `Migrations.MigrateKeepsGrown` | src/fastcoder/config/migrations.py:121-150 | wherever it fails, a migrate keeps the table consistent and raises exactly if versions are still pending; the schema goes with the table exactly if the first script to fail on the way up changes nothing |
| `Migrations.RollbackKeepsGrown` | src/fastcoder/config/migrations.py:152-197 | with nothing pending, rollbacks to all targets leave table and schema consistent, and raise exactly if they do not reach the target, exactly if each down script undoes its up script until one fails and changes nothing |
| `Migrations.MigrateCompletes` | src/fastcoder/config/migrations.py:121-150 | migrate on a consistent database succeeds exactly if all up scripts run through from its base, and then every registered version is applied |
| `Migrations.MigrateIdempotent` | src/fastcoder/config/migrations.py:121-150 | a second migrate changes nothing exactly if the script that failed in the first, if one did, fails again and leaves what is there |
| `Migrations.PrefixIsConsistent` | src/fastcoder/config/migrations.py:80-100 | the rows of the registered versions up to any target form a consistent table |
| `Migrations.RollbackLeavesPrefix` | src/fastcoder/config/migrations.py:152-197 | migrate succeeds, and rollback(t) directly after it succeeds for every t and leaves exactly the schema and table of the versions up to t, exactly if every migration runs through and is undone from the schema at which the others arrive |
| `Migrations.RollbackThenMigrateRestores` | src/fastcoder/config/migrations.py:121-197 | under that condition a further migrate restores schema and table |
| `Migrations.RollbackRunsAppliedIff` | src/fastcoder/config/migrations.py:160-192 | a rollback runs down steps of applied versions only exactly if nothing is pending |
| `Migrations.PendingRollbackDamages` | src/fastcoder/config/migrations.py:160-192 | the witness: rolling back with a pending version loses part of the base schema |
| `Migrations.ShippedReversibleIff` | src/fastcoder/config/migrations.py:200-218 | the shipped migration meets that condition exactly on a database without the table of provider keys |
| `Migrations.ShippedRollback` | src/fastcoder/config/migrations.py:200-218 | migrate and rollback(0) end without the table whatever was there, so the schema is restored exactly if it was not |
| `ApprovalGates.ApplyConsistent` | src/fastcoder/orchestrator/approval_gate.py:160-288 | every decision or clearing keeps decided and pending keys apart and decisions equal to the latest ones |
| `ApprovalGates.ApplyAllConsistent` | src/fastcoder/orchestrator/approval_gate.py:160-288 | so does every sequence of them |
| `ApprovalGates.LatestIff` | src/fastcoder/orchestrator/approval_gate.py:160-288 | a decision is in force exactly if it was made and no later approval, rejection or clearing of the story concerns its key |
| `ApprovalGates.PendingAfterAll` | src/fastcoder/orchestrator/approval_gate.py:160-288 | a request stays pending exactly as long as nothing approves, rejects or clears it or its story |
| `ApprovalGates.ApprovalGateManager.Approve` | src/fastcoder/orchestrator/approval_gate.py:160-197 | the approval is recorded and the request no longer pending |
| `ApprovalGates.ApprovalGateManager.Reject` | src/fastcoder/orchestrator/approval_gate.py:199-237 | the rejection is recorded and the request no longer pending |
| `ApprovalGates.ApprovalGateManager.ClearPending` | src/fastcoder/orchestrator/approval_gate.py:268-272 | the request is no longer pending; decisions stay |
| `ApprovalGates.ApprovalGateManager.ClearAllForStory` | src/fastcoder/orchestrator/approval_gate.py:274-288 | exactly the records of that story go |
| `ApprovalGates.ApprovalGateManager.CheckGate` | src/fastcoder/orchestrator/approval_gate.py:84-158 | passes exactly if disabled or the latest decision approves, blocks exactly if it rejects; callbacks run only for a new request and may decide inside it |
| `Convergence.RepeatsIffCounted` | src/fastcoder/orchestrator/convergence_detector.py:102-136 | the counted check for oscillation holds exactly if two iterations of the window failed with the same non-empty fingerprint |
| `Convergence.Check` | src/fastcoder/orchestrator/convergence_detector.py:40-100 | for any window_size and stuck_threshold the loops and counters classify by the plain definitions of oscillating, stuck and diverging, in that order |
| `Convergence.VerdictInPositions` | src/fastcoder/orchestrator/convergence_detector.py:40-192 | for window_size and stuck_threshold of at least 1, by positions of the iterations: a repeated error in the window, then a run of failures at its end, then more failures in its second half, in this order |
| `Convergence.CheckOscillation` | src/fastcoder/orchestrator/convergence_detector.py:102-136 | true exactly if some fingerprint occurs twice |
| `Convergence.CheckStuck` | src/fastcoder/orchestrator/convergence_detector.py:138-158 | on error counts, that there are stuck_threshold iterations and all in the slice of the last ones failed |
| `Convergence.CheckDiverging` | src/fastcoder/orchestrator/convergence_detector.py:160-192 | on error counts, that the second half of the window has more errors |
| `Convergence.NoErrorsProgress` | src/fastcoder/orchestrator/convergence_detector.py:50-192 | a story none of whose iterations carries an error context is progressing, for a positive threshold and for threshold 0 with a window size of at least 0 |
| `Convergence.NoErrorsProgressIff` | src/fastcoder/orchestrator/convergence_detector.py:29-192 | exactly these settings, the defaults among them, never report such a story |
| `Retries.BrokenIff` | src/fastcoder/orchestrator/retry_policy.py:204-248 | the retry breaker is open exactly after three failures in a row, whatever their fingerprints |
| `Retries.TrailingFailuresIff` | src/fastcoder/orchestrator/retry_policy.py:204-248 | the failures in a row are those at the end of the attempts |
| `Retries.RetryPolicy.ShouldRetry` | src/fastcoder/orchestrator/retry_policy.py:75-114 | a retry is granted exactly below the failure streak and below max_retries attempts |
| `Retries.RetryPolicy.RecordAttempt` | src/fastcoder/orchestrator/retry_policy.py:129-183 | the attempt is appended to its stage and no other |
| `StoryLifecycle.ShippedStopsAtPlanning` | src/fastcoder/orchestrator/state_machine.py:32-43 | the shipped table lets a planned story fail but not enter planning again |
| `StoryLifecycle.ShippedIff` | src/fastcoder/orchestrator/state_machine.py:32-43 | the shipped table: on to the next stage, back to coding or from testing to review, and to FAILED between the first stage and the last; no stage leads to itself |
| `Orchestration.Orchestrator.Transition` | src/fastcoder/orchestrator/state_machine.py:52-79 | the state becomes the target, or an invalid transition raises and leaves it |
| `Orchestration.Orchestrator.RunAnalysis` | src/fastcoder/orchestrator/__init__.py:291-306 | it ends normally in PLANNING exactly if the table leads from the state it starts in to ANALYZING and on to PLANNING and an attached analyzer does not raise; the spec is there exactly if it was or the analyzer answered; otherwise the story is FAILED, or the exception leaves the stage, exactly as the table says |
| `Orchestration.Orchestrator.RunPlanning` | src/fastcoder/orchestrator/__init__.py:308-323 | it ends normally in CODING exactly if the table leads to PLANNING and on to CODING and an attached planner has a spec and does not raise; the plan becomes the answered one exactly if planning is entered and such a planner answers; otherwise the story is FAILED, or the exception leaves the stage, exactly as the table says |
| `Orchestration.Orchestrator.Generate` | src/fastcoder/orchestrator/adapters.py:101-155 | it raises exactly without planned tasks or if the generator does, changing nothing; otherwise one new iteration with the generated changes and the error context handed on, without review or report |
| `Orchestration.Orchestrator.HandedOn` | src/fastcoder/orchestrator/__init__.py:426-438 | the error of the last iteration from the second coding attempt on; none on a story without error contexts |
| `Orchestration.Orchestrator.RunCoding` | src/fastcoder/orchestrator/__init__.py:415-459 | it ends normally in CODING exactly if the table allows it, the budget is not used up, and an attached generator finds a plan with tasks and does not raise; one iteration is added exactly if CODING is entered and such a generator is attached; no error context appears |
| `Orchestration.Orchestrator.Review` | src/fastcoder/orchestrator/adapters.py:221-253 | exactly the last iteration, if it has changes, gets the review; an exception changes nothing |
| `Orchestration.Orchestrator.RunReview` | src/fastcoder/orchestrator/__init__.py:461-503 | exactly when it ends normally in TESTING and in CODING: by the table, by whether an attached reviewer raises when it is asked about changes, and by whether the last iteration is rejected afterwards; that iteration alone gets the review |
| `Orchestration.Orchestrator.GenerateTests` | src/fastcoder/orchestrator/adapters.py:167-209 | exactly the last iteration, if it has content and the plan has tasks, gets the generated tests as further changes, also those made before an exception |
| `Orchestration.Orchestrator.RunTests` | src/fastcoder/orchestrator/adapters.py:468-493 | exactly the last iteration gets the report; an exception is reported as one failure |
| `Orchestration.Orchestrator.CountRetry` | src/fastcoder/orchestrator/__init__.py:533-560 | a failed round is retried exactly below three failures and max_retries, and only then recorded, as a failure with its fingerprint |
| `Orchestration.Orchestrator.AfterFailedTests` | src/fastcoder/orchestrator/__init__.py:533-572 | exactly when the story goes back to CODING and when it is FAILED, by the classifier, the retry policy, the memory store and the table, and what is recorded |
| `Orchestration.Orchestrator.RunTesting` | src/fastcoder/orchestrator/__init__.py:505-578 | it ends normally in TESTING exactly if the table allows it, no attached test generator raises, and the last iteration then has no failing test by the runner or by an earlier report; in CODING it has one; failing tests lead there exactly if a retry is left, and to FAILED otherwise, as the table allows, if what is asked about them does not raise; retries stay within the policy |
| `Orchestration.Orchestrator.RunSecurityScan` | src/fastcoder/orchestrator/__init__.py:642-702 | a security scan never changes the state of the story, whatever it answers: the result cannot be stored on the iteration |
| `Orchestration.Orchestrator.RunQualityGates` | src/fastcoder/orchestrator/__init__.py:704-771 | on a story with iterations the quality gates change nothing; on one without, a failed evaluation sends it to CODING while retries are left, to FAILED otherwise, where the table allows it |
| `Orchestration.Orchestrator.AfterCheckIff` | src/fastcoder/orchestrator/__init__.py:704-771 | a failed check sends the story to CODING exactly if a retry is left and to FAILED exactly if none is, where the table allows it and the post-mortem does not raise |
| `Orchestration.Orchestrator.CheckConvergence` | src/fastcoder/orchestrator/__init__.py:329-332 | the verdict is that of the detector, and "progressing" on a story without error contexts |
| `Orchestration.Orchestrator.OnConvergenceIssue` | src/fastcoder/orchestrator/__init__.py:333-355 | a diverging story is escalated, which fails it if the table allows that, and a stuck one is planned again; both leave the loop; any other verdict changes nothing and goes on |
| `Orchestration.Orchestrator.ConsiderConvergence` | src/fastcoder/orchestrator/__init__.py:329-355 | such a story always goes on to the pass: the branches that escalate and replan are not taken |
| `Orchestration.Orchestrator.CodingPass` | src/fastcoder/orchestrator/__init__.py:357-398 | one pass adds at most one iteration, hands on no error context, and finishes only with a good last iteration; with components that answer well the first pass of a funded story finishes exactly if the table allows it and a generator has tasks |
| `Orchestration.Orchestrator.RunCodingLoop` | src/fastcoder/orchestrator/__init__.py:325-413 | at most max_iterations_per_story passes, counted by the convergence checks that start them, less the iterations already there; as many iterations; fewer passes only if one raised or did not ask for another; no escalation or replanning; a normal end outside FAILED means an approved last review and no failing test; exactly when it ends in TESTING with components that answer well |
| `Orchestration.Orchestrator.Deploy` | src/fastcoder/orchestrator/adapters.py:431-456 | the call is logged; exactly the last iteration, or a new one if there is none, gets the report; an exception changes nothing |
| `Orchestration.Orchestrator.CheckDeployGate` | src/fastcoder/orchestrator/__init__.py:582-583 | the check passes exactly if the gate is disabled or the latest decision approves |
| `Orchestration.Orchestrator.RunDeployment` | src/fastcoder/orchestrator/__init__.py:580-614 | one gate check; pending leaves the state, blocked fails the story, a pass deploys and goes on to VERIFYING or fails; pending exactly if the gate is enabled and undecided; the deployer is called only after a pass |
| `Orchestration.Orchestrator.DeployAndAdvance` | src/fastcoder/orchestrator/__init__.py:599-614 | the story goes on to VERIFYING exactly if the table allows it and the deployer does not raise, whatever success its report states; the report is stored on the last iteration |
| `Orchestration.Orchestrator.RunVerification` | src/fastcoder/orchestrator/__init__.py:616-640 | it raises exactly without a transition to VERIFYING; errors of the verifier are swallowed |
| `Orchestration.Orchestrator.Develop` | src/fastcoder/orchestrator/__init__.py:255-269 | analysis, planning and coding of a fresh story: what is known when deployment comes next, the bound on passes, and, for attached components that answer well, exactly when it comes |
| `Orchestration.Orchestrator.Release` | src/fastcoder/orchestrator/__init__.py:271-283 | exactly when DONE is reached with the gate open and a deployer that does not raise, and with the gate pending, where the deployer is not called |
| `Orchestration.Orchestrator.ProcessStory` | src/fastcoder/orchestrator/__init__.py:229-289 | over whole runs: no error context, only "progressing" verdicts, at most max_iterations passes and iterations, gated deployment; scans never act, nor do quality gates with a generator attached; DONE means a passed gate and, with a deployer attached, a call of it, or a pending gate and a table with TESTING to VERIFYING; with any components attached that answer well and with budget, exactly when DONE is reached, for an open and for a pending gate; under the shipped table always FAILED with nothing generated or deployed |
| `Orchestration.UndeployedRun` | src/fastcoder/orchestrator/__init__.py:271-283 | under every table with the way to TESTING, TESTING to VERIFYING and VERIFYING to DONE, a run with a pending gate ends DONE with a deployer attached that is never called |
| `Orchestration.AssistedRun` | src/fastcoder/orchestrator/__init__.py:229-289 | with every component attached and answering well, a run ends DONE exactly under the tables with all transitions of the path |
| `Orchestration.DeploymentEndsRun` | src/fastcoder/orchestrator/__init__.py:580-614 | a run whose log ends with a deployment step calls the deployer only after a passing check of an open gate |

## Left out

- Extracting imports from file contents and resolving paths: the graph model starts from resolved lists.
- Aliasing of graph nodes, memory entries and breakers: these records are values in maps; a memory entry stored twice as the same object would share its updates. The classes around them, the limiter's buckets, stories and routing contexts are objects.
- Aliasing in semantic search: the code keeps the caller's chunk list and hands out the cached result list itself, so a caller that mutates either puts the index or the cache out of step; the model copies both.
- The get_reviewers_for_changes, expert and blame functions, and parsing CODEOWNERS: score sums over the proved lookup.
- MemoryStore.store, evict, query and decay, and the entries that consolidate adds before merging: sorting and filtering of single lists.
- ModelRouting.ModelRouter.Route: optimality is stated for unique provider names and model ids, since the answer is looked up again by name.
- ModelRouting.ModelRouter.Complete: costs go to one tracker; RoutingContext has no metadata, so the code as well keeps one tracker without a story.
- CircuitBreakerRegistry status methods and reset: the registry is the map of breakers in the router.
- Migrations.MigrationManager.Migrate: a script is a function on schemas that runs through or fails; scripts that open transactions of their own, locks and two managers on one database are not modelled.
- Migrations.MigrateCompletes: like the other theorems about runs, for registries with positive versions and unique names; with a repeated name the second row cannot be entered, and a version that is not positive is never pending on an empty table.
- GraphExpansion.Expand: choosing start nodes, ranking, formatting and truncating the answer text are not modelled; neighbours are a set per node.
- SemanticSearch.SemanticSearch.Search: result objects carry a chunk and a score only, not match types and snippets.
- Orchestration.Orchestrator.EmitEvent: callbacks may act on the approval gates in any way; callbacks that change the story or the orchestrator are not modelled, nor is the registration of callbacks; those of the state machine run inside a transition, and every transition on the way to a gate check is followed by such an event.
- Orchestration.Orchestrator.RunAnalysis: an exception after the spec or plan is stored, as by logging it, is not told apart from one before.
- The evidence bundle and context enrichment of the orchestrator: their exceptions are swallowed and the loop reads nothing they write.
- Orchestration.Orchestrator.ProcessStory: total_cost_usd is never updated by the code, so the budget check always sees the initial total.
- Convergence.Check: confidence numbers and reasons are left out.
- Interleavings inside one call: every call of the limiter, of a breaker, of the gates and every completion is one atomic step with one clock reading; a completion that overlaps another may record a failure after a breaker has got stuck, and so free it.
- Float rounding, Unicode case folding and Python's recursion limit: reals, characters and mathematical recursion are used.
- PythonRegex: groups, counted repetitions and the other constructs that a compiled pattern yields only with loose backslashes read as unmodelled; nothing is claimed of what they match.
- LooseBackslashes.KeepsMeaningIff: covers patterns with at most one loose backslash; several in one pattern can open and close groups or refer back to them, which the reader of compiled text does not model.
- Web applications, authentication, providers, prompts, backups, checkpoints, metrics and logging: input and output around the modelled code.
