# WeaveRT: a model of its state machines and selection algorithms

This Dafny project models the parts of WeaveRT, a runtime for model-driven agents written in Python, whose
correctness spans many calls: the job store and the background-agent protocol on top of it, the glob algebra that
selects context-window profiles, the output log of the code assistant's shell broker and the watcher that follows
it, the reconciliation of shell jobs after a restart, the workflow ledger, and four smaller algorithms that narrow,
merge, schedule and observe. `dafny verify dfyconfig.toml` checks all of it.

## Structure

| file | component |
|---|---|
| `Text.dfy` | optional values and the string operations the sources use |
| `SelectorPatterns.dfy` | the glob tokenizer, the meaning of token sequences, the memoised overlap recursion |
| `ContextWindowProfiles.dfy` | profile validation and resolution |
| `LibraryGlobs.dfy` | where the token semantics agrees with the library's `fnmatch`, and where it does not |
| `JobRecords.dfy` | the transition table, record patches, runs over one job |
| `JobServices.dfy` | the job service as a class over a map of records |
| `AgentProtocol.dfy` | background agents as a state machine, one step for each stretch of code between two awaits |
| `AgentDispatchers.dfy` | the dispatcher as a class over the job service, each method one step of the machine |
| `JobProjection.dfy` | the durable form of a record |
| `ShellBroker.dfy` | the ring, the log, the capped buffers, the reader and the cursor-following watcher |
| `ShellReconciliation.dfy` | the pass that settles shell jobs after a restart |
| `WorkflowLedger.dfy` | the two folds and the declarative reading of their result |
| `ExecutionPolicies.dfy` | delegation chains |
| `RequestOverrides.dfy` | merging of request overrides |
| `TaskDiscipline.dfy` | the reminder schedule |
| `ToolExecutors.dfy` | exactly-once observation of tool calls |

Operations that loop or update fields are methods, proved equal to a specification function; the lemmas are about
those functions. Methods in classes state the whole state they leave.

## Assumptions

- The library's `fnmatch` is a parameter. `NeverAmbiguousExact` holds for every glob; `ValidatedNeverAmbiguous` for
  every glob that accepts a name under a listed pattern only if the token semantics does (`GlobWithinTokens`);
  `ValidatorExact` and `AnyProviderExact` for the glob that is the token semantics. `LibraryGlobs` reads `fnmatch` on
  *plain* selectors (classes that are not empty, do not start with `^`, and hold single characters and rising ranges
  without a stray hyphen), on a platform that does not fold case, and proves that there and on printable non-blank
  names it agrees with the tokens. Outside that fragment the two differ: the library takes `^` for a member and a `]`
  right after `[` or `[!` for a member, does not expand falling ranges, and lets `?` and classes match blanks and characters
  outside ASCII.
- Clocks are parameters and do not go back where timestamps are ordered. ISO text is never empty and parses back to
  the time it was written from.
- Cancellation of a background task comes only from a stop. The protocol's safety theorem takes *disciplined* runs:
  no stop while the submit is in progress, a cancelled `run` does not return a result (it may raise anything), emitting
  the notification of a result does not raise (in the other arms it may), recovery does not act on a stale listing.
  For each of these a lemma says what breaks without it, and when, and another gives a run that reaches it.
- The times of jobs and messages, where present, carry an offset.
- A shell entry is started once under its id.

## Where the code does less than it seems to

- A glob whose tokens have an empty class, such as `[]`, can be reported to overlap although no string matches those
  tokens (`EmptyClassCounterexample`; the exact condition is in `OverlapExact`).
- A validated list can be ambiguous for a concrete provider when the library reads a selector differently from the
  tokenizer: `[^a]` and `[a]` both match `a` (`CaretCounterexample`), `?` and `[ ]` both match a blank
  (`BlankCounterexample`). Exactly which lists can be ambiguous, for any provider and any glob, is
  `NeverAmbiguousExact`.
- A validated list can be ambiguous for a query without a provider (`AnyProviderCounterexample`). Exactly when it
  can is `OpenQueriesExact`. The stronger question, whether such a query ever meets two candidates of one kind, even
  where a more specific match hides them, is answered by validating the list without its provider names
  (`AnyProviderExact`).
- `create_or_update_compat` turns a started or finished job back to PENDING (`CompatCreationExact`).
- A failing notification, a stale recovery, an early stop and a swallowed cancellation each break the protocol as the
  four `...Breaks` lemmas say and the four `...Reached` lemmas show.
- A terminal run record that cannot be written after a cancellation ends the runner in an error that leaves its job
  RUNNING, although a stop waits for it (`LeftBehindReached`). Nothing else in one process leaves a job behind
  (`LeavingNeedsWriteRaises`, exact in `NoJobLeftBehind`), and the next stop or recovery finishes it
  (`LeftBehindIsFinishable`).
- A watcher loses text when a read exceeds its character limit, when a read comes after more than 256 new chunks from a
  running broker, and when a request goes unanswered while something is unread, because the cursor then takes the
  sidecar's output sequence (`ExceededLimitLosesText`, `UnansweredLosesText`). Lost text stays lost
  (`LossIsPermanent`). A run of requests delivers everything if and only if each of them was complete
  (`RunCompletesExact`, `WatchCompletesExact`).
- A tuple in a record's metadata or result comes back from storage as a list (`TupleDoesNotSurvive`, exact in
  `SurvivesUnchanged`).
- Sorting jobs of which some have no time and others do raises, and with it the ledger (`Unsortable`).
- How merges are grouped can change the skill name they record (`SourceSkillRegroups`) and the order of the sources
  they list (`SourcesOrderCounterexample`, exact in `SourcesOrderExact`).
- Finalizing a downgraded tool executor twice repeats calls (`SecondFinalizeExact`).

## Model

| member | source | states |
|---|---|---|
| SelectorPatterns.TokenizeSelectorPattern | packages/framework-core/src/weavert/context_window.py:75-127 | The index-advancing tokenizer computes the recursive token sequence, brackets, ranges and unclosed brackets included |
| SelectorPatterns.TokenAt | packages/framework-core/src/weavert/context_window.py:79-126 | One turn of the tokenizer's loop: the token at an index and where the next one starts |
| SelectorPatterns.ListBracketBody | packages/framework-core/src/weavert/context_window.py:99-117 | The inner bracket loop lists exactly the characters of the body, with ranges in either direction expanded |
| SelectorPatterns.BracketChars | packages/framework-core/src/weavert/context_window.py:94-122 | A class holds the printable characters its body lists, or for a leading `!` or `^` all the others |
| SelectorPatterns.TokenizeStep | packages/framework-core/src/weavert/context_window.py:75-127 | Tokenizing from any index equals one token followed by tokenizing from the next index |
| SelectorPatterns.NoSharedStringMissed | packages/framework-core/src/weavert/context_window.py:130-156 | If both token suffixes accept some string, the recursion standing at those two indices answers true |
| SelectorPatterns.BuildSharedString | packages/framework-core/src/weavert/context_window.py:130-156 | From a true answer on sequences without an empty class, a string that both sides accept is constructed |
| SelectorPatterns.EmptyClassAcceptsNothing | packages/framework-core/src/weavert/context_window.py:94-122 | A sequence that accepts any string has no empty class |
| SelectorPatterns.OverlapExact | packages/framework-core/src/weavert/context_window.py:130-156 | A common string exists if and only if the recursion answers true and neither side has an empty class |
| SelectorPatterns.EmptyClassCounterexample | packages/framework-core/src/weavert/context_window.py:94-156 | `[]` overlaps `*` although the tokens of `[]` accept no string: why the empty-class condition is needed |
| SelectorPatterns.IntersectsSymmetric | packages/framework-core/src/weavert/context_window.py:130-156 | The answer at every index pair is the same with the two sides exchanged, empty classes included |
| SelectorPatterns.OverlapMemo.Query | packages/framework-core/src/weavert/context_window.py:134-156 | A call through the cache returns what the plain recursion returns, and every entry of the table stays right |
| SelectorPatterns.OverlapMemo.Compute | packages/framework-core/src/weavert/context_window.py:135-154 | A cache miss computes the recursion branch by branch through further cached calls |
| SelectorPatterns.SelectorPatternsOverlap | packages/framework-core/src/weavert/context_window.py:130-156 | Tokenizing both globs and asking the memoised recursion decides overlap of the two globs |
| SelectorPatterns.AlphabetIsPrintable | packages/framework-core/src/weavert/context_window.py:56 | The alphabet is the printable, non-blank ASCII characters, `!` to `~` |
| SelectorPatterns.QuestionMarkAcceptsPrintable | packages/framework-core/src/weavert/context_window.py:84-87 | `?` accepts exactly the names of one such character |
| SelectorPatterns.RangeIsListed | packages/framework-core/src/weavert/context_window.py:102-114 | A hyphen between two characters lists every character between them, in either direction |
| SelectorPatterns.SingleIsListed | packages/framework-core/src/weavert/context_window.py:115-116 | Any other leading character lists itself, a hyphen before a hyphen included |
| SelectorPatterns.LiteralAcceptsItself | packages/framework-core/src/weavert/context_window.py:75-127 | A selector without `*`, `?` and `[` accepts exactly its own text |
| SelectorPatterns.NegationComplements | packages/framework-core/src/weavert/context_window.py:98-120 | A leading `!` or `^` complements the class within the characters `!` to `~` |
| ContextWindowProfiles.DiagnosePair | packages/framework-core/src/weavert/context_window.py:549-582 | The diagnostics of one pair of profiles, in the order of the tests |
| ContextWindowProfiles.ValidateProfiles | packages/framework-core/src/weavert/context_window.py:546-584 | The nested validation loop lists the diagnostics of every pair, later profile first |
| ContextWindowProfiles.CleanPairwise | packages/framework-core/src/weavert/context_window.py:546-584 | A list has no diagnostics exactly when no pair in it has one |
| ContextWindowProfiles.DiagnosticsMeaning | packages/framework-core/src/weavert/context_window.py:546-584 | The list holds exactly the diagnostics that are true of some pair, with their scope, names and selectors |
| Text.PatternCharacters | packages/framework-core/src/weavert/context_window.py:52-53 | A selector is a pattern exactly when it holds a star, a question mark or a bracket of either direction |
| ContextWindowProfiles.PairSymmetric | packages/framework-core/src/weavert/context_window.py:546-584 | Whether a pair is diagnosed does not depend on which profile comes first |
| ContextWindowProfiles.ResolveProfile | packages/framework-core/src/weavert/context_window.py:587-635 | The resolver's loops compute: by name, or else the only exact, then the only pattern, then the only default match |
| ContextWindowProfiles.ResolveByName | packages/framework-core/src/weavert/context_window.py:594-609 | By name: the one profile of that name that serves the provider, unknown if there is none, ambiguous if there are two |
| ContextWindowProfiles.ResolveByMatch | packages/framework-core/src/weavert/context_window.py:610-635 | By match: nothing exactly when nothing matches, and an ambiguity of a kind exactly when two entries of it match and none more specific does |
| ContextWindowProfiles.ResolvePicksMostSpecific | packages/framework-core/src/weavert/context_window.py:605-635 | A profile is found by match if and only if it matches and every other matching entry is of a strictly less specific kind: exact before pattern before provider default |
| ContextWindowProfiles.SharedQueryIsDiagnosed | packages/framework-core/src/weavert/context_window.py:244-258 | Two profiles that both answer one query of a concrete provider in the same way carry a diagnostic |
| ContextWindowProfiles.ValidatedNeverAmbiguous | packages/framework-core/src/weavert/context_window.py:546-635 | A list that validates is never ambiguous for a concrete provider, any model and any profile reference |
| ContextWindowProfiles.ValidatorExact | packages/framework-core/src/weavert/context_window.py:546-635 | With satisfiable classes the validator is silent if and only if no query of a concrete provider meets two candidates of one kind |
| ContextWindowProfiles.DiagnosticHasQuery | packages/framework-core/src/weavert/context_window.py:546-584 | For every diagnostic a query is built that meets two candidates |
| ContextWindowProfiles.AnyProviderCounterexample | packages/framework-core/src/weavert/context_window.py:244-258 | A clean list of two provider defaults is ambiguous for a query without a provider |
| ContextWindowProfiles.AnyProviderExact | packages/framework-core/src/weavert/context_window.py:244-258 | No query without a provider meets two candidates of one kind, even hidden ones, if and only if the list also validates with its provider names dropped |
| ContextWindowProfiles.NeverAmbiguousExact | packages/framework-core/src/weavert/context_window.py:587-635 | For any provider or none and any glob: no query is ambiguous if and only if no two profiles that serve the provider share a name, are both defaults, list one exact model, or are patterns with a common name that no serving exact profile lists |
| ContextWindowProfiles.OpenQueriesExact | packages/framework-core/src/weavert/context_window.py:587-635 | The same for queries without a provider, over every pair in the list |
| ContextWindowProfiles.ResolveIgnoresOrder | packages/framework-core/src/weavert/context_window.py:587-635 | The resolver's answer, ambiguity included, is the same for every permutation of the list |
| LibraryGlobs.TokensAgreeWithLibrary | packages/framework-core/src/weavert/context_window.py:244-258 | On plain selectors and printable non-blank names the library's reading and the token reading accept the same names |
| LibraryGlobs.ValidatedNeverAmbiguousInLibrary | packages/framework-core/src/weavert/context_window.py:546-635 | A validated list of plain selectors is never ambiguous for a concrete provider and a printable name with the library itself as the glob |
| LibraryGlobs.DisagreementIsAmbiguous | packages/framework-core/src/weavert/context_window.py:244-258 | Two selectors with disjoint tokens that a glob matches against one name make a validated list ambiguous |
| LibraryGlobs.CaretCounterexample | packages/framework-core/src/weavert/context_window.py:94-98 | `[^a]` and `[a]`, which the library both matches against `a`, validate and are ambiguous |
| LibraryGlobs.BlankCounterexample | packages/framework-core/src/weavert/context_window.py:56-87 | `?` and `[ ]`, which the library both matches against a blank, validate and are ambiguous |
| JobRecords.ValidateTransition | packages/framework-core/src/weavert/jobs.py:967-1025 | An accepted transition yields the proposed status, never a lower one, and never leaves a terminal status |
| JobRecords.TransitionExact | packages/framework-core/src/weavert/jobs.py:967-1025 | The table by phase: a start leaves PENDING other than to STOPPED, a stop asks for STOPPED, a recovery ends a RUNNING job, a compat update moves forward |
| JobRecords.ReportStores | packages/framework-core/src/weavert/jobs.py:1067-1100 | What an accepted report stores: its status, result, coerced error and metadata over the old ones, capabilities and stop request by phase, the times, and nothing else |
| JobRecords.CompatStores | packages/framework-core/src/weavert/jobs.py:640-698 | What an accepted compat update stores: each argument that was given, the rest kept |
| JobRecords.ExecutorKindMeaning | packages/framework-core/src/weavert/jobs.py:1103-1118 | The executor kind of a compat job by its metadata |
| JobRecords.UnwrittenSlotStays | packages/framework-core/src/weavert/jobs.py:640-923 | Over any run a result, error or metadata value that no accepted call writes stays |
| JobRecords.LastWriteWins | packages/framework-core/src/weavert/jobs.py:640-923 | Over any run each of them is what the last accepted call that wrote it gave |
| JobRecords.PerformKeepsCoherent | packages/framework-core/src/weavert/jobs.py:640-698 | Every accepted call keeps the job's identity and metadata keys and: start time iff not PENDING, end time iff terminal, created <= started <= ended <= updated |
| JobRecords.RunsMoveForward | packages/framework-core/src/weavert/jobs.py:967-1100 | Any run of calls under a non-decreasing clock only moves the status up and keeps terminal statuses, start times and coherence |
| JobRecords.SubmittedJobHistory | packages/framework-core/src/weavert/jobs.py:712-759 | For a job created by submit, at any two moments of any run the later status is no lower and a terminal one is final |
| JobRecords.HandlerKeepsTerminal | packages/framework-core/src/weavert/jobs.py:640-698 | A compat handler's updates cannot leave a terminal status; they raise exactly when one asks for another status |
| JobRecords.HandlerFromRunning | packages/framework-core/src/weavert/jobs.py:640-698 | From RUNNING a handler raises if and only if some call asks for PENDING, or for a status other than a terminal one asked for before |
| JobRecords.StopAcceptedMeaning | packages/framework-core/src/weavert/jobs.py:822-829 | The acceptance of a compat stop records the request, keeps RUNNING jobs running and stops PENDING ones |
| JobRecords.CompatStopFinishes | packages/framework-core/src/weavert/jobs.py:801-844 | With a handler that gives up at a refusal: a compat stop that returns has made the record terminal; from PENDING the record is STOPPED and the stop fails exactly when the handler asks for another status, from RUNNING exactly when the handler's calls conflict |
| JobRecords.CatchingStopFinishes | packages/framework-core/src/weavert/jobs.py:801-844 | With a handler that catches refusals a compat stop always returns with the job finished, STOPPED from PENDING |
| JobRecords.StopKeepsCoherent | packages/framework-core/src/weavert/jobs.py:801-844 | Under a clock that does not go back a compat stop keeps the lifecycle's promises, with either kind of handler, whether or not it returns |
| JobServices.JobService.constructor | packages/framework-core/src/weavert/jobs.py:286-304 | A new service has an empty store and no handlers |
| JobServices.JobService.BeginSubmit | packages/framework-core/src/weavert/jobs.py:712-745 | The first stretch of submit stores a PENDING record, or nothing if the executor is unknown |
| JobServices.JobService.FinishSubmit | packages/framework-core/src/weavert/jobs.py:745-759 | The last stretch of submit applies the start result, or FAILED when the executor raised |
| JobServices.JobService.ApplyPhase | packages/framework-core/src/weavert/jobs.py:860-923 | A phase result replaces one record by one with the reported status, result, error and metadata, or is refused, says why, and changes nothing |
| JobServices.JobService.PatchCompat | packages/framework-core/src/weavert/jobs.py:655-698 | The record a compat update stores, or a refusal, computed step by step |
| JobServices.JobService.UpdateCompat | packages/framework-core/src/weavert/jobs.py:640-698 | A compat update merges metadata, status and times into one record, or is refused and changes nothing |
| JobServices.JobService.CreateOrUpdateCompat | packages/framework-core/src/weavert/jobs.py:601-638 | The record is rewritten as PENDING with only timestamps, result and error of an old one kept |
| JobServices.CompatCreationExact | packages/framework-core/src/weavert/jobs.py:601-638 | Such a rewrite keeps the record coherent if and only if the job is new or still PENDING |
| JobServices.JobService.RegisterCompatStopHandler | packages/framework-core/src/weavert/jobs.py:700-704 | Registering a handler makes a stored job stoppable and changes nothing else |
| JobServices.JobService.RunHandler | packages/framework-core/src/weavert/jobs.py:830-836 | The handler's calls change one record, refused ones nothing, and a refusal escapes exactly from a handler that does not catch it |
| JobServices.JobService.StopWithoutExecutor | packages/framework-core/src/weavert/jobs.py:801-844 | Stop with only a compat handler, which may catch refusals: every outcome, the store it leaves, a terminal record on a normal return, and a coherent record in any case |
| AgentProtocol.StepKeepsInvariant | packages/framework-core/src/weavert/agent_dispatcher.py:316-513 | Every disciplined step between two awaits keeps the protocol invariant |
| AgentProtocol.RunKeepsInvariant | packages/framework-core/src/weavert/agent_dispatcher.py:316-513 | So does every disciplined interleaving |
| AgentProtocol.BackgroundProtocolSafe | packages/framework-core/src/weavert/agent_dispatcher.py:316-513 | No interleaving of runners, stops, recoveries and restarts is refused a transition; all terminal writers of a job agree; a job is notified at most once, exactly once if it completed, with the status it ended in |
| AgentProtocol.NotedStatusExact | packages/framework-core/src/weavert/agent_dispatcher.py:254-261 | In every disciplined run a job with a notification is COMPLETED, STOPPED or FAILED exactly by the notified agent status |
| AgentProtocol.CompletedIsNoted | packages/framework-core/src/weavert/agent_dispatcher.py:355-363 | A COMPLETED job has a notification that says completed |
| AgentProtocol.ResultIsReported | packages/framework-core/src/weavert/agent_dispatcher.py:337-363 | A returned run is notified with its own status and recorded as the status that stands for it |
| AgentProtocol.FailureIsReported | packages/framework-core/src/weavert/agent_dispatcher.py:410-431 | A run that raises is notified as failed and recorded FAILED |
| AgentProtocol.CancelledRunStops | packages/framework-core/src/weavert/agent_dispatcher.py:365-394 | A delivered cancellation ends the job STOPPED, with one such notification, and the waiting stop is legal |
| AgentProtocol.StopFinishesLostJobs | packages/framework-core/src/weavert/agent_dispatcher.py:450-488 | A stop finishes a RUNNING job whose runner is gone at once |
| AgentProtocol.ForgettingKeepsStatus | packages/framework-core/src/weavert/agent_dispatcher.py:50-72 | Dropping a finished task, and a restart, change no status |
| AgentProtocol.StepMovesForward | packages/framework-core/src/weavert/jobs.py:967-1025 | No step of any kind, disciplined or not, lowers a status or leaves a terminal one |
| AgentProtocol.RunMovesForward | packages/framework-core/src/weavert/jobs.py:967-1025 | The same for every run |
| AgentProtocol.NoJobLeftBehind | packages/framework-core/src/weavert/agent_dispatcher.py:335-488 | Without a restart a job is terminal, being submitted, run by a live task, or about to be finished by a stop, if and only if it is not a RUNNING job whose task ended in an error |
| AgentProtocol.LeavingNeedsWriteRaises | packages/framework-core/src/weavert/agent_dispatcher.py:365-371 | A run that leaves a job RUNNING behind a failed task contains a terminal run record write that raised for it |
| AgentProtocol.LeftBehindIsFinishable | packages/framework-core/src/weavert/agent_dispatcher.py:450-513 | A job left behind is finished, without a refused transition, by the next stop and by the next recovery |
| AgentProtocol.LeftBehindReached | packages/framework-core/src/weavert/agent_dispatcher.py:365-371 | A disciplined run from the start that leaves a job behind although a stop waits for it |
| AgentProtocol.RecoveryFinishesLostJobs | packages/framework-core/src/weavert/agent_dispatcher.py:490-513 | Recovery stops exactly the running jobs whose task is gone, and is never refused |
| AgentProtocol.EmitFailureBreaks | packages/framework-core/src/weavert/agent_dispatcher.py:355-431 | A notification that raises after a result is refused a transition unless the job had failed, and then the job is notified twice |
| AgentProtocol.StaleRecoveryBreaks | packages/framework-core/src/weavert/jobs.py:846-858 | Recovery from a stale listing is refused unless the job still runs or ended STOPPED with its runner finished |
| AgentProtocol.StopDuringSubmitBreaks | packages/framework-core/src/weavert/agent_dispatcher.py:433-488 | A stop that completes before the submit ends makes the start result, RUNNING or FAILED, an invalid transition, always |
| AgentProtocol.SwallowedCancelBreaks | packages/framework-core/src/weavert/agent_dispatcher.py:479-488 | A run that swallows its cancellation leaves the waiting stop a legal transition if and only if its result counts as stopped |
| AgentProtocol.CancelledRunMayRaise | packages/framework-core/src/weavert/agent_dispatcher.py:410-431 | A run that raises while being cancelled is no invalid transition: the job is FAILED and the waiting stop passes the error on |
| AgentProtocol.EmitFailureReached | packages/framework-core/src/weavert/agent_dispatcher.py:355-431 | A run from the start in which a failing notification leads to a refused transition |
| AgentProtocol.StaleRecoveryReached | packages/framework-core/src/weavert/jobs.py:846-858 | A run from the start in which a stale recovery is refused |
| AgentProtocol.StopDuringSubmitReached | packages/framework-core/src/weavert/agent_dispatcher.py:433-488 | Runs from the start in which a stop during submit makes the start result invalid, for both start results |
| AgentProtocol.SwallowedCancelReached | packages/framework-core/src/weavert/agent_dispatcher.py:479-488 | A run from the start in which a swallowed cancellation makes the waiting stop invalid |
| AgentDispatchers.AgentDispatcher.Submit | packages/framework-core/src/weavert/jobs.py:712-745 | Submitting an agent job is the protocol's submit step, or changes nothing if no agent executor is registered |
| AgentDispatchers.AgentDispatcher.SubmitReturns | packages/framework-core/src/weavert/agent_dispatcher.py:433-448 | Creating and registering the task and reporting RUNNING is the protocol's step |
| AgentDispatchers.AgentDispatcher.SubmitFails | packages/framework-core/src/weavert/jobs.py:738-759 | A submit that raised records FAILED: the protocol's step |
| AgentDispatchers.AgentDispatcher.RunReturns | packages/framework-core/src/weavert/agent_dispatcher.py:337-363 | Recording the mapped result with its metadata, payload and error, notifying and emitting, with the failure arm behind a refused record, is the protocol's step |
| AgentDispatchers.AgentDispatcher.RunRaises | packages/framework-core/src/weavert/agent_dispatcher.py:410-431 | The failure arm is the protocol's step |
| AgentDispatchers.AgentDispatcher.StoppedWritten | packages/framework-core/src/weavert/agent_dispatcher.py:365-394 | The cancellation arm after its write is the protocol's step |
| AgentDispatchers.AgentDispatcher.WriteRaises | packages/framework-core/src/weavert/agent_dispatcher.py:365-371 | A terminal run record write that raises ends the task in that error: the protocol's step |
| AgentDispatchers.AgentDispatcher.EmitRaises | packages/framework-core/src/weavert/agent_dispatcher.py:363-431 | An emission that raises leads to the failure arm after a result and ends the task elsewhere: the protocol's step |
| AgentDispatchers.AgentDispatcher.Stop | packages/framework-core/src/weavert/agent_dispatcher.py:450-478 | Stop up to its first await refuses terminal jobs, finds every other agent job stoppable, finishes handle-less ones, or cancels the task and waits: the protocol's step |
| AgentDispatchers.AgentDispatcher.StopResumes | packages/framework-core/src/weavert/agent_dispatcher.py:479-488 | A stop whose task ended records STOPPED, or passes on the task's error: the protocol's step |
| AgentDispatchers.AgentDispatcher.RecoverListed | packages/framework-core/src/weavert/agent_dispatcher.py:490-513 | Recovery of a listed record keeps a live job RUNNING and stops a lost one: the protocol's step |
| AgentDispatchers.AgentDispatcher.RecoverInflight | packages/framework-core/src/weavert/jobs.py:846-858 | A recovery pass over a listing is the series of the protocol's recovery steps |
| AgentDispatchers.AgentDispatcher.ForgetFinished | packages/framework-core/src/weavert/agent_dispatcher.py:50-72 | Dropping a finished task from the table is the protocol's step |
| AgentDispatchers.RecoveryPassSafe | packages/framework-core/src/weavert/jobs.py:846-858 | A whole recovery pass keeps the protocol invariant, so none of its records is refused |
| JobProjection.JsonSafeIdempotent | packages/framework-core/src/weavert/jobs.py:1163-1178 | The JSON-safe conversion is idempotent at every depth and leaves alone exactly the values JSON can hold |
| JobProjection.ConversionMeaning | packages/framework-core/src/weavert/jobs.py:1163-1178 | What each kind of value is converted to |
| JobProjection.ConvertedElements | packages/framework-core/src/weavert/jobs.py:1176-1177 | Sequences are converted element by element |
| JobProjection.ConvertedLookup | packages/framework-core/src/weavert/jobs.py:1163-1166 | Under each text a converted dictionary has the converted value of the last key that prints as it |
| JobProjection.MissingLookup | packages/framework-core/src/weavert/jobs.py:1163-1166 | A text no key prints as is not in the converted dictionary |
| JobProjection.SavedFields | packages/framework-core/src/weavert/jobs.py:220-243 | Each field is saved under its own name |
| JobProjection.StatusTexts | packages/framework-core/src/weavert/jobs.py:26-35 | The texts of the statuses |
| JobProjection.ForeignPayload | packages/framework-core/src/weavert/jobs.py:245-273 | Loading any payload: which status texts are refused, and the replacements for blank identity and kind and unreadable times |
| JobProjection.LoadAfterSave | packages/framework-core/src/weavert/jobs.py:220-273 | Loading what was saved never fails and yields the record with its text, links and nested values normalised and all else intact |
| JobProjection.DurableFormIsProjection | packages/framework-core/src/weavert/jobs.py:220-273 | What one save and load yields, every further save and load reproduces |
| JobProjection.TupleDoesNotSurvive | packages/framework-core/src/weavert/jobs.py:1174-1177 | A record whose metadata holds a tuple loads with a list in its place |
| JobProjection.SurvivesUnchanged | packages/framework-core/src/weavert/jobs.py:220-273 | A record survives a save and load unchanged if and only if its text is stripped, its kind is set and its nested values are JSON |
| ShellBroker.BrokerEntry.constructor | examples/apps/code_assistant/shell_broker.py:240-278 | A new entry numbers from 1 in memory and keeps the lines already in the file |
| ShellBroker.BrokerEntry.Reload | examples/apps/code_assistant/shell_broker.py:734-792 | A later broker loads an entry with its buffers, sequence and file, and an empty ring |
| ShellBroker.BrokerEntry.AppendOutput | examples/apps/code_assistant/shell_broker.py:545-566 | An append adds the next numbered chunk to the log and keeps the ring, both capped buffers and the recent output as functions of the whole log |
| ShellBroker.CappedIsTail | examples/apps/code_assistant/shell_broker.py:854-858 | A capped buffer holds the last 12000 characters, or all |
| ShellBroker.RingIsTail | examples/apps/code_assistant/shell_broker.py:20-21 | The ring holds the last 256 chunks, or all |
| ShellBroker.CappingCommutes | examples/apps/code_assistant/shell_broker.py:854-858 | Capping after every append gives the last 12000 characters of everything ever appended |
| ShellBroker.LastOfAppend | examples/apps/code_assistant/shell_broker.py:558-560 | Cutting a ring after every append gives the last entries of the whole log |
| ShellBroker.BrokerEntry.OutputSinceSequence | examples/apps/code_assistant/shell_broker.py:699-732 | The reader's memory branch and its file loop compute the text and the latest sequence after a cursor |
| ShellBroker.RingRefinesLog | examples/apps/code_assistant/shell_broker.py:699-732 | Memory and file reads report the same latest sequence for every cursor, and the same text for every cursor not older than the ring |
| ShellBroker.OldCursorReads | examples/apps/code_assistant/shell_broker.py:699-732 | For an older cursor the two texts agree if and only if the ring alone fills the character limit |
| ShellBroker.BrokerEntry.Read | examples/apps/code_assistant/shell_broker.py:358-373 | A read request, with its defaults, answers what the full log would for cursors not older than the ring, and for every cursor once the entry was reloaded |
| ShellBroker.PollReads | examples/apps/code_assistant/shell_broker.py:699-732 | A poll answers with the unread part of the ring, or of the file after a reload, and moves the cursor to the end of the log |
| ShellBroker.NeverTwice | examples/apps/code_assistant/builtin_overrides.py:1263-1300 | In every interleaving of appends, reads, unanswered requests and broker restarts the cursor never goes back and no chunk is delivered twice |
| ShellBroker.ExactlyOnce | examples/apps/code_assistant/builtin_overrides.py:1263-1300 | If each read finds at most 256 unread chunks (any number after a reload) within its limit, and requests go unanswered only when nothing is unread, the joined reads are the log up to the cursor, and the whole log after a final read |
| ShellBroker.WatcherReceivesOutputOnce | examples/apps/code_assistant/builtin_overrides.py:1263-1300 | The same from the start of a watch |
| ShellBroker.PollCompletesExact | examples/apps/code_assistant/shell_broker.py:699-732 | One read completes the output if and only if no unread text is out of its sight and the limit cuts nothing |
| ShellBroker.EventCompletesExact | examples/apps/code_assistant/shell_broker.py:699-732 | After any event the joined reads are either still the output up to the cursor, or, exactly for an incomplete request, shorter than it |
| ShellBroker.LossIsPermanent | examples/apps/code_assistant/builtin_overrides.py:1263-1300 | Joined reads that are shorter than the output up to the cursor stay shorter, whatever happens later |
| ShellBroker.RunCompletesExact | examples/apps/code_assistant/builtin_overrides.py:1263-1300 | Over any run the joined reads are the output up to the cursor if and only if every request was complete |
| ShellBroker.WatchCompletesExact | examples/apps/code_assistant/builtin_overrides.py:1263-1300 | A watch that ends with a request, answered or not, has received the whole output if and only if every request was complete |
| ShellBroker.UnansweredLosesText | examples/apps/code_assistant/builtin_overrides.py:1271-1300 | An unanswered request moves the cursor past non-empty text that no read has brought |
| ShellBroker.ExceededLimitLosesText | examples/apps/code_assistant/shell_broker.py:699-732 | A concrete session in which an exceeded limit cuts text that the next read does not bring |
| ShellReconciliation.ReconcileBackgroundShellJobs | examples/apps/code_assistant/builtin_overrides.py:238-317 | One pass over the store's records leaves exactly the reconciled records, watches and stop handlers |
| ShellReconciliation.ReconcileOne | examples/apps/code_assistant/builtin_overrides.py:245-317 | One record is skipped, refreshed with a new stop handler, or marked, and no other record changes |
| ShellReconciliation.JudgeSnapshot | examples/apps/code_assistant/builtin_overrides.py:255-316 | The chain of tests on workspace, sidecar, broker and snapshot picks the verdict |
| ShellReconciliation.VerdictIsLegal | examples/apps/code_assistant/builtin_overrides.py:1434-1458 | No verdict on an open job is ever an invalid transition |
| ShellReconciliation.ReattachesMeaning | examples/apps/code_assistant/builtin_overrides.py:1487-1520 | A job is reattached if and only if the broker reports it running; every other verdict is terminal |
| ShellReconciliation.SettledText | examples/apps/code_assistant/builtin_overrides.py:1487-1520 | The shell status a pass goes by, from the broker, the sidecar and the process |
| ShellReconciliation.ReconciledMeaning | examples/apps/code_assistant/builtin_overrides.py:1426-1458 | What a pass makes of an open shell job: its status by the shell status, the stored payload and metadata, and an error only on failure |
| ShellReconciliation.ErrorMeaning | examples/apps/code_assistant/builtin_overrides.py:255-316 | The error text by cause |
| ShellReconciliation.ReattachedMeaning | examples/apps/code_assistant/builtin_overrides.py:287-303 | Exactly the open, unwatched shell jobs whose broker reports them running are reattached |
| ShellReconciliation.PassSettlesShellJobs | examples/apps/code_assistant/builtin_overrides.py:238-317 | After a pass a shell job is open if and only if it was open and has a live watch or a broker that reports it running; other jobs are untouched |
| ShellReconciliation.SecondPassChangesNoStatus | examples/apps/code_assistant/builtin_overrides.py:238-317 | With the same answers a second pass changes no status, with or without an event loop |
| WorkflowLedger.CoveredRevisionAt | examples/apps/code_assistant/app.py:1078-1083 | Counts the edits that happened no later than a time |
| WorkflowLedger.ReadToolResult | examples/apps/code_assistant/app.py:884-915 | One tool result of the first pass updates the tally in the order of the tests |
| WorkflowLedger.ReadJob | examples/apps/code_assistant/app.py:917-936 | One job of the second pass updates the tally |
| WorkflowLedger.BuildWorkflowLedger | examples/apps/code_assistant/app.py:872-950 | The two loops compute the two folds, unless the sort of the jobs raises |
| WorkflowLedger.FirstPassMeaning | examples/apps/code_assistant/app.py:884-915 | After the first pass a revision reaches r exactly when a passing event follows at least r edits |
| WorkflowLedger.FirstPassLabels | examples/apps/code_assistant/app.py:884-915 | After the first pass each label is that of the last review and of the last verification |
| WorkflowLedger.EditMeaning | examples/apps/code_assistant/app.py:888-895 | An edit is a successful edit or write that does not say it changed nothing |
| WorkflowLedger.VerificationShellMeaning | examples/apps/code_assistant/app.py:1047-1056 | Which shell results are verifications |
| WorkflowLedger.PhaseMeaning | examples/apps/code_assistant/app.py:1065-1075 | How a summary is read: its own verdict, then any failure, then any word of success |
| WorkflowLedger.PassingMeaning | examples/apps/code_assistant/app.py:1059-1062 | What counts as a passing verification, review and job |
| WorkflowLedger.CoveredCounts | examples/apps/code_assistant/app.py:1078-1083 | The covered revision is the number of edits no later than the time |
| WorkflowLedger.JobOrderMeaning | examples/apps/code_assistant/app.py:1086-1090 | A later end comes later, and among equal ends the later id |
| WorkflowLedger.LedgerMeaning | examples/apps/code_assistant/app.py:872-950 | All three revisions, stated over the events and jobs without the folds |
| WorkflowLedger.ReadyMeaning | examples/apps/code_assistant/app.py:953-965 | Ready to summarize if and only if there is an edit, a passing review follows the last one, and a passing verification follows it or a passing verification job ended no earlier than every edit |
| WorkflowLedger.StateMeaning | examples/apps/code_assistant/app.py:953-965 | Each of the four states, exactly, by edits, what follows the last edit, and jobs that cover all edits |
| WorkflowLedger.RevisionsBounded | examples/apps/code_assistant/app.py:872-950 | Neither revision exceeds the number of edits |
| WorkflowLedger.RevisionsNeverFall | examples/apps/code_assistant/app.py:872-950 | Appending messages or jobs lowers no revision |
| WorkflowLedger.NumbersIgnoreJobOrder | examples/apps/code_assistant/app.py:917-936 | Permuting the jobs changes no number, no state and no review label |
| WorkflowLedger.SortJobsSorted | examples/apps/code_assistant/app.py:1086-1090 | The jobs are taken in the order of the sort key |
| WorkflowLedger.LastLabelMeaning | examples/apps/code_assistant/app.py:917-936 | The last verification label is that of the latest counted job, or of the messages if no job counts |
| ExecutionPolicies.ByNameMeaning | packages/framework-core/src/weavert/execution_policy.py:436-456 | The narrowed pool is strictly sorted by name and keeps the last tool listed under each name |
| ExecutionPolicies.NarrowedPoolMeaning | packages/framework-core/src/weavert/execution_policy.py:436-464 | A narrowed pool holds exactly the last admitted tool of each name, which is every admitted tool if the base's names are distinct |
| ExecutionPolicies.LevelPools | packages/framework-core/src/weavert/execution_policy.py:237-346 | One agent or skill level: exactly which tools and skills remain |
| ExecutionPolicies.ChainPools | packages/framework-core/src/weavert/execution_policy.py:237-346 | For chains of any length: a skill remains if and only if the root has it and every level admits it; a tool if and only if it is the last of its name among those the first level admits and every further level admits it, or, if the root names each tool once, if and only if the root has it and every level admits it |
| ExecutionPolicies.AdmitsExact | packages/framework-core/src/weavert/execution_policy.py:436-464 | A tool passes when some allowed selector selects its name or an alias, or none is given, and no disallowed one does |
| ExecutionPolicies.RankOrder | packages/framework-core/src/weavert/execution_policy.py:406-424 | The order of the permission modes |
| ExecutionPolicies.PermissionChoice | packages/framework-core/src/weavert/execution_policy.py:406-424 | A child gets the mode it asks for unless that ranks above its parent's mode |
| ExecutionPolicies.ChainMode | packages/framework-core/src/weavert/execution_policy.py:406-424 | The mode at the end of a chain is the one the last granted level asked for |
| ExecutionPolicies.ChainModeStays | packages/framework-core/src/weavert/execution_policy.py:406-424 | Without a granted request the root's mode stays |
| ExecutionPolicies.ChainPermissions | packages/framework-core/src/weavert/execution_policy.py:406-424 | The permission rank after any chain is the lowest of the root's and all requested ones |
| ExecutionPolicies.ChainIsolation | packages/framework-core/src/weavert/execution_policy.py:395-403 | The isolation after any chain is the strongest of the root's and all requested ones |
| ExecutionPolicies.ChainMemory | packages/framework-core/src/weavert/execution_policy.py:384-392 | The memory scope after any chain is the narrowest of all that were set |
| ExecutionPolicies.EnforceChildDelegation | packages/framework-core/src/weavert/execution_policy.py:185-205 | An accepted child's depth is between 1 and the configured maximum |
| ExecutionPolicies.DelegationExact | packages/framework-core/src/weavert/execution_policy.py:185-205 | A child is accepted, one deeper, exactly below the limit, with the defaults and clipping of both numbers |
| ExecutionPolicies.DepthIsExact | packages/framework-core/src/weavert/execution_policy.py:185-205 | A chain of spawns is accepted exactly as far as the configured maximum reaches |
| RequestOverrides.CollectSources | packages/framework-core/src/weavert/contracts.py:537-547 | The source loop normalises candidates and keeps first occurrences |
| RequestOverrides.ResolveFieldSources | packages/framework-core/src/weavert/contracts.py:554-564 | The attribution loop gives every field the source of the operand it came from |
| RequestOverrides.MergeRequestOverrideState | packages/framework-core/src/weavert/contracts.py:498-576 | The merge with its early returns and its drop of an empty result |
| RequestOverrides.TruthyMeaning | packages/framework-core/src/weavert/contracts.py:224-234 | An override is truthy exactly when it sets one of the five fields |
| RequestOverrides.MergeKeepsFields | packages/framework-core/src/weavert/contracts.py:512-536 | Each field is the incoming value or else the current one; the result is dropped exactly when nothing is set |
| RequestOverrides.MergeAttributes | packages/framework-core/src/weavert/contracts.py:507-510 | Each field is attributed as the operand its value came from attributes it |
| RequestOverrides.SkillIsRecorded | packages/framework-core/src/weavert/contracts.py:548-553 | A source that names a skill records it, unless a skill is on record |
| RequestOverrides.SeriesResumable | packages/framework-core/src/weavert/contracts.py:565-575 | A series is resumable if and only if one of its overrides is |
| RequestOverrides.SeriesMetadata | packages/framework-core/src/weavert/contracts.py:549-550 | Of the remaining metadata each key has the value of the last override that has it |
| RequestOverrides.LastSetWins | packages/framework-core/src/weavert/contracts.py:498-576 | After any series of merges each field has the last value set, attributed as its own override attributes it |
| RequestOverrides.MergeRecords | packages/framework-core/src/weavert/contracts.py:498-576 | A merge records exactly the sources of both operands and the operands themselves |
| RequestOverrides.MergeAssociates | packages/framework-core/src/weavert/contracts.py:498-576 | Merging is associative on fields, source, resumable flag, attribution, remaining metadata and recorded sources |
| RequestOverrides.RegroupingChangesNothing | packages/framework-core/src/weavert/contracts.py:498-576 | Every bracketing of a series of merges gives what merging from the left gives, in those parts |
| RequestOverrides.SourceSkillRegroups | packages/framework-core/src/weavert/contracts.py:498-576 | Regrouping leaves the recorded skill name alone exactly under the stated condition |
| RequestOverrides.SourcesOrderExact | packages/framework-core/src/weavert/contracts.py:537-552 | Grouping left and right lists the same sources in the same order if and only if the new names among the first two sources also come first among the names the right grouping adds |
| RequestOverrides.SourcesOrderCounterexample | packages/framework-core/src/weavert/contracts.py:537-552 | Three overrides with different sources and nothing on record list them in different orders under the two groupings |
| TaskDiscipline.TaskDisciplineSidecar.StateFor | packages/framework-core/src/weavert/task_discipline.py:123-129 | Creates the counters of a key on first use and returns them |
| TaskDiscipline.TaskDisciplineSidecar.RecordTaskTouch | packages/framework-core/src/weavert/task_discipline.py:49-51 | Moves the last touch of one key up to the current turn |
| TaskDiscipline.TaskDisciplineSidecar.Collect | packages/framework-core/src/weavert/task_discipline.py:71-121 | Counts the turn of one key, reminds exactly when due, and reports the turns since the last touch |
| TaskDiscipline.RemindersAreSpaced | packages/framework-core/src/weavert/task_discipline.py:100-108 | In every run each reminder comes at least a threshold of turns after the start and after every earlier touch and reminder |
| TaskDiscipline.ReminderBudget | packages/framework-core/src/weavert/task_discipline.py:71-121 | In n turns at most n/T reminders fire |
| TaskDiscipline.Threshold | packages/framework-core/src/weavert/task_lists.py:229-237 | The threshold is the configured value, at least 1, and 3 by default |
| TaskDiscipline.RemindersAfterTouch | packages/framework-core/src/weavert/task_discipline.py:71-121 | Left alone after a touch, whatever came before, a reminder fires in a turn if and only if it is a multiple of T later |
| TaskDiscipline.SteadyReminders | packages/framework-core/src/weavert/task_discipline.py:71-121 | Left alone with unresolved tasks, a reminder fires in a turn if and only if the turn is a multiple of T |
| ToolExecutors.ToolExecutor.MarkObserved | packages/framework-core/src/weavert/tool_executors.py:42-46 | True exactly on the first sight of a call id, which is then remembered |
| ToolExecutors.ToolExecutor.ObserveStreamCalls | packages/framework-core/src/weavert/tool_executors.py:58-76 | Forwards the unseen calls of a batch, and nothing once downgraded |
| ToolExecutors.ToolExecutor.Finalize | packages/framework-core/src/weavert/tool_executors.py:78-129 | Downgrades on a pending call, forwards the calls not seen yet where the path is buffered, and finalizes the orchestrator |
| ToolExecutors.UnseenMeaning | packages/framework-core/src/weavert/tool_executors.py:120-128 | The forwarded calls are the unseen ones, each once |
| ToolExecutors.UnseenIndexes | packages/framework-core/src/weavert/tool_executors.py:68-76 | Each forwarded call carries the block index of its first occurrence, in rising order |
| ToolExecutors.StreamedOnce | packages/framework-core/src/weavert/tool_executors.py:58-76 | After any series of batches the orchestrator has received exactly the streamed calls, once each |
| ToolExecutors.ExactlyOnceObservation | packages/framework-core/src/weavert/tool_executors.py:58-129 | Any series of batches and one finalize: no call arrives twice, and which calls arrive on each path |
| ToolExecutors.SecondFinalizeExact | packages/framework-core/src/weavert/tool_executors.py:91-106 | A second finalize of a downgraded executor repeats a call if and only if both finalizes bring one the stream had not shown |

## Left out

- Sockets, processes, pseudo-terminals, signals, files and JSON text: broker answers, sidecar files and process liveness are an oracle, the log file is a sequence of chunks.
- The event loop itself: only the stretches between awaits are modelled; delivering a cancellation and finishing an emission are steps of the machine without a method of their own.
- Cancelling a waiter inside `wait_for_background`.
- Scope filters, watcher callbacks, locks, session and team ids, sidecar references and the description field in the lifecycle model; `JobProjection` has all of a record's fields.
- AgentDispatchers.AgentDispatcher.SubmitReturns: the metadata keeps run, turn, kind and status only, because the protocol reads no more.
- AgentDispatchers.AgentDispatcher.RecoverInflight: covers agent jobs in one listing; executors of other kinds are not part of this model.
- Restarting a shell entry under an old id, which restarts the numbering without truncating the file; the unnamed constructor states what is kept, and the invariant is claimed for an empty file only. Output that a broker had captured but not appended when it ended is not part of this model.
- ContextWindowProfiles.ValidatedNeverAmbiguous: takes a glob within the token semantics; `LibraryGlobs` shows that the library is one on plain selectors and printable names, and that it is not beyond them.
- LibraryGlobs.TokensAgreeWithLibrary: covers plain selectors only; the library's rules for other classes and its case folding on some platforms are not modelled.
- ShellBroker.NeverTwice: models the watcher's cursor and answers, not the payload it writes into the job, where an empty answer repeats the last text.
- ShellReconciliation.ReconcileOne: reduces the shell payload to its status, because the rest does not influence a job's status.
- The shell stop handler that reconciliation registers: only its registration is modelled.
- Pairing of messages with tool results, and the lower-casing and stripping of text before the ledger reads it; parsing of timestamps.
- WorkflowLedger.BuildWorkflowLedger: leaves out the titles and texts that accompany the last outcome and keeps whether it passed.
- Context-window snapshot arithmetic and the bookkeeping of `ExecutionPolicyState.apply`: single-pass computations.
- ExecutionPolicies.NarrowedPoolMeaning: the library glob is a parameter, and a definition is reduced to its names and a payload.
- JobProjection.LoadAfterSave: payloads are values, not JSON text, and the sorting of keys on disk is not modelled.
- The choice of a tool executor tier from model capabilities, rendering of the reminder text, and the task-list service behind it.
