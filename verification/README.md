# Incident platform: verified models of its shared-state protocols

This project models the protocols of the incident platform's backend that rest on
shared tables, a shared store or in-process state, and proves what each of them
keeps over whole runs. Time is an integer (or a real, for monotonic clocks and
metric values), identifiers are opaque naturals, hashes are given values, and one
SQL statement or store operation is one atomic step. A step that is not enabled
changes nothing, so every sequence of steps is a run.

| file | what it models |
|---|---|
| `Idempotency.dfy`, `IdempotencyProtocol.dfy` | the records table, `acquire`/`lookup`, and any number of callers interleaving on it |
| `ToolCall.dfy`, `JsonText.dfy` | the claim, savepoint and audit envelope around one MCP `tools/call`, and the two encoders of its answer |
| `Jobs.dfy`, `JobRuns.dfy` | job rows, the breadth-first cascade, outbox events of terminal writes, runs of writes |
| `CircuitBreaker.dfy`, `BreakerRuns.dfy`, `BreakerReset.dfy`, `BreakerResetProtocol.dfy` | the three-state breaker, overlapping calls, the cross-process reset |
| `DedupKeys.dfy`, `AlertEpisodes.dfy`, `AlertRaceAudit.dfy`, `AlertRules.dfy`, `AlertRuleRuns.dfy`, `AlertSweep.dfy` | episode keys, racing replicas, the two alert rules tick after tick, and the sweep that closes every episode |
| `AgentRun.dfy`, `AgentRunColumns.dfy`, `TailPoll.dfy`, `TailOccurrences.dfy` | the agent-run ledger and the cursor read that tails it, with increasing seqs and with any |
| `LagRing.dfy` | the capped, time-pruned window of consumer-lag samples |
| `Outbox.dfy` | the relay's window, how attempts end, the delivery snapshot |
| `Metrics.dfy`, `MetricsEmitter.dfy` | the statistic-set fold, the cardinality guard, the queue and its flushes |
| `Options.dfy`, `Sequences.dfy` | optional values; a stable sort and a fact about reordered sequences, shared |

Exclusion and replay on an idempotency key are proved for runs that shelter its
executions: a claim stays uncommitted, and so unseen, until its execution ends, as under
the one request transaction of the shipped envelope, or it outlasts the execution. With
neither, which the envelope never allows, exclusion fails
(`IdempotencyProtocol.OverrunBreaksExclusion`).

An object the source updates in place is a class whose methods are proved equal to
a function of the old state; the theorems over runs are lemmas about those functions.

## Where the code promises less than it seems to

Each of these is kept as the code has it, shown by a lemma, and paired with the
exact condition under which the promise holds.

- A terminal `update_status` whose caller passes `completed_at=None` leaves a
  terminal row without a completion time
  (`JobRuns.TerminalWriteAnnouncesUnlessCleared`).
- The cascade stops after 50 levels; it strands a blocked job exactly when one lies
  beyond that reach (`JobRuns.CascadeLeavesNoneStrandedIff`).
- A failure threshold below one behaves as one
  (`BreakerRuns.FailingUpstreamSeesBoundedLoad`).
- The reset signal is a key with a TTL of one day. After it expires, an old failure can be
  published again exactly if some breaker still remembers one
  (`BreakerResetProtocol.SafeAfterSignalExpiryIff`).
- A failure newer than the reset can still vanish from its published record, because the
  clean test never compares times: a reset in progress rewrites it if it reads the newer
  record itself (`BreakerResetProtocol.ResetReadsANewerFailureAsDirty`), even one first
  published after the signal, since the keys are listed later
  (`BreakerResetProtocol.RecordNewSinceTheSignalIsRewritten`), or if it had read an older
  one dirty (`BreakerResetProtocol.RewriteOverwritesANewerPublish`). It survives exactly if
  every reset in progress has listed its keys and has its record neither to read nor to
  rewrite (`BreakerResetProtocol.PublishedFailureSurvivesIff`); the breaker's own memory
  keeps it until a new reset.
- A second reset finds nothing to rewrite only if, since the first signal, no breaker
  failed, no probe was undone, the signal stayed readable, the first reset read every
  record and lost no rewrite, and its signal was later than any a breaker had weighed
  (`BreakerResetProtocol.SecondResetRewritesNothing`); each condition has a lemma that
  breaks it. A lost rewrite is counted as done all the same.
- A replayed answer is the same document but not the same text: a fresh answer and a replay
  are encoded with different separators and escapes, so the texts agree exactly if the
  output has no field (`JsonText.SameTextIff`, `ToolCall.RepeatGivesTheSameDocument`).
- The open check and the episode count of a raise are two statements; if another
  replica raises between them, a series gets two open episodes
  (`AlertRace.TwoSnapshotsCanOpenTwo`). One open episode per series holds if every count
  runs while its series has nothing open, and a count that does not breaks it with its
  own insert (`AlertRace.CountWhileOpenOpensTwo`).
- A resolve compares nothing before it writes, so two replicas that have picked the same
  open alert both record its end. Each alert has at most one resolved row, however a run's
  picks are carried through, exactly if no alert is picked while another replica still has
  it picked (`AlertRaceAudit.OneResolvedRowIff`).
- A dedup prefix also matches subjects that extend its own by a colon
  (`DedupKeys.PrefixMatchIff`). Over a family of series, contiguous ordinals and a
  single open episode hold on every run exactly if no subject extends another that
  way (`AlertRace.PromisesHoldIffSeparate`), and the closing sweep closes everything
  in every listing order exactly if no open alert's prefix reaches a newer open one of
  another series (`AlertSweepOrder.EveryOrderClosesAllIff`).
- An exception while the lab probe is resolved or the key is acquired is answered
  with an error and commits without an audit row; predicate `Foreseen` in
  `ToolCall.dfy` says exactly when. An output that cannot be encoded is found out after
  the success was audited and the claim completed, so the reply is an error over changed
  data; predicate `Committed` says exactly when, and when a response-less claim of the
  call survives (`ToolCall.Server.HandleToolsCall`).
- `lag_samples_at_interval` rounds down while the stored window settles on the
  rounded-up count (`LagRing.SteadyWindowSettles`).
- A step reported out of order can lie below the cursor and go undelivered to a tail; each
  occurrence is delivered at most once (`TailOccurrences.SentAtMostOnce`) and exactly if
  some poll held it with the cursor below its seq (`TailOccurrences.DeliveredIsWhatWasSent`).
- Stopping the metrics emitter while a flush waits between two of its calls loses
  the entries not yet sent, uncounted (`MetricsEmitter.InterruptedStopLosesSamples`,
  `MetricsEmitter.BooksBalanceIff`).

## Model

| member | source | states |
|---|---|---|
| `Idempotency.RecordTable.InsertClaim` | backend/app/repositories/idempotency.py:36-73 | insert-if-absent: refused exactly when the (tenant, principal, key) is held, otherwise a fresh response-less row; keys stay unique |
| `Idempotency.RecordTable.GetByKey` | backend/app/repositories/idempotency.py:18-34 | finds the holder of a key, and finds none only if no row has the key |
| `Idempotency.RecordTable.CompleteClaim` | backend/app/repositories/idempotency.py:75-89 | writes response and expiry to the row with that id and to no other |
| `Idempotency.RecordTable.DeleteById` | backend/app/repositories/idempotency.py:91-97 | removes that id and nothing else, also when it is already gone |
| `Idempotency.RecordTable.DeleteExpired` | backend/app/repositories/idempotency.py:99-111 | removes exactly the rows whose expiry is before the cutoff and returns how many |
| `Idempotency.RecordTable.Acquire` | backend/app/services/idempotency.py:131-197 | undisturbed, the two-attempt loop claims exactly when no unexpired row holds the key, evicting an expired one, and otherwise replays, refuses as reused or as in flight without touching the table |
| `Idempotency.RecordTable.Lookup` | backend/app/services/idempotency.py:91-129 | the same verdict without claiming; an expired record is evicted and no other key is touched |
| `IdempotencyProtocol.OneRowPerKey` | backend/app/repositories/idempotency.py:36-111 | on every interleaving of callers, evictions and reaper passes no key ever has two rows |
| `IdempotencyProtocol.AtMostOneExecutesPerKey` | backend/app/services/idempotency.py:151-220 | on every run that shelters executions on the key, whatever happens on other keys, at most one caller is between winning the insert and completing or releasing |
| `IdempotencyProtocol.OthersNeverTouchAnOwnedRow` | backend/app/services/idempotency.py:163-220 | no step of another caller or of the reaper on such a run alters the row a caller is executing under |
| `IdempotencyProtocol.CompletedKeyReplaysUntilExpiry` | backend/app/services/idempotency.py:163-216 | after a completion and until its expiry no caller whatever executes on the key; every later call replays exactly that response or is refused as reused, and so does every call in flight, but for a lookup already past its read |
| `IdempotencyProtocol.LiveAnswerIsGiven` | backend/app/services/idempotency.py:163-197 | while an answer lives, the same call gets its response and any other call on the key is refused as reused, the table unchanged |
| `IdempotencyProtocol.FreeKeyIsWon` | backend/app/services/idempotency.py:144-160 | a key nobody holds is won by the next call, under a fresh claim with its own expiry |
| `IdempotencyProtocol.VanishedHolderIsRetried` | backend/app/services/idempotency.py:151-197 | a call whose holder vanished before the read tries once more and wins if the key is still free; a second time it is refused as in flight |
| `IdempotencyProtocol.LookupTells` | backend/app/services/idempotency.py:91-129 | a lookup misses a free key and gets from a live answer what a call would |
| `IdempotencyProtocol.ReleaseFreesTheKey` | backend/app/services/idempotency.py:218-220 | a released claim leaves its key free |
| `IdempotencyProtocol.ExpiredAnswerGivesWay` | backend/app/services/idempotency.py:163-178 | an expired answer is evicted by the next call, which runs |
| `IdempotencyProtocol.OverrunBreaksExclusion` | backend/app/repositories/idempotency.py:45-49 | why the shelter is needed: were a claim visible before its execution ends and outlasted by it, a fresh caller would evict it and execute the same call beside it |
| `ToolCall.Server.Audit` | backend/app/mcp/handlers.py:55-63 | one audit row, or an explicit failure and no row |
| `ToolCall.Server.Execute` | backend/app/mcp/handlers.py:404-535 | a failing handler leaves the data as it was, is audited as a failure and releases its claim; a returning one is audited and its document stored under the claim; a failed release, completion or encoding is a case of its own |
| `ToolCall.Server.ClaimAndExecute` | backend/app/mcp/handlers.py:347-402 | a successful answer is the re-encoded document of a live same call, with nothing run, or the fresh output of a tool that ran; one audit row either way; a response-less claim is left exactly when its own last write failed |
| `ToolCall.Server.RunToolCall` | backend/app/mcp/handlers.py:170-535 | each refusal in its order with its code and audit outcome and nothing else changed, a missing scope among them; each handler exception likewise; replay and run otherwise; unhandled exactly when an exception came before the audit, unencoded exactly when one came after it |
| `ToolCall.Server.HandleToolsCall` | backend/app/mcp/handlers.py:136-167 | the answer, the code, the data and the one audit row of every committed call; the row agrees with the reply, and an error leaves the data alone, exactly unless the output could not be encoded; an audit failure restores data, audit and records; exactly one of result and error is set, as section 5 of the JSON-RPC 2.0 specification asks |
| `ToolCall.RepeatGivesTheSameDocument` | backend/app/mcp/handlers.py:394-401 | the same call again, while the record lives, runs nothing and answers with the same document; the text is the same if and only if the first answer was a replay too or the document has nothing to separate or escape |
| `ToolCall.OtherCallsAreRefused` | backend/app/services/idempotency.py:222-240 | another tool or other arguments under the key are then refused as reused |
| `JsonText.SameTextIff` | backend/app/mcp/handlers.py:596-600 | the fresh and the replayed spelling of a document agree if and only if it is bare; for an object, if and only if it has no field |
| `JsonText.AnyFieldChangesTheText` | backend/app/mcp/handlers.py:530-535 | an output with a field replays as a different text |
| `JsonText.ObjectSpellings` | backend/app/mcp/handlers.py:530-535 | an object with a field in both spellings |
| `JsonText.ListSpellings` | backend/app/mcp/handlers.py:596-600 | a list of two in both spellings |
| `JsonText.TextSpellings` | backend/app/mcp/handlers.py:596-600 | a quote, a line break and a letter outside ASCII in both spellings |
| `Jobs.WithinIsReachability` | backend/app/repositories/job.py:318-391 | the breadth-first levels are exactly reachability by chains through WAITING non-saga jobs, at every depth and on any graph |
| `Jobs.CascadeCancelsExactlyTheReachable` | backend/app/repositories/job.py:318-391 | exactly the rows reachable within the hop bound become CANCELLED, stamped and with the reason, every other row is unchanged, and each is announced on the cancelled topic once more, nothing else being announced |
| `Jobs.CascadeLevels` | backend/app/repositories/job.py:333-391 | the loop over `frontier` and `seen` computes that cascade and its count, with cycles and diamonds included |
| `Jobs.CancelLevel` | backend/app/repositories/job.py:350-387 | one level's guarded update changes every target and adds one event for each |
| `Jobs.JobRepository.CascadeCancelBlockedChildren` | backend/app/repositories/job.py:318-391 | the repository method: the cascade to depth 50 and the number it cancelled |
| `Jobs.JobRepository.UpdateStatus` | backend/app/repositories/job.py:161-227 | a guarded write that lands stamps, announces and cascades as one change; one that does not land changes nothing |
| `Jobs.StatusWriteColumns` | backend/app/repositories/job.py:28-48 | column by column what a landing write leaves, which statuses stamp an end, the topic each terminal status is announced on, and that only DEAD_LETTER and CANCELLED go on to other rows; a write that does not land changes nothing |
| `Jobs.JobRepository.ClaimForRunning` | backend/app/repositories/job.py:252-269 | won exactly by a PENDING row, which becomes RUNNING with its start stamped; no other row changes |
| `Jobs.JobRepository.PromoteWaitingToPending` | backend/app/repositories/job.py:301-316 | won exactly by a WAITING row, which becomes PENDING with its error cleared; no other row changes |
| `JobRuns.TerminalRowsAreAnnounced` | backend/app/repositories/job.py:161-227 | in every run of claims, promotions and writes each terminal row has a completion time and an outbox event on its topic |
| `JobRuns.TerminalWriteAnnouncesUnlessCleared` | backend/app/repositories/job.py:176-201 | a terminal write that lands leaves its row stamped and announced if and only if the caller did not clear the time |
| `JobRuns.OneClaimWinsPerPending` | backend/app/repositories/job.py:252-269 | on every run, between two winning claims of one job some promotion or write put it back into PENDING |
| `JobRuns.OnePromotionWinsPerWaiting` | backend/app/repositories/job.py:301-316 | between two winning promotions of one job some write put it back into WAITING |
| `JobRuns.CascadeLeavesNoneStrandedIff` | backend/app/repositories/job.py:318-391 | after a stranding write nobody waits on a dead parent if and only if no blocked job lies beyond the cascade's reach |
| `JobRuns.LongLineStrandsItsLast` | backend/app/repositories/job.py:49-51 | a line of one waiting job more than the bound, 52 jobs at the bound in force, leaves its last one stranded |
| `JobRuns.BoundedChainsAreReached` | backend/app/repositories/job.py:49-51 | if dependency chains are no longer than the bound, the cascade reaches every blocked descendant, cycles or not |
| `JobRuns.NoJobWaitsForever` | backend/app/repositories/job.py:252-391 | with fixed edges, bounded chains and no write back to WAITING, no run leaves a WAITING non-saga job under a dead-lettered or cancelled parent |
| `CircuitBreaker.Breaker.Arrive` | backend/app/core/circuit_breaker.py:161-190 | CLOSED admits, HALF_OPEN rejects, OPEN admits a probe exactly when the recovery timeout has passed since it opened, with the fields each leaves |
| `CircuitBreaker.Breaker.OnSuccess` | backend/app/core/circuit_breaker.py:209-219 | closes and forgets the count from any state |
| `CircuitBreaker.Breaker.OnFailure` | backend/app/core/circuit_breaker.py:221-243 | counts and remembers the failure; opens, restarting the recovery clock, exactly from HALF_OPEN or at the threshold |
| `CircuitBreaker.Breaker.OnNestedRejection` | backend/app/core/circuit_breaker.py:190-201 | a nested rejection of a probe reopens without counting a failure; of an ordinary call, changes nothing |
| `CircuitBreaker.Breaker.HonourReset` | backend/app/core/circuit_breaker.py:96-133 | a new signal clears all memory not newer than it, once |
| `CircuitBreaker.Breaker.Publish` | backend/app/core/circuit_breaker.py:135-159 | nothing exactly when unchanged and recorded less than 60 s ago; otherwise the signal is weighed and the record carries the fields as they then are |
| `BreakerRuns.OverlappingCallsKeepTheBreakerSound` | backend/app/core/circuit_breaker.py:161-231 | under arbitrarily overlapping calls, stale results, nested rejections and resets: HALF_OPEN exactly when a probe is marked, its opener still unfinished, and CLOSED implies a count below the threshold |
| `BreakerRuns.OneAdmissionPerHalfOpenPeriod` | backend/app/core/circuit_breaker.py:161-207 | each HALF_OPEN period admits exactly one call, the one that opened it |
| `BreakerRuns.OpenSinceTheLastFailure` | backend/app/core/circuit_breaker.py:221-243 | without nested rejections an OPEN breaker counts its recovery from the last failure that landed, stale ones included |
| `BreakerRuns.RecoveredBreakerProbes` | backend/app/core/circuit_breaker.py:161-231 | after any such run an OPEN breaker admits the next arrival, as the probe, if and only if the timeout has passed since the last failure; the probe's success closes it and its failure opens it again |
| `BreakerRuns.FailingUpstreamSeesBoundedLoad` | backend/app/core/circuit_breaker.py:161-243 | sequential failing calls between t0 and t1 reach the upstream at most threshold + floor((t1 - t0) / recovery timeout) times |
| `BreakerReset.RewriteDirty` | backend/app/core/breaker_state.py:250-269 | the loop rewrites exactly the dirty records whose write lands, and counts every dirty one |
| `BreakerReset.BreakerStore.ResetBreakerStates` | backend/app/core/breaker_state.py:173-269 | nothing without a signal; signal and no reset when the scan fails; otherwise signal, rewrites and the count, lost rewrites included |
| `BreakerReset.BreakerStore.PublishState` | backend/app/core/breaker_state.py:130-170 | replaces that breaker's record only, or nothing when the write fails |
| `BreakerReset.ResetRecordsSpelledOut` | backend/app/core/breaker_state.py:217-269 | field by field what a reset makes of each stored value, and which it counts |
| `BreakerReset.OnlyLostRewritesStayDirty` | backend/app/core/breaker_state.py:217-269 | what an undisturbed reset leaves dirty is exactly what it lost; thresholds and timeouts are kept |
| `BreakerResetProtocol.SecondResetRewritesNothing` | backend/app/core/breaker_state.py:233-269 | from a signal later than any weighed, whatever resets overlap it, on every quiet interleaving, a finished reset leaves every record clean and no reset started later, however many, finds one to rewrite |
| `BreakerResetProtocol.NewFailureIsFound` | backend/app/core/circuit_breaker.py:221-243 | a failure after the reset is found dirty by the next one |
| `BreakerResetProtocol.UndoneProbeIsFound` | backend/app/core/circuit_breaker.py:192-201 | so is a probe undone by a nested rejection |
| `BreakerResetProtocol.UnweighedSignalIsFound` | backend/app/core/breaker_state.py:199-214 | so is a memory published after the signal expired or could not be read |
| `BreakerResetProtocol.LostRewriteIsFound` | backend/app/core/breaker_state.py:158-170 | so is a record whose rewrite was lost |
| `BreakerResetProtocol.AbortedResetIsFound` | backend/app/core/breaker_state.py:245-249 | so is a record a reset left alone because it could not list or read everything, its signal standing |
| `BreakerResetProtocol.SameInstantIsFound` | backend/app/core/circuit_breaker.py:110-112 | so is a failure kept through a second reset at the instant of the first |
| `BreakerResetProtocol.WeighedIsReached` | backend/app/core/circuit_breaker.py:110-131 | a run that ends with a finished reset the breaker has weighed |
| `BreakerResetProtocol.FailedBeforeIsReached` | backend/app/core/breaker_state.py:233-269 | a run that ends with a finished reset and a breaker that failed before it |
| `BreakerResetProtocol.AboutToReadIsReached` | backend/app/core/breaker_state.py:272-302 | a run that ends with a reset about to read a published failure |
| `BreakerResetProtocol.AboutToRewriteIsReached` | backend/app/core/breaker_state.py:250-258 | from there, one step to a reset about to rewrite it |
| `BreakerResetProtocol.NoOldFailureIsPublishedAfterAReset` | backend/app/core/breaker_state.py:173-269 | on every interleaving of failures, successes, publishes, expiries and the steps of overlapping, aborting and finishing resets, once one finished without losing a rewrite and while a readable signal stands no record carries a failure older than it |
| `BreakerResetProtocol.NewerFailureSurvives` | backend/app/core/circuit_breaker.py:96-159 | a failure newer than the signal outlives every interleaving short of a new reset, and the next publish carries it |
| `BreakerResetProtocol.ResetReadsANewerFailureAsDirty` | backend/app/core/breaker_state.py:217-258 | a failure newer than the signal, published before its record is read, is rewritten |
| `BreakerResetProtocol.RecordNewSinceTheSignalIsRewritten` | backend/app/core/breaker_state.py:244-258 | so is one first published between the signal and the end of the scan |
| `BreakerResetProtocol.NewSinceTheSignalIsReached` | backend/app/core/breaker_state.py:305-318 | a run from an empty store to such a record |
| `BreakerResetProtocol.RewriteOverwritesANewerPublish` | backend/app/core/breaker_state.py:250-269 | a record read dirty is rewritten over a newer failure published since, and the next publish restores it |
| `BreakerResetProtocol.PublishedFailureSurvivesIff` | backend/app/core/breaker_state.py:233-318 | a published failure outlives every continuation without a new reset, an expiry or a publish under its name, if and only if every reset in progress has listed its keys and has its record neither to read nor to rewrite |
| `BreakerResetProtocol.SafeAfterSignalExpiryIff` | backend/app/core/breaker_state.py:173-214 | once the signal has expired, no continuation publishes an older failure if and only if no breaker remembers one |
| `DedupKeys.SeriesRoundTrip` | backend/app/services/alert_rules.py:108-113 | splitting a built key gives back fingerprint and subject, whatever colons the subject has |
| `DedupKeys.DedupKeyInjective` | backend/app/services/alert_rules.py:112-113 | two equal keys name the same episode of the same series |
| `DedupKeys.DecimalRoundTrip` | backend/app/services/alert_rules.py:112-113 | the ordinal in a key, read as a decimal number, is the ordinal |
| `DedupKeys.ShortKeysNameNoSeries` | backend/app/services/alert_rules.py:613-616 | exactly the keys with fewer than three colons are skipped |
| `DedupKeys.PrefixMatchIff` | backend/app/services/alert_rules.py:108-159 | a series prefix matches exactly its own episodes and those of subjects extending its subject by a colon |
| `DedupKeys.ColonFreePrefixSelectsOneSeries` | backend/app/services/alert_rules.py:121-159 | for colon-free subjects prefix match selects exactly one series |
| `AlertRace.OrdinalsAreContiguous` | backend/app/services/alert_rules.py:140-257 | for every interleaving of replicas, statement by statement, the ordinals of a series are exactly 0..n-1 |
| `AlertRace.AtMostOneOpenEpisode` | backend/app/services/alert_rules.py:121-257 | on every statement-level run whose counts find nothing open, no state has two open episodes in a series |
| `AlertRace.CountWhileOpenOpensTwo` | backend/app/services/alert_rules.py:140-159 | a count that runs while its series is open gives a second open episode with its own insert |
| `AlertRace.PromisesHoldIffSeparate` | backend/app/services/alert_rules.py:121-257 | over a family of series both promises hold on every run if and only if no subject of the family extends another of the same tenant and rule by a colon |
| `AlertRace.MixingBreaksBoth` | backend/app/services/alert_rules.py:140-159 | for any pair that does mix, one run that breaks both |
| `AlertEpisodes.ColonFreeIsSeparate` | backend/app/services/alert_rules.py:62-71 | colon-free series, such as the rules' own, never mix |
| `AlertRace.TwoSnapshotsCanOpenTwo` | backend/app/services/alert_rules.py:205-257 | with two snapshots a raise between them gives two open episodes |
| `AlertRaceAudit.OneRaisedRowPerAlert` | backend/app/services/alert_rules.py:205-257 | on every statement-level run each alert has exactly one raised row, and no raised row is without its alert |
| `AlertRaceAudit.OneResolvedRowPerAlert` | backend/app/services/alert_rules.py:260-295 | if no alert is picked while another replica has it picked, each has one resolved row once resolved and none before |
| `AlertRaceAudit.TwoPicksResolveTwice` | backend/app/services/alert_rules.py:272-286 | two replicas that have picked one alert write two resolved rows for it |
| `AlertRaceAudit.OneResolvedRowIff` | backend/app/services/alert_rules.py:260-295 | at most one resolved row per alert, however picks are carried through, if and only if no alert is picked while another replica still has it picked |
| `AlertRules.AlertStore.RaiseEpisode` | backend/app/services/alert_rules.py:205-257 | raises the next ordinal with its audit row, or nothing if one is open or the key is taken |
| `AlertRules.AlertStore.ResolveEpisode` | backend/app/services/alert_rules.py:260-295 | resolves the newest open alert with its audit row, or nothing |
| `AlertRules.AlertStore.EvaluateConsumerLag` | backend/app/services/alert_rules.py:334-377 | judges every group's reading, missing ones left alone |
| `AlertRules.AlertStore.EvaluateDlqDepth` | backend/app/services/alert_rules.py:476-544 | raises for breaching tenants, then resolves every open tenant that recovered |
| `AlertRules.OpenFollowsTheLatestMeasurement` | backend/app/services/alert_rules.py:205-377 | for any stream of breach, recovery and missing readings a series is open exactly when its latest measured value is at or above the threshold, and its audit rows alternate raised, resolved |
| `AlertRules.OpenExactlyWhenDeep` | backend/app/services/alert_rules.py:476-544 | after a depth tick a tenant's episode is open exactly when it has a count and the count is at or above the threshold, other series are as they were, and audit rows still alternate |
| `AlertRuleRuns.BothRulesKeepTheirBooks` | backend/app/services/alert_rules.py:334-544 | from an empty table, through any sequence of ticks of both rules: a lag series is open exactly when the last sample measured for its own group was at or above that tick's threshold, a depth series when its tenant's last count was; ordinals are contiguous and audit rows alternate |
| `AlertRuleRuns.Evaluate` | backend/app/services/alert_rules.py:552-589 | one tick of either rule does what that run says |
| `AlertSweep.ResolveOpenEpisodes` | backend/app/services/alert_rules.py:592-626 | the loop over any listing is the fold of its visits, malformed keys skipped |
| `AlertSweep.SweepClosesEverything` | backend/app/services/alert_rules.py:592-626 | in whatever order the open alerts are listed, nothing stays open, each is closed once and exactly one resolved row is written for each |
| `AlertSweepOrder.EveryOrderClosesAllIff` | backend/app/services/alert_rules.py:592-626 | every listing order closes everything if and only if no open alert's prefix reaches a newer open alert of another series |
| `AlertSweepOrder.MixedOrder` | backend/app/services/alert_rules.py:612-624 | the listing order that leaves an alert open otherwise |
| `AlertSweep.OpenAlertIsNewest` | backend/app/services/alert_rules.py:121-137 | the open alert picked is at least as new as any open one of the series |
| `AlertSweep.OpenRowsAreOpen` | backend/app/services/alert_rules.py:603-610 | the listed rows are exactly the unresolved alerts |
| `AlertRules.RuleNamesAreColonFree` | backend/app/services/alert_rules.py:62-71 | the names the two rules use are colon-free |
| `AgentRun.RunStore.ReportRun` | backend/app/services/agent_run.py:89-185 | creates, updates or refuses a closed run unchanged |
| `AgentRun.RunStore.Update` | backend/app/services/agent_run.py:138-185 | the column-by-column update of an open row |
| `AgentRun.RunStore.ReportBriefing` | backend/app/services/agent_run.py:187-220 | write-once briefing that closes an open run; unknown run and second briefing are refused |
| `AgentRun.StepExtends` | backend/app/services/agent_run.py:108-220 | every report or briefing keeps the row well kept and undoes nothing; a closed run rejects reports unchanged |
| `AgentRun.RowStaysWellKept` | backend/app/services/agent_run.py:108-220 | over every sequence: neighbouring history entries differ, the last one is the state, a terminal state has a finish time |
| `AgentRun.LaterRowsExtendEarlierOnes` | backend/app/services/agent_run.py:108-220 | earlier histories are prefixes of later ones, a finished row never changes again but for its one briefing, and a briefing freezes the row |
| `AgentRun.RepeatedReportChangesNothing` | backend/app/services/agent_run.py:138-185 | repeating a non-terminal report without a verification and with a numbered step, if any, changes nothing |
| `AgentRun.LedgerIsTheNewestAccepted` | backend/app/services/agent_run.py:227-248 | the step ledger is the last min(200, n) of the n accepted steps, kept plus dropped is n, and seqs are distinct |
| `AgentRunColumns.ColumnsTellTheReports` | backend/app/services/agent_run.py:89-220 | over every sequence of reports and briefings, what each column says: hypothesis in hand and last step are the last report's, even when it gave none; alert, scenario, hypotheses, plan, budget and verification the last ones given; the newest fifty verifications; the timeline of changes; the first account; closed and briefed by the first that did so |
| `TailPoll.PageIsTheSortedTail` | backend/app/api/admin.py:852-879 | for any ledger a page is ascending and holds each stored step above the cursor as often as stored; the next cursor is the highest seq stored |
| `TailPoll.PollOfIncreasing` | backend/app/api/admin.py:852-869 | one poll returns what was appended since the last and is still held, and moves the cursor to the newest step |
| `TailPoll.TailRefinesFullHistory` | backend/app/api/admin.py:852-869 | capped ledger and threaded cursor deliver exactly what the full history defines |
| `TailPoll.DeliveredStreamIncreases` | backend/app/api/admin.py:852-869 | the delivered stream is strictly increasing, so nothing comes twice |
| `TailPoll.DeliveredExactlyIfSeen` | backend/app/api/admin.py:852-869 | a step is delivered if and only if some poll came while the ledger still held it |
| `TailOccurrences.LedgerIsTheNewestTaken` | backend/app/services/agent_run.py:227-248 | with seqs in any order the ledger is the newest 200 of the steps taken |
| `TailOccurrences.SentAtMostOnce` | backend/app/api/admin.py:852-869 | with seqs in any order each occurrence is delivered at most once |
| `TailOccurrences.DeliveredIsWhatWasSent` | backend/app/api/admin.py:852-869 | with seqs in any order the polls deliver each step as often as its occurrences were held by a poll whose cursor was below its seq |
| `LagRing.SampleWindow.RecordLagSample` | backend/app/core/consumer_lag.py:370-409 | puts the sample first, keeps the readable entries inside the window, caps the list |
| `LagRing.SampleWindow.ParseSamples` | backend/app/core/consumer_lag.py:324-356 | skips unreadable entries, sorts newest first, caps |
| `LagRing.KeptSelects` | backend/app/core/consumer_lag.py:387-405 | pruning keeps exactly the entries whose time can be read and lies after the cutoff |
| `LagRing.ReadableSelects` | backend/app/core/consumer_lag.py:342-350 | reading keeps exactly the entries with both halves readable |
| `LagRing.ParseSortsAndCaps` | backend/app/core/consumer_lag.py:324-356 | whatever wrote the key, what is read is newest first, at most 240, and leaves out only older readable entries past the cap |
| `LagRing.StoredIsTheNewestWindow` | backend/app/core/consumer_lag.py:370-409 | after any run of writes on a clock that never steps back, key expiry included, the stored list is the newest 240 of all samples of the last 900 s |
| `LagRing.ParseReturnsTheStoredWindow` | backend/app/core/consumer_lag.py:324-356 | reading it back returns that window unchanged |
| `LagRing.CapNeverBitesWhenSpaced` | backend/app/core/consumer_lag.py:60-70 | with passes at least 3.75 s apart the cap discards nothing |
| `LagRing.SteadyWindowSettles` | backend/app/core/consumer_lag.py:215-225 | a steady interval settles on the rounded-up count; the documented count is right if and only if the interval divides the window, exceeds it, or the cap decides |
| `LagRing.SevenSecondsHoldsOneMore` | backend/app/core/consumer_lag.py:215-225 | at 7 s the window settles on 129 samples where the documented count is 128 |
| `LagRing.DocumentedSettingsHold` | backend/app/core/consumer_lag.py:60-70 | at a pass a minute the window holds 15 samples and at one every 5 s it holds 180, as documented; at one a second the cap holds it at 240 |
| `Outbox.OutboxRepository.Add` | backend/app/repositories/outbox.py:47-61 | one fresh unpublished row, the rest unchanged |
| `Outbox.OutboxRepository.FetchUnpublished` | backend/app/repositories/outbox.py:63-80 | fetchable rows, each once, oldest first, as many as the limit allows, none left out that is older than one taken |
| `Outbox.OutboxRepository.Mark` | backend/app/repositories/outbox.py:82-123 | the three updates, on exactly the rows named |
| `Outbox.OutboxRepository.DeliverySnapshot` | backend/app/repositories/outbox.py:144-185 | counts, oldest, newest and last delivery of one tenant, each attained and extreme |
| `Outbox.CountIsCardinality` | backend/app/repositories/outbox.py:158-171 | each count of the snapshot is the number of rows that satisfy it |
| `Outbox.AwaitingSplits` | backend/app/repositories/outbox.py:144-185 | awaiting rows are exactly the fetchable ones plus those past the limit |
| `Outbox.FailedIsNeverDelivered` | backend/app/repositories/outbox.py:105-123 | whatever marks follow, a row once marked failed never counts as delivered |
| `Outbox.TickSpendsAttempts` | backend/app/repositories/outbox.py:63-123 | if every fetched row is named by some update, a non-empty tick strictly lowers the attempts left in the table, however rows are named twice or in any order |
| `Outbox.WindowEmptyIff` | backend/app/repositories/outbox.py:63-80 | the window is empty if and only if no attempts are left anywhere |
| `Outbox.WindowDrains` | backend/app/repositories/outbox.py:63-123 | over any run of inserts and ticks, non-empty ticks plus attempts left never exceed the attempts there were to spend |
| `Outbox.NoRowIsFetchedPastTheCap` | backend/app/repositories/outbox.py:63-103 | no row is fetched more often than the attempt cap |
| `Metrics.Aggregate` | backend/app/core/metrics.py:193-223 | the dictionary loop computes the fold, entries in order of first appearance |
| `Metrics.FoldDescribesTheWindow` | backend/app/core/metrics.py:193-223 | one entry per distinct (metric, unit, dimensions), whose count, sum, minimum and maximum are those of the filtered window |
| `Metrics.FoldIgnoresOrder` | backend/app/core/metrics.py:193-223 | windows that are permutations of each other fold to the same entries |
| `Metrics.FoldKeepsEverySample` | backend/app/core/metrics.py:193-223 | counts and sums are conserved, in each series and over all |
| `MetricsEmitter.Emitter.RegisterDimensionValues` | backend/app/core/metrics.py:81-84 | allow-lists only grow |
| `MetricsEmitter.Emitter.SanitiseDimensions` | backend/app/core/metrics.py:93-123 | allow-list first, else the cap, dimension by dimension, remembering each new value |
| `MetricsEmitter.SanitisedAlone` | backend/app/core/metrics.py:93-123 | the names are kept, and each dimension shows what it would show alone, decided only by its own allow-list or the values seen under its own name |
| `MetricsEmitter.Emitter.Enqueue` | backend/app/core/metrics.py:131-156 | queued, or dropped and counted when no emitter runs or the queue is full |
| `MetricsEmitter.Emitter.FlushOnce` | backend/app/core/metrics.py:236-258 | drains everything and hands the fold over in chunks |
| `MetricsEmitter.Emitter.StartEmitter` | backend/app/core/metrics.py:273-287 | starts an empty queue, or changes nothing if one is live |
| `MetricsEmitter.Emitter.DrainQueue` | backend/app/core/metrics.py:243-257 | a flush up to its first suspension |
| `MetricsEmitter.Emitter.SendNext` | backend/app/core/metrics.py:255-257 | the next call of the flush in progress |
| `MetricsEmitter.Emitter.StopEmitter` | backend/app/core/metrics.py:290-314 | detaches the queue, cancels the flush in progress with what it had not submitted, and flushes the queue once more |
| `MetricsEmitter.SendsFinish` | backend/app/core/metrics.py:255-258 | a flush whose calls are spread out hands over the same chunks as an uninterrupted one |
| `MetricsEmitter.EverySampleIsAccountedFor` | backend/app/core/metrics.py:131-258 | over any run and in every series, by number and by value: samples queued = submitted to the sender + awaiting a submission + still queued + cut off by a stop; emitted = queued + dropped |
| `MetricsEmitter.BooksBalanceIff` | backend/app/core/metrics.py:131-314 | emitted = submitted + awaiting a submission + queued + dropped if and only if no stop caught a flush between two calls |
| `MetricsEmitter.InterruptedStopLosesSamples` | backend/app/core/metrics.py:290-314 | a run of 501 series whose stop does catch one |
| `MetricsEmitter.OneCallLeavesNothingUnsent` | backend/app/core/metrics.py:255-257 | a flush is left with entries not yet submitted only by a window of more than 500 series |
| `MetricsEmitter.CallsStayWithinTheLimit` | backend/app/core/metrics.py:255-257 | no call is empty or over 500 entries |
| `MetricsEmitter.UnlistedDimensionIsBounded` | backend/app/core/metrics.py:93-123 | over any run a dimension without an allow-list shows at most 101 distinct values |
| `MetricsEmitter.PlacesAreKept` | backend/app/core/metrics.py:108-121 | a value that had its place is never bucketed later, and one is bucketed only when a hundred others hold every place |

## Left out

- React frontend, HTTP routing, middleware, logging, tracing, authentication and LLM calls: I/O and thin wrappers.
- The worker modules, `services/job.py` and `services/saga.py`: only their effect on the modelled tables, as environment steps.
- Migrations, row-level security, seed and reset scripts: they rest on the database or are straight-line data.
- SHA-256 and HMAC: an arguments hash is a given value.
- JSON numbers, booleans and null are given by their text, alike in both encoders; a JSON column that reorders keys makes replayed texts differ further, but not for the field-less output, whose texts agree.
- Task cancellation inside `CircuitBreaker.call`: a call ends by returning, by an `Exception`, or by a nested rejection.
- `extra` overriding `status` itself in `update_status`, and a writer between the cascade's SELECT and its UPDATE: a transaction's statements are taken together.
- Creation and deletion of job rows and dependency edges: runs start from any tables, and edges are fixed.
- Alerts not written by the rules, alert titles, summaries, payloads and the dominant hint: they do not affect which episodes are open.
- Rule names with a colon: fingerprints are the two constants of the module, and the alert lemmas take them as colon-free.
- AlertRules.AlertStore.ResolveEpisode: positions are taken as the order of `fired_at`, by which the source picks the newest, so a raise is taken to fire after every alert already there; racing replicas may pick any open alert (`AlertRace`).
- AlertRules.OpenFollowsTheLatestMeasurement: stated for families of series whose prefixes do not mix, outside which the open check of one series answers for another (`DedupKeys.PrefixMatchIff`).
- `read_lag`, `polling_verdict` and the value-key TTL arithmetic: one-call computations without state.
- The uniqueness of a run id across tenants in the agent-run ledger, and the repository's row locking: one run is one row.
- Floating point: metric values and monotonic clocks are reals, so rounding is not modelled.
- A call submitted to a busy executor and cancelled before it starts: a submitted call counts as handed to the sender, and `put_metric_data` may still fail.
- The metrics module outside production, `reset_cardinality_state`, and an emitter task that dies by itself: the module has one live emitter task or none.
- A datum's sorted dimension tuple is represented by the dictionary it lists, which determines it.
