# A verified model of Tokenity's control plane

Tokenity runs large models over several Macs. Most of its code moves tensors, bytes and processes around; a
handful of algorithms carry the invariants everything else relies on. This project models those algorithms in
Dafny, in the form the code has (objects whose methods update their fields, loops, state machines), and proves
what they promise for every input and every run.

| files | what they model |
|---|---|
| `SpeculativeSampling` | the accept/resample test of speculative decoding, and whole texts produced with it |
| `CacheRollback`, `MtpGeneration` | the draft-and-verify decoding loop, its token queue, and the layer caches it rolls back |
| `CycleDistribution`, `RequestDistribution` | the random draws of that loop and of whole requests, as experiments with the distribution of plain sampling |
| `PatchActivation` | the undo log of runtime patches and the agreement of all ranks to install them |
| `Instances`, `Scheduler`, `SchedulerRuns`, `QueueMirror`, `SchedulerProgress` | the instance lifecycle, the first-come-first-served exclusion over node sets, the queue counters mirrored from it, and when a waiter gets its lease |
| `Ledger`, `LedgerRuns` | memory admission and port ownership with quarantine |
| `LeaseRace` | who owns a lease when the awaiting coroutine is interrupted |
| `StreamSplitter`, `StreamSegments`, `OutputText`, `ResponseLoop`, `ThinkTags` | splitting a streamed text at markers that may be cut anywhere, and the answer made of it |
| `Jaccl` | the lockstep control channel of the distributed server |
| `LoadChunks` | the greedy chunking of model parameters |
| `RepetitionDetector` | noticing text that repeats itself |
| `Watchdog`, `WatchdogRuns` | the circuit breaker that restarts the node agent |
| `InstanceRouting` | the choice of an instance of a model, taking turns |
| `Routing`, `RouteChoice` | the automatic choice of a model |
| `Names`, `Options` | names and optional values, shared by the others |

`dafny verify dfyconfig.toml` checks everything. Each imperative member is tied by its `ensures` to a function
on values, and the theorems are about those functions and runs of them.

The language model and its draft head are arbitrary functions; the laws asked of them (`MtpGeneration.Lawful`)
say that the caches make the model a causal function of the tokens in context, that a trimmable cache really
trims one token, and that a two-token update is two one-token updates. A physical rotating buffer meets the last
law up to what attention sees: a layer's content is what it shows, not where in the buffer it lies.
`MtpGeneration.LawsCanBeMet` exhibits a hybrid model, greedy or sampling, with a linear, a trimmable and a
non-trimmable layer, that meets them. Clock readings, probes, the network, random draws and the sums over all ranks are inputs.
Probabilities, scores and times are real numbers.

What the proofs turned up:

- An accepted draft is reported with the draft head's scores, not with the target's. A response carries the
  target's scores exactly when it is no accepted draft or the head, after the calls made so far, gives the same
  scores there, in one cycle (`CycleOf`), one token (`GenerationBatch.MtpNext`) and over a whole run
  (`RunCarriesTargetScoresIff`, where the calls are those the responses before made);
  `ReportWrongScores` is a run of a lawful model whose third token is reported with the wrong ones.
- The second fingerprint collective of activation can never refuse, because it hashes what the first already
  found equal. Ranks that fail their local checks return early while the others go on and wait for them: all ranks
  execute the same collectives exactly when they agree on those checks (`PatchActivation.CollectivesLineUp`), and
  `OneRankLeavesEarly` has two ranks that do not.
- An instance's queued counter loses step with the scheduler exactly when an instance with waiters is stopped or
  forgotten (`QueueMirror.StepStaysInStep`); two arrivals, a failure and a stop are a run that does it
  (`SchedulerProgress.StoppingTearsTheMirror`). After it the waiter is at the head of an idle scheduler and is
  refused all the same, because counting it out fails (`SchedulerProgress.UnblockedWaiterIsRefused`). Otherwise the
  next turn of a waiter grants exactly when its blockers have left.
- The window of the watchdog can be overfull when the clock goes back: a restart at 0, a failed one at 100 that
  trims the history, a restart at 5. Exactly which orders of readings allow it, under some configuration and some
  outcomes, is `WatchdogRuns.ReadingsCanOverfillIff`; it takes a reading more than a window ahead of an earlier one
  and a later one back within a window of that.
- Chunk independence of the output splitter fails for stop strings such as "abc" with "b". It holds exactly when
  every marker is hidden by an earlier prefix of it, has no marker complete inside it, or is a stop whose first
  inner marker is a stop it begins with (`OutputText.ChunkIndependentIffHarmless`).
- Rank 0 refuses an object it cannot put on the wire before taking part in any sum, while the other ranks already
  wait in the first one (`Jaccl.RoundCompletesIffShareable`); and sharing the stop object itself stops every rank
  but rank 0 (`Jaccl.SameEverywhereIffNotTheStopObject`).
- An explicitly requested model that is not eligible is not an error, and not always without effect: naming a
  model also admits its other revisions that are for explicit requests only, and one of them can then be chosen by
  score (`RouteChoice.NamingAdmitsAnotherRevision`). When naming admits none, the request is routed as if no model
  had been named (`RouteChoice.UnavailableNameIsIgnored`).

## Model

| member | source | states |
|---|---|---|
| SpeculativeSampling.ResidualProbabilities | tokenity/inference/native_mtp/generation.py:415-425 | the residual is a probability distribution in both branches, so resampling from it is always meaningful |
| SpeculativeSampling.RejectionIsExcessMass | tokenity/inference/native_mtp/generation.py:407-425 | a draft is refused with exactly the probability mass by which the target exceeds the draft |
| SpeculativeSampling.FallbackOnlyWhenNeverRejected | tokenity/inference/native_mtp/generation.py:415-425 | the zero-mass fallback to the target is used only when a draft is never refused, which is when both distributions are equal |
| SpeculativeSampling.Lossless | tokenity/inference/native_mtp/generation.py:316-351 | drawing from the draft, accepting with min(1, p/q) and otherwise resampling yields exactly the target, for every token of every finite vocabulary |
| SpeculativeSampling.AcceptedOrReplaced | tokenity/inference/native_mtp/generation.py:311-361 | over one verify cycle the ways to emit a token, accepted or as a replacement, add up to its target probability |
| SpeculativeSampling.SpeculativeTextIsPlainText | tokenity/inference/native_mtp/generation.py:278-366 | if every round is lossless, whole texts have the probability plain sampling gives them, through drafts, bonus tokens and head states |
| SpeculativeSampling.SpeculativeDecodingIsLossless | tokenity/inference/native_mtp/generation.py:278-366 | every text has the same probability with and without drafting, for any target and any history-dependent draft head |
| CacheRollback.LayerCache.Feed | tokenity/inference/native_mtp/cache.py:66-77 | a pass arms an undo record only for two-token updates of rotating layers, and a snapshot between the two parts for linear layers |
| CacheRollback.LayerCache.Trim | tokenity/inference/native_mtp/cache.py:85-105 | trimming one token from a rotating layer replays the confirmed token on the state before the update |
| CacheRollback.RestoreAfterRejection | tokenity/inference/native_mtp/cache.py:108-126 | if some layer cannot be restored no layer is changed; otherwise layers are restored in order, and success means all of them were |
| CacheRollback.ClearRollback | tokenity/inference/native_mtp/cache.py:129-137 | every layer keeps its content and forgets how to go back, and the children of a nested layer lose their undo records only |
| CacheRollback.RollbackIsExact | tokenity/inference/native_mtp/qwen.py:183-222 | after an armed two-token pass every kind of layer is restorable, and restored it is as if only the confirmed token had been fed |
| MtpGeneration.FeedTwo | tokenity/inference/native_mtp/generation.py:283-301 | a verify pass over coherent caches holds both tokens, and can be rolled back to the confirmed one |
| MtpGeneration.PlainRunIsGreedy | tokenity/inference/native_mtp/generation.py:428-475 | the reference run extends the text token by token with the best scored one and ends with a stop match or at the limit |
| MtpGeneration.AcceptedBelowTheProbability | tokenity/inference/native_mtp/generation.py:316-321 | a sampled draft is accepted exactly when a uniform draw falls below min(1, p/q); accepting without a draw at probability one is only a shortcut |
| MtpGeneration.AcceptedDraftCarriesTheHeadsScores | tokenity/inference/native_mtp/generation.py:327-337 | a lawful model whose accepted drafts are queued with the head's scores where the target's are others |
| MtpGeneration.GenerationBatch.PostInit | tokenity/inference/native_mtp/generation.py:210-258 | entering drafting queues the pending token and its successor, with caches that hold the first and not the second, and drafts after the successor |
| MtpGeneration.GenerationBatch.DueMakesProgress | tokenity/inference/native_mtp/generation.py:210-366 | head calls and random draws after a response are a function of those before, the text, the token and its source |
| MtpGeneration.GenerationBatch.Judge | tokenity/inference/native_mtp/generation.py:311-321 | the verdict and the random draws it takes, greedy or sampled |
| MtpGeneration.GenerationBatch.Replacement | tokenity/inference/native_mtp/generation.py:348-351 | the replacement comes from the target's best token or from the residual distribution |
| MtpGeneration.GenerationBatch.VerifyDraft | tokenity/inference/native_mtp/generation.py:283-324 | one pass scores the draft and its successor as plain decoding would, and the verdict is counted |
| MtpGeneration.GenerationBatch.VerifyCycle | tokenity/inference/native_mtp/generation.py:278-366 | sampled or greedy, the queue, the head call, the next draft and the draws are those of the cycle on values; the caches end up coherent, and in the greedy case the queue continues the text plainly |
| MtpGeneration.GenerationBatch.MtpNext | tokenity/inference/native_mtp/generation.py:261-275 | exactly the tokens due are emitted, in order, with their scores and sources; their scores are the target's exactly when they are no draft or the head agrees |
| MtpGeneration.GenerationBatch.OriginalNext | tokenity/inference/native_mtp/generation.py:84 | plain decoding emits the pending token and samples the next one from the target |
| MtpGeneration.GenerationBatch.DropDraft | tokenity/inference/native_mtp/generation.py:339-347 | after a refused draft the rollback succeeds and caches and token buffer hold only the confirmed token |
| MtpGeneration.GenerationBatch.CommitLastUncached | tokenity/inference/native_mtp/generation.py:478-489 | exactly the one emitted token the caches lack is fed |
| MtpGeneration.GenerationBatch.Next | tokenity/inference/native_mtp/generation.py:73-84 | from any state, one left behind by another request included: a draft is reported with the head's scores and every other token with the target's, a greedy token is the plain next one, the finish decision is the plain one, the books balance, and the caches lack at most the last emitted token |
| MtpGeneration.GenerationBatch.Remove | tokenity/inference/native_mtp/generation.py:93-98 | a request removed at any time leaves caches that hold exactly what it emitted |
| MtpGeneration.GenerationBatch.Decode | tokenity/inference/native_mtp/generation.py:210-475 | a request, sampled or greedy, wherever drafting was allowed to begin: every token is reported with the scores it should have, a draft with those of the head after the calls that entering drafting and the cycles before it made; the last response hands out caches that hold precisely the text, and a greedy request emits the plain text and finishes at the same token for the same reason |
| MtpGeneration.RunCarriesTargetScoresIff | tokenity/inference/native_mtp/generation.py:210-475 | over a run all responses carry the target's scores exactly when the head, after the calls the responses before made, agrees with the target on every accepted draft |
| MtpGeneration.ReportWrongScores | tokenity/inference/native_mtp/generation.py:210-475 | a request of a lawful model whose third response is a draft with scores that are not the target's |
| CycleDistribution.CyclesArePlayed | tokenity/inference/native_mtp/generation.py:278-366 | for any number of cycles, the tree of their random draws played with the draws of the random stream ends where the cycles end, after as many draws |
| CycleDistribution.EmitAll | tokenity/inference/native_mtp/generation.py:261-366 | a drafting batch driven to its end emits a beginning of what its cycles decode, which is one outcome of that tree if it samples |
| CycleDistribution.AcceptedAsOften | tokenity/inference/native_mtp/generation.py:303-337 | one cycle accepts a draft and adds a bonus token exactly as often as the lossless round over the filtered target and draft scores |
| CycleDistribution.ReplacedAsOften | tokenity/inference/native_mtp/generation.py:316-361 | one cycle refuses a draft in favour of a token exactly as often as that round |
| CycleDistribution.CyclesAreRounds | tokenity/inference/native_mtp/generation.py:278-366 | over any number of cycles every text is as likely as with those rounds |
| CycleDistribution.SampledTextIsPlainText | tokenity/inference/native_mtp/generation.py:278-366 | what the cycles of the batch emit has the distribution of plain one-token sampling of the target, for every text and any draft head |
| RequestDistribution.RequestIsPlain | tokenity/inference/native_mtp/generation.py:73-366 | a whole request, from its first token on, gives every text the probability of plain sampling, however many tokens it emits before drafting and however many cycles follow |
| RequestDistribution.EmitRequest | tokenity/inference/native_mtp/generation.py:73-366 | a request driven to its end, drafting from wherever that is allowed first, emits a beginning of one outcome of the tree of its draws |
| PatchActivation.PatchTransaction.Set | tokenity/inference/native_mtp/runtime.py:57-64 | a write through the log changes one attribute and keeps the log able to undo everything |
| PatchActivation.PatchTransaction.Rollback | tokenity/inference/native_mtp/runtime.py:66-74 | all attributes return to their values before the transaction, whatever was written and however often |
| PatchActivation.PatchTransaction.Commit | tokenity/inference/native_mtp/runtime.py:76-80 | a commit changes nothing and hands out what it takes to undo later |
| PatchActivation.InstalledPatch.Rollback | tokenity/inference/native_mtp/runtime.py:88-96 | an installed patch undoes once, and a second time does nothing |
| PatchActivation.OneHot | tokenity/inference/native_mtp/runtime.py:405-408 | one row of 256 per digest byte, with a single one at the byte's value |
| PatchActivation.FingerprintsMatch | tokenity/inference/native_mtp/runtime.py:401-413 | the test on the summed one-hot table, trivially true for a single rank |
| PatchActivation.MatchIffAllEqual | tokenity/inference/native_mtp/runtime.py:401-413 | for any number of ranks the summed table passes on every rank exactly when all digests are equal |
| PatchActivation.AllSucceeded | tokenity/inference/native_mtp/runtime.py:416-423 | the summed success flags reach the number of ranks exactly when every rank succeeded |
| PatchActivation.Controller.Prepare | tokenity/inference/native_mtp/runtime.py:184-243 | one rank's activation: the attributes are the installed ones if it commits and the original ones in every other outcome, and an installed patch undoes to the original ones |
| PatchActivation.SecondCollectiveNeverRefuses | tokenity/inference/native_mtp/runtime.py:187-215 | ranks whose first fingerprints agree always agree on the final ones |
| PatchActivation.CollectivesLineUp | tokenity/inference/native_mtp/runtime.py:184-226 | the ranks take part in equally many collectives exactly when fingerprints differ, activation is off, or their local checks agree |
| PatchActivation.OneRankLeavesEarly | tokenity/inference/native_mtp/runtime.py:184-226 | two ranks with equal fingerprints, one of which returns after one collective while the other takes part in three |
| PatchActivation.AllOrNone | tokenity/inference/native_mtp/runtime.py:184-236 | given equal local checks, each rank commits exactly when all fingerprints match, the mode is on, the checks pass and no installation failed: all ranks or none |
| PatchActivation.AttributesAllOrNone | tokenity/inference/native_mtp/runtime.py:184-243 | so on every rank the attributes are the written ones, or on every rank they are the original ones |
| Instances.ModelInstance.Transition | tokenity/control/instances.py:287-330 | a transition is refused or applied by the table, the expected version and the drain rules; the report keeps evidence and error, and an instance that unloads or stops is no longer healthy |
| Instances.ModelInstance.ReleaseRequestLease | tokenity/control/instances.py:342-354 | a lease given back counts down and returns an idle busy instance to ready |
| Instances.ModelInstance.DequeueRequest | tokenity/control/instances.py:366-378 | a waiter counted out returns an idle busy instance to ready |
| Instances.DrainSafeAlways | tokenity/control/instances.py:287-378 | over any run an unloading or stopped instance has no active and no queued request |
| Instances.BusyExactlyWhileServing | tokenity/control/instances.py:332-378 | under lease operations from idle ready, busy holds exactly while something is active or queued |
| Instances.VersionCountsStateChanges | tokenity/control/instances.py:287-378 | the version grows by one with every change of state, along the transition table, and never otherwise |
| Instances.StaleAfterAnyChange | tokenity/control/instances.py:287-305 | a version that still matches later proves that the state was the same at every moment in between |
| Instances.InstanceRegistry.Create | tokenity/control/instances.py:648-663 | creating twice under one operation is idempotent, under another a conflict that changes nothing |
| Instances.InstanceRegistry.EnqueueRequest | tokenity/control/instances.py:693-699 | the registry counts for the named instance only and refuses unknown ones |
| Scheduler.NormalizeNodes | tokenity/control/instances.py:877-882 | the normalized set is never empty and, if only blanks were given, overlaps every other one |
| Scheduler.GenerationSlotScheduler.Acquire | tokenity/control/instances.py:813-850 | a negative timeout or an event already set ends the call with nothing changed; otherwise the request arrives with its normalized nodes |
| Scheduler.RefusalChangesNothing | tokenity/control/instances.py:917-923 | a counter update the registry refuses leaves every instance as it was |
| Scheduler.GenerationSlotScheduler.Arrive | tokenity/control/instances.py:827-850 | a request takes a number and is granted at once, queued at the end with its counter, or refused with the queue unchanged |
| Scheduler.GenerationSlotScheduler.Wake | tokenity/control/instances.py:852-875 | one turn of the waiting loop: grant when possible, else leave the queue on cancellation or timeout, else wait on |
| Scheduler.GenerationSlotScheduler.MayGrant | tokenity/control/instances.py:891-902 | grantable means no overlapping active lease and no overlapping earlier waiter |
| Scheduler.GenerationSlotScheduler.RemoveWaiter | tokenity/control/instances.py:909-915 | one occurrence leaves the queue and is counted out |
| Scheduler.GenerationSlotScheduler.Release | tokenity/control/instances.py:929-934 | a release takes effect once |
| SchedulerRuns.SafeAlways | tokenity/control/instances.py:813-934 | over any run active leases never overlap, the queue is ordered and bounded, and nobody was granted ahead of an earlier overlapping waiter still queued |
| SchedulerRuns.GrantableIffUnblocked | tokenity/control/instances.py:891-902 | a request is grantable exactly when no overlapping lease and no overlapping earlier waiter blocks it |
| SchedulerRuns.HeadIsGrantable | tokenity/control/instances.py:891-902 | with no active lease the head of the queue is grantable |
| SchedulerRuns.StepConservesBlockers | tokenity/control/instances.py:852-934 | no step adds a blocker to a waiting request; the count falls by one exactly with a release of, or a withdrawal by, one of them |
| SchedulerRuns.WaiterIsFreedInFiniteTime | tokenity/control/instances.py:852-934 | over any run a request becomes grantable exactly when as many blockers left as it started with |
| QueueMirror.RemovalIsNeverRefused | tokenity/control/instances.py:909-923 | while the counters are in step, counting a waiter out is never refused |
| QueueMirror.StepStaysInStep | tokenity/control/instances.py:845-923 | a step keeps every queued counter equal to the scheduler's waiters exactly unless it stops or removes an instance with waiters |
| QueueMirror.MirrorIsExactAlways | tokenity/control/instances.py:845-923 | without such a step the counters stay equal over any run |
| QueueMirror.DrainSafeInEveryRun | tokenity/control/instances.py:677-707 | every registered instance stays drain-safe over any run of scheduler, lifecycle and registry steps |
| SchedulerProgress.TurnGrantsIff | tokenity/control/instances.py:852-875 | a turn that is neither cancelled nor late grants exactly when nothing blocks the waiter and counting it out is not refused |
| SchedulerProgress.NextTurnGrantsIff | tokenity/control/instances.py:852-934 | after any run the next turn grants exactly when as many blockers left as there were and counting out is not refused |
| SchedulerProgress.WaiterIsGrantedInFiniteTime | tokenity/control/instances.py:852-934 | over runs in step that never stop an instance with waiters, the next turn grants exactly when as many blockers left as there were |
| SchedulerProgress.FinitelyManyReleasesGrantIt | tokenity/control/instances.py:852-934 | from any such state finitely many releases and turns lead to the lease |
| SchedulerProgress.StoppingTearsTheMirror | tokenity/control/instances.py:845-923 | a legal run from an idle system that leaves a queued counter out of step, torn by its last step |
| SchedulerProgress.UnblockedWaiterIsRefused | tokenity/control/instances.py:852-923 | a legal run after which a waiter that nothing blocks is refused in its turn |
| Ledger.ResourceLedger.Reserve | tokenity/control/instances.py:462-500 | admission with its error cases in order, replacing a reservation of the same instance and claiming its ports |
| Ledger.ResourceLedger.Resize | tokenity/control/instances.py:502-539 | a reservation changes size within the same limits or not at all |
| Ledger.ResourceLedger.Release | tokenity/control/instances.py:598-606 | reservation and ports go, and the ports rest for the reuse delay |
| Ledger.ResourceLedger.NoConflict | tokenity/control/instances.py:488-497 | a port conflicts exactly when another instance owns it or it still rests |
| LedgerRuns.RefusalChangesNothing | tokenity/control/instances.py:462-539 | a refused reserve or resize changes no reservation and no port owner |
| LedgerRuns.ReserveSucceedsIff | tokenity/control/instances.py:462-500 | a reservation is admitted exactly when its arguments are sound, it does not grow or the total with it stays usable and its growth available, and all its ports are free |
| LedgerRuns.ReserveTakesExactly | tokenity/control/instances.py:498-500 | an admitted reservation changes its own entry and the owner of its ports and nothing else |
| LedgerRuns.ReleaseGivesUpExactly | tokenity/control/instances.py:598-606 | a release takes its own entry and its own ports, which rest until the delay is over |
| LedgerRuns.ReleaseUndoesReserve | tokenity/control/instances.py:462-606 | releasing a newcomer restores every entry and every owner |
| LedgerRuns.StartsSound | tokenity/control/instances.py:407-426 | a new ledger meets what every run keeps |
| LedgerRuns.SoundAlways | tokenity/control/instances.py:428-606 | over any run reserved memory stays within the usable bytes at the smallest headroom ever admitted with, and no port is owned and quarantined at once |
| LedgerRuns.ReuseIsDelayed | tokenity/control/instances.py:428-433 | a released port is not reserved again before the reuse delay is over |
| LedgerRuns.AllocateCollectivePort | tokenity/node_agent/agent.py:5998-6019 | the first free block at or after the preferred port within 256 starts, or none when there is none; width one is the instance port |
| LedgerRuns.ChosenBlockDoesNotConflict | tokenity/node_agent/agent.py:5998-6019 | a chosen block never conflicts in a following reserve on an unchanged ledger |
| LeaseRace.InvAlways | tokenity/node_agent/agent.py:4298-4356 | in every interleaving a lease is active exactly while the executor still has it or has published it to a caller that did not raise |
| LeaseRace.NoLeaseIsLostOrLeaked | tokenity/node_agent/agent.py:4298-4356 | the caller returns with an active lease, or raises and, once both sides are done, no lease is active |
| LeaseRace.NeverStuck | tokenity/node_agent/agent.py:4359-4389 | some side can always move until both are done, so the lock never deadlocks them |
| LeaseRace.RaceEnds | tokenity/node_agent/agent.py:4298-4389 | every interleaving is finite |
| StreamSplitter.CutBeforeMarker | tokenity/serving/mlx_vlm_openai.py:127-135 | holding back the longest end that could begin a marker and scanning on loses nothing |
| StreamSplitter.MatchSurvives | tokenity/serving/mlx_vlm_openai.py:114-126 | with harmless markers, a marker found in a first part is the one found in the whole text, or both end the text there |
| StreamSplitter.CutAnywhere | tokenity/serving/mlx_vlm_openai.py:111-135 | with harmless markers a text fed in two parts shows, keeps and decides what the whole text does |
| StreamSplitter.ChunkingDoesNotMatter | tokenity/serving/mlx_vlm_openai.py:111-135 | the same for any number of chunks |
| StreamSplitter.IndexOf | apps/TokenityControl/Sources/TokenityControl/ChatStreamParsing.swift:33-34 | the first occurrence, or none when there is none |
| StreamSegments.ChunksAreClean | tokenity/serving/mlx_vlm_openai.py:111-135 | for any markers and any chunks, what is emitted between two consumed markers contains no marker of its mode |
| StreamSegments.ChunksReassemble | tokenity/serving/mlx_vlm_openai.py:111-135 | emitted text, consumed markers and held-back text reassemble the input, or a prefix of it once stopped |
| StreamSegments.ChunksAreEmitted | tokenity/serving/mlx_vlm_openai.py:111-135 | exactly those segments are emitted, each in its own mode |
| OutputText.StopsComeFirst | tokenity/serving/mlx_vlm_openai.py:113-117 | stops win ties against the thinking delimiters |
| OutputText.HarmfulMarkerTears | tokenity/serving/mlx_vlm_openai.py:111-135 | every marker that is not harmless has a text, a cut and a state in which the chunks make a difference |
| OutputText.ChunkIndependentIffHarmless | tokenity/serving/mlx_vlm_openai.py:102-135 | the chunks can never make a difference exactly when every marker is harmless, a condition on the list of stops alone |
| OutputText.NoNestingIsHarmless | tokenity/serving/mlx_vlm_openai.py:102-135 | it is enough that no marker properly contains another |
| OutputText.DelimitersAreHarmless | tokenity/serving/mlx_vlm_openai.py:113 | without stops the chunks never matter |
| OutputText.NestedStopsTear | tokenity/serving/mlx_vlm_openai.py:111-135 | the stops "abc" and "b" make the result depend on the chunks |
| OutputText.NothingLostOrLeaked | tokenity/serving/mlx_vlm_openai.py:111-135 | for any stops and chunks no marker leaks into the emitted text between markers, and nothing is lost or invented |
| OutputText.LastIndexOf | tokenity/serving/mlx_vlm_openai.py:107 | the last occurrence, or -1 |
| OutputText.EarliestMarker | tokenity/serving/mlx_vlm_openai.py:115-117 | the marker with the smallest index, the first listed among equals |
| OutputText.HeldBack | tokenity/serving/mlx_vlm_openai.py:127-130 | the longest end of the text that is a proper beginning of a marker |
| OutputText.OutputText.constructor | tokenity/serving/mlx_vlm_openai.py:105-109 | empty stops are dropped, and the text starts as reasoning exactly when the prompt's last delimiter opens it |
| OutputText.OutputText.Feed | tokenity/serving/mlx_vlm_openai.py:111-135 | one chunk emits and leaves what scanning everything held back and fed does; a stopped text emits nothing more |
| ResponseLoop.Respond | tokenity/serving/mlx_vlm_openai.py:189-206 | the answer to a stream of items, with its states, texts, token counts and finish reasons, until the generator ends, a stop is requested or the text stops |
| ResponseLoop.AnswerShowsTheWhole | tokenity/serving/mlx_vlm_openai.py:189-206 | with harmless stops the answer shows what scanning the whole text shows, up to the item that found a stop requested, however the text was cut into items |
| ResponseLoop.AnswerShowsTheFed | tokenity/serving/mlx_vlm_openai.py:189-206 | for any stops the answer shows what feeding the texts one after another shows |
| ResponseLoop.TokensAreCountedOnce | tokenity/serving/mlx_vlm_openai.py:192-203 | the token counts of the parts add up to what the generator counted by the last item taken in |
| ResponseLoop.LastPartHasTheReason | tokenity/serving/mlx_vlm_openai.py:198-206 | only the last part carries a finish reason, "stop" exactly when the text stopped and otherwise that of the last item |
| ThinkTags.TagsAreHarmless | apps/TokenityControl/Sources/TokenityControl/ChatStreamParsing.swift:31-32 | looking for one tag at a time, the chunks cannot matter |
| ThinkTags.ChunksShowTheWhole | apps/TokenityControl/Sources/TokenityControl/ChatStreamParsing.swift:26-65 | consuming any chunks and finishing shows what the whole text shows |
| ThinkTags.CompleteIsAlternation | apps/TokenityControl/Sources/TokenityControl/ChatStreamParsing.swift:60-65 | a text is an alternation of answer and reasoning segments ended by the tags, no segment contains the tag that ends it, and exactly the segments are shown, each in its field |
| ThinkTags.ThinkingTagStreamParser.Consume | apps/TokenityControl/Sources/TokenityControl/ChatStreamParsing.swift:26-51 | the fragment, mode and held-back prefix of one chunk |
| ThinkTags.ThinkingTagStreamParser.Finish | apps/TokenityControl/Sources/TokenityControl/ChatStreamParsing.swift:53-58 | what was held back is shown in the current mode |
| ThinkTags.ThinkingTagStreamParser.LongestSuffixPrefixLength | apps/TokenityControl/Sources/TokenityControl/ChatStreamParsing.swift:77-86 | counting down from the longest candidate finds the longest end that could begin the tag |
| ThinkTags.ParseChunks | apps/TokenityControl/Sources/TokenityControl/ChatStreamParsing.swift:26-58 | for every split of a text the reasoning and answer are those of the whole text |
| ThinkTags.ParseComplete | apps/TokenityControl/Sources/TokenityControl/ChatStreamParsing.swift:60-65 | the whole text in one chunk |
| Jaccl.ValidatorAcceptsExactlyTheEncoder | tokenity/serving/distributed_openai.py:477-534 | for every sequence number and epoch the validator accepts exactly the headers the encoder can produce, up to the checksum of payload frames |
| Jaccl.FramePassesIffEncoded | tokenity/serving/distributed_openai.py:500-542 | a header with a payload passes both checks exactly when it is the header encoded for that payload |
| Jaccl.ResponseGenerator.ShareObject | tokenity/serving/distributed_openai.py:395-455 | what one rank contributes to each sum, what it returns or raises, and its new counter and stop flag |
| Jaccl.SumIsBroadcast | tokenity/serving/distributed_openai.py:420-442 | summing with zeros delivers rank 0's words unchanged, wrap-around included |
| Jaccl.RoundCompletes | tokenity/serving/distributed_openai.py:395-455 | from equal counters all ranks join the same one or two sums of the same width and length, and end the round |
| Jaccl.RoundCompletesIffShareable | tokenity/serving/distributed_openai.py:395-455 | with several ranks a round ends everywhere exactly when rank 0 does not refuse the object |
| Jaccl.SameEverywhereIffNotTheStopObject | tokenity/serving/distributed_openai.py:395-455 | all ranks return the same and stay in step exactly when the shared object is not the stop object |
| Jaccl.LockstepAlways | tokenity/serving/distributed_openai.py:395-455 | over any rounds of ordinary objects and any number of ranks: every round ends, all return what rank 0 shared, counters stay equal, and a stop is seen by all in the same round |
| LoadChunks.PackedIsFewest | tokenity/serving/distributed_openai.py:795-818 | chunks that could not take one more leaf each are never more than those of any other cut that keeps to the limits |
| LoadChunks.ParameterEvalChunks | tokenity/serving/distributed_openai.py:795-818 | the chunks concatenate to the list in order, keep to the leaf and byte limits or are single leaves, and no cut that does so has fewer |
| RepetitionDetector.SplitUndoesJoin | tokenity/serving/distributed_openai.py:150-151 | the words of the normalized text are the words of the text |
| RepetitionDetector.EndsWithRepeated | tokenity/serving/distributed_openai.py:161-166 | ending with the last unit written several times is having that period |
| RepetitionDetector.TailOfTail | tokenity/serving/distributed_openai.py:145 | trimming after every chunk keeps the window of everything observed |
| RepetitionDetector.Detector.WordsRepeat | tokenity/serving/distributed_openai.py:151-159 | true exactly when some width of 4 to 64 words is the period of the end |
| RepetitionDetector.Detector.CharactersRepeat | tokenity/serving/distributed_openai.py:160-167 | the same for characters, for units that are not mostly blank |
| RepetitionDetector.Detector.Observe | tokenity/serving/distributed_openai.py:142-167 | when enough is unchecked the answer is exact for the window of everything observed, however it was chunked |
| Watchdog.AgentWatchdog.Escalate | tokenity/node_agent/watchdog.py:276-314 | grace period, window, backoff and restart in order, with the whole new state |
| Watchdog.AgentWatchdog.DoTick | tokenity/node_agent/watchdog.py:235-314 | one tick: maintenance, success, too few failures, or escalation |
| WatchdogRuns.HistoryIsComplete | tokenity/node_agent/watchdog.py:287-290 | the trimmed history knows every restart after any cutoff that no trimming went beyond |
| WatchdogRuns.WindowNeverOverfull | tokenity/node_agent/watchdog.py:287-303 | while no restart happens at a reading earlier than that of an earlier trimming, and so under a clock that never goes back, no closed window of the configured length holds more restarts than allowed, over any run |
| WatchdogRuns.ReadingsCanOverfillIff | tokenity/node_agent/watchdog.py:276-313 | for every window length, exactly which orders of clock readings let some configuration and some outcomes of probes and restarts overfill a window |
| WatchdogRuns.FailuresAreTheStreak | tokenity/node_agent/watchdog.py:242-268 | the failure counter is the number of failed probes in a row since the last success, maintenance or restart |
| WatchdogRuns.MissingSinceIsTheRuns | tokenity/node_agent/watchdog.py:276-286 | the stored reading of a missing process is when the run's escalations first found it gone |
| WatchdogRuns.RestartEndsAStreak | tokenity/node_agent/watchdog.py:264-313 | a restart is the last of at least as many failed probes in a row as configured |
| WatchdogRuns.RestartsKeepTheirDistance | tokenity/node_agent/watchdog.py:294-311 | two restarts with no success between them are at least the capped exponential backoff apart |
| WatchdogRuns.BackoffsOverIff | tokenity/node_agent/watchdog.py:294-311 | the one stored deadline stands for the backoffs of all restarts since the last success |
| WatchdogRuns.RestartsExactlyWhen | tokenity/node_agent/watchdog.py:235-314 | in terms of the run alone, exactly when a tick restarts the agent: streak, grace period, room in the window, backoffs and the restart itself |
| InstanceRouting.KeepLeastLoaded | tokenity/control/instances.py:980-997 | exactly the candidates remain that no candidate is less loaded than |
| InstanceRouting.Collect | tokenity/control/instances.py:956-974 | an exact id is found first, otherwise exactly the routable instances of the model are collected |
| InstanceRouting.SortByIdAscends | tokenity/control/instances.py:998 | the sorted list has the same instances, in the order of their ids and without repeats |
| InstanceRouting.RotaIs | tokenity/control/instances.py:956-998 | the rota is exactly the least loaded routable matches, in the order of their ids and without repeats, and empty exactly when nothing matches |
| InstanceRouting.InstanceRouter.Resolve | tokenity/control/instances.py:945-1003 | an exact id wins, no match is an error, otherwise the instance whose turn it is in the rota of the least loaded matches, and the cursor moves on by one for that name and revision only |
| InstanceRouting.ResolutionsGoRound | tokenity/control/instances.py:945-1003 | each of any number of resolutions in a row takes the next place of the rota |
| InstanceRouting.OtherNamesKeepTheirTurn | tokenity/control/instances.py:1000-1003 | resolving one name and revision never moves the turn of another |
| InstanceRouting.EveryoneInTurn | tokenity/control/instances.py:945-1003 | as many resolutions in a row as instances are preferred return each of them exactly once |
| Routing.NoWorseScoresNoLess | tokenity/control/routing.py:316-347 | a model no worse in quality, latency, queue, failures, priority and affinity scores no less, and more if it is better in one of the measured respects |
| Routing.HardConstraintReasons | tokenity/control/routing.py:453-507 | each reason, one for every unsupported parameter, is listed exactly when its constraint is violated, once and in the order of the checks and of the parameters' names, and none exactly when the model is eligible |
| Routing.SortRanks | tokenity/control/routing.py:428 | sorting distinct models ranks them strictly and keeps them all |
| Routing.RankingIsUnique | tokenity/control/routing.py:428 | the ranking depends only on which models are ranked |
| RouteChoice.OrderNeverMatters | tokenity/control/routing.py:296-443 | permuting distinct models or adding ineligible ones leaves model, revision, reason and confidence unchanged |
| RouteChoice.ChoiceIsSound | tokenity/control/routing.py:296-443 | a model is chosen exactly when one is eligible, and the chosen one meets every hard constraint |
| RouteChoice.ScoredChoiceIsBest | tokenity/control/routing.py:428-443 | a choice by score has the highest score, then the smallest id, then the smallest revision |
| RouteChoice.BeatenIsNeverPicked | tokenity/control/routing.py:316-443 | the built-in policies never pick by score a model that another eligible one beats in quality, latency, queue, failures or priority without a drawback |
| RouteChoice.ExplicitHonouredIff | tokenity/control/routing.py:401-412 | the explicit model is used exactly when a matching eligible one is listed |
| RouteChoice.StickyKeptIff | tokenity/control/routing.py:414-426 | the session's model is kept exactly when the topic stays, it is listed and eligible, and no explicit one is |
| RouteChoice.DefaultTakenIff | tokenity/control/routing.py:428-443 | the default model is taken exactly when it is eligible, another model scores within the margin of the best, and neither an explicit nor a session's model applies |
| RouteChoice.SameEntriesIff | tokenity/control/routing.py:453-463 | the same models compete with and without a name exactly when naming admits none that is for explicit requests only |
| RouteChoice.UnavailableNameIsIgnored | tokenity/control/routing.py:401-443 | when naming admits none and the named model is not available, the decision is that of the request without a name |
| RouteChoice.AdmittedUnderAnotherRevision | tokenity/control/routing.py:401-461 | a model for explicit requests only that is chosen for another reason has the given name and another revision than the given one |
| RouteChoice.NamingAdmitsAnotherRevision | tokenity/control/routing.py:401-461 | a request for a missing revision is given another, locked one by score, while the same request without a name finds no model |
| RouteChoice.BestForModel | tokenity/control/routing.py:386-399 | the best revision of a model is the first one of it in the ranking, whatever is listed twice |
| RouteChoice.Lookup | tokenity/control/routing.py:402-422 | a model named with its revision is the last one listed under that key, without it its best revision |
| RouteChoice.Candidates | tokenity/control/routing.py:303-364 | every listed model is reported with its score or its reasons, and exactly the eligible ones compete |
| RouteChoice.AutoRouter.Decide | tokenity/control/routing.py:296-443 | for any list the decision is that of its eligible models, every model is reported, and the decision is counted |
| RouteChoice.RouterMetrics.Record | tokenity/control/routing.py:234-241 | decisions, failures and sticky hits are counted |

## Left out

- Floating point: probabilities, scores, ratios and times are real numbers; rounding is not part of the model.
- Text is a sequence of characters: Swift's grapheme clusters and Unicode normalization are not modelled.
- Tensors, tokenizers and the vendored kernels: the model, its caches, the sampler and the processors are arbitrary functions with the stated laws.
- The `advance` bookkeeping of linear caches: rollback restores the state slots only, and so does the model.
- The refusal of a late join (`extend`) and what makes a decoding state invalid or activation safe: whether the state belongs to the request, and whether drafting may begin, are inputs of `Next`.
- CacheRollback.RestoreAfterRejection: a layer whose trim fails in the second pass leaves the layers before it restored, as in the code; that cannot happen under the trim law.
- Durations and counters that only feed telemetry: the counters of proposals, cycles and emitted tokens are modelled, the timings are not.
- `ResourceLedger.reconcile`, memory breakdowns, heartbeats and snapshots: bookkeeping beside the modelled state.
- Instance ids, lease ids and the transition table's strings: fresh ids are a condition on arriving requests, not generated.
- `Condition.wait`, wake-ups and the polling interval: one turn of the waiting loop is an atomic step that may happen at any time.
- LedgerRuns.AllocateCollectivePort: probing a port is a function that does not change while a block is searched.
- CRC-32 and pickle: an arbitrary checksum, and an injective encoding into at least one byte.
- Jaccl.ResponseGenerator.ShareObject: the sums over all ranks are inputs of the call, and lemmas about all ranks supply them.
- Instances.ModelInstance.Transition: the `updated_at` stamp is left out, as in the lease operations.
- Scheduler.NormalizeNodes: stripped white space is blanks, tabs and line ends only.
- CycleDistribution.CyclesArePlayed: asks that a draw from weights names one of them; the sampler and the random stream are arbitrary otherwise, and that their draws follow the weights is what `Chance` says.
- LoadChunks.ParameterEvalChunks: asks for a leaf limit of at least one, which reading the setting guarantees.
- RepetitionDetector.Detector.Observe: lower-casing and the set of white space are arbitrary.
- The watchdog's probe, snapshot, restart command, state file, lock and diagnostics log (`bounded_append`).
- ResponseLoop.Respond: closing the generator and the model-side fields of a part are not part of the model; that a stop is requested is an input of each item.
- WatchdogRuns.WindowNeverOverfull: asks that no restart happens at a reading earlier than that of an earlier trimming; without it trimmed restarts are forgotten for good, which matters exactly as `ReadingsCanOverfillIff` says.
- HTTP endpoints, subprocesses, launch and stop handlers, SwiftUI, packaging and benchmarks.
