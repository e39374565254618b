# OmniVec: a verified model of its shared-state protocols and loops

OmniVec runs its control plane as several pods over one metadata container. They coordinate through
conditional writes, a Kubernetes lease, approval gates and recovery loops. This project models those
parts of the repository in Dafny and proves what they promise, in every interleaving where several
processes take part.

`dafny verify dfyconfig.toml` checks everything.

## How the model is built

- **State machines.** `ProgressProtocol`, `Checkpoints`, `DeploymentProtocol`, `LeaseProtocol`,
  `AgentProtocol` and `JobRecovery` each define a state, a `Step` datatype, a total `Next` (a step that is
  not enabled changes nothing) and `Run`; `ContainerDeployment` puts `World`, `Move`, `After` and `Played`
  around those of the job. The scheduler is arbitrary: a theorem about `Run` holds for
  every sequence of steps of any number of processes.
- **Objects and loops.** What the source does by changing fields or looping is a class or a method with
  loops (`ProgressTracker`, `CheckpointManager`, `Execution`, `LeaderElector`, `SharedAgent` with `RunAgent`,
  `ApprovalStore`, `Limiter`, the chunkers, the importer, the job monitor). A method that works on shared
  state lets the other processes run between any two of its own store calls, and returns as a ghost trace
  the run it took part in, so what is proved of all runs holds of the code.
- **Lost answers.** `VersionedStore` models the container with fresh etags and the blind retry loop around
  each call, including attempts the server performed although the client saw an error. What can come out
  of such a call is the `Fate` that all the protocols above use; `CallIsOneStep` proves that a whole call is
  one step with a fate.
- **Outside the model** are Azure, Cosmos DB, Kubernetes, the chat provider, HTTP, digests and random
  suffixes. Their outcomes are arbitrary values; the assumptions are fresh etags and resource versions,
  one shared clock per protocol, and electors with distinct identities.

| module | what it models |
|---|---|
| Outcomes | what modules share: optional values and the fate of a store call |
| VersionedStore | one document with etags, create, conditional replace, and the retry loop |
| ProgressDocument, ProgressProtocol, ProgressTracker | progress documents, rebase on conflict, the tracker object |
| Checkpoints | checkpoints and the manager that must back off when it is stale |
| DeploymentProtocol, DeploymentSafety, DeploymentWorker | approve, claim, lease, fence and retry of cloud deployments |
| ContainerDeployment | container deployments beside the container they create |
| LeaseProtocol, LeaderElector | leader election over one lease |
| Approvals, Conversation, AgentProtocol, AgentAnswers, AgentLoop | the approval store, message lists, chains of resumed chats with their replies and prompts, the final answers, the tool loop |
| Words, Chunker, TokenChunker | text and word chunking |
| JobRecovery, JobMonitor | recovery, cancellation and retry of jobs beside workers |
| BundleImport, BundleReferences, BundleStored, BundleImporter | importing a bundle with id renaming, what becomes of references, and what the store holds afterwards |
| RateLimiter | the two sliding-window limiters |
| Digits, IdentityPattern, IdentityTemplates | identity templates: parse, print, render, and which of them keep requests apart |

## What the proofs found

Each of these is a lemma or a method contract; the code was kept as it is.

- A call that is told it failed may have written. A progress update whose answer is lost is applied a
  second time by the rebase, and can then undo another tracker's later update
  (`LostAnswerRepeatsTheUpdate`). `save` of a checkpoint answering False, and a 409 of a job operation, hide a
  write exactly when the answer to a fitting write was lost and the blind repeat was refused
  (`AnswerHidesWriteIff`, `ReplyHidesWriteIff`, with the run `ConflictMayHaveWritten`).
- `create` under the retry decorator can write twice if the document is deleted between an ambiguous
  success and the next attempt, and once more for every such deletion (`AllowanceIsExact`). One `save` of a
  checkpoint can so write twice and answer False (`FalseMayHaveWrittenTwice`).
- A reset of a checkpoint can be undone by a manager that has not reloaded, exactly if it holds no etag: its
  creation's answer was lost, or it had loaded before there was a checkpoint (`ResetUndoneIff`,
  `ResetUndoneAfterLostAnswer`, `ResetUndoneAfterEarlyLoad`).
- A source is declared live at 99.95 percent, not only at 100, because the percentage is rounded to one
  decimal first (`LiveExactly`, `FullWhenRounded`).
- After a reset, a checkpoint manager that still holds an etag gets a not-found error from `save`, not the
  False its documentation suggests (`AnswerHidesWriteIff`).
- A container deployment creates the container before it stores the flag that says so. After a crash in between
  every later attempt takes the container for somebody else's (`CrashStrands`): an approved attempt can get
  through without help from outside exactly if there is no container or the flag is stored
  (`QueuedSucceedsIff`).
- That a container deployment reports as its own only a container the job created fails: the request that creates
  it also goes through over somebody else's that came up since the look, which then gets the flag and is reported
  as success (`ForeignContainerTakenOver`). It holds in every run in which no container of others comes up
  in that interval (`SuccessMeansMade`), and at any moment such a container can be taken over exactly if an executor
  that can still write is in it (`TakenOverIff`).
- Two electors can both believe they lead unless every iteration, its sleep included, takes less than a
  quarter of the lease duration. The quarter is exact (`OneLeader`, `QuarterIsExact`). An error without an
  API status steps a leader down at once, although the comment in `run` speaks of several failures
  (`TryRenewLease`, `Iterate`).
- After an executed action the final answer says that it was not executed exactly if something raised before
  the approved call was through, or a proposal was refused later in the resumed conversation
  (`ResumeAfterApproval`, with the runs `DeniedBecauseSomethingRaised` and `DeniedBecauseOfALaterRefusal`). The
  call includes its summary and its entry in the audit trail, so this can overwrite an outcome already
  recorded. The answer never says wrongly that processing was verified.
- A reply whose tool calls lack ids, or share one, makes the message list malformed, exactly then
  (`TurnWellFormedIffNamed`). With replies that name their calls all prompts stay well formed across parking
  and resuming (`MessagesStayWellFormed`), provided the history sent with the chat is; the chat endpoint also
  takes histories with answers nobody asked for (`FirstPromptIff`).
- The character chunker loops forever on some text exactly when the overlap exceeds four fifths of the size
  plus two; validation only asks for less than the size (`StopsOnEveryTextIff`). It raises IndexError exactly
  when the text is longer than the size and its first window is blank (`ChunkByChars`; `BlankStart` gives a
  text for every size). One of the two
  validations also admits a negative overlap; exactly those lose text (`CoversEveryTextIff`).
- An import that renames rewrites references by id alone. If a resource of another kind in the bundle has
  the same id, the reference can point nowhere afterwards (`ReferenceIsLost`); `ReferenceResolvesIff` gives the
  exact condition on bundle and store.
- An identity template with `{name:}` is accepted but does not print back (`PrintsBackIffNoColon`,
  `EmptySpecIsLost`).
- A template that spells out no text twice, and of whose chunk numbers it is plain whether they are set off or run
  into a text, keeps different requests apart exactly if at most one thing is left unknown when what is told
  is taken off at both ends (`SeparatesIff`): `{source}-{pipeline}`, for one, does not (`PairCollides`), the
  default does (`DefaultSeparates`), and no template in which the number runs into a text does
  (`LooseCollides`). For templates that repeat a text the condition suffices but is not necessary
  (`RepeatedTextsSeparate`).
- The cleanup prefix of a template covers its chunks exactly when nothing is rendered after the chunk number
  (`PrefixCoversIff`). The default prefix of a document also covers the chunks of every pipeline whose id goes
  on like one of its chunk ids, and no other foreign ones (`DefaultPrefixCoversIff`, `ForeignChunksCovered`).
- The authentication limiter uses the wall clock; when that is set back, it can forget attempts the window
  should still count (`ClockSetBack`). Exactly the readings that bring a time already dropped back into the
  window make some limit, asked often enough, decide wrongly (`HarmlessReadingIff`); for one limit, such as the
  ten attempts of the code, that is necessary but need not be sufficient.

## Model

| member | source | states |
|---|---|---|
| VersionedStore.ReplaceWithEtag | api/cosmos_retry.py:80-112 | A conditional replacement under the retry loop is, to everyone else, one atomic step at one moment of the call, whose fate explains the reply; so it writes at most once, whatever was ambiguous and whoever else writes or deletes in between, and success means exactly one write, over the version named. Only retryable errors are repeated, the attempts stay within the maximum and the sleep within the budget of the failed attempts |
| VersionedStore.CreateDocument | api/store.py:60-67 | A creation under the retry loop plays exactly the script of its attempts: at most one write plus one for each deletion in between, success means a write into absence, and if nobody deletes it is one atomic step whose fate explains the reply |
| VersionedStore.CallIsOneStep | api/cosmos_retry.py:80-112 | For every script of attempts, faults and moves of others: a replacement, and a creation nobody deletes, equals others acting, one step with one of the four fates, others acting; the fate determines what the reply can be |
| VersionedStore.ReplyTells | api/cosmos_retry.py:80-112 | What a caller can infer from a reply: success means performed, and this version; an error means performed or never arrived; a refusal means unfit and unchanged, or performed and the repeat refused |
| VersionedStore.AttemptIsStep | api/cosmos_retry.py:80-95 | In general each attempt is such a step by itself, and none but the last is answered |
| VersionedStore.AllowanceIsExact | api/cosmos_retry.py:80-112 | For every number of deletions there is a call, each failed attempt retryable, that meets so many and writes once more than that |
| VersionedStore.Container.AttemptReplace | api/store.py:104-116 | One replacement attempt: performed exactly when the etag matches and the request arrived, refused as missing or as overtaken otherwise, and silent about both when the answer is an error |
| VersionedStore.Container.AttemptCreate | api/store.py:60-67 | One creation attempt: performed exactly when the document is absent and the request arrived |
| VersionedStore.DelayAfter | api/cosmos_retry.py:98-105 | The wait after an attempt: exactly the server's wait, cut to the maximum, or the base doubled once for each attempt before, cut to the maximum, with at most a quarter more |
| VersionedStore.DoubledIsPower | api/cosmos_retry.py:100-100 | The doubling is by powers of two: doubling m and then n times is doubling m plus n times |
| VersionedStore.DefaultBudget | api/cosmos_retry.py:27-39 | Under the default policy at most six attempts are made, all six unless the last error is none of 408, 429, 449, 500, 502, 503 and 504; and if the server never names a wait, the pauses after one to five failures come to at least 0.2, 0.6, 1.4, 3.0 and 6.2 seconds, and at most a quarter more |
| VersionedStore.DirectedWait | api/cosmos_retry.py:37-39 | A wait the server names is kept exactly, up to thirty seconds |
| ProgressProtocol.RefinesAtomicUpdates | api/progress_tracker.py:75-140 | In every run of any number of trackers, after every commit, the document is what applying the committed updates one at a time in commit order would have made of it |
| ProgressProtocol.NothingIsLost | api/progress_tracker.py:86-99 | In every run each location, worker kind and the live report of the current document, its status with its reason, and its times are what the last committed update to them said; the totals are those of the locations |
| ProgressProtocol.TotalsAlwaysAgree | api/progress_tracker.py:227-249 | In every version ever committed, each of the six totals is the sum over the locations of that version |
| ProgressProtocol.EveryVersionSays | api/progress_tracker.py:173-340 | In every run every version ever committed says what the one update that committed it was to say, field by field of the document |
| ProgressProtocol.WritesPerCall | api/progress_tracker.py:101-131 | How often a call wrote: lost answers are the exact difference between its writes and its success, and in no run does a call write more than five times |
| ProgressProtocol.LostAnswerRepeatsTheUpdate | api/progress_tracker.py:121-131 | A run in which a call whose answer was lost writes twice and undoes another tracker's update |
| ProgressDocument.RebaseReapplies | api/progress_tracker.py:86-99 | Copying an operation's paths from its proposal onto a newer document equals performing the operation on that document, whatever the proposal was computed from |
| ProgressDocument.ApplyTouches | api/progress_tracker.py:187-340 | What each kind of update changes and what it leaves alone: only a report on a location touches locations and totals, only a worker report leaves status and reason, none touches the creation time |
| ProgressDocument.ReplayKeepsLastWord | api/progress_tracker.py:263-340 | After any sequence of updates each location, each worker entry, the live report, the status with its reason (those of the last update that is no worker report), the totals and the times are what the last update to them said |
| ProgressDocument.SumAssign | api/progress_tracker.py:238-240 | Reporting one location moves each total by exactly that location's change |
| ProgressDocument.TotalsMove | api/progress_tracker.py:227-245 | Whatever is reported of a location, each of the six totals moves by exactly what the new report says more than the last one, and the overall percentage is the nearest share of the new totals |
| ProgressDocument.NoTotals | api/progress_tracker.py:227-245 | Without locations every total is zero; with `TotalsMove` that fixes all of them |
| ProgressDocument.RefreshedSumsUp | api/progress_tracker.py:227-261 | A refresh leaves totals that are the sums of every field over the locations, with the nearest percentage, and the status and reason that these totals and the first location with an error call for |
| ProgressDocument.LiveExactly | api/progress_tracker.py:251-261 | Exactly when a refresh declares a source live: no error, nothing pending and a rounded percentage of at least one hundred |
| ProgressDocument.FullWhenRounded | api/progress_tracker.py:242-245 | The rounded percentage reaches one hundred exactly from 99.95 percent on |
| ProgressDocument.PercentIsNearest | api/progress_tracker.py:195-197 | For every part and every whole above zero the percentage in tenths is the nearest one, half of one going to the even, and without a whole it is zero; so twice the error, in units of the whole, is at most the whole |
| ProgressDocument.Round1IsNearest | api/progress_tracker.py:277-280 | For every number the rounding to tenths is off by at most half a tenth, and a tie goes to the even one |
| ProgressTracker.RefreshBackfillTotals | api/progress_tracker.py:227-261 | The accumulating loop over the locations leaves the sums of every field, the nearest percentage in tenths, the status, and as the reason the first error |
| ProgressTracker.ProgressTracker.Rebase | api/progress_tracker.py:86-99 | The path-copying loops compute the rebased document and leave its etag in the tracker |
| ProgressTracker.ProgressTracker.SaveWithEtag | api/progress_tracker.py:75-140 | One to five conditional writes, five if it gives up; on success the tracker holds the newest etag and the committed document is its operation applied to the version just before it; success exactly when the write was answered |
| ProgressTracker.ProgressTracker.LoadOrNew | api/progress_tracker.py:142-171 | The newest document, or a blank one for an absent document, and the matching etag |
| ProgressTracker.ProgressTracker.UpdateBackfillProgress | api/progress_tracker.py:173-225 | One location's report is a call of the protocol: every field of the entry is tied to the arguments, the percentage is the nearest in tenths, and the completion estimate is the present plus the pending jobs at the rate since the creation of the document; success commits it over the version just before |
| ProgressTracker.ProgressTracker.UpdateLiveProgress | api/progress_tracker.py:263-301 | A live report is a call of the protocol: its fields are the arguments, and its lag is the pending events over the throughput to the nearest tenth, zero when either is not above zero; success commits it over the version just before |
| ProgressTracker.CompletionIsExpected | api/progress_tracker.py:199-207 | A completion estimate is made exactly when jobs are pending and some are completed, for the time that the pending ones take at the rate of the completed ones over the age of the document, taken as an hour at least |
| ProgressTracker.ProgressTracker.UpdateWorkers | api/progress_tracker.py:303-328 | Without a document a worker report does nothing: the document was absent and only other trackers took steps; else it is a call of the protocol |
| ProgressTracker.ProgressTracker.SetStatus | api/progress_tracker.py:330-340 | A status change is a call of the protocol; success commits it over the version just before |
| Checkpoints.NeverGoesBack | api/checkpoint_manager.py:74-150 | If every caller saves no less than its own view, the stored count never decreases between two resets, over every interleaving |
| Checkpoints.HonestSave | api/checkpoint_manager.py:175-179 | What is asked of the callers: a save is honest if its count is at least the one in view, or zero with none in view, whatever else it holds |
| Checkpoints.SavesReplaceWhatWasSeen | api/checkpoint_manager.py:115-167 | In every run each version was committed by one save, whose request went out, of exactly that checkpoint and whose manager remembered exactly the document it replaced, the version just before, or that there was none; each reset was asked for and removed a version |
| Checkpoints.RemembersLastLesson | api/checkpoint_manager.py:48-167 | In every run a manager remembers exactly what the last of its calls to be answered told it: the newest version and its etag after a load or a save that succeeded, nothing after a reset or in an empty store |
| Checkpoints.StaleWritesNothing | api/checkpoint_manager.py:115-150 | A manager overtaken by anything writes nothing more until it reloads, in every continuation |
| Checkpoints.ResetIsNotUndone | api/checkpoint_manager.py:152-167 | After a reset a manager that holds an etag from before it and has not reloaded writes nothing, in every continuation |
| Checkpoints.ResetUndoneIff | api/checkpoint_manager.py:115-167 | After a reset, a manager whose memory is older can put any checkpoint back without reloading, in some continuation, if and only if it holds no etag |
| Checkpoints.ResetUndoneAfterLostAnswer | api/checkpoint_manager.py:115-132 | A run that undoes a reset: the answer to the creation was lost, so its manager creates again |
| Checkpoints.ResetUndoneAfterEarlyLoad | api/checkpoint_manager.py:48-55 | Another, with no answer lost: the manager had loaded before there was a checkpoint |
| Checkpoints.AnswerHidesWriteIff | api/checkpoint_manager.py:115-150 | In every state: True means a write; False hides one exactly if the answer to a fitting write was lost and the repeat refused; a document vanished under a known etag means an exception and no write |
| Checkpoints.FalseMayHaveWrittenTwice | api/checkpoint_manager.py:120-132 | A run in which one save that answers False has written twice, with a reset in between |
| Checkpoints.CheckpointManager.Load | api/checkpoint_manager.py:48-72 | Loading leaves the manager with the newest checkpoint and its etag, or with none if there is none or a reset came last |
| Checkpoints.CheckpointManager.Save | api/checkpoint_manager.py:74-150 | What is written has exactly the four fields of the state from the arguments, unless extra state replaces them, and all of the extra state and statistics; the answer is the one `AnswerHidesWriteIff` speaks of, for the one last write of the call, and before it come only creations whose answers were lost. True: exactly the version last seen was replaced and the manager is up to date; False: it has reloaded |
| Checkpoints.CheckpointManager.Reset | api/checkpoint_manager.py:152-167 | The last deletion removes the document exactly if there is one and the request went out; True: the document is gone and the manager holds nothing; otherwise it raises and the manager is as before |
| Checkpoints.CheckpointManager.GetItemsProcessed | api/checkpoint_manager.py:175-179 | The count of the checkpoint the manager remembers, zero without one |
| Checkpoints.CheckpointManager.GetContinuationToken | api/checkpoint_manager.py:169-173 | The continuation token of the checkpoint the manager remembers |
| Checkpoints.CheckpointManager.GetLastItem | api/checkpoint_manager.py:181-185 | The last item of the checkpoint the manager remembers |
| DeploymentSafety.BooksBalance | api/cloud_deployments.py:359-377 | In every version ever stored approvals are attempts plus one if queued, and attempts are at most three |
| DeploymentSafety.EveryVersionIsCaused | api/cloud_deployments.py:349-416 | In every run each version but the plan was written by one step whose request went out, and is in every field what that step makes of the version before: an approval of a plan at most 1800 seconds old or of a failed or interrupted attempt, with fewer than three attempts; a claim for 1800 seconds; a mark once these are over; a fence more than 120 seconds before that; or a report |
| DeploymentSafety.ClaimsSpendApprovals | api/cloud_deployments.py:431-444 | Every claim follows a queued version and spends exactly one approval |
| DeploymentSafety.SucceededIsTerminal | api/cloud_deployments.py:359-362 | A succeeded job is never written again |
| DeploymentSafety.OneHolder | api/cloud_deployments.py:380-384 | At most one executor still at work holds the current etag |
| DeploymentSafety.OvertakenNeverWrites | api/cloud_deployments.py:380-395 | Once anything was written after an executor's own last version, it commits nothing in any continuation |
| DeploymentSafety.InterruptionFences | api/cloud_deployments.py:433-439 | Marking a job interrupted, or approving it again, fences off every executor there has been |
| DeploymentSafety.NoActionAfterALaterClaim | api/cloud_deployment_azure.py:47-61 | If what one fence guards is over within 120 seconds of its deadline check, no action of an attempt happens after a later attempt was claimed |
| DeploymentSafety.EffectAtMostOnce | api/cloud_deployment_azure.py:173-189 | Across all retries, workers, crashes and lost answers one job issues its inference, or its agent creation, at most once, and only with the flag stored |
| DeploymentSafety.BilledIsNotRetried | api/cloud_deployments.py:363-364 | A verification whose flag was ever stored is never claimed again |
| DeploymentWorker.ApproveCloudDeployment | api/cloud_deployments.py:349-377 | Each refusal is given exactly in its own case and order, with three attempts and 1800 seconds as the limits, and leaves everything as it was; without one, one conditional write, accepted exactly if it replaced the version read and was answered, and then the job is queued with one approval more |
| DeploymentWorker.RefusedIffNotApprovable | api/cloud_deployments.py:359-367 | The refusals that concern the job itself are exactly the cases in which the protocol allows no approval |
| DeploymentWorker.Claim | api/cloud_deployments.py:425-447 | Each job goes through a run that is returned: expired ones end with the attempt to mark them, the first claim that goes through ends the scan, one that raises ends it without a claim, and the jobs after that are untouched |
| DeploymentWorker.ClaimOne | api/cloud_deployments.py:431-446 | On one document: the one write the scan makes, if its status and lease call for one, comes last in the run and leaves the job interrupted, or running for 1800 seconds with one attempt more; a claim is won exactly on an answered write over the version read |
| DeploymentWorker.Execution.RecordProgress | api/cloud_deployments.py:390-395 | A fence refuses exactly within 120 seconds of the end of the lease; it writes over the version the executor holds, or the executor stops |
| DeploymentWorker.GuardedCalls | api/cloud_deployment_azure.py:47-61 | What guarded means: between a call and the recorded fence before it lie at most three calls and nothing else, and an effect that must not be repeated comes right after the recorded flag |
| DeploymentWorker.Execution.Request | api/cloud_deployment_azure.py:47-61 | The own steps of an answered request are one recorded fence and then one call; a stopped one made no call, or made it under its fence and gave up |
| DeploymentWorker.Execution.Wait | api/cloud_deployment_azure.py:74-86 | At most 120 polls, each a fence and a call of its own; true exactly when the last answer was that the resource is there; false after 120 or at the first that failed or stopped |
| DeploymentWorker.Execution.FlagThenAct | api/cloud_deployment_azure.py:173-189 | The own steps are the recorded flag and then the effect, or no effect at all and the document as before |
| DeploymentWorker.Execution.VerifyAgent | api/cloud_deployment_azure.py:168-223 | Verified means exactly: fence, two looks at the agent, recorded flag, inference; a started flag means nothing is done but giving up; an inference without verification comes after the same steps |
| DeploymentWorker.Execution.DeployFoundry | api/cloud_deployment_azure.py:373-427 | Adopting a version of its own, and any run that finds the flag set, creates nothing and leaves the flag; otherwise success ends with the recorded flag and the one creation; every call comes after a fence |
| DeploymentWorker.Execution.EnsureContainer | api/cloud_deployment_azure.py:135-145 | Its own steps are, with a fence before each call, exactly what the moves beside the container show: the look alone if one is there, accepted exactly with the flag; else the request, the storing of the flag right after its answer, and the polls |
| DeploymentWorker.Execution.DeployContainer | api/cloud_deployment_azure.py:114-159 | Only fenced calls come before and after those moves; done means the flag is stored; a container that was found without the flag ends in giving up |
| DeploymentWorker.Execution.DeployMcp | api/cloud_deployment_azure.py:225-319 | Whatever fails on the way, a server deployment makes each call within the first four after its fence, stores no flag, makes no effect that must not be repeated and leaves the document as it was |
| DeploymentWorker.Execution.VerifyMcp | api/cloud_deployment_azure.py:334-371 | At most 24 rounds, in which at most four calls share a fence; it ends with the executor at work exactly if the server was ready |
| ContainerDeployment.SuccessMeansMade | api/cloud_deployment_azure.py:135-145 | In every run in which somebody else's container never comes up between an executor's look and its request, a version with the flag, and so every success, comes after a creation by the job where there was none |
| ContainerDeployment.TakenOverIff | api/cloud_deployment_azure.py:135-138 | In any state in which that has held so far: if somebody else's container comes up now, the job can end as succeeded without ever having created one if and only if an executor that still holds the newest version has found none and not sent its request |
| ContainerDeployment.ForeignContainerTakenOver | api/cloud_deployment_azure.py:135-138 | A run from the plan on in which somebody else's container comes up after the look, gets the flag and is reported as success |
| ContainerDeployment.WorldIsRun | api/cloud_deployment_azure.py:114-145 | Every run beside a container, with anybody creating or deleting it, is to the job a run of its protocol: look and request are calls, the flag is a fence, the report is the success |
| ContainerDeployment.StrandedForGood | api/cloud_deployment_azure.py:136-145 | Once the container is there without the flag, and no executor that knows better can still write, the job never gets the flag and never succeeds, in every continuation in which nobody deletes the container |
| ContainerDeployment.QueuedSucceedsIff | api/cloud_deployment_azure.py:135-145 | An approved attempt can succeed, in some continuation without help from outside, if and only if there is no container or the flag is stored |
| ContainerDeployment.DeletionHelps | api/cloud_deployment_azure.py:135-138 | In every state with an approved attempt the deletion of the container, which changes nothing of the job, lets it get through |
| ContainerDeployment.CrashStrands | api/cloud_deployment_azure.py:137-138 | A run: the first attempt dies between creation and flag, the job is approved again, and no continuation without help from outside succeeds |
| DeploymentWorker.Execution.ExecuteJob | api/cloud_deployments.py:387-416 | Executing a claimed job of any kind takes part in the protocol; in the whole of it every call is one of the first four after its fence and the billable effect comes right after its flag; success means the succeeded version is stored, for a verification and a container with the flag |
| DeploymentWorker.Execution.ReportFailure | api/cloud_deployments.py:402-416 | Stores the failure exactly if nobody has written since the version the executor holds and the request goes out, and ends the executor in any case |
| LeaseProtocol.TakeoversWait | api/leader_election.py:169-198 | Whoever takes the lease from another holder is let in no earlier than one lease duration after the last renewal that holder recorded |
| LeaseProtocol.DelusionEnds | api/leader_election.py:110-142 | An elector that believes it leads but is no longer holder never renews again and has stepped down by the end of its third further iteration |
| LeaseProtocol.OneLeader | api/leader_election.py:110-146 | If every iteration with its sleep takes less than a quarter of the duration, each believer holds the lease, so two believers are one |
| LeaseProtocol.OnlyTheBusyBindTheClock | api/leader_election.py:110-146 | What the bound on an iteration asks of the clock: nothing on account of an elector that crashed, or sleeps and does not lead |
| LeaseProtocol.QuarterIsExact | api/leader_election.py:129-146 | For any longer bound a run in which two electors believe they lead |
| LeaseProtocol.LeadsIff | api/leader_election.py:156-266 | With nobody in between and no error, in every state: a leader stays one exactly if the lease is its own; a newcomer becomes one exactly if there is no lease, it is its own, was never renewed, or its duration is over; whoever leads has just written the lease |
| LeaderElector.LeaderElector.TryRenewLease | api/leader_election.py:233-266 | It writes exactly if the read went through and found its own name; True exactly if that write went through and nobody wrote since the read; it raises exactly for an error with a status |
| LeaderElector.LeaderElector.TryAcquireLease | api/leader_election.py:156-231 | It writes exactly if the read went through and found no lease, its own, one never renewed, or one past its duration; True exactly if that write went through and nobody wrote since the read; it raises exactly for an error with a status |
| LeaderElector.LeaderElector.Iterate | api/leader_election.py:110-139 | One iteration keeps belief and failure count as the protocol has them: an error without a status ends leadership at once, one with a status is counted and ends it at the third in a row, and without either whoever leads has just written the lease and has no failure to its name |
| LeaderElector.LeaderElector.RunLoop | api/leader_election.py:95-146 | The loop takes part in the protocol, one iteration per turn |
| Approvals.SingleUse | agent/approvals.py:72-79 | After a pop no sequence of calls within the time to live lets the key be popped or parked again |
| Approvals.StaysConsumed | agent/approvals.py:91-97 | A consumed key stays consumed, with its time, through any calls of a full time to live |
| Approvals.OneMoreCall | agent/approvals.py:64-97 | Any sequence of calls is its calls one after the other |
| Approvals.FreeAfterwards | agent/approvals.py:91-97 | One moment past the time to live the key can be parked again |
| Approvals.ConsumedForAQuarterHour | agent/approvals.py:30-30 | With the time to live in force a consumed key is free again after 900 seconds, and not before |
| Approvals.ApprovalStore.Put | agent/approvals.py:64-70 | Drops what is too old, then parks the record exactly when the key is neither pending nor consumed within the time to live; every other entry of both tables stays |
| Approvals.ApprovalStore.Pop | agent/approvals.py:72-79 | Hands out exactly a record that is pending within the time to live, takes it out and marks its key consumed now; every other entry young enough stays |
| Approvals.ApprovalStore.Get | agent/approvals.py:81-84 | Prunes and looks, without consuming |
| Approvals.ApprovalStore.Prune | agent/approvals.py:91-97 | Drops exactly what is older than the time to live from both tables |
| AgentProtocol.BudgetPerChain | agent/agent_loop.py:200-203 | All resumptions descending from one chat execute at most two mutations together |
| AgentProtocol.NothingElseIsParked | agent/agent_loop.py:186-236 | In every run, whatever is about to be parked, is parked, or is being decided about is a registered mutation that its proposer's role may use, proposed with fewer than two attempts behind it and, if it is destructive, asked for by the last user message; and whatever was executed is a mutation that the role of the one who approved it may use |
| AgentProtocol.ReplyLeadsTo | agent/agent_loop.py:172-236 | What a reply leads to: the first call of such a kind is parked, with all calls before it answered; if there is none the loop goes on, and the record says not executed exactly if some call named a mutation; so an administrator's mutation called by somebody else is never parked |
| AgentProtocol.VerdictIs | agent/agent_loop.py:186-213 | One call: parked exactly if the above holds of it, noted as refused exactly if it is any other mutation, run exactly if it is readonly and for the role |
| AgentProtocol.EveryMutationIsLicensed | agent/agent_loop.py:321-346 | Every executed mutation came from one pop of one parked record that was popped only once, approved by the record's own user, and no other mutation came from that pop |
| AgentProtocol.MessagesStayWellFormed | agent/agent_loop.py:113-230 | In every run, across parking and resuming, of chats with well-formed histories and replies that name their calls: every prompt ever sent is well formed and every parked history has exactly one open call, the one its key names |
| AgentProtocol.FirstPromptIff | agent/agent_loop.py:106-110 | The first prompt of a chat is well formed exactly when the history sent with it is |
| AgentAnswers.RecordAfterReplies | agent/agent_loop.py:182-215 | When the provider has no more calls the record says not executed exactly if some proposal was refused, which is if some reply named a mutation, else what it said before; chain, user, count and requests are unchanged |
| AgentAnswers.RefusedIsMutation | agent/agent_loop.py:186-213 | When nothing of a reply is parked, some proposal was refused exactly if a call named a registered mutation |
| AgentAnswers.DeniedBecauseSomethingRaised | agent/agent_loop.py:332-350 | A run in which the approved action was executed, something raised before the call was through, and the final answer says it was not executed |
| AgentAnswers.DeniedBecauseOfALaterRefusal | agent/agent_loop.py:182-215 | A run in which the action was executed and even verified, and a later refused proposal makes the final answer say it was not executed |
| Conversation.WellFormedIffBalanced | agent/agent_loop.py:159-198 | A message list is well formed exactly when every turn with calls is followed at once by one answer to each call, and no answer stands anywhere else |
| Conversation.TurnLeavesOpen | agent/agent_loop.py:172-198 | After some calls of a turn were answered exactly the others are open, if and only if the ids are distinct and those answered are not empty |
| Conversation.TurnWellFormedIffNamed | agent/agent_loop.py:172-173 | A completed turn is well formed exactly when every call has an id of its own |
| Conversation.CutTurnLeavesOne | agent/agent_loop.py:217-230 | Cutting the turn off after the parked call leaves exactly that call open, and its answer completes the list |
| Conversation.RequestedIff | agent/agent_loop.py:204-208 | A destructive tool counts as asked for exactly if the last user message of the list asks for it |
| AgentLoop.WalkCalls | agent/agent_loop.py:159-275 | One reply: the walk stops at exactly the first call to a mutation that the caller's role, the budget and the user's last message allow, and cuts the turn off there; all calls before it are answered in place, exactly the readonly ones for the role are run, and the record says not executed exactly if one of those before named a mutation |
| AgentLoop.RunAgent | agent/agent_loop.py:113-291 | At most eight prompts, exactly those the provider's replies lead to and the only ones of this request, each well formed if the first is and the replies name their calls; no mutation is executed; what is parked is the first mutation that role, budget and the user's last message allow; the final answer says not executed exactly if a reply named a mutation |
| AgentLoop.PromptsAreWellFormed | agent/agent_loop.py:159-198 | From a well-formed list, replies that name their calls lead only to well-formed prompts |
| AgentLoop.ExecuteVerified | agent/recovery.py:27-61 | The action is counted before it runs, runs once, and is observed at most twice; the outcome is the one the observations support |
| AgentLoop.ResumeAfterApproval | agent/agent_loop.py:294-390 | Approved or denied, the parked call and no other is answered first; the tool runs only on the owner's approval and within the budget; the final answer says not executed exactly if the tool did not run, something raised before the approved call was through (its audit entry included), or a later proposal was refused; otherwise it is the recorded outcome, verified only after a positive last observation |
| AgentLoop.ChatEndpoint | agent/api.py:180-212 | A chat starts a chain with nothing executed, on any history; its prompts follow from system message, history, user message and the replies, and all are well formed if the history is and the replies name their calls |
| AgentLoop.ApproveEndpoint | agent/api.py:236-269 | Only an administrator's approval of a record popped for its own user runs a tool, and the chain's count grows by one exactly then |
| Chunker.StopsOnEveryTextIff | api/chunker.py:35-65 | For an overlap below the size the loop ends on every text if and only if the overlap is at most four fifths of the size plus two |
| Chunker.WindowEndIsBest | api/chunker.py:36-53 | A window ends after the last paragraph break past the start of its last fifth, else after the last sentence break there, else a size on |
| Chunker.WindowsTile | api/chunker.py:35-65 | Windows go from the start to the end of the text, are at most the size long and advance at both ends; each begins exactly the overlap before the end of the one before it, or at that end if the overlap is not below it |
| Chunker.CutIsRight | api/chunker.py:35-65 | For every text, size and overlap and any number of turns: the windows cut begin at the start, each begins the overlap before the end of the one before it, each ends after the last break of its last fifth or a size on, and when the loop is over they reach the end |
| Chunker.PiecesAreOfWindows | api/chunker.py:55-58 | Every chunk is a contiguous stretch of one window with no whitespace at its ends |
| Chunker.PickedChunks | api/chunker.py:55-62 | The chunks are, in order and numbered from zero, the texts of exactly those windows that are not blank, each the stretch of the text from its first to its last character that is not whitespace |
| Chunker.CoversEveryTextIff | api/chunker.py:55-65 | Every character that is not whitespace lies in some chunk, for every text, if and only if the overlap is not negative |
| Chunker.LastSentence | api/chunker.py:46-51 | The loop over the six patterns finds the last sentence break of any kind |
| Chunker.CutWindow | api/chunker.py:36-53 | The search for a break computes the window end |
| Chunker.ChunkByChars | api/chunker.py:26-67 | Whenever the loop ends: raises exactly when the text is longer than the size and the first window is blank; else returns the chunks of `PickedChunks` of the windows it cut, which are as `CutIsRight` says |
| Chunker.BlankStart | api/chunker.py:55-62 | For every size a text that makes it raise: one blank window and a letter |
| Chunker.CutIsWindows | api/chunker.py:35-65 | For the overlaps with which the loop ends on every text, the windows cut turn by turn are the tiling windows |
| TokenChunker.TokenRoundTrip | api/chunker.py:70-90 | The words of the first chunk followed by those of each later chunk without its first overlap are exactly the words of the text |
| TokenChunker.TokenChunkCount | api/chunker.py:80-88 | There are one plus the rounded-up quotient of the words past the first window by the step |
| TokenChunker.WordWindowsTile | api/chunker.py:80-88 | Word windows begin at the first word, end at the last, and each begins the overlap before the end of the one before |
| TokenChunker.ChunksAt | api/chunker.py:70-90 | The chunk at each number is the words from that many steps of size less overlap on, at most size of them, joined by single spaces |
| TokenChunker.ChunkByTokens | api/chunker.py:70-90 | The loop ends and returns, numbered from zero, the chunks of `ChunksAt`, or the text itself if it is short |
| TokenChunker.ChunkText | api/chunker.py:7-23 | A blank text has no chunks and only a blank text has none; else the unit chooses the chunker; for characters whenever the loop ends on the text |
| Words.SplitJoin | api/chunker.py:72-82 | Splitting the join of words gives the words back |
| Words.JoinAppended | api/chunker.py:82-82 | Joining puts one space between neighbours and nothing else |
| Words.SplitAtSpace | api/chunker.py:72-72 | Splitting at any whitespace: the words before it and the words after it, with no empty ones |
| Words.SplitOne | api/chunker.py:72-72 | A word by itself is one, and nothing is none |
| Words.WhitespaceIs | api/chunker.py:18-18 | Exactly the twenty-nine characters that Python takes for whitespace |
| JobRecovery.NeverUndoesAWorker | api/controller.py:79-128 | Whatever workers write, every commit of monitor, cancel or retry replaced a job neither completed nor cancelled at that moment, by an allowed move: in particular a job the monitor failed at some time had started before the cutoff, or was created before it if it has no start |
| JobRecovery.PlanIsMove | api/controller.py:91-121 | Each operation goes on to write exactly when a move is allowed, and then writes that one, field by field: the monitor fails a processing job whose start, or without one its creation, or without that its last write, is before the cutoff, and revives a failed one with retries left on an active pipeline |
| JobRecovery.RetriesCountRevivals | api/api.py:5953-5986 | The retry count is the number of revivals and at most the larger of the automatic limit and ten |
| JobRecovery.GoesByThePipeline | api/controller.py:106-114 | In every run a job is revived only on a pipeline that was active at some moment, and one with retries left is left failed only on one that was not |
| JobMonitor.MonitorJobHealth | api/controller.py:79-128 | Whatever others do meanwhile, the process does exactly one pass over the jobs eligible at its start: each read once, then each decided and written in turn; with nobody in between and answered writes, no job is left processing past the cutoff by its start, its creation or its last write, and none failed with retries left on an active pipeline |
| JobMonitor.UndisturbedPassHeals | api/controller.py:79-128 | For every state and every order of its eligible jobs: the pass, undisturbed and answered, leaves no job processing whose start, or without one creation, or without that last write, is before the cutoff, and no failed job with automatic retries left on an active pipeline |
| JobMonitor.ReadAll | api/controller.py:85-90 | The query hands out every job that was processing or failed, once and in any order, each read at its own time, and does nothing else |
| JobMonitor.Control | api/api.py:5932-5986 | Cancel and retry: an early refusal wrote nothing and is given exactly when the job as read allows no move; any other answer is that of the one conditional write; success means the last commit is theirs and an allowed move of the job as stored at that moment |
| JobMonitor.ReplaceControlDoc | api/api.py:1006-1014 | One conditional write and its answer, in every state and with every fate: a stale write is a conflict, success means the write was committed |
| JobMonitor.ReplyHidesWriteIff | api/api.py:1006-1014 | A conflict hides a write exactly if the document fitted and the answer was lost and the repeat refused; success means a commit; another error hides one exactly if it fitted and the answer was lost |
| JobMonitor.ConflictMayHaveWritten | api/api.py:1006-1014 | A run in which cancelling answers with a conflict after it has cancelled the job |
| BundleImport.ReferencesResolve | api/api.py:9627-9646 | In every mode a reference that resolved in bundle or store resolves afterwards, if no entry of another kind shares the id it names |
| BundleReferences.ReferenceResolvesIff | api/api.py:9627-9739 | For every store, bundle and reference, after a renaming import: if no entry with its id had to be renamed it resolves exactly when it did before, else exactly when the last such entry is of the kind the reference means |
| BundleReferences.NewDrawsIff | api/api.py:9649-9655 | What is assumed of the drawn suffixes, in full: they are of one length and differ, and no id in store, bundle or reference is that of an entry followed by one of them |
| BundleReferences.ReferenceIsLost | api/api.py:9637-9642 | A store and a bundle where a pipeline's reference to an existing destination points nowhere after the import |
| BundleStored.ImportStores | api/api.py:9627-9823 | After an import whose writes all went through, in every mode: every document is the last entry written under its key, with its own name unless renamed, the rest of its fields, paused if it is a pipeline, and each reference of a pipeline or an assistant naming the new id of the last entry with the old id that was renamed, and as it was if there is none; every other document is as before |
| BundleStored.StoredReferencesResolve | api/api.py:9627-9646 | Of every stored pipeline and assistant that was written, each reference that meant something in the store or the bundle means something afterwards, if no entry of another kind shares the id it named |
| BundleStored.StoredReferenceResolvesIff | api/api.py:9627-9739 | And after an import that renames, exactly when a stored reference means something |
| BundleImport.ReferencesFollowRenaming | api/api.py:9627-9646 | If no id occurs twice, a reference changes exactly when it names a renamed entry, and then to that entry's new id |
| BundleImport.WritesAreFresh | api/api.py:9719-9739 | Skipping or renaming, the written keys are pairwise distinct and none was in the store |
| BundleImport.ExistingUntouched | api/api.py:9719-9741 | Unless overwriting, an import changes no resource the store had |
| BundleImport.WrittenPipelinesArePaused | api/api.py:9743-9745 | Every pipeline written is paused in the store afterwards |
| BundleImporter.CountersPartition | api/api.py:9700-9741 | For each of the five kinds each counter is the number of the entries of that kind with that fate, and together they are all of them |
| BundleImporter.NewId | api/api.py:9727-9729 | The loop draws suffixes until the id is free for its kind |
| BundleImporter.PlanImport | api/api.py:9698-9747 | The first loop decides, counts, renames and pauses every entry in place |
| BundleImporter.RewriteIds | api/api.py:9627-9646 | The in-place loops rewrite every reference of pipelines and assistants, and nothing else of any entry: each that names a renamed id gets the new one |
| BundleImporter.ImportBundle | api/api.py:9658-9823 | A dry run changes nothing; under every key whose write did not fail the store holds what `ImportStores` says, and under the others what it held or was to hold; the decisions and the counters are those the mode and the ids taken call for |
| RateLimiter.PrunedWindowIsFullHistory | api/api.py:614-627 | Unless the clock goes back so far that a dropped time is in the window again, the pruning limiter accepts exactly what one with the full history accepts |
| RateLimiter.HarmlessReadingIff | api/api.py:536-547 | After harmless readings, the next one leads no limit to a wrong decision, however often it is repeated, if and only if it brings no dropped time back into the window |
| RateLimiter.AtMostLimitInAnyWindow | api/api.py:614-627 | No window of that length, wherever it ends, holds more accepted requests of a key than the limit |
| RateLimiter.PoliciesInForce | api/api.py:532-547 | On a clock that does not go back, an authentication attempt is let through exactly if fewer than ten of its address were accepted in the sixty seconds before, one sixty seconds old not counted, and a request exactly if fewer than 120 of its key were, one sixty seconds old counted |
| RateLimiter.PrunedCountsWindow | api/api.py:618-620 | What pruning leaves is as many as the requests of the key at most a window old |
| RateLimiter.KeysAreIndependent | api/api.py:619-627 | What happens to a key is what would happen if no other key were used |
| RateLimiter.ClockSetBack | api/api.py:536-547 | On a clock set back an attempt is accepted that the full history would refuse |
| RateLimiter.Limiter.Check | api/api.py:614-627 | Accepts exactly when fewer than the limit of all accepted requests of the key are at most a window old, for every harmless clock; a limit of zero is off and leaves everything as it was |
| IdentityPattern.PrintOfParse | api/api.py:5003-5016 | Parsing an accepted pattern and printing its pieces gives the pattern back |
| IdentityPattern.ParseOfPrint | api/api.py:5003-5016 | Printing plain pieces and parsing gives the pieces back |
| IdentityPattern.PrintsBackIffNoColon | api/api.py:5007-5010 | Printed with plain fields an accepted pattern comes back exactly when no field was written with an empty format spec |
| IdentityPattern.EmptySpecIsLost | api/api.py:5007-5010 | An accepted pattern with an empty format spec that does not print back |
| IdentityTemplates.SeparatesIff | api/api.py:5055-5081 | Over requests, with digests and derived names computed from them: a template that spells out no text twice, and each of whose chunk numbers is plainly set off or runs into a text, gives different requests different identities, for every digest function without collisions, if and only if peeling what is told off both ends leaves at most one thing unknown |
| IdentityTemplates.LooseCollides | api/api.py:5055-5081 | A chunk number that runs into a text, with nothing between them that could not be digits, is not told from it: two requests that differ in both share an identity |
| IdentityTemplates.TextThenNumber | api/api.py:5055-5073 | A text directly followed by the chunk number is such a template, and not separable |
| IdentityTemplates.RepeatedTextsSeparate | api/api.py:5055-5081 | A template that repeats two texts, is not separable and still keeps all requests apart: the first side condition is needed |
| IdentityTemplates.PairCollides | api/api.py:5055-5081 | The parsed template of a source and a pipeline joined by a hyphen does not keep requests apart |
| IdentityTemplates.NumbersFirst | api/api.py:5055-5073 | A chunk number at the beginning, before a hyphen and a text or a digest, is separable |
| IdentityTemplates.SeparableSeparates | api/api.py:5055-5081 | The if half for every template, whatever it names and how often |
| IdentityTemplates.DefaultSeparates | api/api.py:5161-5164 | The default chunk pattern keeps requests apart |
| IdentityTemplates.SomeTemplates | api/api.py:5055-5073 | One text named twice, and a digest before its own text and another, are separable; two texts alone are not |
| IdentityTemplates.ValuesAre | api/api.py:5055-5073 | The value of each of the thirteen names, field by field: texts as they are, digests whole or cut to sixteen, the number padded |
| IdentityPattern.OneFreeIsInjective | api/api.py:5076-5081 | With at most one field of varying length equal identities mean equal values, for every template and all values |
| IdentityPattern.ChunkAtEndIsInjective | api/api.py:5055-5073 | A template ending in the chunk number may have one more free field |
| IdentityPattern.DefaultRenders | api/api.py:5161-5164 | The default chunk pattern is accepted and renders to the digest, the pipeline and the padded chunk number joined by its literals |
| IdentityPattern.DefaultIsInjective | api/chunker.py:120-131 | Of two equal chunk ids, with digests of one length in either place, the digest, the pipeline and the chunk number are equal |
| IdentityPattern.PrefixCoversIff | api/chunker.py:134-149 | The rendered prefix is a prefix of the ids of all chunks exactly when nothing is rendered after the chunk number |
| IdentityPattern.DefaultPrefixCoversIff | api/chunker.py:134-138 | The default prefix of a document covers a chunk of another exactly when that one is of the same document, or its pipeline id goes on like a chunk id of this one up to the number |
| IdentityPattern.ForeignChunksCovered | api/chunker.py:134-138 | A pipeline id whose chunks the cleanup prefix of another pipeline's document covers |
| IdentityPattern.HexIs | api/chunker.py:120-131 | What is assumed of the digests: the sixteen hexadecimal digits in lower case |
| Digits.ValueOfPadded | api/chunker.py:122-129 | Reading a padded chunk number gives the number back, so different numbers are written differently |
| Digits.PaddedLength | api/chunker.py:122-129 | A padded number has three digits, and more only from a thousand on, then without a zero in front |

## Left out

- Etags are counters: only freshness and equality are used; Cosmos DB sessions and consistency levels are not modelled, reads return the newest version.
- `_retry_after_seconds`: which header carries the server's wait is not modelled; the wait itself is a parameter of every failed attempt.
- Percentages are exact rationals rounded to one decimal; floating-point rounding and `int(size * 0.8)` on sizes beyond 2^50 are not modelled.
- Timestamps other than the ones branches and estimates depend on, and the health section of progress documents, are carried as opaque values.
- Progress documents are never deleted in ProgressProtocol, as nothing in the tracker deletes them; the branch of `rebase` for a vanished document is not modelled.
- DeploymentWorker.Execution.ExecuteJob: what requests contain is not modelled, nor what the last look at a container and the checks of a server's answers compare; whether they are satisfied is arbitrary.
- ContainerDeployment.SuccessMeansMade: says that the job created the container at some time, not that the one there now is still that one; somebody may have deleted and replaced it since.
- ContainerDeployment.QueuedSucceedsIff: the container is present or absent; whether a present one matches the plan is not modelled, so success is the best case.
- Scope checks, plan hashes, reference checks and permission guidance of cloud deployments appear as arbitrary refusals.
- LeaseProtocol.OneLeader: the lease is never deleted and all electors read one clock; skew between clocks is not modelled.
- `stop()` of the elector and its two callbacks are not modelled; an elector can crash at any point.
- AgentProtocol.MessagesStayWellFormed: assumes of every reply that it names its calls and of every chat that its history is well formed; what happens otherwise `TurnWellFormedIffNamed` and `FirstPromptIff` say.
- RateLimiter.AtMostLimitInAnyWindow: for a clock that does not go back; on another, a window in the sense of the lemma need not be what the limiter saw.
- AgentLoop.RunAgent: tool arguments, tool results, redaction, what the audit trail holds and the event stream are not modelled; nor is an exception that leaves `run_agent` itself. Whether the user asked for a destructive tool is an arbitrary answer. A tool result that itself carries a `recovery` entry is not modelled.
- AgentProtocol.BudgetPerChain: a chain is one chat and the resumptions descending from it; a new chat starts a new budget, as in the source.
- `list_for_session` of the approval store only prunes and reads; it is the step `Look`.
- Chunker.ChunkByChars: the precondition is that the loop ends on the text at hand; for which overlaps that is every text, `StopsOnEveryTextIff` says. IndexError is the result None.
- TokenChunker.ChunkByTokens: an overlap of at least the size, which validation rejects, is excluded because the loop then does not end.
- Upper- and lower-case rules, Unicode normalisation and byte lengths of identity patterns are not modelled; doubled braces inside the brackets of a field name pass the model's parser and are rejected by the validation, which changes none of the results.
- IdentityTemplates.SeparatesIff: the only-if half is for templates that spell out no text twice, and in which each chunk number is either set off on both sides (by a literal that is not all digits right beside it, or by nothing but literals and digests up to that end), or the only one and beside a text without a digest, with nothing but digits, digests and texts between; left open is, for instance, a number with a digest and then other text beside it. The if half (`SeparableSeparates`) is for all. Digests have a fixed length, and the two requests compared have no two texts whose digests begin alike.
- IdentityPattern.DefaultPrefixCoversIff: for the ids built without a pattern, with hexadecimal digests of one length.
- BundleImport.ReferencesResolve: the listing of existing resources is taken to succeed; if it fails, the source treats the kind as empty.
- BundleReferences.ReferenceResolvesIff: assumes that the drawn suffixes have one length, differ, and make no id that store, bundle or reference already has, since a coincidence could make a wrong reference resolve.
- Checkpoints inside a bundle, key vault handling of model secrets and registration with DocGrok after an import are not modelled.
- JobRecovery.RetriesCountRevivals: workers are arbitrary conditional or unconditional writers that leave the retry count alone, as the workers of the repository do. Malformed job documents, which the monitor skips, are not modelled.
- Exclusive ownership of inline sources is not claimed: activating a source does not check it.
- Health checks, metrics, connection tests, authentication, Event Grid provisioning, the user interface, the command line client, the synthetic source and the reconciliation controller add plumbing or easy facts.
