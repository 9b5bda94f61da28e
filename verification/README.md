# Cyan, modelled and proved in Dafny

Cyan supervises a training process, diagnoses a crash with a bounded agent, proposes one patch,
applies it after approval and reruns the command. This project models the parts of it whose
correctness does not show in any one function, and proves for all inputs, all runs or all
reachable states what each part is for.

- **Unified diffs** (`Lines`, `Patch`, `PatchBuild`, `PatchRoundTrip`, `PatchPlain`,
  `PatchPaths`, `PatchNames`). Texts are cut as
  `splitlines` cuts them. `Patch` reads a patch twice: as a reference in two phases (all hunks are
  read, then fitted to the source) and as the one-pass applier of the code, a method with loops that
  is proved equal to it. `PatchBuild` prints the diff of any valid grouped edit script in the form of
  "Diff -u or -U Output Format" of the `diff` utility in POSIX.1-2017. `PatchRoundTrip` composes the
  two and says exactly when the result is the updated text, and backwards the original; `PatchPlain`
  states the same on the inputs alone, `PatchPaths` what a line break in the path does, and
  `PatchNames` which files an accepted patch may name.
- **Incident protocol** (`Fsm`, `IncidentProtocol`, `IncidentSafety`, `IncidentOrder`,
  `IncidentWorkspace`, `IncidentOutcomes`, `IncidentRuns`, `IncidentStore`). The coordinator's coroutines interleave at
  their awaits, so the protocol is a transition system: one action is the code from one await to the
  next, a move of git, of a process or of a user, or a crash with any partly written record. The
  status table is `Fsm.Transition`. `IncidentSafety` holds the invariant of all runs, `IncidentOrder`
  what holds as long as recovery starts no run twice, `IncidentWorkspace` when the target file is
  written and over what, `IncidentOutcomes` which step leads to which status, what is final and what is
  never forgotten, `IncidentRuns` concrete runs that reach each end, some in which an edit is
  lost, and one that shows an assumption to be needed. `IncidentStore` is the snapshot with the diff file beside it.
- **Agent loop** (`AgentContext`, `AgentLoops`). The provider and the tools are arbitrary functions
  of the step, the size of a request an arbitrary function of its messages and tools.
- **Event log and supervisor** (`EventLog`, `Supervisor`). A log of rows that a crash may tear
  after any character, and the records of attempts that are launched, watched and cancelled.
- **Event broadcaster** (`Broadcaster`). Subscription objects with bounded queues.
- **Evidence** (`Utf8`, `LogScan`, `Selector`, `SelectorParts`, `SmokeEvidence`, `LogSearch`). Logs are byte
  sequences; a text stands for its own UTF-8 encoding, so that its length is the encoded size.
- **Interval union** (`Intervals`).

Classes follow the objects that the code updates in place; each of their methods is proved
against a function of the old state, or states the property outright. Assumptions are
hypotheses of the lemmas: `EventLog.Reliable` for the JSON of events (with an encoding that meets it),
`PatchBuild.ValidGroups` for what `difflib` returns, `IncidentProtocol.Orderly` for the timing of retry observers,
`IncidentOrder.Prompt` for a recovery that no diagnosis run interrupts.

`dafny verify dfyconfig.toml` checks the whole project.

## Model

| member | source | states |
|---|---|---|
| `Lines.JoinSplit` | src/cyan/training/incidents/patch.py:155 | Cutting a text at every line break that `splitlines` knows and joining the lines gives the text back. |
| `Patch.DiffPayload` | src/cyan/training/incidents/patch.py:130-142 | The payload loses its line ending exactly when a no-newline marker follows, and the marker is skipped. |
| `Patch.ParseUnifiedDiff` | src/cyan/training/incidents/patch.py:219-276 | The header loop accepts exactly the patches that the reference reading of file sections, refused lines and hunks accepts, with the same sections. |
| `Patch.ApplyHunk` | src/cyan/training/incidents/patch.py:170-192 | One hunk's inner loop either refuses, and then the reference refuses the whole rest, or continues the reference with the lines it has output. |
| `Patch.ApplyUnifiedDiffToText` | src/cyan/training/incidents/patch.py:146-195 | The one-pass applier gives the same text or refusal as reading all hunks first and then fitting them, for all texts and patches. |
| `Patch.HunksAsDeclared` | src/cyan/training/incidents/patch.py:165-192 | Every hunk read replaces exactly the range and the number of lines its header declares. |
| `Patch.PatchedLength` | src/cyan/training/incidents/patch.py:171-194 | The line count changes by the sum of new minus old counts. |
| `Patch.UndoRestores` | src/cyan/training/incidents/patch.py:171-194 | The hunks of a fitting patch, reversed and moved to where they landed, restore the source. |
| `Patch.AcceptedPatch` | src/cyan/training/incidents/patch.py:146-195 | For any accepted patch: declared ranges only are replaced, removed and context lines matched, the length changes as declared, and the undone hunks give the original back. |
| `PatchBuild.BuildReplacementDiff` | src/cyan/training/incidents/patch.py:103-126 | Equal texts and empty diffs are refused; otherwise the loop renders the unified diff with a marker line after each unterminated content line, the text whose two readings are `PatchRoundTrip.RoundTrip` and `PatchRoundTrip.ReverseRoundTrip`. |
| `PatchRoundTrip.HunkLineParsed` | src/cyan/training/incidents/patch.py:25-28 | A printed hunk header is read back as the same two starts and the same two counts, in all its short forms. |
| `PatchRoundTrip.RoundTrip` | src/cyan/training/incidents/patch.py:103-276 | For all differing texts and every valid grouped edit script, applying the built patch gives exactly the updated text, or a refusal if and only if the patch counts as binary, the path is unsafe, or a printed line looks like a file header. |
| `PatchRoundTrip.ReverseRoundTrip` | src/cyan/training/incidents/patch.py:435-449 | The same backwards: the built patch with its marks and ranges swapped, applied to the updated text, gives exactly the original under just the same conditions, so that every hunk's new range is where its new lines stand. |
| `PatchRoundTrip.LookalikeRefused` | src/cyan/training/incidents/patch.py:182-192 | A diff with a line that looks like a file header is refused and never misapplied. |
| `PatchRoundTrip.PlainTexts` | src/cyan/training/incidents/patch.py:103-126 | When no line of the texts begins with `-- ` or `++ `, no printed line looks like a file header. |
| `PatchPlain.PrintedIsBinary` | src/cyan/training/incidents/patch.py:219-221 | A built patch without lookalikes counts as binary if and only if its path or a printed line holds a NUL or a binary marker; the printing itself never adds one. |
| `PatchPlain.PlainInputsRoundTrip` | src/cyan/training/incidents/patch.py:103-276 | On the inputs alone: no NUL or binary marker in texts and path, a safe path and no line that begins with `-- ` or `++ ` suffice for the built patch to be accepted and to give exactly the updated text, for every valid grouped edit script. |
| `PatchPaths.BrokenPathRefused` | src/cyan/training/incidents/patch.py:103-276 | A path with a line break is refused for all texts when what follows its first line, if anything, does not begin with `+++ `. |
| `PatchPaths.PathMayPrintHunks` | src/cyan/training/incidents/patch.py:103-276 | One that goes on with `+++ ` need not be: a concrete path whose own lines are accepted as hunks of another file, so that the result is neither the updated text nor a refusal. |
| `PatchNames.AcceptedNamesAreSafe` | src/cyan/training/incidents/patch.py:199-276 | Every file that an accepted patch names is a relative path in normal form without `..` or a backslash, outside `.git` and not the verifier's configuration, and none is named twice. |
| `PatchNames.SectionsArePaired` | src/cyan/training/incidents/patch.py:241-267 | The file sections are read if and only if every old name is followed by a new one, both are safe or one is `/dev/null`, and two names are the same. |
| `PatchNames.AcceptedIsPlain` | src/cyan/training/incidents/patch.py:220-239 | An accepted patch holds no NUL or binary marker, and no line that announces a rename, a copy, a symlink or a submodule. |
| `PatchNames.BuiltNameIsKept` | src/cyan/training/incidents/patch.py:103-126 | A built patch names its file as it was given if and only if that is a safe name without a tab. |
| `Fsm.TerminalExactly` | src/cyan/training/incidents/fsm.py:41-93 | Resolved and rejected are exactly the statuses that accept no event. |
| `Fsm.ResolvedNeedsApproval` | src/cyan/training/incidents/fsm.py:46-93 | Every accepted history that ends resolved contains an approval, then a started retry, then its success, with no return to diagnosis after the approval. |
| `IncidentSafety.StepKeepsInv` | src/cyan/training/incidents/coordinator.py:197-742 | Every atomic step of callback, diagnosis, decision, smoke check, retry, observer, follow-up, crash and recovery keeps the invariant; to which status each leads is `IncidentOutcomes.StepEnds`. |
| `IncidentSafety.ResolvedIsTruthful` | src/cyan/training/incidents/coordinator.py:612-742 | In every run, crashes and recovery included, a resolved incident has been approved, and its job's current attempt ended with 0, uncancelled and without a log fault. |
| `IncidentSafety.OneIncident` | src/cyan/training/incidents/coordinator.py:197-258 | A job never gets a second incident, however often it is retried or the daemon restarted. |
| `IncidentOrder.StepKeepsOrdered` | src/cyan/training/incidents/coordinator.py:125-742 | Each step keeps the dispatch order of runs, as long as recovery does not find a live run; without a crash it also keeps decision, proposal and receipt matched. |
| `IncidentOrder.CrashFreeRunIsSafe` | src/cyan/training/incidents/coordinator.py:125-665 | In every crash-free interleaving each dispatched event is accepted, at most one diagnosis run is live, a live run means diagnosing, and approval is awaited only for the complete active proposal. |
| `IncidentOrder.OneLiveRunExactly` | src/cyan/training/incidents/coordinator.py:690-731 | Over all runs with crashes: at most one run is live throughout if and only if no recovery that finds a failed exit without its incident on disk is carried through, and then no dispatch is illegal. |
| `IncidentOrder.RecoveryStartsARunTwice` | src/cyan/training/incidents/coordinator.py:690-731 | A concrete run in which recovery starts the same diagnosis run twice. |
| `IncidentOrder.DoubledRunIsRefused` | src/cyan/training/incidents/coordinator.py:261-302 | Every run in which recovery has doubled a diagnosis run can go on, from there, to an event that the table refuses. |
| `IncidentOrder.FailedSmokeAsksForRollback` | src/cyan/training/incidents/coordinator.py:530-549 | Without a crash a failed smoke check always reaches the rollback of the approved proposal. |
| `IncidentWorkspace.StepDecides` | src/cyan/training/incidents/coordinator.py:388-464 | Only git's two steps change the target, and only the approval of the active proposal begins a decision. |
| `IncidentWorkspace.WritesFollowApproval` | src/cyan/training/incidents/coordinator.py:388-464 | In every run, whatever the daemon writes to the target lies inside a decision that goes back without interruption to an approval of the active proposal; without a crash it is that proposal throughout. |
| `IncidentWorkspace.GitStartsOverKnownContent` | src/cyan/training/incidents/patch.py:421-449 | Git is handed the target only while it holds the approved base, and for the reverse only while it holds what the receipt recorded. |
| `IncidentWorkspace.RollbackRestoresBase` | src/cyan/training/incidents/patch.py:435-449 | A smoke failure that is reported as rolled back, with or without evidence, leaves the target with the proposal's base content. |
| `IncidentWorkspace.RollbackRestoresApprovedBase` | src/cyan/training/incidents/coordinator.py:524-570 | In crash-free runs that is the base of the proposal that was approved. |
| `IncidentWorkspace.OverwritesOnlyEditsDuringGit` | src/cyan/training/incidents/patch.py:381-449 | In every run, crashes included, the daemon writes over something other than what it has checked (the approved base, or what the receipt recorded) if and only if the last edit while git held the target left something else. |
| `IncidentWorkspace.RollbackOverwritesExactly` | src/cyan/training/incidents/patch.py:403-449 | In every run git's reverse writes over something other than what git's patch left if and only if the last edit between that patch and the receipt, or while git holds the target for the reverse, left something else; it writes over no other edit. |
| `IncidentWorkspace.OverwrittenEditBlocks` | src/cyan/training/incidents/patch.py:403-449 | In crash-free runs, provided that git's reverse gives the base only from what its patch left and nobody writes the base back, every such edit blocks the rollback. |
| `IncidentWorkspace.EditsSurvive` | src/cyan/training/incidents/patch.py:381-449 | An edit made after the receipt was written, before git is called for the rollback or after git has returned, is never overwritten: the target keeps what the user last wrote until the check has passed or the rollback is blocked. |
| `IncidentOutcomes.StepEnds` | src/cyan/training/incidents/coordinator.py:125-742 | Under the invariant every step, crashes and recovery included, gives the incident exactly the status of a table by action and condition that does not use the event table: a rejection leads to rejected, an outdated smoke configuration or a failed apply to stale, a succeeded retry to resolved, whether an observer or recovery sees it, and so on for every step. |
| `IncidentOutcomes.AwaitingEnds` | src/cyan/training/incidents/coordinator.py:400-424 | A proposal that awaits approval becomes applying, rejected, stale or diagnosing exactly by an approval, a rejection, an outdated smoke configuration or a follow-up, and nothing else changes its status; an approval takes up that proposal and its wish for a smoke check. |
| `IncidentOutcomes.RejectionIsFinal` | src/cyan/training/incidents/coordinator.py:404-406 | In every run, crashes and recovery included, an incident is rejected if and only if a rejection has been made; from then on no diagnosis run starts, no follow-up is pending, and only users write the target. |
| `IncidentOutcomes.TerminalIsFinal` | src/cyan/training/incidents/coordinator.py:388-742 | The same of every resolved or rejected incident: its status stays, its live runs only end, and the target holds what the user last wrote. |
| `IncidentOutcomes.DiagnosisStartsAfresh` | src/cyan/training/incidents/coordinator.py:197-258 | Whatever leads to diagnosis (a new failure, a follow-up, a failed retry, a rollback) leaves no diagnosis, proposal or active proposal of an earlier one. |
| `IncidentOutcomes.ApprovedProposalIsFresh` | src/cyan/training/incidents/tools.py:285-305 | In crash-free runs whatever is approved was proposed by a live run of the same diagnosis, after its diagnosis, on top of what the target then held, and was not withdrawn. |
| `IncidentOutcomes.SmokeAsAsked` | src/cyan/training/incidents/coordinator.py:431-444 | In every run an applied change goes on to its smoke check, or skips it, just as the uninterrupted decision's approval has asked. |
| `IncidentOutcomes.NothingIsForgotten` | src/cyan/training/incidents/coordinator.py:197-258 | In every run, crashes and recovery included: while the daemon is up an incident under diagnosis has a live run or one about to start, a failed job has its failure on record, and once no callback is on its way with it, a failed exit is the one its incident is about. |
| `IncidentOutcomes.JobEndsExactly` | src/cyan/training/jobs/supervisor.py:228-332 | In the protocol an attempt ends cancelled exactly when that was asked for, otherwise by its log fault or return code, and only a failed exit calls the failure callback. |
| `IncidentOutcomes.RecoveryKeepsRecords` | src/cyan/training/incidents/coordinator.py:668-742 | Recovery keeps diagnosis, proposal, receipt and attempt; a quarantined change is no longer active and a killed smoke check no longer recorded. |
| `IncidentRuns.SomeRunResolves` | src/cyan/training/incidents/coordinator.py:388-464 | The protocol is no empty claim: a crash-free run resolves, with the patch in place. |
| `IncidentRuns.SomeRunRollsBack` | src/cyan/training/incidents/coordinator.py:466-572 | A crash-free run rolls its patch back and diagnoses again. |
| `IncidentRuns.SomeEditBlocksTheRollback` | src/cyan/training/incidents/coordinator.py:466-572 | A crash-free run in which an edit during the smoke check blocks the rollback and stays. |
| `IncidentRuns.SomeEditAfterGitBlocks` | src/cyan/training/incidents/patch.py:435-449 | A crash-free run in which an edit made after git's reverse blocks the rollback and stays. |
| `IncidentRuns.SomeEditIsOverwritten` | src/cyan/training/incidents/patch.py:421-449 | A crash-free run in which an edit made after the last hash check, while git holds the target, is lost and the rollback is reported. |
| `IncidentRuns.SomeRecordedEditIsLost` | src/cyan/training/incidents/patch.py:403-449 | A crash-free run in which an edit made between git's patch and the receipt is recorded as what the patch left, is lost, and the rollback is reported. |
| `IncidentRuns.SomeRecordedEditIsRewritten` | src/cyan/training/incidents/patch.py:403-449 | The same edit when the reverse gives something other than the base: the rollback blocks, but the target no longer holds the edit. |
| `IncidentRuns.LateObserverResolvesFalsely` | src/cyan/training/incidents/coordinator.py:612-646 | A schedule in which observers act too late, and an incident is resolved while its job still runs: the timing assumption is needed. |
| `IncidentStore.SnapshotNamesItsDiff` | src/cyan/training/incidents/store.py:183-210 | Over all runs cut by crashes anywhere, a snapshot never names a proposal whose diff is gone, and the diff is the proposal's own unless a replacement was cut. |
| `IncidentStore.CutReplacementIsRefused` | src/cyan/training/incidents/patch.py:363-368 | After a cut replacement the hash check accepts the diff only if old and new diff are the same. |
| `IncidentStore.OperationDone` | src/cyan/training/incidents/store.py:170-269 | What each operation leaves once it is done, field by field: clearing the artifacts drops diagnosis, proposal, active proposal and diff and keeps status and receipt. |
| `IncidentStore.OperationCut` | src/cyan/training/incidents/store.py:183-269 | What a crash between an operation's two writes leaves: the new diff under the old snapshot, or the cleared snapshot beside the old diff. |
| `IncidentStore.IncidentStore.WriteProposal` | src/cyan/training/incidents/store.py:183-188 | Exactly two writes are made, the diff first and then the snapshot that names it, so that a crash can only leave what `SnapshotNamesItsDiff` covers. |
| `IncidentStore.IncidentStore.ClearProposal` | src/cyan/training/incidents/store.py:208-210 | Exactly two writes are made, the snapshot without the proposal first and then the removal of the diff. |
| `IncidentStore.IncidentStore.ClearAgentArtifacts` | src/cyan/training/incidents/store.py:262-269 | Exactly two writes are made: one snapshot without diagnosis, proposal and active proposal, then the removal of the diff. |
| `AgentContext.Admit` | src/cyan/agent/context.py:66-99 | A result enters as it is if and only if the request with it fits the hard limit and, where one applies, the soft limit; otherwise a fixed placeholder does, and the budget counts as exhausted exactly when that is the budget placeholder. |
| `AgentContext.ExecutionContext.AddToolResult` | src/cyan/agent/context.py:38-99 | The history gains exactly the admitted block, and no older block changes. |
| `AgentContext.ExecutionContext.ObserveInputSize` | src/cyan/agent/context.py:120-123 | The first size is kept and the peak never falls. |
| `AgentContext.RecordsOneMore` | src/cyan/agent/context.py:38-99 | In a message of results every block stands for its offered result by the exact rule on the blocks before it; admitting one more result keeps that. |
| `AgentContext.ShownUnchanged` | src/cyan/agent/context.py:66-99 | All results of a reply are shown as they were offered if and only if the requests with the offered results fit, each under the limits of its tool. |
| `AgentContext.RoundWellFormed` | src/cyan/agent/loop.py:148-252 | One more reply with what follows it keeps a history well formed if and only if its tool calls are closed by their results, in order. |
| `AgentLoops.AgentLoop.BeginStep` | src/cyan/agent/loop.py:92-131 | Finalization begins exactly with the last steps or when the request outgrows the soft limit; a request over the hard limit fails the run. |
| `AgentLoops.AgentLoop.HandleToolCall` | src/cyan/agent/loop.py:165-216 | A call is passed to its tool exactly when no other tool is required; its result or a stage error is answered by exactly the block that stands for it, the log says whether it reached the reserve, and a stopping tool's text is the run's result. |
| `AgentLoops.AgentLoop.AdvanceStage` | src/cyan/agent/loop.py:193-228 | A reached reserve restarts the stages and an accepted diagnosis advances them, and whether the pending stage's tool has done its work. |
| `AgentLoops.AgentLoop.HandleToolCalls` | src/cyan/agent/loop.py:164-228 | The log gains the reply's calls in order, the first of which met the stage of the request: all of them, unless one stopped the run or the next one was cancelled; every tool that runs while a stage is required is that stage's; and one message answers the calls handled, each by exactly the block that stands for its result. |
| `AgentLoops.AgentLoop.HandleTruncatedCalls` | src/cyan/agent/loop.py:229-252 | Every call of a cut-off reply is answered as truncated, by a placeholder only when that does not fit, and the stages restart if and only if one of these answers reaches the reserve. |
| `AgentLoops.AgentLoop.EndStep` | src/cyan/agent/loop.py:253-276 | The exact status after a step, and the reminder when a stage is still pending. |
| `AgentLoops.AgentLoop.React` | src/cyan/agent/loop.py:148-276 | A reply keeps the history well formed exactly as long as it announced its calls; success needs a stopping tool or no pending stage and has the tool's text or the model's last words as its result; and used-up steps fail the run for the missing stage exactly when a tool is still asked for and no call has fulfilled its stage. |
| `AgentLoops.AgentLoop.Step` | src/cyan/agent/loop.py:92-281 | One step sends at most one request, within its limits, exactly the one that the previous reply and its handled calls determine; the log gains the calls of its reply, and the recorded peak covers the request and the reply. |
| `AgentLoops.AgentLoop.Run` | src/cyan/agent/loop.py:84-281 | The loop ends with at most max(1, max_steps) requests, each within its limit; every request is determined by the previous one: its history shows each call answered by the result itself if and only if that fits, and its stage is the one the calls led to; a history is well formed if and only if every earlier reply announced its calls; the log holds the calls of all replies that end with tool calls, in order, all but those after a stop or a cancellation; the budget counts as exhausted if and only if some block of the history is the budget placeholder; a good end has the stopping tool's or the model's text as result; and a run fails only for a request that does not fit, a failed or cancelled model call, or used-up steps, with the exact reason. |
| `AgentLoops.IncidentStages` | src/cyan/training/incidents/profile.py:81-91 | With the incident profile the requests of the last three steps are finalizing; a finalization that has begun, with its request or within a step by a reached reserve or an accepted diagnosis, lasts through the step; each call meets the stage that the call before it led to; and every tool that runs in it is the diagnosis, or the proposal after an accepted diagnosis. |
| `AgentLoops.NextStage` | src/cyan/agent/loop.py:193-228 | With the incident profile the request after a step asks for the proposal if its last call was an accepted diagnosis, for the diagnosis if it reached the reserve, and otherwise keeps a stage that has begun. |
| `AgentLoops.ResultsShown` | src/cyan/agent/loop.py:181-190 | Over whole runs: the next request shows every result of the tools exactly as returned if and only if the requests with these results fit the hard limit and, for read-only tools, the soft one. |
| `AgentLoops.ReserveIsKept` | src/cyan/agent/loop.py:87-121 | Until finalization every request leaves the reserve free. |
| `AgentLoops.RunAndCapture` | src/cyan/agent/runner.py:108-131 | A run always ends in a done status, cancelled ones included, with all that `Run` states of its requests and log. |
| `EventLog.RepairKeepsReading` | src/cyan/training/jobs/store.py:233-260 | For every file, reading before and after a repair gives the same events, and repairing twice is repairing once. |
| `EventLog.RowsRead` | src/cyan/training/jobs/store.py:233-260 | Whole rows are read back as written and no repair touches them. |
| `EventLog.TornRow` | src/cyan/training/jobs/store.py:233-260 | A row cut after any number of characters counts exactly when no more than its newline is missing. |
| `EventLog.StepKeepsLog` | src/cyan/training/jobs/store.py:263-297 | Appends, torn appends, torn repairs and restarts keep the log's invariant and every readable event; an append adds exactly the event with the next number and the given body, a torn one adds it or nothing, and nothing else adds any. |
| `EventLog.LogNeverLosesAnEvent` | src/cyan/training/jobs/store.py:233-301 | Over every run: numbers 1 to n without gap, no acknowledged event lost, the cached number is the last in the file, and a repair changes no reading. |
| `EventLog.ReliableCodecExists` | src/cyan/training/jobs/store.py:293-297 | An encoding meets what the log asks of its JSON. |
| `EventLog.JobEvents.LoadEvents` | src/cyan/training/jobs/store.py:233-260 | The row loop reads exactly the parsed prefix and leaves exactly the repaired file. |
| `EventLog.JobEvents.LastEventSeq` | src/cyan/training/jobs/store.py:263-270 | The first use repairs the file and caches its last number; later uses change nothing. |
| `EventLog.JobEvents.AppendEvent` | src/cyan/training/jobs/store.py:273-297 | File and cache become those of the append step; under the log's invariant the returned event has the next number and the given body, and the readable events gain exactly it. |
| `EventLog.JobEvents.ReadEvents` | src/cyan/training/jobs/store.py:300-301 | The readable events, without touching the file. |
| `Supervisor.NamesDiffer` | src/cyan/training/jobs/supervisor.py:142 | Two attempts of a job never share a name. |
| `Supervisor.StepKeepsInv` | src/cyan/training/jobs/supervisor.py:67-364 | Every step between two awaits keeps the invariant of all jobs. |
| `Supervisor.StatusIsLastLogged` | src/cyan/training/jobs/supervisor.py:228-364 | A job's status is that of the last event its current attempt has logged, or starting when it has none. |
| `Supervisor.SupervisorRun` | src/cyan/training/jobs/supervisor.py:67-364 | At every suspension point of every crash-free run: attempts are named 1 to n, only the last may be active, the log is what the attempts' records tell, and success means return code 0. |
| `Supervisor.AttemptEnds` | src/cyan/training/jobs/supervisor.py:228-332 | In every crash-free run an attempt ends cancelled if and only if its cancellation was asked for before its process exited, otherwise failed when its log could not be written, and otherwise by the return code its process exited with; record, job and exactly one more event say so. |
| `Supervisor.NothingBeginsAfterStop` | src/cyan/training/jobs/supervisor.py:63-96 | Once the supervisor has stopped starting, no attempt begins any more. |
| `Supervisor.JobSupervisor.Start` | src/cyan/training/jobs/supervisor.py:67-89 | A new job with its first attempt, or nothing when shutting down. |
| `Supervisor.JobSupervisor.Retry` | src/cyan/training/jobs/supervisor.py:92-101 | The next attempt, or nothing when shutting down or running. |
| `Supervisor.JobSupervisor.LaunchSucceeds` | src/cyan/training/jobs/supervisor.py:177-195 | Attempt and job are running, the start is logged and the process watched. |
| `Supervisor.JobSupervisor.LaunchFails` | src/cyan/training/jobs/supervisor.py:335-364 | Attempt and job have failed with a launch error, and that is logged. |
| `Supervisor.JobSupervisor.Cancel` | src/cyan/training/jobs/supervisor.py:123-131 | A running attempt is marked for cancellation unless its process has already exited; anything else is left alone. |
| `Supervisor.JobSupervisor.MonitorEnds` | src/cyan/training/jobs/supervisor.py:228-332 | Files and running attempts become those of the monitor's step, whose meaning over runs is `Supervisor.AttemptEnds`. |
| `Broadcaster.ThinnedKeepsEssential` | src/cyan/service/transport/ipc_broadcaster.py:141-178 | Losing droppable events keeps all essential ones in order. |
| `Broadcaster.PutThins` | src/cyan/service/transport/ipc_broadcaster.py:159-178 | An event that does not overflow a queue keeps its bound and loses only droppable events. |
| `Broadcaster.PutTakes` | src/cyan/service/transport/ipc_broadcaster.py:159-178 | An event joins a queue that has room; a full queue loses one droppable event, the new one if it is droppable and else its earliest, and stays as it is when it has none. |
| `Broadcaster.Subscription.EvictDroppable` | src/cyan/service/transport/ipc_broadcaster.py:203-218 | Draining and refilling the queue removes exactly its earliest droppable event, if it has one. |
| `Broadcaster.IpcEventBroadcaster.EssentialEventsArrive` | src/cyan/service/transport/ipc_broadcaster.py:60-218 | For every live subscription the essential events published since it began are, in order, those written, in flight and queued; queues stay within their bound and nothing is written before activation. |
| `Broadcaster.IpcEventBroadcaster.NothingLostUnlessFull` | src/cyan/service/transport/ipc_broadcaster.py:60-218 | A display event is lost only under congestion: the wanted events are as many as those written, in flight and queued and those that found the queue full, and they are the same, in order, if and only if none has found it full. |
| `Broadcaster.IpcEventBroadcaster.OnlyWantedArrive` | src/cyan/service/transport/ipc_broadcaster.py:141-153 | Nothing reaches a subscription but events published since it began that match one of its topics and belong to the run or job it is scoped to. |
| `Broadcaster.IpcEventBroadcaster.Subscribe` | src/cyan/service/transport/ipc_broadcaster.py:60-94 | A new subscription replaces the writer's one of the same scope family and no other. |
| `Broadcaster.IpcEventBroadcaster.Activate` | src/cyan/service/transport/ipc_broadcaster.py:97-103 | Only a live subscription becomes ready. |
| `Broadcaster.IpcEventBroadcaster.RemoveWriter` | src/cyan/service/transport/ipc_broadcaster.py:221-230 | A writer loses all its subscriptions, and nobody else any. |
| `Broadcaster.IpcEventBroadcaster.Take` | src/cyan/service/transport/ipc_broadcaster.py:180-184 | The head of a ready queue becomes the event in flight. |
| `Broadcaster.IpcEventBroadcaster.Write` | src/cyan/service/transport/ipc_broadcaster.py:185-189 | The event in flight is written next. |
| `Broadcaster.IpcEventBroadcaster.Offer` | src/cyan/service/transport/ipc_broadcaster.py:159-178 | A queue overflows only when it is full, the event is essential and nothing in it is droppable; otherwise the event joins while there is room and costs a full queue one droppable event. |
| `Broadcaster.IpcEventBroadcaster.Handle` | src/cyan/service/transport/ipc_broadcaster.py:141-178 | Every subscription that wants an event takes it in that way and no other changes, each full queue found is counted, exactly the clients with an overflowing queue are disconnected, and the invariant is kept. |
| `Utf8.ReplacingNeverShrinks` | src/cyan/training/incidents/selector.py:213-216 | Replacement decoding never makes a text shorter in UTF-8 (section 3.9 of the Unicode Standard). |
| `Utf8.ReplacedUnchanged` | src/cyan/training/incidents/selector.py:213-216 | It leaves a text as it is if and only if the text is well-formed UTF-8. |
| `Utf8.ReplacedIsWellFormed` | src/cyan/training/incidents/selector.py:213-216 | What it produces is well-formed UTF-8. |
| `Utf8.FrontCut` | src/cyan/training/incidents/selector.py:276-278 | A text without its first bytes is decoded to at most three bytes less for each, and to at least one less for each but six. |
| `Utf8.BackCut` | src/cyan/training/incidents/selector.py:279-280 | The same without its last bytes. |
| `LogScan.ScannedFromLog` | src/cyan/training/incidents/selector.py:63-187 | Every candidate is non-empty and holds exactly the log's bytes of its range. |
| `LogScan.BlockFromLog` | src/cyan/training/incidents/selector.py:143-149 | A traceback stays contiguous however it is capped. |
| `LogScan.Scan` | src/cyan/training/incidents/selector.py:86-187 | One pass over the lines finds the last traceback up to its blank line, its last exception line, the last frame and error lines outside traceback headers, and the tail. |
| `LogScan.ScannedExactly` | src/cyan/training/incidents/selector.py:86-187 | A candidate is found if and only if it fits its kind's description: the last traceback up to the first blank line, the last matching line in it, the last matching frame and (on stderr only) error line, and the last 8 KiB of the log. |
| `Selector.InOrderSorts` | src/cyan/training/incidents/selector.py:229-232 | Candidates are tried by priority, then from the end of the log, then stderr before stdout, none lost or repeated. |
| `Selector.CandidatesDistinct` | src/cyan/training/incidents/selector.py:227-232 | For all logs, no two candidates are of the same kind and stream. |
| `SelectorParts.KindsInOrder` | src/cyan/training/incidents/selector.py:229-232 | Tracebacks are tried first, then exception lines, frames, error lines and at last the stderr and the stdout tail; of the same kind the later in its log. |
| `Selector.TrimmedFits` | src/cyan/training/incidents/selector.py:259-284 | What trimming leaves is a part at its own place that fits, and a candidate that fits is not trimmed; how little it takes is `SelectorParts.TrimmedIsLongest` and `SelectorParts.TrimmedLeavesLittle`. |
| `Selector.Trim` | src/cyan/training/incidents/selector.py:259-284 | The trimming loop ends with exactly the part that these lemmas are about, or none. |
| `SelectorParts.TrimmedIsLongest` | src/cyan/training/incidents/selector.py:259-284 | Where decoding keeps the length of a candidate's parts, as in ASCII, the part left is the longest that fits, up to the digits its range loses, and nothing is left only if no part fits but for these; a tail is the longest without exception. |
| `SelectorParts.TrimmedLeavesLittle` | src/cyan/training/incidents/selector.py:259-284 | For every log, what trimming leaves of a candidate that does not fit (the bare header when nothing) is rendered to at most twice the overflow, or 6 and the digits of its end if that is more, and those digits short of the room. |
| `Selector.SelectEvidence` | src/cyan/training/incidents/selector.py:219-318 | Budgets that are not positive are refused; otherwise the loop over candidates makes exactly the greedy choice that `SelectorParts.StepTakesLongest` describes, and each reference names, in its stream's log, exactly the bytes of its block. |
| `SelectorParts.StepTakesLongest` | src/cyan/training/incidents/selector.py:233-297 | Candidate by candidate: one whose content is selected counts as a duplicate; of every other the longest part that fits beside what is selected and reserved is selected, up to the digits its range loses; and the selection ends when nothing is left of a candidate that is no traceback. |
| `SelectorParts.StepLeavesLittle` | src/cyan/training/incidents/selector.py:233-297 | For all logs, how little of the room a step may leave to a candidate that could have filled it. |
| `SelectorParts.ReserveIs` | src/cyan/training/incidents/selector.py:238-250 | A traceback leaves room for its stream's rendered exception line and a newline until that line is selected; nothing else leaves any. |
| `Selector.SelectionIsSound` | src/cyan/training/incidents/selector.py:219-318 | For all logs and budgets each selected range is the log's own bytes, and the text and the selected bytes fit the budget. |
| `Selector.SelectedWhole` | src/cyan/training/incidents/selector.py:233-297 | A candidate is selected whole if and only if, in its turn, nothing has ended the selection, its content is new, and its rendering fits beside what is selected and reserved. |
| `Selector.ExceptionReserve` | src/cyan/training/incidents/selector.py:238-297 | With a traceback in one log only, its final exception line is selected whole whenever its rendering fits the budget alone. |
| `Selector.TwoTracebacksExactly` | src/cyan/training/incidents/selector.py:238-297 | For all logs with tracebacks in both streams, the exception line that is tried first is selected whole if and only if its rendering and a separator fit beside what the two tracebacks have taken. |
| `Selector.ShorterExceptionIsWhole` | src/cyan/training/incidents/selector.py:242-253 | It is whole whenever it fits alone and is rendered no longer than the other log's exception line. |
| `Selector.TwoTracebacksShareTheReserve` | src/cyan/training/incidents/selector.py:242-253 | Otherwise it may be cut: two logs of one traceback each, with the header that the code prints, and a budget that the longer exception line fits alone. |
| `SmokeEvidence.TailShrinksSlowly` | src/cyan/training/incidents/evidence.py:179-203 | A tail shorter by d bytes takes at most d bytes less, since its header only grows. |
| `SmokeEvidence.SmokeBlock` | src/cyan/training/incidents/evidence.py:162-203 | The loop returns the longest tail whose header, newline and raw bytes fit the budget, and none only if no non-empty tail fits. |
| `SmokeEvidence.SelectSmokeEvidence` | src/cyan/training/incidents/evidence.py:207-262 | The longest stderr tail, then the longest stdout tail in what its rendering leaves; headers and raw bytes fit the budget, and the rendered text does for every plain pair of logs, and whenever the selected bytes are well-formed. |
| `SmokeEvidence.TailsKeepLengthExactly` | src/cyan/training/incidents/evidence.py:178-203 | Every tail that some budget selects keeps its length when decoded if and only if the log is plain: ASCII, but for two-byte characters across an offset at which the header grows. |
| `SmokeEvidence.RenderedTextFits` | src/cyan/training/incidents/evidence.py:207-262 | For all logs: the rendered text is within every budget if and only if both logs are plain. |
| `SmokeEvidence.CutCharacterPassesTheBudget` | src/cyan/training/incidents/evidence.py:207-262 | A well-formed log of one two-byte character: its second byte fits raw, and the rendered text passes the budget by two bytes. |
| `LogSearch.SearchFile` | src/cyan/training/incidents/log_tool.py:46-61 | For all files, offsets, non-empty queries and read sizes: the least match at or after the offset, or none. |
| `LogSearch.SearchSliceHoldsMatch` | src/cyan/training/incidents/log_tool.py:224-225 | The slice begins half the limit before the match, but not before the offset, and earlier only so far as to be full; it begins at or before the match, holds it whenever the query is at most limit - limit/2 long, and the exact condition under which it does. |
| `LogSearch.ReadJobLogTool.ReadSlice` | src/cyan/training/incidents/log_tool.py:170-188 | At most `limit` bytes from the start, decoded. |
| `LogSearch.ReadJobLogTool.Invoke` | src/cyan/training/incidents/log_tool.py:191-245 | Every slice is the decoding of exactly the bytes its reference names, within the limit; only that reference is recorded. |
| `Intervals.MergedBytes` | benchmarks/src/cyan_bench/incident_track.py:36-44 | On one stream the count never exceeds the bytes covered, and equals them if and only if every inverted range is absorbed. |
| `Intervals.StreamBytes` | benchmarks/src/cyan_bench/incident_track.py:35-36 | The bytes covered on a stream are those of its own intervals and of no other's. |
| `Intervals.UnionBytes` | benchmarks/src/cyan_bench/incident_track.py:33-45 | The same over both streams, for any list of intervals. |
| `Intervals.ProperIntervalsAreCountable` | benchmarks/src/cyan_bench/baselines.py:83-97 | Intervals with start at most end, touching, nested or repeated, are always counted exactly. |

## Left out

- IncidentProtocol: modelled on values, because a coroutine that suspends at an await is no Dafny method; updates in place inside one step are not told apart, except by the crash actions.
- IncidentProtocol: one job with one workspace file; other jobs, proposals with several files, and submodule, symlink and git-root checks are part of an arbitrary git result.
- IncidentSafety.ResolvedIsTruthful: assumes that a retry observer of an ended attempt runs before the next approval, without which it is false (`IncidentRuns.LateObserverResolvesFalsely`); nothing is claimed about liveness, and a retry that ends in a log fault stays in `retry_running`.
- IncidentSafety.OneIncident: the same assumption on observers.
- IncidentOrder.CrashFreeRunIsSafe: the same assumption on observers.
- IncidentOrder.OneLiveRunExactly: the same assumption on observers; the condition on the files also assumes that recovery goes on at once after the replayed callback (coordinator.py:706-729 has no await in between).
- IncidentWorkspace.RollbackRestoresApprovedBase: the same assumption on observers.
- IncidentOutcomes.RejectionIsFinal: the same assumption on observers, as for all that `IncidentOutcomes` says of whole runs but `IncidentOutcomes.SmokeAsAsked`; a diagnosis run that recovery has doubled may still end after the rejection.
- IncidentOutcomes.ApprovedProposalIsFresh: crash-free runs only, since a crash may leave any mixture of a step's records.
- IncidentWorkspace.EditsSurvive: nobody writes back the very content that the rollback looks for, which no check could tell from an untouched file; an edit between git's patch and the receipt (patch.py:410-412), or while git itself holds the target, is not kept, and is the subject of `IncidentWorkspace.RollbackOverwritesExactly`.
- PatchRoundTrip.RoundTrip: the path holds no line break; `PatchPaths` covers those whose second line does not begin with `+++ `, and leaves out a path whose only break is a final carriage return.
- PatchRoundTrip.ReverseRoundTrip: the path holds no line break, and a hunk without new lines stands before the first line, as `difflib`'s three lines of context give.
- PatchRoundTrip.LookalikeRefused: the path holds no line break.
- PatchPlain.PlainInputsRoundTrip: the path holds no line break.
- Patch.ApplyUnifiedDiffToText: hunk headers are read with ASCII digits only, where the code's `\d` takes any Unicode digit.
- Patch.ParseUnifiedDiff: the reason of a refusal is not modelled, only that there is one.
- Supervisor.SupervisorRun: crash-free runs only; what recovery does to the records of a crashed job is part of `IncidentProtocol.StepSealsJob`.
- EventLog.LogNeverLosesAnEvent: partial writes happen only at a crash, and a truncation is atomic.
- Broadcaster.IpcEventBroadcaster.Write: the lock shared by a writer's subscriptions, the writing of replayed history and traces are not modelled; a broken connection is `RemoveWriter`.
- LogScan.Scan: the regular expressions for error lines and workspace frames are arbitrary predicates of a line.
- SelectorParts.TrimmedIsLongest: the size of the JSON header depends on its range only by the digits of the two ends, which `SelectorParts.JsonHeaderMeasured` shows of the printed one; where decoding changes the length of a part, only the bound of `SelectorParts.TrimmedLeavesLittle` is claimed.
- Selector.Render: the JSON header is an arbitrary function of stream, range and description; `Selector.JsonHeader` is the one that is printed, for ids that JSON leaves as they are.
- LogSearch.ReadJobLogTool.Invoke: an absent log file raises before anything is read.
- Terminal and editor interfaces, command line, reports: user interface and formatting.
- Sockets, signals, process groups, fsync: moves of the surroundings.
- Prompts, provider and diagnosis text: arbitrary replies.
- BM25 ranking and the benchmark statistics: floating point without a sharp property.
- Topic globbing, `shlex`, configuration and trace redaction: library behaviour or easy members.
