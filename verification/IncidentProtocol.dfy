/**
 The incident protocol of one job: the failure callback, diagnosis runs, decisions, patch
 application, smoke checks, retries, their observers, follow-ups, crashes and recovery.

 The coordinator's coroutines interleave only at their awaits, so the model is a transition
 system: each action below is the code a coroutine executes from one await to the next, or
 one move of its surroundings (a user's edit, git, a process). Contents stand for their
 SHA-256 hashes.
 */
module IncidentProtocol {
  import opened Common
  import opened Fsm

  type Content = string

  // ----- persisted records -----

  datatype Proposal = Proposal(id: nat, base: Content)
  datatype Receipt = Receipt(proposal: nat, applied: Content)

  datatype Incident = Incident(
    status: Status,
    attempt: nat,
    diagnosed: bool,
    proposal: Option<Proposal>,
    active: Option<nat>,
    receipt: Option<Receipt>,
    smokeLive: bool,
    run: Option<nat>)

  datatype JobStatus = Starting | Running | Succeeded | Failed | Cancelled | Interrupted
  datatype FailureKind = LaunchError | ProcessExit | SupervisorError

  /** job.json with the current attempt's attempt.json and failure.json. */
  datatype Job = Job(
    status: JobStatus,
    attempt: nat,
    returncode: Option<int>,
    cancelled: bool,
    logFault: bool,
    failure: Option<FailureKind>)

  // ----- coroutines, by the await they are suspended at -----

  /** The current attempt's launch and monitor task, with the failure callback it awaits. */
  datatype Monitor = Gone | Launching | Alive(cancelAsked: bool) | Capsule | Opened | WaitsForLock | Reopened

  /** `decide` while it holds the incident's lock, with the proposal it approved. */
  datatype Decide =
    | NoDecision
    | Releasing
    | Approved(p: Proposal, smoke: bool)
    | GitChecks(p: Proposal, smoke: bool)
    | GitApplies(p: Proposal, smoke: bool)
    | GitApplied(p: Proposal, smoke: bool, ok: bool)
    | SmokeStarts(p: Proposal)
    | SmokeRuns(p: Proposal)
    | SmokeEnded(p: Proposal, passed: bool)
    | AsksReverse(p: Proposal)
    | GitReverseChecks(p: Proposal)
    | GitReverses(p: Proposal)
    | GitReversed(p: Proposal, ok: bool)
    | RolledBack(p: Proposal)
    | Cleared(p: Proposal)
    | RetryDue(p: Proposal)
    | Retrying(p: Proposal)
    | Retried(p: Proposal)

  /** A retry observer: waiting for the monitor, or about to act on the job it read. */
  datatype Observer = Watching | Seen(status: JobStatus, noReturncode: bool)

  datatype Phase = Up | Down | Sealed | Replaying

  datatype State = State(
    phase: Phase,
    incident: Option<Incident>,
    job: Job,
    workspace: Content,
    monitor: Monitor,
    decide: Decide,
    following: bool,
    live: seq<nat>,
    observers: seq<Observer>,
    nextId: nat,
    approvals: nat,
    illegal: bool,
    second: bool)

  /** A job whose first attempt is being launched. */
  function Init(workspace: Content): State {
    State(Up, None, Job(Starting, 1, None, false, false, None), workspace, Launching, NoDecision, false, [], [], 0, 0,
          false, false)
  }

  /** The job's process, its monitor task and the failure callback. */
  datatype JobAction =
    | JobLaunches(ok: bool)
    | CancelAsked
    | JobEnds(rc: int, fault: bool)
    | CapsuleReady
    | OpenedResumes
    | CallbackLocks
    | ReopenedResumes

  /** Diagnosis runs and follow-ups. */
  datatype DiagnosisAction =
    | RunDiagnoses(run: nat)
    | RunProposes(run: nat)
    | RunWithdraws(run: nat)
    | RunEnds(run: nat, ok: bool)
    | FollowUpClick
    | FollowUpResumes

  /** A decision up to the receipt of the applied patch. */
  datatype ApplyAction =
    | RejectClick(pid: nat)
    | StaleConfigClick(pid: nat)
    | ApproveClick(pid: nat, smoke: bool)
    | LockReleases
    | VerifiesBase(gitOk: bool)
    | VerifiesBaseAgain(gitOk: bool)
    | GitWritesPatch(result: Option<Content>)
    | ApplyReturns(receiptOk: bool)

  /** The smoke check and the rollback it may lead to. */
  datatype SmokeAction =
    | SmokeBegins
    | SmokeReturns(passed: bool)
    | SmokeReported
    | VerifiesApplied(gitOk: bool)
    | VerifiesAppliedAgain(gitOk: bool)
    | GitWritesReverse(result: Option<Content>)
    | ReverseReturns(intact: bool, evidence: bool)
    | RolledBackResumes

  /** The retry and its observers. */
  datatype RetryAction =
    | RetryStarts
    | RetryLaunches(accepting: bool)
    | RetryReported
    | ObserverWakes(k: nat)
    | ObserverActs(k: nat)

  datatype CrashAction =
    | Crash(left: Option<Incident>, git: Option<Content>)
    | CrashInMonitor(rc: int, fault: bool, writes: nat)
    | SealsJob
    | RecoveryStarts
    | RecoversIncident(resume: bool, killed: bool)

  datatype Action =
    | UserEdits(content: Content)
    | JobMoves(job: JobAction)
    | DiagnosisMoves(diagnosis: DiagnosisAction)
    | ApplyMoves(apply: ApplyAction)
    | SmokeMoves(smoke: SmokeAction)
    | RetryMoves(retry: RetryAction)
    | CrashMoves(crash: CrashAction)

  // ----- shared parts -----

  predicate LockFree(s: State) {
    s.decide.NoDecision? && !s.following && !s.monitor.Reopened?
  }

  predicate HasStatus(s: State, status: Status) {
    s.incident.Some? && s.incident.value.status == status
  }

  function WithStatus(s: State, status: Status): State
    requires s.incident.Some?
  {
    s.(incident := Some(s.incident.value.(status := status)))
  }

  /** `_dispatch` inside `decide`: the next suspension point, or the lock given up by the exception. */
  function Dispatch(s: State, event: Event, next: Decide): State
    requires s.incident.Some?
  {
    match Transition(s.incident.value.status, event)
    case Some(status) => WithStatus(s, status).(decide := next)
    case None => s.(illegal := true, decide := NoDecision)
  }

  /** `_dispatch` elsewhere: an event the table refuses raises and changes no status. */
  function Fire(s: State, event: Event): State
    requires s.incident.Some?
  {
    match Transition(s.incident.value.status, event)
    case Some(status) => WithStatus(s, status)
    case None => s.(illegal := true)
  }

  /** `clear_agent_artifacts`. */
  function ClearedArtifacts(i: Incident): Incident {
    i.(diagnosed := false, proposal := None, active := None)
  }

  /** `_start_run`: a fresh run is recorded and its task spawned. */
  function StartRun(s: State): State
    requires s.incident.Some?
  {
    s.(incident := Some(s.incident.value.(run := Some(s.nextId))), live := s.live + [s.nextId], nextId := s.nextId + 1)
  }

  /** How a finished attempt is recorded by the monitor. */
  function Ended(job: Job, cancelled: bool, rc: int, fault: bool): Job {
    if cancelled then job.(status := Cancelled, returncode := Some(rc), cancelled := true, logFault := fault)
    else if fault
    then job.(status := Failed, returncode := Some(rc), logFault := true, failure := Some(SupervisorError))
    else if rc == 0 then job.(status := Succeeded, returncode := Some(0))
    else job.(status := Failed, returncode := Some(rc), failure := Some(ProcessExit))
  }

  function WithoutRun(live: seq<nat>, run: nat): seq<nat> {
    if live == [] then [] else if live[0] == run then live[1..] else [live[0]] + WithoutRun(live[1..], run)
  }

  predicate Serving(s: State) {
    s.phase.Up? || s.phase.Replaying?
  }

  // ----- the job's process and the failure callback -----

  function StepLaunch(s: State, ok: bool): Option<State> {
    if !s.phase.Up? || !s.monitor.Launching? then None
    else
      var s1 := if s.decide.Retrying? then s.(decide := Retried(s.decide.p)) else s;
      Some(if ok then s1.(job := s.job.(status := Running), monitor := Alive(false))
           else s1.(job := s.job.(status := Failed, failure := Some(LaunchError)), monitor := Gone))
  }

  function StepCancel(s: State): Option<State> {
    if s.phase.Up? && s.monitor.Alive? then Some(s.(monitor := Alive(true))) else None
  }

  function StepJobEnds(s: State, rc: int, fault: bool): Option<State> {
    if !s.phase.Up? || !s.monitor.Alive? then None
    else
      var job := Ended(s.job, s.monitor.cancelAsked, rc, fault);
      Some(s.(job := job, monitor := if job.failure == Some(ProcessExit) then Capsule else Gone))
  }

  /** `handle_failure` after the capsule has been written. */
  function StepCapsule(s: State): Option<State> {
    if !Serving(s) || !s.monitor.Capsule? then None
    else if s.incident.None? then
      Some(s.(incident := Some(Incident(InitialState, s.job.attempt, false, None, None, None, false, None)),
              monitor := Opened))
    else if s.incident.value.attempt == s.job.attempt then Some(s.(monitor := Gone))
    else if s.incident.value.status.RetryRunning? then Some(s.(monitor := WaitsForLock))
    else Some(s.(second := true, monitor := Gone))
  }

  function StepOpened(s: State): Option<State> {
    if !Serving(s) || !s.monitor.Opened? || s.incident.None? then None
    else Some(StartRun(s).(monitor := Gone))
  }

  function StepCallbackLocks(s: State): Option<State> {
    if !Serving(s) || !s.monitor.WaitsForLock? || !LockFree(s) || s.incident.None? then None
    else
      var s1 := s.(incident := Some(ClearedArtifacts(s.incident.value.(attempt := s.job.attempt))));
      var s2 := Fire(s1, RetryFailed);
      Some(s2.(monitor := if Accepts(s.incident.value.status, RetryFailed) then Reopened else Gone))
  }

  function StepReopened(s: State): Option<State> {
    if !Serving(s) || !s.monitor.Reopened? || s.incident.None? then None
    else Some(StartRun(s).(monitor := Gone))
  }

  // ----- diagnosis runs -----

  predicate RunMoves(s: State, run: nat) {
    Serving(s) && run in s.live && s.incident.Some?
  }

  function StepRunDiagnoses(s: State, run: nat): Option<State> {
    if !RunMoves(s, run) then None
    else Some(s.(incident := Some(s.incident.value.(diagnosed := true))))
  }

  /** `propose_patch` needs a diagnosis and records the target's current hash. */
  function StepRunProposes(s: State, run: nat): Option<State> {
    if !RunMoves(s, run) || !s.incident.value.diagnosed then None
    else
      var p := Proposal(s.nextId, s.workspace);
      Some(s.(incident := Some(s.incident.value.(proposal := Some(p))), nextId := s.nextId + 1))
  }

  function StepRunWithdraws(s: State, run: nat): Option<State> {
    if !RunMoves(s, run) then None
    else Some(s.(incident := Some(s.incident.value.(proposal := None))))
  }

  /** `_run_diagnosis` once the runtime has returned (`ok`) or raised. */
  function StepRunEnds(s: State, run: nat, ok: bool): Option<State> {
    if !RunMoves(s, run) then None
    else
      var i := s.incident.value;
      var s1 := s.(live := WithoutRun(s.live, run));
      if !ok || !i.diagnosed || i.proposal.None? then
        Some(if i.status.Diagnosing? then Fire(s1, InvestigationFailed) else s1)
      else
        Some(Fire(s1.(incident := Some(i.(active := Some(i.proposal.value.id)))), InvestigationDone))
  }

  // ----- decisions -----

  /** The common checks of `decide` on a proposal that awaits approval. */
  predicate Decidable(s: State, pid: nat) {
    && s.phase.Up? && LockFree(s) && HasStatus(s, AwaitingApproval)
    && s.incident.value.active == Some(pid) && s.incident.value.proposal.Some?
  }

  function StepReject(s: State, pid: nat): Option<State> {
    if !Decidable(s, pid) then None else Some(Dispatch(s, Reject, Releasing))
  }

  function StepStaleConfig(s: State, pid: nat): Option<State> {
    if !Decidable(s, pid) || !s.incident.value.diagnosed then None
    else Some(Dispatch(s, ApproveInvalidated, Releasing))
  }

  function StepApprove(s: State, pid: nat, smoke: bool): Option<State> {
    if !Decidable(s, pid) || !s.incident.value.diagnosed then None
    else Some(Dispatch(s.(approvals := s.approvals + 1), Approve, Approved(s.incident.value.proposal.value, smoke)))
  }

  function StepRelease(s: State): Option<State> {
    if s.phase.Up? && s.decide.Releasing? then Some(s.(decide := NoDecision)) else None
  }

  // ----- PatchService.apply -----

  function StepVerifiesBase(s: State, gitOk: bool): Option<State> {
    if !s.phase.Up? || !s.decide.Approved? || s.incident.None? then None
    else if gitOk && s.workspace == s.decide.p.base then Some(s.(decide := GitChecks(s.decide.p, s.decide.smoke)))
    else Some(Dispatch(s, ApplyFailed, Releasing))
  }

  function StepVerifiesBaseAgain(s: State, gitOk: bool): Option<State> {
    if !s.phase.Up? || !s.decide.GitChecks? || s.incident.None? then None
    else if gitOk && s.workspace == s.decide.p.base then Some(s.(decide := GitApplies(s.decide.p, s.decide.smoke)))
    else Some(Dispatch(s, ApplyFailed, Releasing))
  }

  /** `git apply` leaves some content, or fails and changes nothing. */
  function StepGitApplies(s: State, result: Option<Content>): Option<State> {
    if !s.phase.Up? || !s.decide.GitApplies? then None
    else
      var s1 := s.(decide := GitApplied(s.decide.p, s.decide.smoke, result.Some?));
      Some(if result.Some? then s1.(workspace := result.value) else s1)
  }

  function StepApplyReturns(s: State, receiptOk: bool): Option<State> {
    if !s.phase.Up? || !s.decide.GitApplied? || s.incident.None? then None
    else if !s.decide.ok || !receiptOk then Some(Dispatch(s, ApplyFailed, Releasing))
    else
      var p := s.decide.p;
      var s1 := s.(incident := Some(s.incident.value.(receipt := Some(Receipt(p.id, s.workspace)))));
      Some(if s.decide.smoke then s1.(decide := SmokeStarts(p)) else Dispatch(s1, ApplyOkNoSmoke, Cleared(p)))
  }

  // ----- the smoke check and PatchService.reverse -----

  function StepSmokeBegins(s: State): Option<State> {
    if !s.phase.Up? || !s.decide.SmokeStarts? || s.incident.None? then None
    else Some(Dispatch(s.(incident := Some(s.incident.value.(smokeLive := true))), ApplyOkSmoke, SmokeRuns(s.decide.p)))
  }

  /** The executor returns, from a running process or before it could be announced. */
  function StepSmokeReturns(s: State, passed: bool): Option<State> {
    if !s.phase.Up? || !(s.decide.SmokeStarts? || s.decide.SmokeRuns?) || s.incident.None? then None
    else Some(s.(incident := Some(s.incident.value.(smokeLive := false)), decide := SmokeEnded(s.decide.p, passed)))
  }

  function StepSmokeReported(s: State): Option<State> {
    if !s.phase.Up? || !s.decide.SmokeEnded? || s.incident.None? then None
    else
      var i := s.incident.value;
      Some(if s.decide.passed then Dispatch(s, SmokePass, Cleared(s.decide.p))
           else if i.proposal.None? || i.receipt.None? || i.receipt.value.proposal != i.proposal.value.id
           then Dispatch(s, SmokeFailedBlocked, Releasing)
           else s.(decide := AsksReverse(i.proposal.value)))
  }

  /** The target still holds what the receipt recorded. */
  predicate StillApplied(s: State) {
    s.incident.Some? && s.incident.value.receipt.Some? && s.workspace == s.incident.value.receipt.value.applied
  }

  function StepVerifiesApplied(s: State, gitOk: bool): Option<State> {
    if !s.phase.Up? || !s.decide.AsksReverse? || s.incident.None? then None
    else if gitOk && StillApplied(s) then Some(s.(decide := GitReverseChecks(s.decide.p)))
    else Some(Dispatch(s, SmokeFailedBlocked, Releasing))
  }

  function StepVerifiesAppliedAgain(s: State, gitOk: bool): Option<State> {
    if !s.phase.Up? || !s.decide.GitReverseChecks? || s.incident.None? then None
    else if gitOk && StillApplied(s) then Some(s.(decide := GitReverses(s.decide.p)))
    else Some(Dispatch(s, SmokeFailedBlocked, Releasing))
  }

  function StepGitReverses(s: State, result: Option<Content>): Option<State> {
    if !s.phase.Up? || !s.decide.GitReverses? then None
    else
      var s1 := s.(decide := GitReversed(s.decide.p, result.Some?));
      Some(if result.Some? then s1.(workspace := result.value) else s1)
  }

  /** The base is verified again, with the patch file, before the rollback is believed. */
  function StepReverseReturns(s: State, intact: bool, evidence: bool): Option<State> {
    if !s.phase.Up? || !s.decide.GitReversed? || s.incident.None? then None
    else if !s.decide.ok || !intact || s.workspace != s.decide.p.base
    then Some(Dispatch(s, SmokeFailedBlocked, Releasing))
    else
      var s1 := s.(incident := Some(ClearedArtifacts(s.incident.value)));
      Some(if evidence then Dispatch(s1, SmokeFailedRolledBack, RolledBack(s.decide.p))
           else Dispatch(s1, SmokeFailedNoEvidence, Releasing))
  }

  function StepRolledBack(s: State): Option<State> {
    if !s.phase.Up? || !s.decide.RolledBack? || s.incident.None? then None
    else Some(StartRun(s).(decide := NoDecision))
  }

  // ----- retries -----

  function StepRetryStarts(s: State): Option<State> {
    if !s.phase.Up? || !s.decide.Cleared? || s.incident.None? then None
    else Some(Dispatch(s, RetryStart, RetryDue(s.decide.p)))
  }

  /** `JobSupervisor.retry`: refused while shutting down or while an attempt runs. */
  function StepRetryLaunches(s: State, accepting: bool): Option<State> {
    if !s.phase.Up? || !s.decide.RetryDue? || s.incident.None? then None
    else if !accepting || s.monitor.Alive? then Some(Dispatch(s, RetryAborted, Releasing))
    else Some(s.(job := Job(Starting, s.job.attempt + 1, None, false, false, None), monitor := Launching,
                 decide := Retrying(s.decide.p)))
  }

  function StepRetryReported(s: State): Option<State> {
    if !s.phase.Up? || !s.decide.Retried? then None
    else Some(s.(decide := NoDecision, observers := s.observers + [Watching]))
  }

  function StepObserverWakes(s: State, k: nat): Option<State> {
    if !s.phase.Up? || k >= |s.observers| || !s.observers[k].Watching? || s.monitor.Alive? || s.monitor.Launching?
    then None
    else Some(s.(observers := s.observers[k := Seen(s.job.status, s.job.returncode.None?)]))
  }

  function StepObserverActs(s: State, k: nat): Option<State> {
    if !s.phase.Up? || k >= |s.observers| || !s.observers[k].Seen? || s.incident.None? then None
    else
      var o := s.observers[k];
      var s1 := s.(observers := s.observers[..k] + s.observers[k + 1..]);
      if !s.incident.value.status.RetryRunning? then Some(s1)
      else if o.status.Succeeded? then Some(Fire(s1, RetrySucceeded))
      else if o.status.Cancelled? || o.status.Interrupted? || (o.status.Failed? && o.noReturncode)
      then Some(Fire(s1, RetryAborted))
      else Some(s1)
  }

  // ----- follow-ups -----

  function StepFollowUp(s: State): Option<State> {
    if !s.phase.Up? || !LockFree(s) || s.incident.None? || !Accepts(s.incident.value.status, FollowUp) then None
    else
      var s1 := s.(incident := Some(ClearedArtifacts(s.incident.value)), following := true);
      Some(Fire(s1, FollowUp))
  }

  function StepFollowUpResumes(s: State): Option<State> {
    if !s.phase.Up? || !s.following || s.incident.None? then None
    else Some(StartRun(s).(following := false))
  }

  // ----- crashes and recovery -----

  /**
   A crash may cut any step short: the incident's other fields may hold any mixture, but the
   status is the last field a step writes, only the callback moves the attempt and only a
   starting smoke check is recorded as running.
   */
  predicate MayBeLeft(s: State, left: Option<Incident>) {
    match (s.incident, left)
    case (None, None) => true
    case (Some(i), Some(j)) =>
      && j.status == i.status && (j.attempt == i.attempt || (s.monitor.WaitsForLock? && j.attempt == s.job.attempt))
      && (j.smokeLive ==> i.smokeLive || s.decide.SmokeStarts?)
    case _ => false
  }

  function Stopped(s: State): State {
    s.(phase := Down, monitor := Gone, decide := NoDecision, following := false, live := [], observers := [])
  }

  function StepCrash(s: State, left: Option<Incident>, git: Option<Content>): Option<State> {
    if !MayBeLeft(s, left) || (git.Some? && !s.decide.GitApplies? && !s.decide.GitReverses?) then None
    else Some(Stopped(s).(incident := left, workspace := if git.Some? then git.value else s.workspace))
  }

  /** A crash after some of the monitor's writes: failure.json, attempt.json, job.json. */
  function StepCrashInMonitor(s: State, rc: int, fault: bool, writes: nat): Option<State> {
    if !s.phase.Up? || !s.monitor.Alive? then None
    else
      var done := Ended(s.job, s.monitor.cancelAsked, rc, fault);
      var job1 := if writes >= 1 then s.job.(failure := done.failure) else s.job;
      var job2 := if writes >= 2 then job1.(returncode := done.returncode) else job1;
      Some(Stopped(s).(job := if writes >= 3 then done else job2))
  }

  /** `recover_interrupted` on the job's records. */
  function StepSealsJob(s: State): Option<State> {
    if !s.phase.Down? then None
    else
      var status := if s.job.status.Starting? || s.job.status.Running?
                    then if s.job.failure.Some? then Failed else Interrupted
                    else s.job.status;
      Some(s.(phase := Sealed, job := s.job.(status := status)))
  }

  predicate NeedsReplay(s: State) {
    && s.job.status.Failed? && s.job.failure == Some(ProcessExit)
    && (s.incident.None? || s.incident.value.attempt != s.job.attempt)
  }

  function StepRecoveryStarts(s: State): Option<State> {
    if !s.phase.Sealed? then None
    else Some(s.(phase := Replaying, monitor := if NeedsReplay(s) then Capsule else Gone))
  }

  function StepRecovers(s: State, resume: bool, killed: bool): Option<State> {
    if !s.phase.Replaying? || !s.monitor.Gone? then None
    else if s.incident.None? then Some(s.(phase := Up))
    else
      var i := s.incident.value;
      var s1 := s.(phase := Up);
      if i.smokeLive then
        Some(if killed then s1.(incident := Some(i.(smokeLive := false, status := Unresolved))) else s1)
      else if RecoverAction(i.status).Quarantine? then
        Some(s1.(incident := Some(i.(active := None, status := Unresolved))))
      else if i.status.Diagnosing? then
        Some(if resume && i.run.Some? then s1.(live := s.live + [i.run.value]) else StartRun(s1))
      else if i.status.RetryRunning? && s.job.status.Succeeded? then Some(WithStatus(s1, Resolved))
      else if i.status.RetryRunning? && !s.job.status.Starting? && !s.job.status.Running?
      then Some(WithStatus(s1, Unresolved))
      else Some(s1)
  }

  // ----- runs -----

  function StepJob(s: State, a: JobAction): Option<State> {
    match a
    case JobLaunches(ok) => StepLaunch(s, ok)
    case CancelAsked => StepCancel(s)
    case JobEnds(rc, fault) => StepJobEnds(s, rc, fault)
    case CapsuleReady => StepCapsule(s)
    case OpenedResumes => StepOpened(s)
    case CallbackLocks => StepCallbackLocks(s)
    case ReopenedResumes => StepReopened(s)
  }

  function StepDiagnosis(s: State, a: DiagnosisAction): Option<State> {
    match a
    case RunDiagnoses(run) => StepRunDiagnoses(s, run)
    case RunProposes(run) => StepRunProposes(s, run)
    case RunWithdraws(run) => StepRunWithdraws(s, run)
    case RunEnds(run, ok) => StepRunEnds(s, run, ok)
    case FollowUpClick => StepFollowUp(s)
    case FollowUpResumes => StepFollowUpResumes(s)
  }

  function StepApply(s: State, a: ApplyAction): Option<State> {
    match a
    case RejectClick(pid) => StepReject(s, pid)
    case StaleConfigClick(pid) => StepStaleConfig(s, pid)
    case ApproveClick(pid, smoke) => StepApprove(s, pid, smoke)
    case LockReleases => StepRelease(s)
    case VerifiesBase(gitOk) => StepVerifiesBase(s, gitOk)
    case VerifiesBaseAgain(gitOk) => StepVerifiesBaseAgain(s, gitOk)
    case GitWritesPatch(result) => StepGitApplies(s, result)
    case ApplyReturns(receiptOk) => StepApplyReturns(s, receiptOk)
  }

  function StepSmoke(s: State, a: SmokeAction): Option<State> {
    match a
    case SmokeBegins => StepSmokeBegins(s)
    case SmokeReturns(passed) => StepSmokeReturns(s, passed)
    case SmokeReported => StepSmokeReported(s)
    case VerifiesApplied(gitOk) => StepVerifiesApplied(s, gitOk)
    case VerifiesAppliedAgain(gitOk) => StepVerifiesAppliedAgain(s, gitOk)
    case GitWritesReverse(result) => StepGitReverses(s, result)
    case ReverseReturns(intact, evidence) => StepReverseReturns(s, intact, evidence)
    case RolledBackResumes => StepRolledBack(s)
  }

  function StepRetry(s: State, a: RetryAction): Option<State> {
    match a
    case RetryStarts => StepRetryStarts(s)
    case RetryLaunches(accepting) => StepRetryLaunches(s, accepting)
    case RetryReported => StepRetryReported(s)
    case ObserverWakes(k) => StepObserverWakes(s, k)
    case ObserverActs(k) => StepObserverActs(s, k)
  }

  function StepDown(s: State, a: CrashAction): Option<State> {
    match a
    case Crash(left, git) => StepCrash(s, left, git)
    case CrashInMonitor(rc, fault, writes) => StepCrashInMonitor(s, rc, fault, writes)
    case SealsJob => StepSealsJob(s)
    case RecoveryStarts => StepRecoveryStarts(s)
    case RecoversIncident(resume, killed) => StepRecovers(s, resume, killed)
  }

  /** One action, or none when it cannot happen in this state. */
  function Step(s: State, a: Action): Option<State> {
    match a
    case UserEdits(content) => Some(s.(workspace := content))
    case JobMoves(job) => StepJob(s, job)
    case DiagnosisMoves(diagnosis) => StepDiagnosis(s, diagnosis)
    case ApplyMoves(apply) => StepApply(s, apply)
    case SmokeMoves(smoke) => StepSmoke(s, smoke)
    case RetryMoves(retry) => StepRetry(s, retry)
    case CrashMoves(crash) => StepDown(s, crash)
  }

  predicate CrashFree(actions: seq<Action>) {
    forall k :: 0 <= k < |actions| ==> !actions[k].CrashMoves?
  }

  /** A retry observer never stays suspended until the next approval. */
  predicate Orderly(s: State, a: Action) {
    a.ApplyMoves? && a.apply.ApproveClick? ==> |s.observers| == 0
  }

  /** The state after a list of actions, or none when one of them cannot happen. */
  function Run(s: State, actions: seq<Action>): Option<State>
    decreases |actions|
  {
    if actions == [] then Some(s)
    else
      match Step(s, actions[0])
      case None => None
      case Some(next) => Run(next, actions[1..])
  }

  predicate OrderlyRun(s: State, actions: seq<Action>)
    decreases |actions|
  {
    actions == [] || (
      && Orderly(s, actions[0])
      && (Step(s, actions[0]).Some? ==> OrderlyRun(Step(s, actions[0]).value, actions[1..])))
  }
}
