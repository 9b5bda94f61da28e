/** What every step of the incident protocol keeps, and what follows for whole runs. */
module IncidentSafety {
  import opened Common
  import opened Fsm
  import opened IncidentProtocol

  // ----- the invariant of all runs, crashes included -----

  /** The change is applied or being applied, and no retry has started. */
  predicate Patching(status: Status) {
    status.Applying? || status.SmokeRunning?
  }

  predicate Checked(status: Status) {
    status.SmokePassed? || status.SmokeSkipped?
  }

  /** Where a diagnosis may have got to. */
  predicate Investigating(status: Status) {
    status.Diagnosing? || status.AwaitingApproval? || status.Unresolved?
  }

  /** The statuses that each suspension point of `decide` leaves the incident in. */
  predicate DecideStatus(s: State) {
    match s.decide
    case NoDecision | Releasing => true
    case Approved(_, _) | GitChecks(_, _) | GitApplies(_, _) | GitApplied(_, _, _) | SmokeStarts(_) =>
      HasStatus(s, Applying)
    case SmokeRuns(_) => HasStatus(s, SmokeRunning)
    case SmokeEnded(_, _) | AsksReverse(_) | GitReverseChecks(_) | GitReverses(_) | GitReversed(_, _) =>
      s.incident.Some? && Patching(s.incident.value.status)
    case RolledBack(_) => s.incident.Some? && Investigating(s.incident.value.status)
    case Cleared(_) => s.incident.Some? && Checked(s.incident.value.status)
    case RetryDue(_) | Retrying(_) | Retried(_) => HasStatus(s, RetryRunning)
  }

  predicate NeedsApproval(status: Status) {
    Patching(status) || Checked(status) || status.RetryRunning? || status.Resolved?
  }

  predicate Deciding(d: Decide) {
    !d.NoDecision? && !d.Releasing?
  }

  /** A decision holds the lock, has been counted, and no older observer is left. */
  predicate DecideInv(s: State) {
    && DecideStatus(s)
    && (!s.decide.NoDecision? ==> !s.following && !s.monitor.Reopened? && s.phase.Up? && s.incident.Some?)
    && (Deciding(s.decide) ==> |s.observers| == 0 && s.approvals > 0)
    && (Deciding(s.decide) && !s.decide.Retrying? && !s.decide.Retried? ==> s.monitor.Gone?)
    && (s.decide.Retrying? ==> s.monitor.Launching?)
  }

  predicate TruthfulSuccess(job: Job) {
    job.returncode == Some(0) && !job.cancelled && !job.logFault
  }

  predicate JobInv(s: State) {
    && (s.job.status.Succeeded? ==> TruthfulSuccess(s.job))
    && (s.job.failure.Some? ==> s.job.status.Failed? || s.job.status.Running? || s.job.status.Starting?)
    && (s.monitor.Alive? ==> s.job.status.Running? && s.job.failure.None? && s.phase.Up?)
    && (s.monitor.Launching? ==> s.job.status.Starting? && s.job.failure.None? && s.phase.Up?)
    && (s.monitor.Alive? || s.monitor.Launching? ==> !s.job.cancelled && !s.job.logFault)
    && (s.monitor.Launching? || s.monitor.Alive? ==> s.incident.None? || HasStatus(s, RetryRunning))
    && (s.monitor.Launching? && s.incident.Some? ==> s.decide.Retrying?)
    && (s.monitor.Capsule? || s.monitor.WaitsForLock? ==> s.job.status.Failed? && s.job.failure == Some(ProcessExit))
    && (s.monitor.WaitsForLock? ==> HasStatus(s, RetryRunning))
    && (s.monitor.Opened? ==> HasStatus(s, Diagnosing) && |s.live| == 0 && !s.following && s.decide.NoDecision?)
    && (s.monitor.Reopened? || s.following ==>
          s.incident.Some? && Investigating(s.incident.value.status) && s.decide.NoDecision?)
    && !(s.monitor.Reopened? && s.following)
  }

  /** A failed exit that no diagnosis covers yet belongs to a running retry. */
  predicate FailureCovered(s: State) {
    s.job.failure == Some(ProcessExit) && s.incident.Some? && s.incident.value.attempt != s.job.attempt ==>
      && HasStatus(s, RetryRunning) && !s.decide.RetryDue?
      && (s.phase.Replaying? && s.job.status.Failed? ==> !s.monitor.Gone?)
  }

  predicate ObserverInv(s: State) {
    && (forall k :: 0 <= k < |s.observers| && s.observers[k].Seen? ==>
          && s.observers[k].status == s.job.status && s.observers[k].noReturncode == s.job.returncode.None?
          && !s.monitor.Alive? && !s.monitor.Launching?)
    && (|s.observers| != 0 || s.decide.Retried? ==> s.job.failure == Some(ProcessExit) ==> s.job.returncode.Some?)
    && (|s.observers| != 0 ==> s.incident.Some? && s.phase.Up?)
    && (s.monitor.Alive? || s.monitor.Launching? ==> s.job.returncode.None?)
  }

  predicate IncidentInv(s: State) {
    && (s.incident.Some? && NeedsApproval(s.incident.value.status) ==> s.approvals > 0)
    && (HasStatus(s, Resolved) ==> s.job.status.Succeeded?)
    && (s.incident.None? ==> |s.live| == 0 && s.decide.NoDecision? && !s.following)
    && (s.incident.Some? ==> s.incident.value.attempt <= s.job.attempt)
    && (s.incident.Some? && !s.monitor.Gone? && !s.monitor.Opened? && !s.monitor.Reopened? ==>
           s.incident.value.attempt < s.job.attempt)
    && !s.second
  }

  predicate PhaseInv(s: State) {
    && (s.phase.Down? || s.phase.Sealed? ==> s.monitor.Gone? && |s.live| == 0)
    && (s.phase.Sealed? || s.phase.Replaying? ==> !s.job.status.Starting? && !s.job.status.Running?)
    && (!s.phase.Up? ==> s.decide.NoDecision? && !s.following && |s.observers| == 0)
  }

  predicate Inv(s: State) {
    DecideInv(s) && JobInv(s) && FailureCovered(s) && ObserverInv(s) && IncidentInv(s) && PhaseInv(s)
  }

  lemma InitInv(workspace: Content)
    ensures Inv(Init(workspace))
  {
  }

  lemma LaunchKeepInv(s: State, ok: bool, t: State)
    requires Inv(s) && StepLaunch(s, ok) == Some(t)
    ensures Inv(t)
  {
  }

  lemma CancelKeepInv(s: State, t: State)
    requires Inv(s) && StepCancel(s) == Some(t)
    ensures Inv(t)
  {
  }

  lemma JobEndsKeepInv(s: State, rc: int, fault: bool, t: State)
    requires Inv(s) && StepJobEnds(s, rc, fault) == Some(t)
    ensures Inv(t)
  {
  }

  lemma CapsuleKeepInv(s: State, t: State)
    requires Inv(s) && StepCapsule(s) == Some(t)
    ensures Inv(t)
  {
  }

  lemma OpenedKeepInv(s: State, t: State)
    requires Inv(s) && StepOpened(s) == Some(t)
    ensures Inv(t)
  {
  }

  lemma CallbackLocksKeepInv(s: State, t: State)
    requires Inv(s) && StepCallbackLocks(s) == Some(t)
    ensures Inv(t)
  {
  }

  lemma ReopenedKeepInv(s: State, t: State)
    requires Inv(s) && StepReopened(s) == Some(t)
    ensures Inv(t)
  {
  }

  lemma JobStepsKeepInv(s: State, a: JobAction, t: State)
    requires Inv(s) && StepJob(s, a) == Some(t)
    ensures Inv(t)
  {
    hide Inv, StepLaunch, StepCancel, StepJobEnds, StepCapsule, StepOpened, StepCallbackLocks, StepReopened;
    match a
    case JobLaunches(ok) => LaunchKeepInv(s, ok, t);
    case CancelAsked => CancelKeepInv(s, t);
    case JobEnds(rc, fault) => JobEndsKeepInv(s, rc, fault, t);
    case CapsuleReady => CapsuleKeepInv(s, t);
    case OpenedResumes => OpenedKeepInv(s, t);
    case CallbackLocks => CallbackLocksKeepInv(s, t);
    case ReopenedResumes => ReopenedKeepInv(s, t);
  }

  lemma RunDiagnosesKeepInv(s: State, run: nat, t: State)
    requires Inv(s) && StepRunDiagnoses(s, run) == Some(t)
    ensures Inv(t)
  {
  }

  lemma RunProposesKeepInv(s: State, run: nat, t: State)
    requires Inv(s) && StepRunProposes(s, run) == Some(t)
    ensures Inv(t)
  {
  }

  lemma RunWithdrawsKeepInv(s: State, run: nat, t: State)
    requires Inv(s) && StepRunWithdraws(s, run) == Some(t)
    ensures Inv(t)
  {
  }

  /** A run that ends changes only its own liveness and the incident's status, active proposal and legality flag. */
  lemma RunEndsEffect(s: State, run: nat, ok: bool, t: State)
    requires StepRunEnds(s, run, ok) == Some(t)
    ensures s.incident.Some? && t.incident.Some? && |s.live| > 0
    ensures t == s.(incident := t.incident, live := t.live, illegal := t.illegal)
    ensures t.incident.value.attempt == s.incident.value.attempt && t.incident.value.receipt == s.incident.value.receipt
    ensures
      || t.incident.value.status == s.incident.value.status
      || (HasStatus(s, Diagnosing) && Investigating(t.incident.value.status))
  {
    hide WithoutRun;
  }

  lemma RunEndsKeepInv(s: State, run: nat, ok: bool, t: State)
    requires Inv(s) && StepRunEnds(s, run, ok) == Some(t)
    ensures Inv(t)
  {
    RunEndsEffect(s, run, ok, t);
    hide StepRunEnds, Transition;
  }

  lemma FollowUpKeepInv(s: State, t: State)
    requires Inv(s) && StepFollowUp(s) == Some(t)
    ensures Inv(t)
  {
  }

  lemma FollowUpResumesKeepInv(s: State, t: State)
    requires Inv(s) && StepFollowUpResumes(s) == Some(t)
    ensures Inv(t)
  {
  }

  lemma DiagnosisStepsKeepInv(s: State, a: DiagnosisAction, t: State)
    requires Inv(s) && StepDiagnosis(s, a) == Some(t)
    ensures Inv(t)
  {
    hide Inv, StepRunDiagnoses, StepRunProposes, StepRunWithdraws, StepRunEnds, StepFollowUp, StepFollowUpResumes;
    match a
    case RunDiagnoses(run) => RunDiagnosesKeepInv(s, run, t);
    case RunProposes(run) => RunProposesKeepInv(s, run, t);
    case RunWithdraws(run) => RunWithdrawsKeepInv(s, run, t);
    case RunEnds(run, ok) => RunEndsKeepInv(s, run, ok, t);
    case FollowUpClick => FollowUpKeepInv(s, t);
    case FollowUpResumes => FollowUpResumesKeepInv(s, t);
  }

  lemma RejectKeepInv(s: State, pid: nat, t: State)
    requires Inv(s) && StepReject(s, pid) == Some(t)
    ensures Inv(t)
  {
  }

  lemma StaleConfigKeepInv(s: State, pid: nat, t: State)
    requires Inv(s) && StepStaleConfig(s, pid) == Some(t)
    ensures Inv(t)
  {
  }

  lemma ApproveKeepInv(s: State, pid: nat, smoke: bool, t: State)
    requires |s.observers| == 0 && Inv(s) && StepApprove(s, pid, smoke) == Some(t)
    ensures Inv(t)
  {
  }

  lemma ReleaseKeepInv(s: State, t: State)
    requires Inv(s) && StepRelease(s) == Some(t)
    ensures Inv(t)
  {
  }

  lemma VerifiesBaseKeepInv(s: State, gitOk: bool, t: State)
    requires Inv(s) && StepVerifiesBase(s, gitOk) == Some(t)
    ensures Inv(t)
  {
  }

  lemma VerifiesBaseAgainKeepInv(s: State, gitOk: bool, t: State)
    requires Inv(s) && StepVerifiesBaseAgain(s, gitOk) == Some(t)
    ensures Inv(t)
  {
  }

  lemma GitAppliesKeepInv(s: State, result: Option<Content>, t: State)
    requires Inv(s) && StepGitApplies(s, result) == Some(t)
    ensures Inv(t)
  {
  }

  /** Once git has returned, the change is stale, goes to the smoke check, or needs none. */
  lemma ApplyReturnsEffect(s: State, receiptOk: bool, t: State)
    requires StepApplyReturns(s, receiptOk) == Some(t) && HasStatus(s, Applying)
    ensures s.phase.Up? && s.decide.GitApplied? && t.incident.Some?
    ensures t == s.(incident := t.incident, decide := t.decide)
    ensures t.incident.value.attempt == s.incident.value.attempt
    ensures
      || (t.decide.Releasing? && HasStatus(t, Stale))
      || (t.decide == SmokeStarts(s.decide.p) && HasStatus(t, Applying))
      || (t.decide == Cleared(s.decide.p) && HasStatus(t, SmokeSkipped))
  {
    assert Transition(s.incident.value.status, ApplyFailed) == Some(Stale);
    assert Transition(s.incident.value.status, ApplyOkNoSmoke) == Some(SmokeSkipped);
    hide Transition;
    if !s.decide.ok || !receiptOk {
    } else if s.decide.smoke {
    } else {
    }
  }

  lemma ApplyReturnsKeepInv(s: State, receiptOk: bool, t: State)
    requires Inv(s) && StepApplyReturns(s, receiptOk) == Some(t)
    ensures Inv(t)
  {
    ApplyReturnsEffect(s, receiptOk, t);
    hide StepApplyReturns, Transition;
  }

  lemma ApplyStepsKeepInv(s: State, a: ApplyAction, t: State)
    requires Inv(s) && StepApply(s, a) == Some(t)
    requires a.ApproveClick? ==> |s.observers| == 0
    ensures Inv(t)
  {
    hide Inv, StepReject, StepStaleConfig, StepApprove, StepRelease, StepVerifiesBase, StepVerifiesBaseAgain,
         StepGitApplies, StepApplyReturns;
    match a
    case RejectClick(pid) => RejectKeepInv(s, pid, t);
    case StaleConfigClick(pid) => StaleConfigKeepInv(s, pid, t);
    case ApproveClick(pid, smoke) => ApproveKeepInv(s, pid, smoke, t);
    case LockReleases => ReleaseKeepInv(s, t);
    case VerifiesBase(gitOk) => VerifiesBaseKeepInv(s, gitOk, t);
    case VerifiesBaseAgain(gitOk) => VerifiesBaseAgainKeepInv(s, gitOk, t);
    case GitWritesPatch(result) => GitAppliesKeepInv(s, result, t);
    case ApplyReturns(receiptOk) => ApplyReturnsKeepInv(s, receiptOk, t);
  }

  lemma SmokeBeginsKeepInv(s: State, t: State)
    requires Inv(s) && StepSmokeBegins(s) == Some(t)
    ensures Inv(t)
  {
  }

  lemma SmokeReturnsKeepInv(s: State, passed: bool, t: State)
    requires Inv(s) && StepSmokeReturns(s, passed) == Some(t)
    ensures Inv(t)
  {
  }

  /** Both statuses of an applied change take every outcome of the smoke check. */
  lemma PatchingAccepts(status: Status)
    requires Patching(status)
    ensures Transition(status, SmokePass) == Some(SmokePassed)
    ensures Transition(status, SmokeFailedBlocked) == Some(RollbackBlocked)
    ensures Transition(status, SmokeFailedRolledBack) == Some(Diagnosing)
    ensures Transition(status, SmokeFailedNoEvidence) == Some(Unresolved)
  {
  }

  /** A reported smoke check passes, blocks or goes on to the rollback. */
  lemma SmokeReportedEffect(s: State, t: State)
    requires StepSmokeReported(s) == Some(t) && Patching(s.incident.value.status)
    ensures s.phase.Up? && s.decide.SmokeEnded? && s.incident.Some? && t.incident.Some?
    ensures t == s.(incident := t.incident, decide := t.decide)
    ensures t.incident == Some(s.incident.value.(status := t.incident.value.status))
    ensures
      || (t.decide == Cleared(s.decide.p) && HasStatus(t, SmokePassed))
      || (t.decide.Releasing? && HasStatus(t, RollbackBlocked))
      || (t.decide.AsksReverse? && t.incident == s.incident)
  {
    PatchingAccepts(s.incident.value.status);
    hide Transition;
  }

  lemma SmokeReportedKeepInv(s: State, t: State)
    requires Inv(s) && StepSmokeReported(s) == Some(t)
    ensures Inv(t)
  {
    SmokeReportedEffect(s, t);
    hide StepSmokeReported, Transition;
  }

  lemma VerifiesAppliedKeepInv(s: State, gitOk: bool, t: State)
    requires Inv(s) && StepVerifiesApplied(s, gitOk) == Some(t)
    ensures Inv(t)
  {
  }

  lemma VerifiesAppliedAgainKeepInv(s: State, gitOk: bool, t: State)
    requires Inv(s) && StepVerifiesAppliedAgain(s, gitOk) == Some(t)
    ensures Inv(t)
  {
  }

  lemma GitReversesKeepInv(s: State, result: Option<Content>, t: State)
    requires Inv(s) && StepGitReverses(s, result) == Some(t)
    ensures Inv(t)
  {
  }

  lemma ReverseReturnsKeepInv(s: State, intact: bool, evidence: bool, t: State)
    requires Inv(s) && StepReverseReturns(s, intact, evidence) == Some(t)
    ensures Inv(t)
  {
    PatchingAccepts(s.incident.value.status);
    hide Transition;
  }

  lemma RolledBackKeepInv(s: State, t: State)
    requires Inv(s) && StepRolledBack(s) == Some(t)
    ensures Inv(t)
  {
  }

  lemma SmokeStepsKeepInv(s: State, a: SmokeAction, t: State)
    requires Inv(s) && StepSmoke(s, a) == Some(t)
    ensures Inv(t)
  {
    hide Inv, StepSmokeBegins, StepSmokeReturns, StepSmokeReported, StepVerifiesApplied, StepVerifiesAppliedAgain,
         StepGitReverses, StepReverseReturns, StepRolledBack;
    match a
    case SmokeBegins => SmokeBeginsKeepInv(s, t);
    case SmokeReturns(passed) => SmokeReturnsKeepInv(s, passed, t);
    case SmokeReported => SmokeReportedKeepInv(s, t);
    case VerifiesApplied(gitOk) => VerifiesAppliedKeepInv(s, gitOk, t);
    case VerifiesAppliedAgain(gitOk) => VerifiesAppliedAgainKeepInv(s, gitOk, t);
    case GitWritesReverse(result) => GitReversesKeepInv(s, result, t);
    case ReverseReturns(intact, evidence) => ReverseReturnsKeepInv(s, intact, evidence, t);
    case RolledBackResumes => RolledBackKeepInv(s, t);
  }

  lemma RetryStartsKeepInv(s: State, t: State)
    requires Inv(s) && StepRetryStarts(s) == Some(t)
    ensures Inv(t)
  {
  }

  lemma RetryLaunchesKeepInv(s: State, accepting: bool, t: State)
    requires Inv(s) && StepRetryLaunches(s, accepting) == Some(t)
    ensures Inv(t)
  {
  }

  lemma RetryReportedKeepInv(s: State, t: State)
    requires Inv(s) && StepRetryReported(s) == Some(t)
    ensures Inv(t)
  {
  }

  lemma ObserverWakesKeepInv(s: State, k: nat, t: State)
    requires Inv(s) && StepObserverWakes(s, k) == Some(t)
    ensures Inv(t)
  {
  }

  /** An observer ends, and may end the retry it saw: resolved when the job had succeeded. */
  lemma ObserverActsEffect(s: State, k: nat, t: State)
    requires StepObserverActs(s, k) == Some(t)
    ensures s.phase.Up? && k < |s.observers| && s.observers[k].Seen? && s.incident.Some? && t.incident.Some?
    ensures t == s.(incident := t.incident, observers := s.observers[..k] + s.observers[k + 1..])
    ensures t.incident == Some(s.incident.value.(status := t.incident.value.status))
    ensures
      || t.incident == s.incident
      || (HasStatus(s, RetryRunning) && HasStatus(t, Resolved) && s.observers[k].status.Succeeded?)
      || (HasStatus(s, RetryRunning) && HasStatus(t, Unresolved) && !s.observers[k].status.Succeeded?
          && (s.observers[k].status.Failed? ==> s.observers[k].noReturncode))
  {
    assert Transition(RetryRunning, RetrySucceeded) == Some(Resolved);
    assert Transition(RetryRunning, RetryAborted) == Some(Unresolved);
    hide Transition;
  }

  lemma ObserverActsKeepInv(s: State, k: nat, t: State)
    requires Inv(s) && StepObserverActs(s, k) == Some(t)
    ensures Inv(t)
  {
    ObserverActsEffect(s, k, t);
    hide StepObserverActs, Transition;
  }

  lemma RetryStepsKeepInv(s: State, a: RetryAction, t: State)
    requires Inv(s) && StepRetry(s, a) == Some(t)
    ensures Inv(t)
  {
    hide Inv, StepRetryStarts, StepRetryLaunches, StepRetryReported, StepObserverWakes, StepObserverActs;
    match a
    case RetryStarts => RetryStartsKeepInv(s, t);
    case RetryLaunches(accepting) => RetryLaunchesKeepInv(s, accepting, t);
    case RetryReported => RetryReportedKeepInv(s, t);
    case ObserverWakes(k) => ObserverWakesKeepInv(s, k, t);
    case ObserverActs(k) => ObserverActsKeepInv(s, k, t);
  }

  lemma CrashKeepInv(s: State, left: Option<Incident>, git: Option<Content>, t: State)
    requires Inv(s) && StepCrash(s, left, git) == Some(t)
    ensures Inv(t)
  {
  }

  lemma CrashInMonitorKeepInv(s: State, rc: int, fault: bool, writes: nat, t: State)
    requires Inv(s) && StepCrashInMonitor(s, rc, fault, writes) == Some(t)
    ensures Inv(t)
  {
  }

  lemma SealsJobKeepInv(s: State, t: State)
    requires Inv(s) && StepSealsJob(s) == Some(t)
    ensures Inv(t)
  {
  }

  lemma RecoveryStartsKeepInv(s: State, t: State)
    requires Inv(s) && StepRecoveryStarts(s) == Some(t)
    ensures Inv(t)
  {
  }

  /** Recovery starts at most a run, and resolves only a retry whose job succeeded. */
  lemma RecoversEffect(s: State, resume: bool, killed: bool, t: State)
    requires StepRecovers(s, resume, killed) == Some(t)
    ensures s.phase.Replaying? && s.monitor.Gone?
    ensures t == s.(phase := Up, incident := t.incident, live := t.live, nextId := t.nextId)
    ensures s.incident.None? ==> t == s.(phase := Up)
    ensures s.incident.Some? ==>
      && t.incident.Some? && t.incident.value.attempt == s.incident.value.attempt
      && t.incident.value.receipt == s.incident.value.receipt
    ensures s.incident.Some? && t.incident.value.status != s.incident.value.status ==>
      || t.incident.value.status.Unresolved?
      || (HasStatus(s, RetryRunning) && s.job.status.Succeeded? && HasStatus(t, Resolved))
    ensures
      HasStatus(s, RetryRunning) && !s.incident.value.smokeLive && !s.job.status.Starting? && !s.job.status.Running? ==>
        !HasStatus(t, RetryRunning)
  {
  }

  lemma RecoversKeepInv(s: State, resume: bool, killed: bool, t: State)
    requires Inv(s) && StepRecovers(s, resume, killed) == Some(t)
    ensures Inv(t)
  {
    RecoversEffect(s, resume, killed, t);
    hide StepRecovers;
  }

  lemma DownStepsKeepInv(s: State, a: CrashAction, t: State)
    requires Inv(s) && StepDown(s, a) == Some(t)
    ensures Inv(t)
  {
    hide Inv, StepCrash, StepCrashInMonitor, StepSealsJob, StepRecoveryStarts, StepRecovers;
    match a
    case Crash(left, git) => CrashKeepInv(s, left, git, t);
    case CrashInMonitor(rc, fault, writes) => CrashInMonitorKeepInv(s, rc, fault, writes, t);
    case SealsJob => SealsJobKeepInv(s, t);
    case RecoveryStarts => RecoveryStartsKeepInv(s, t);
    case RecoversIncident(resume, killed) => RecoversKeepInv(s, resume, killed, t);
  }

  /** Every step of every run, crashes and recovery included, keeps the invariant. */
  lemma StepKeepsInv(s: State, a: Action)
    requires Inv(s) && Orderly(s, a) && Step(s, a).Some?
    ensures Inv(Step(s, a).value)
  {
    hide StepJob, StepDiagnosis, StepApply, StepSmoke, StepRetry, StepDown;
    var t := Step(s, a).value;
    match a
    case UserEdits(_) =>
    case JobMoves(job) => JobStepsKeepInv(s, job, t);
    case DiagnosisMoves(diagnosis) => DiagnosisStepsKeepInv(s, diagnosis, t);
    case ApplyMoves(apply) => ApplyStepsKeepInv(s, apply, t);
    case SmokeMoves(smoke) => SmokeStepsKeepInv(s, smoke, t);
    case RetryMoves(retry) => RetryStepsKeepInv(s, retry, t);
    case CrashMoves(crash) => DownStepsKeepInv(s, crash, t);
  }

  // ----- whole runs -----

  lemma {:induction false} RunKeepsInv(s: State, actions: seq<Action>)
    requires Inv(s) && OrderlyRun(s, actions) && Run(s, actions).Some?
    ensures Inv(Run(s, actions).value)
    decreases |actions|
  {
    hide Inv, Orderly, Step;
    if actions != [] {
      StepKeepsInv(s, actions[0]);
      RunKeepsInv(Step(s, actions[0]).value, actions[1..]);
    }
  }

  predicate IsApproval(a: Action) {
    a.ApplyMoves? && a.apply.ApproveClick?
  }

  function ApprovalCount(actions: seq<Action>): nat {
    if actions == [] then 0 else (if IsApproval(actions[0]) then 1 else 0) + ApprovalCount(actions[1..])
  }

  lemma ApplyStepCountsApprovals(s: State, a: ApplyAction, t: State)
    requires StepApply(s, a) == Some(t)
    ensures t.approvals == s.approvals + (if a.ApproveClick? then 1 else 0)
  {
    hide Transition;
  }

  lemma SmokeStepKeepsApprovals(s: State, a: SmokeAction, t: State)
    requires StepSmoke(s, a) == Some(t)
    ensures t.approvals == s.approvals
  {
    hide Transition;
  }

  lemma RetryStepKeepsApprovals(s: State, a: RetryAction, t: State)
    requires StepRetry(s, a) == Some(t)
    ensures t.approvals == s.approvals
  {
    hide Transition;
  }

  lemma StepCountsApprovals(s: State, a: Action, t: State)
    requires Step(s, a) == Some(t)
    ensures t.approvals == s.approvals + (if IsApproval(a) then 1 else 0)
  {
    hide Transition, StepApply, StepSmoke, StepRetry, StepRunEnds;
    match a
    case DiagnosisMoves(RunEnds(run, ok)) => RunEndsEffect(s, run, ok, t);
    case ApplyMoves(apply) => ApplyStepCountsApprovals(s, apply, t);
    case SmokeMoves(smoke) => SmokeStepKeepsApprovals(s, smoke, t);
    case RetryMoves(retry) => RetryStepKeepsApprovals(s, retry, t);
    case _ =>
  }

  lemma {:induction false} ApprovalsCounted(s: State, actions: seq<Action>)
    requires Run(s, actions).Some?
    ensures Run(s, actions).value.approvals == s.approvals + ApprovalCount(actions)
    decreases |actions|
  {
    hide Step;
    if actions != [] {
      StepCountsApprovals(s, actions[0], Step(s, actions[0]).value);
      ApprovalsCounted(Step(s, actions[0]).value, actions[1..]);
    }
  }

  /**
   Resolved is truthful in every run, crashes and recovery included: somebody approved, and
   the job's current attempt exited with 0, was not cancelled and lost no log.
   */
  lemma ResolvedIsTruthful(workspace: Content, actions: seq<Action>, t: State)
    requires OrderlyRun(Init(workspace), actions) && Run(Init(workspace), actions) == Some(t)
    requires HasStatus(t, Resolved)
    ensures t.job.status.Succeeded? && TruthfulSuccess(t.job)
    ensures exists k :: 0 <= k < |actions| && IsApproval(actions[k])
  {
    RunKeepsInv(Init(workspace), actions);
    ApprovalsCounted(Init(workspace), actions);
    ApprovalCounted(actions);
  }

  lemma {:induction false} ApprovalCounted(actions: seq<Action>)
    ensures ApprovalCount(actions) > 0 <==> exists k :: 0 <= k < |actions| && IsApproval(actions[k])
  {
    if actions != [] {
      ApprovalCounted(actions[1..]);
      assert actions == [actions[0]] + actions[1..];
      if IsApproval(actions[0]) {
      } else if ApprovalCount(actions[1..]) > 0 {
        var k :| 0 <= k < |actions[1..]| && IsApproval(actions[1..][k]);
        assert IsApproval(actions[k + 1]);
      }
    }
  }

  /** A job has one incident however often it is retried and the daemon restarted. */
  lemma OneIncident(workspace: Content, actions: seq<Action>, t: State)
    requires OrderlyRun(Init(workspace), actions) && Run(Init(workspace), actions) == Some(t)
    ensures !t.second
    ensures t.incident.Some? ==> t.incident.value.attempt <= t.job.attempt
  {
    RunKeepsInv(Init(workspace), actions);
  }
}
