/**
 Runs without a crash: every dispatched event is accepted, at most one diagnosis run is live,
 and what a decision approved stays what it applies and rolls back.
 */
module IncidentOrder {
  import opened Common
  import opened Fsm
  import opened IncidentProtocol
  import opened IncidentSafety

  /** A coroutine has moved the incident to diagnosis and will start its run when it resumes. */
  predicate StartPending(s: State) {
    s.monitor.Opened? || s.monitor.Reopened? || s.following || s.decide.RolledBack?
  }

  /** The decision has read its proposal and still needs it for the patch or the rollback. */
  predicate UsesProposal(d: Decide) {
    Deciding(d) && !d.RolledBack? && !d.Cleared? && !d.RetryDue? && !d.Retrying? && !d.Retried?
  }

  /** The patch is in the workspace and its receipt is written. */
  predicate HoldsReceipt(d: Decide) {
    UsesProposal(d) && !d.Approved? && !d.GitChecks? && !d.GitApplies? && !d.GitApplied?
  }

  /** What is approved is the incident's active proposal, until the decision is done with it. */
  predicate DecisionMatches(s: State) {
    && (UsesProposal(s.decide) ==>
          && s.incident.Some? && s.incident.value.proposal == Some(s.decide.p)
          && s.incident.value.active == Some(s.decide.p.id))
    && (HoldsReceipt(s.decide) ==>
          && s.incident.Some? && s.incident.value.receipt.Some?
          && s.incident.value.receipt.value.proposal == s.decide.p.id)
  }

  predicate ApprovalReady(s: State) {
    HasStatus(s, AwaitingApproval) ==>
      && s.incident.value.diagnosed && s.incident.value.proposal.Some?
      && s.incident.value.active == Some(s.incident.value.proposal.value.id)
  }

  /** Holds in every run in which recovery never finds a diagnosis run already live. */
  predicate Ordered(s: State) {
    && !s.illegal && |s.live| <= 1
    && (|s.live| != 0 ==> HasStatus(s, Diagnosing))
    && (StartPending(s) ==> HasStatus(s, Diagnosing) && |s.live| == 0)
    && (s.incident.Some? && s.incident.value.smokeLive ==>
          Patching(s.incident.value.status) && (s.decide.NoDecision? || s.decide.SmokeRuns?))
  }

  /** Holds besides in every run without a crash. */
  predicate Matched(s: State) {
    && s.phase.Up?
    && (!Deciding(s.decide) && s.incident.Some? ==>
           !Patching(s.incident.value.status) && !Checked(s.incident.value.status))
    && ApprovalReady(s) && DecisionMatches(s)
  }

  lemma LaunchOrdered(s: State, ok: bool, t: State)
    requires Inv(s) && Ordered(s) && StepLaunch(s, ok) == Some(t)
    ensures Ordered(t) && (Matched(s) ==> Matched(t))
  {
  }

  lemma CancelOrdered(s: State, t: State)
    requires Inv(s) && Ordered(s) && StepCancel(s) == Some(t)
    ensures Ordered(t) && (Matched(s) ==> Matched(t))
  {
  }

  lemma JobEndsOrdered(s: State, rc: int, fault: bool, t: State)
    requires Inv(s) && Ordered(s) && StepJobEnds(s, rc, fault) == Some(t)
    ensures Ordered(t) && (Matched(s) ==> Matched(t))
  {
  }

  lemma CapsuleOrdered(s: State, t: State)
    requires Inv(s) && Ordered(s) && StepCapsule(s) == Some(t)
    ensures Ordered(t) && (Matched(s) ==> Matched(t))
  {
  }

  lemma OpenedOrdered(s: State, t: State)
    requires Inv(s) && Ordered(s) && StepOpened(s) == Some(t)
    ensures Ordered(t) && (Matched(s) ==> Matched(t))
  {
  }

  lemma CallbackLocksOrdered(s: State, t: State)
    requires Inv(s) && Ordered(s) && StepCallbackLocks(s) == Some(t)
    ensures Ordered(t) && (Matched(s) ==> Matched(t))
  {
  }

  lemma ReopenedOrdered(s: State, t: State)
    requires Inv(s) && Ordered(s) && StepReopened(s) == Some(t)
    ensures Ordered(t) && (Matched(s) ==> Matched(t))
  {
  }

  lemma JobStepsOrdered(s: State, a: JobAction, t: State)
    requires Inv(s) && Ordered(s) && StepJob(s, a) == Some(t)
    ensures Ordered(t) && (Matched(s) ==> Matched(t))
  {
    hide Inv, Ordered, Matched, StepLaunch, StepCancel, StepJobEnds, StepCapsule, StepOpened, StepCallbackLocks,
         StepReopened;
    match a
    case JobLaunches(ok) => LaunchOrdered(s, ok, t);
    case CancelAsked => CancelOrdered(s, t);
    case JobEnds(rc, fault) => JobEndsOrdered(s, rc, fault, t);
    case CapsuleReady => CapsuleOrdered(s, t);
    case OpenedResumes => OpenedOrdered(s, t);
    case CallbackLocks => CallbackLocksOrdered(s, t);
    case ReopenedResumes => ReopenedOrdered(s, t);
  }

  lemma RunDiagnosesOrdered(s: State, run: nat, t: State)
    requires Inv(s) && Ordered(s) && StepRunDiagnoses(s, run) == Some(t)
    ensures Ordered(t) && (Matched(s) ==> Matched(t))
  {
  }

  lemma RunProposesOrdered(s: State, run: nat, t: State)
    requires Inv(s) && Ordered(s) && StepRunProposes(s, run) == Some(t)
    ensures Ordered(t) && (Matched(s) ==> Matched(t))
  {
  }

  lemma RunWithdrawsOrdered(s: State, run: nat, t: State)
    requires Inv(s) && Ordered(s) && StepRunWithdraws(s, run) == Some(t)
    ensures Ordered(t) && (Matched(s) ==> Matched(t))
  {
  }

  lemma RunEndsOrdered(s: State, run: nat, ok: bool, t: State)
    requires Inv(s) && Ordered(s) && StepRunEnds(s, run, ok) == Some(t)
    ensures Ordered(t) && (Matched(s) ==> Matched(t))
  {
  }

  lemma FollowUpOrdered(s: State, t: State)
    requires Inv(s) && Ordered(s) && StepFollowUp(s) == Some(t)
    ensures Ordered(t) && (Matched(s) ==> Matched(t))
  {
  }

  lemma FollowUpResumesOrdered(s: State, t: State)
    requires Inv(s) && Ordered(s) && StepFollowUpResumes(s) == Some(t)
    ensures Ordered(t) && (Matched(s) ==> Matched(t))
  {
  }

  lemma DiagnosisStepsOrdered(s: State, a: DiagnosisAction, t: State)
    requires Inv(s) && Ordered(s) && StepDiagnosis(s, a) == Some(t)
    ensures Ordered(t) && (Matched(s) ==> Matched(t))
  {
    hide Inv, Ordered, Matched, StepRunDiagnoses, StepRunProposes, StepRunWithdraws, StepRunEnds, StepFollowUp,
         StepFollowUpResumes;
    match a
    case RunDiagnoses(run) => RunDiagnosesOrdered(s, run, t);
    case RunProposes(run) => RunProposesOrdered(s, run, t);
    case RunWithdraws(run) => RunWithdrawsOrdered(s, run, t);
    case RunEnds(run, ok) => RunEndsOrdered(s, run, ok, t);
    case FollowUpClick => FollowUpOrdered(s, t);
    case FollowUpResumes => FollowUpResumesOrdered(s, t);
  }

  lemma RejectOrdered(s: State, pid: nat, t: State)
    requires Inv(s) && Ordered(s) && StepReject(s, pid) == Some(t)
    ensures Ordered(t) && (Matched(s) ==> Matched(t))
  {
  }

  lemma StaleConfigOrdered(s: State, pid: nat, t: State)
    requires Inv(s) && Ordered(s) && StepStaleConfig(s, pid) == Some(t)
    ensures Ordered(t) && (Matched(s) ==> Matched(t))
  {
  }

  lemma ApproveOrdered(s: State, pid: nat, smoke: bool, t: State)
    requires Inv(s) && Ordered(s) && |s.observers| == 0 && StepApprove(s, pid, smoke) == Some(t)
    ensures Ordered(t) && (Matched(s) ==> Matched(t))
  {
  }

  lemma ReleaseOrdered(s: State, t: State)
    requires Inv(s) && Ordered(s) && StepRelease(s) == Some(t)
    ensures Ordered(t) && (Matched(s) ==> Matched(t))
  {
  }

  lemma VerifiesBaseOrdered(s: State, gitOk: bool, t: State)
    requires Inv(s) && Ordered(s) && StepVerifiesBase(s, gitOk) == Some(t)
    ensures Ordered(t) && (Matched(s) ==> Matched(t))
  {
  }

  lemma VerifiesBaseAgainOrdered(s: State, gitOk: bool, t: State)
    requires Inv(s) && Ordered(s) && StepVerifiesBaseAgain(s, gitOk) == Some(t)
    ensures Ordered(t) && (Matched(s) ==> Matched(t))
  {
  }

  lemma GitAppliesOrdered(s: State, result: Option<Content>, t: State)
    requires Inv(s) && Ordered(s) && StepGitApplies(s, result) == Some(t)
    ensures Ordered(t) && (Matched(s) ==> Matched(t))
  {
  }

  lemma ApplyReturnsOrdered(s: State, receiptOk: bool, t: State)
    requires Inv(s) && Ordered(s) && StepApplyReturns(s, receiptOk) == Some(t)
    ensures Ordered(t) && (Matched(s) ==> Matched(t))
  {
  }

  lemma ApplyStepsOrdered(s: State, a: ApplyAction, t: State)
    requires Inv(s) && Ordered(s) && StepApply(s, a) == Some(t)
    requires a.ApproveClick? ==> |s.observers| == 0
    ensures Ordered(t) && (Matched(s) ==> Matched(t))
  {
    hide Inv, Ordered, Matched, StepReject, StepStaleConfig, StepApprove, StepRelease, StepVerifiesBase,
         StepVerifiesBaseAgain, StepGitApplies, StepApplyReturns;
    match a
    case RejectClick(pid) => RejectOrdered(s, pid, t);
    case StaleConfigClick(pid) => StaleConfigOrdered(s, pid, t);
    case ApproveClick(pid, smoke) => ApproveOrdered(s, pid, smoke, t);
    case LockReleases => ReleaseOrdered(s, t);
    case VerifiesBase(gitOk) => VerifiesBaseOrdered(s, gitOk, t);
    case VerifiesBaseAgain(gitOk) => VerifiesBaseAgainOrdered(s, gitOk, t);
    case GitWritesPatch(result) => GitAppliesOrdered(s, result, t);
    case ApplyReturns(receiptOk) => ApplyReturnsOrdered(s, receiptOk, t);
  }

  lemma SmokeBeginsOrdered(s: State, t: State)
    requires Inv(s) && Ordered(s) && StepSmokeBegins(s) == Some(t)
    ensures Ordered(t) && (Matched(s) ==> Matched(t))
  {
  }

  lemma SmokeReturnsOrdered(s: State, passed: bool, t: State)
    requires Inv(s) && Ordered(s) && StepSmokeReturns(s, passed) == Some(t)
    ensures Ordered(t) && (Matched(s) ==> Matched(t))
  {
  }

  lemma SmokeReportedOrdered(s: State, t: State)
    requires Inv(s) && Ordered(s) && StepSmokeReported(s) == Some(t)
    ensures Ordered(t) && (Matched(s) ==> Matched(t))
  {
  }

  lemma VerifiesAppliedOrdered(s: State, gitOk: bool, t: State)
    requires Inv(s) && Ordered(s) && StepVerifiesApplied(s, gitOk) == Some(t)
    ensures Ordered(t) && (Matched(s) ==> Matched(t))
  {
  }

  lemma VerifiesAppliedAgainOrdered(s: State, gitOk: bool, t: State)
    requires Inv(s) && Ordered(s) && StepVerifiesAppliedAgain(s, gitOk) == Some(t)
    ensures Ordered(t) && (Matched(s) ==> Matched(t))
  {
  }

  lemma GitReversesOrdered(s: State, result: Option<Content>, t: State)
    requires Inv(s) && Ordered(s) && StepGitReverses(s, result) == Some(t)
    ensures Ordered(t) && (Matched(s) ==> Matched(t))
  {
  }

  lemma ReverseReturnsOrdered(s: State, intact: bool, evidence: bool, t: State)
    requires Inv(s) && Ordered(s) && StepReverseReturns(s, intact, evidence) == Some(t)
    ensures Ordered(t) && (Matched(s) ==> Matched(t))
  {
  }

  lemma RolledBackOrdered(s: State, t: State)
    requires Inv(s) && Ordered(s) && StepRolledBack(s) == Some(t)
    ensures Ordered(t) && (Matched(s) ==> Matched(t))
  {
  }

  lemma SmokeStepsOrdered(s: State, a: SmokeAction, t: State)
    requires Inv(s) && Ordered(s) && StepSmoke(s, a) == Some(t)
    ensures Ordered(t) && (Matched(s) ==> Matched(t))
  {
    hide Inv, Ordered, Matched, StepSmokeBegins, StepSmokeReturns, StepSmokeReported, StepVerifiesApplied,
         StepVerifiesAppliedAgain, StepGitReverses, StepReverseReturns, StepRolledBack;
    match a
    case SmokeBegins => SmokeBeginsOrdered(s, t);
    case SmokeReturns(passed) => SmokeReturnsOrdered(s, passed, t);
    case SmokeReported => SmokeReportedOrdered(s, t);
    case VerifiesApplied(gitOk) => VerifiesAppliedOrdered(s, gitOk, t);
    case VerifiesAppliedAgain(gitOk) => VerifiesAppliedAgainOrdered(s, gitOk, t);
    case GitWritesReverse(result) => GitReversesOrdered(s, result, t);
    case ReverseReturns(intact, evidence) => ReverseReturnsOrdered(s, intact, evidence, t);
    case RolledBackResumes => RolledBackOrdered(s, t);
  }

  lemma RetryStartsOrdered(s: State, t: State)
    requires Inv(s) && Ordered(s) && StepRetryStarts(s) == Some(t)
    ensures Ordered(t) && (Matched(s) ==> Matched(t))
  {
  }

  lemma RetryLaunchesOrdered(s: State, accepting: bool, t: State)
    requires Inv(s) && Ordered(s) && StepRetryLaunches(s, accepting) == Some(t)
    ensures Ordered(t) && (Matched(s) ==> Matched(t))
  {
  }

  lemma RetryReportedOrdered(s: State, t: State)
    requires Inv(s) && Ordered(s) && StepRetryReported(s) == Some(t)
    ensures Ordered(t) && (Matched(s) ==> Matched(t))
  {
  }

  lemma ObserverWakesOrdered(s: State, k: nat, t: State)
    requires Inv(s) && Ordered(s) && StepObserverWakes(s, k) == Some(t)
    ensures Ordered(t) && (Matched(s) ==> Matched(t))
  {
  }

  lemma ObserverActsOrdered(s: State, k: nat, t: State)
    requires Inv(s) && Ordered(s) && StepObserverActs(s, k) == Some(t)
    ensures Ordered(t) && (Matched(s) ==> Matched(t))
  {
  }

  lemma RetryStepsOrdered(s: State, a: RetryAction, t: State)
    requires Inv(s) && Ordered(s) && StepRetry(s, a) == Some(t)
    ensures Ordered(t) && (Matched(s) ==> Matched(t))
  {
    hide Inv, Ordered, Matched, StepRetryStarts, StepRetryLaunches, StepRetryReported, StepObserverWakes,
         StepObserverActs;
    match a
    case RetryStarts => RetryStartsOrdered(s, t);
    case RetryLaunches(accepting) => RetryLaunchesOrdered(s, accepting, t);
    case RetryReported => RetryReportedOrdered(s, t);
    case ObserverWakes(k) => ObserverWakesOrdered(s, k, t);
    case ObserverActs(k) => ObserverActsOrdered(s, k, t);
  }

  lemma CrashOrdered(s: State, left: Option<Incident>, git: Option<Content>, t: State)
    requires Inv(s) && Ordered(s) && StepCrash(s, left, git) == Some(t)
    ensures Ordered(t)
  {
  }

  lemma CrashInMonitorOrdered(s: State, rc: int, fault: bool, writes: nat, t: State)
    requires Inv(s) && Ordered(s) && StepCrashInMonitor(s, rc, fault, writes) == Some(t)
    ensures Ordered(t)
  {
  }

  lemma SealsJobOrdered(s: State, t: State)
    requires Inv(s) && Ordered(s) && StepSealsJob(s) == Some(t)
    ensures Ordered(t)
  {
  }

  lemma RecoveryStartsOrdered(s: State, t: State)
    requires Inv(s) && Ordered(s) && StepRecoveryStarts(s) == Some(t)
    ensures Ordered(t)
  {
  }

  lemma RecoversOrdered(s: State, resume: bool, killed: bool, t: State)
    requires Inv(s) && Ordered(s) && |s.live| == 0 && StepRecovers(s, resume, killed) == Some(t)
    ensures Ordered(t)
  {
  }

  lemma DownStepsOrdered(s: State, a: CrashAction, t: State)
    requires Inv(s) && Ordered(s) && StepDown(s, a) == Some(t)
    requires a.RecoversIncident? ==> |s.live| == 0
    ensures Ordered(t)
  {
    hide Inv, Ordered, Matched, StepCrash, StepCrashInMonitor, StepSealsJob, StepRecoveryStarts, StepRecovers;
    match a
    case Crash(left, git) => CrashOrdered(s, left, git, t);
    case CrashInMonitor(rc, fault, writes) => CrashInMonitorOrdered(s, rc, fault, writes, t);
    case SealsJob => SealsJobOrdered(s, t);
    case RecoveryStarts => RecoveryStartsOrdered(s, t);
    case RecoversIncident(resume, killed) => RecoversOrdered(s, resume, killed, t);
  }

  /** Recovery runs while a diagnosis run is already live: its own replay has just started it. */
  predicate FindsLiveRun(s: State, a: Action) {
    a.CrashMoves? && a.crash.RecoversIncident? && |s.live| != 0
  }

  lemma StepKeepsOrdered(s: State, a: Action)
    requires Inv(s) && Ordered(s) && Orderly(s, a) && !FindsLiveRun(s, a) && Step(s, a).Some?
    ensures Ordered(Step(s, a).value)
    ensures Matched(s) && !a.CrashMoves? ==> Matched(Step(s, a).value)
  {
    hide Inv, StepJob, StepDiagnosis, StepApply, StepSmoke, StepRetry, StepDown;
    var t := Step(s, a).value;
    match a
    case UserEdits(_) =>
    case JobMoves(job) => JobStepsOrdered(s, job, t);
    case DiagnosisMoves(diagnosis) => DiagnosisStepsOrdered(s, diagnosis, t);
    case ApplyMoves(apply) => ApplyStepsOrdered(s, apply, t);
    case SmokeMoves(smoke) => SmokeStepsOrdered(s, smoke, t);
    case RetryMoves(retry) => RetryStepsOrdered(s, retry, t);
    case CrashMoves(crash) => DownStepsOrdered(s, crash, t);
  }

  // ----- whole runs -----

  /** Recovery never finds a live run. */
  predicate NoDoubleStart(s: State, actions: seq<Action>)
    decreases |actions|
  {
    actions == [] || (
      && !FindsLiveRun(s, actions[0])
      && (Step(s, actions[0]).Some? ==> NoDoubleStart(Step(s, actions[0]).value, actions[1..])))
  }

  /** At most one diagnosis run is live in each state of a run. */
  predicate SingleRuns(s: State, actions: seq<Action>)
    decreases |actions|
  {
    && |s.live| <= 1
    && (actions != [] && Step(s, actions[0]).Some? ==> SingleRuns(Step(s, actions[0]).value, actions[1..]))
  }

  lemma {:induction false} RunKeepsOrdered(s: State, actions: seq<Action>)
    requires Inv(s) && Ordered(s) && OrderlyRun(s, actions) && NoDoubleStart(s, actions) && Run(s, actions).Some?
    ensures Inv(Run(s, actions).value) && Ordered(Run(s, actions).value)
    ensures Matched(s) && CrashFree(actions) ==> Matched(Run(s, actions).value)
    decreases |actions|
  {
    hide Inv, Ordered, Matched, Orderly, Step, FindsLiveRun;
    if actions != [] {
      StepKeepsInv(s, actions[0]);
      StepKeepsOrdered(s, actions[0]);
      RunKeepsOrdered(Step(s, actions[0]).value, actions[1..]);
    }
  }

  /** Recovery that finds a live run leaves two. */
  lemma FindingALiveRunDoublesIt(s: State, a: Action, t: State)
    requires Inv(s) && Ordered(s) && FindsLiveRun(s, a) && Step(s, a) == Some(t)
    ensures |t.live| == 2
  {
  }

  lemma {:induction false} SingleRunsExactly(s: State, actions: seq<Action>)
    requires Inv(s) && Ordered(s) && OrderlyRun(s, actions) && Run(s, actions).Some?
    ensures SingleRuns(s, actions) <==> NoDoubleStart(s, actions)
    decreases |actions|
  {
    if actions != [] {
      var a, t := actions[0], Step(s, actions[0]).value;
      assert |s.live| <= 1;
      StepKeepsInv(s, a);
      hide Inv, Orderly, Step, Ordered;
      if FindsLiveRun(s, a) {
        FindingALiveRunDoublesIt(s, a, t);
      } else {
        StepKeepsOrdered(s, a);
        SingleRunsExactly(t, actions[1..]);
      }
    }
  }

  lemma {:induction false} CrashFreeStartsOnce(s: State, actions: seq<Action>)
    requires CrashFree(actions)
    ensures NoDoubleStart(s, actions)
    decreases |actions|
  {
    hide Step;
    if actions != [] && Step(s, actions[0]).Some? {
      CrashFreeStartsOnce(Step(s, actions[0]).value, actions[1..]);
    }
  }

  // ----- what recovery finds on disk -----

  /** After the replayed callback recovery goes on at once: no diagnosis run gets a turn in between. */
  predicate Prompt(s: State, a: Action) {
    s.phase.Replaying? && s.monitor.Gone? ==> !a.DiagnosisMoves?
  }

  predicate PromptRun(s: State, actions: seq<Action>)
    decreases |actions|
  {
    actions == [] || (
      && Prompt(s, actions[0])
      && (Step(s, actions[0]).Some? ==> PromptRun(Step(s, actions[0]).value, actions[1..])))
  }

  predicate StartsRecovery(a: Action) {
    a.CrashMoves? && a.crash.RecoveryStarts?
  }

  predicate EndsRecovery(a: Action) {
    a.CrashMoves? && a.crash.RecoversIncident?
  }

  /** Whether the latest recovery began with a failed exit on disk that no incident covers. */
  function Replays(s: State, a: Action, replays: bool): bool {
    if StartsRecovery(a) then NeedsReplay(s) else replays
  }

  /** No recovery that began so is carried through. */
  predicate NeverReplays(s: State, actions: seq<Action>, replays: bool)
    decreases |actions|
  {
    actions == [] || (
      && !(EndsRecovery(actions[0]) && replays)
      && (Step(s, actions[0]).Some? ==>
             NeverReplays(Step(s, actions[0]).value, actions[1..], Replays(s, actions[0], replays))))
  }

  /** When a replayed callback has returned its run is live, and without one there is no live run. */
  predicate ReplayInv(s: State, replays: bool) {
    s.phase.Replaying? ==>
      if replays then s.monitor.Gone? ==> |s.live| != 0 else s.monitor.Gone? && |s.live| == 0
  }

  /** A replayed callback always finds something to diagnose. */
  lemma JobStepReplays(s: State, a: JobAction, t: State, replays: bool)
    requires Inv(s) && ReplayInv(s, replays) && StepJob(s, a) == Some(t)
    ensures ReplayInv(t, replays)
  {
    assert Accepts(RetryRunning, RetryFailed);
    hide Transition, DecideInv, ObserverInv, StepCallbackLocks;
    if a.CallbackLocks? {
      CallbackReplays(s, t, replays);
    }
  }

  lemma CallbackReplays(s: State, t: State, replays: bool)
    requires JobInv(s) && ReplayInv(s, replays) && StepCallbackLocks(s) == Some(t)
    ensures ReplayInv(t, replays)
  {
  }

  lemma DiagnosisStepReplays(s: State, a: DiagnosisAction, t: State, replays: bool)
    requires ReplayInv(s, replays) && StepDiagnosis(s, a) == Some(t) && Prompt(s, DiagnosisMoves(a))
    ensures ReplayInv(t, replays)
  {
    hide Transition, StepRunEnds, ClearedArtifacts;
    if a.RunEnds? {
      RunEndsEffect(s, a.run, a.ok, t);
    }
  }

  lemma ApplyStepReplays(s: State, a: ApplyAction, t: State)
    requires StepApply(s, a) == Some(t)
    ensures t.phase.Up?
  {
    hide Transition;
  }

  lemma SmokeStepReplays(s: State, a: SmokeAction, t: State)
    requires StepSmoke(s, a) == Some(t)
    ensures t.phase.Up?
  {
    hide Transition, ClearedArtifacts, StillApplied;
  }

  lemma RetryStepReplays(s: State, a: RetryAction, t: State)
    requires StepRetry(s, a) == Some(t)
    ensures t.phase.Up?
  {
    hide Transition, StepObserverActs;
    if a.ObserverActs? {
      ObserverActsEffect(s, a.k, t);
    }
  }

  lemma CrashStepReplays(s: State, a: CrashAction, t: State, replays: bool)
    requires PhaseInv(s) && ReplayInv(s, replays) && StepDown(s, a) == Some(t)
    ensures ReplayInv(t, Replays(s, CrashMoves(a), replays))
    ensures a.RecoversIncident? ==> (FindsLiveRun(s, CrashMoves(a)) <==> replays)
  {
    hide Transition, StepRecovers;
    if a.RecoversIncident? {
      RecoversEffect(s, a.resume, a.killed, t);
    }
  }

  lemma StepReplays(s: State, a: Action, replays: bool)
    requires Inv(s) && ReplayInv(s, replays) && Prompt(s, a) && Step(s, a).Some?
    ensures ReplayInv(Step(s, a).value, Replays(s, a, replays))
    ensures EndsRecovery(a) ==> (FindsLiveRun(s, a) <==> replays)
  {
    hide DecideInv, JobInv, FailureCovered, ObserverInv, IncidentInv, StepJob, StepDiagnosis, StepApply, StepSmoke,
         StepRetry, StepDown;
    var t := Step(s, a).value;
    match a
    case UserEdits(_) =>
    case JobMoves(job) => JobStepReplays(s, job, t, replays);
    case DiagnosisMoves(diagnosis) => DiagnosisStepReplays(s, diagnosis, t, replays);
    case ApplyMoves(apply) => ApplyStepReplays(s, apply, t);
    case SmokeMoves(smoke) => SmokeStepReplays(s, smoke, t);
    case RetryMoves(retry) => RetryStepReplays(s, retry, t);
    case CrashMoves(crash) => CrashStepReplays(s, crash, t, replays);
  }

  /** Recovery finds a run live if and only if it began with a failed exit that no incident covers. */
  lemma {:induction false} ReplaysExactly(s: State, actions: seq<Action>, replays: bool)
    requires Inv(s) && Ordered(s) && ReplayInv(s, replays)
    requires OrderlyRun(s, actions) && PromptRun(s, actions) && Run(s, actions).Some?
    ensures NoDoubleStart(s, actions) <==> NeverReplays(s, actions, replays)
    decreases |actions|
  {
    hide Inv, Ordered, ReplayInv, Orderly, Prompt, Step, FindsLiveRun, NeedsReplay;
    if actions != [] {
      var a := actions[0];
      StepKeepsInv(s, a);
      StepReplays(s, a, replays);
      FindsOnlyAtTheEnd(s, a);
      if !FindsLiveRun(s, a) {
        StepKeepsOrdered(s, a);
        ReplaysExactly(Step(s, a).value, actions[1..], Replays(s, a, replays));
      }
    }
  }

  lemma FindsOnlyAtTheEnd(s: State, a: Action)
    ensures FindsLiveRun(s, a) ==> EndsRecovery(a)
  {
  }

  /**
   In every run, crashes and recovery included, at most one diagnosis run is live throughout if and
   only if no recovery that found a failed exit without its incident on disk is carried through; and
   then the table has accepted every dispatched event, and a live run means diagnosing.
   */
  lemma OneLiveRunExactly(workspace: Content, actions: seq<Action>, t: State)
    requires OrderlyRun(Init(workspace), actions) && Run(Init(workspace), actions) == Some(t)
    ensures SingleRuns(Init(workspace), actions) <==> NoDoubleStart(Init(workspace), actions)
    ensures PromptRun(Init(workspace), actions) ==>
      (SingleRuns(Init(workspace), actions) <==> NeverReplays(Init(workspace), actions, false))
    ensures NoDoubleStart(Init(workspace), actions) ==> !t.illegal && (|t.live| != 0 ==> HasStatus(t, Diagnosing))
  {
    InitInv(workspace);
    SingleRunsExactly(Init(workspace), actions);
    if PromptRun(Init(workspace), actions) {
      ReplaysExactly(Init(workspace), actions, false);
    }
    if NoDoubleStart(Init(workspace), actions) {
      RunKeepsOrdered(Init(workspace), actions);
    }
  }

  /**
   In every crash-free interleaving the table accepts every dispatched event, at most one
   diagnosis run is live, a live run means the incident is being diagnosed, and an incident
   awaits approval only of the complete proposal that is active.
   */
  lemma CrashFreeRunIsSafe(workspace: Content, actions: seq<Action>, t: State)
    requires OrderlyRun(Init(workspace), actions) && CrashFree(actions)
    requires Run(Init(workspace), actions) == Some(t)
    ensures !t.illegal
    ensures |t.live| <= 1
    ensures |t.live| != 0 ==> HasStatus(t, Diagnosing)
    ensures ApprovalReady(t)
  {
    CrashFreeStartsOnce(Init(workspace), actions);
    RunKeepsOrdered(Init(workspace), actions);
  }

  /** Without a crash a failed smoke check always reaches the rollback, with the approved proposal. */
  lemma FailedSmokeAsksForRollback(s: State, t: State)
    requires Inv(s) && Matched(s) && s.decide.SmokeEnded? && !s.decide.passed && StepSmokeReported(s) == Some(t)
    ensures t == s.(decide := AsksReverse(s.decide.p))
  {
  }

  // ----- what a crash changes -----

  /** One more action at the end of a run. */
  lemma {:induction false} Then(s: State, actions: seq<Action>, t: State, a: Action)
    returns (longer: seq<Action>, u: State)
    requires OrderlyRun(s, actions) && Run(s, actions) == Some(t)
    requires Orderly(t, a) && Step(t, a).Some?
    ensures longer == actions + [a] && Step(t, a) == Some(u)
    ensures OrderlyRun(s, longer) && Run(s, longer) == Some(u)
    decreases |actions|
  {
    hide Orderly, Step;
    longer, u := actions + [a], Step(t, a).value;
    if actions == [] {
      assert longer == [a] && longer[1..] == [];
    } else {
      assert longer[0] == actions[0] && longer[1..] == actions[1..] + [a];
      var _, _ := Then(Step(s, actions[0]).value, actions[1..], t, a);
    }
  }

  /** Two runs are live at once, which recovery started or resumed beside the one it had replayed. */
  predicate TwoRuns(s: State) {
    && s.phase.Up? && |s.live| == 2 && !s.illegal && s.decide.NoDecision? && |s.observers| == 0
    && HasStatus(s, Diagnosing)
  }

  /** The job fails and the daemon crashes before its callback ran; the restart replays the callback. */
  lemma CallbackReplayed(workspace: Content) returns (actions: seq<Action>, t: State)
    ensures OrderlyRun(Init(workspace), actions) && Run(Init(workspace), actions) == Some(t)
    ensures t == Init(workspace).(phase := Replaying, job := Job(Failed, 1, Some(1), false, false, Some(ProcessExit)),
                                  monitor := Capsule)
  {
    var s := Init(workspace);
    actions, t := Then(s, [], s, JobMoves(JobLaunches(true)));
    actions, t := Then(s, actions, t, JobMoves(JobEnds(1, false)));
    actions, t := Then(s, actions, t, CrashMoves(Crash(None, None)));
    actions, t := Then(s, actions, t, CrashMoves(SealsJob));
    actions, t := Then(s, actions, t, CrashMoves(RecoveryStarts));
  }

  lemma RecoveryStartsARunTwice(workspace: Content) returns (actions: seq<Action>, t: State)
    ensures OrderlyRun(Init(workspace), actions) && Run(Init(workspace), actions) == Some(t)
    ensures TwoRuns(t) && t.live == [0, 0]
  {
    var s := Init(workspace);
    actions, t := CallbackReplayed(workspace);
    actions, t := Then(s, actions, t, JobMoves(CapsuleReady));
    actions, t := Then(s, actions, t, JobMoves(OpenedResumes));
    actions, t := Then(s, actions, t, CrashMoves(RecoversIncident(true, true)));
  }

  lemma DoubledRunsAreTwo(s: State, a: Action, t: State)
    requires Inv(s) && Ordered(s) && FindsLiveRun(s, a) && Step(s, a) == Some(t)
    ensures TwoRuns(t)
  {
  }

  /** The first of two runs proposes a patch, and then the second one dispatches an event the table refuses. */
  lemma SecondRunIsRefused(s: State, actions: seq<Action>, t: State) returns (longer: seq<Action>, u: State)
    requires OrderlyRun(s, actions) && Run(s, actions) == Some(t) && TwoRuns(t)
    ensures actions <= longer && OrderlyRun(s, longer) && Run(s, longer) == Some(u) && u.illegal
  {
    var first, second := t.live[0], t.live[1];
    longer, u := Then(s, actions, t, DiagnosisMoves(RunDiagnoses(first)));
    longer, u := Then(s, longer, u, DiagnosisMoves(RunProposes(first)));
    longer, u := Then(s, longer, u, DiagnosisMoves(RunEnds(first, true)));
    longer, u := Then(s, longer, u, DiagnosisMoves(RunEnds(second, true)));
  }

  /** One more action in front of a run. */
  lemma First(s: State, a: Action, t: State, actions: seq<Action>)
    requires Orderly(s, a) && Step(s, a) == Some(t) && OrderlyRun(t, actions) && Run(t, actions).Some?
    ensures OrderlyRun(s, [a] + actions) && Run(s, [a] + actions) == Run(t, actions)
  {
    hide Orderly, Step;
    assert ([a] + actions)[1..] == actions;
  }

  /**
   So with a crash the claims of crash-free runs fail, and not for one schedule only: every run in
   which recovery has doubled a run can go on, from there, to an event that the table refuses.
   */
  lemma {:induction false} DoubledRunIsRefused(s: State, actions: seq<Action>)
    returns (k: nat, longer: seq<Action>, u: State)
    requires Inv(s) && Ordered(s) && OrderlyRun(s, actions) && Run(s, actions).Some? && !NoDoubleStart(s, actions)
    ensures 0 < k <= |actions| && actions[..k] <= longer
    ensures OrderlyRun(s, longer) && Run(s, longer) == Some(u) && u.illegal
    decreases |actions|
  {
    hide Inv, Ordered, Orderly, Step, FindsLiveRun, TwoRuns;
    var a := actions[0];
    var t := Step(s, a).value;
    if FindsLiveRun(s, a) {
      DoubledRunsAreTwo(s, a, t);
      First(s, a, t, []);
      assert [a] + [] == [a] == actions[..1];
      k := 1;
      longer, u := SecondRunIsRefused(s, [a], t);
    } else {
      StepKeepsInv(s, a);
      StepKeepsOrdered(s, a);
      var m, more, v := DoubledRunIsRefused(t, actions[1..]);
      First(s, a, t, more);
      k, longer, u := m + 1, [a] + more, v;
      assert actions[..k] == [a] + actions[1..][..m];
    }
  }
}
