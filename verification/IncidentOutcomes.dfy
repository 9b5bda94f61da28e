/** Which step leads to which status, what is final, and where an approved proposal comes from. */
module IncidentOutcomes {
  import opened Common
  import opened Fsm
  import opened IncidentProtocol
  import opened IncidentSafety
  import opened IncidentOrder
  import opened IncidentWorkspace

  // ----- what leads to each status -----

  /** The status a step newly gives the incident. */
  function Entered(s: State, t: State): Option<Status> {
    if t.incident.Some? && !HasStatus(s, t.incident.value.status) then Some(t.incident.value.status) else None
  }

  /** A smoke check that runs is recorded, and one recorded belongs to a change that is being applied. */
  predicate SmokeInv(s: State) {
    && (s.decide.SmokeRuns? ==> s.incident.Some? && s.incident.value.smokeLive)
    && (s.incident.Some? && s.incident.value.smokeLive ==>
          Patching(s.incident.value.status) && (s.decide.NoDecision? || s.decide.SmokeRuns?))
  }

  /** Git accepts the patch and the target is the approved base. */
  predicate OnBase(s: State, gitOk: bool) {
    gitOk && Held(s.decide).Some? && s.workspace == s.decide.p.base
  }

  /** The finished run leaves a diagnosis and a proposal. */
  predicate Proposed(s: State, ok: bool) {
    ok && s.incident.Some? && s.incident.value.diagnosed && s.incident.value.proposal.Some?
  }

  /** The receipt of the incident's proposal is there. */
  predicate CanReverse(s: State) {
    && s.incident.Some? && s.incident.value.proposal.Some? && s.incident.value.receipt.Some?
    && s.incident.value.receipt.value.proposal == s.incident.value.proposal.value.id
  }

  function OutcomeOfJob(s: State, a: JobAction): Option<Status> {
    match a
    case CapsuleReady => if s.incident.None? then Some(Diagnosing) else None
    case CallbackLocks => Some(Diagnosing)
    case _ => None
  }

  function OutcomeOfDiagnosis(s: State, a: DiagnosisAction): Option<Status> {
    match a
    case FollowUpClick => Some(Diagnosing)
    case RunEnds(_, ok) =>
      if !HasStatus(s, Diagnosing) then None else if Proposed(s, ok) then Some(AwaitingApproval) else Some(Unresolved)
    case _ => None
  }

  function OutcomeOfApply(s: State, a: ApplyAction): Option<Status> {
    match a
    case RejectClick(_) => Some(Rejected)
    case StaleConfigClick(_) => Some(Stale)
    case ApproveClick(_, _) => Some(Applying)
    case VerifiesBase(gitOk) => if OnBase(s, gitOk) then None else Some(Stale)
    case VerifiesBaseAgain(gitOk) => if OnBase(s, gitOk) then None else Some(Stale)
    case ApplyReturns(receiptOk) =>
      if !s.decide.GitApplied? || !s.decide.ok || !receiptOk then Some(Stale)
      else if s.decide.smoke then None
      else Some(SmokeSkipped)
    case _ => None
  }

  function OutcomeOfSmoke(s: State, a: SmokeAction): Option<Status> {
    match a
    case SmokeBegins => Some(SmokeRunning)
    case SmokeReported =>
      if s.decide.SmokeEnded? && s.decide.passed then Some(SmokePassed)
      else if CanReverse(s) then None
      else Some(RollbackBlocked)
    case VerifiesApplied(gitOk) => if gitOk && StillApplied(s) then None else Some(RollbackBlocked)
    case VerifiesAppliedAgain(gitOk) => if gitOk && StillApplied(s) then None else Some(RollbackBlocked)
    case ReverseReturns(intact, evidence) =>
      if !s.decide.GitReversed? || !s.decide.ok || !OnBase(s, intact) then Some(RollbackBlocked)
      else if evidence then Some(Diagnosing)
      else Some(Unresolved)
    case _ => None
  }

  function OutcomeOfRetry(s: State, a: RetryAction): Option<Status> {
    match a
    case RetryStarts => Some(RetryRunning)
    case RetryLaunches(accepting) => if accepting && !s.monitor.Alive? then None else Some(Unresolved)
    case ObserverActs(k) =>
      if !HasStatus(s, RetryRunning) || k >= |s.observers| || s.observers[k].Watching? then None
      else
        var seen := s.observers[k];
        if seen.status.Succeeded? then Some(Resolved)
        else if seen.status.Cancelled? || seen.status.Interrupted? || (seen.status.Failed? && seen.noReturncode)
        then Some(Unresolved)
        else None
    case _ => None
  }

  function OutcomeOfCrash(s: State, a: CrashAction): Option<Status> {
    match a
    case RecoversIncident(_, killed) =>
      if s.incident.None? || (s.incident.value.smokeLive && !killed) then None
      else
        var status := s.incident.value.status;
        if status.RetryRunning? && s.job.status.Succeeded? then Some(Resolved)
        else if Patching(status) || Checked(status) || status.RetryRunning? then Some(Unresolved)
        else None
    case _ => None
  }

  /** The status an action newly gives the incident, if it gives it one. */
  function Outcome(s: State, a: Action): Option<Status> {
    match a
    case UserEdits(_) => None
    case JobMoves(job) => OutcomeOfJob(s, job)
    case DiagnosisMoves(diagnosis) => OutcomeOfDiagnosis(s, diagnosis)
    case ApplyMoves(apply) => OutcomeOfApply(s, apply)
    case SmokeMoves(smoke) => OutcomeOfSmoke(s, smoke)
    case RetryMoves(retry) => OutcomeOfRetry(s, retry)
    case CrashMoves(crash) => OutcomeOfCrash(s, crash)
  }

  predicate EndsIn(s: State, t: State, outcome: Option<Status>) {
    && SmokeInv(t) && (s.incident.Some? ==> t.incident.Some?)
    && Entered(s, t) == outcome
  }

  lemma CallbackLocksEnds(s: State, t: State)
    requires (s.monitor.WaitsForLock? ==> HasStatus(s, RetryRunning)) && SmokeInv(s) && StepCallbackLocks(s) == Some(t)
    ensures EndsIn(s, t, Some(Diagnosing))
  {
    assert Transition(RetryRunning, RetryFailed) == Some(Diagnosing);
    hide Transition;
  }

  lemma CapsuleEnds(s: State, t: State)
    requires SmokeInv(s) && StepCapsule(s) == Some(t)
    ensures EndsIn(s, t, OutcomeOfJob(s, CapsuleReady))
  {
    if s.incident.None? {
    } else {
      assert t.incident == s.incident && t.decide == s.decide;
    }
  }

  lemma JobStepEnds(s: State, a: JobAction, t: State)
    requires (s.monitor.WaitsForLock? ==> HasStatus(s, RetryRunning)) && SmokeInv(s) && StepJob(s, a) == Some(t)
    ensures EndsIn(s, t, OutcomeOfJob(s, a))
  {
    hide Transition, Ended, StepCallbackLocks, StepCapsule;
    match a
    case CallbackLocks => CallbackLocksEnds(s, t);
    case CapsuleReady => CapsuleEnds(s, t);
    case _ =>
  }

  lemma FollowUpEnds(s: State, t: State)
    requires SmokeInv(s) && StepFollowUp(s) == Some(t)
    ensures EndsIn(s, t, Some(Diagnosing))
  {
  }

  lemma RunEndsEnds(s: State, run: nat, ok: bool, t: State)
    requires SmokeInv(s) && StepRunEnds(s, run, ok) == Some(t)
    ensures EndsIn(s, t, OutcomeOfDiagnosis(s, RunEnds(run, ok)))
  {
    var status := s.incident.value.status;
    if status.Diagnosing? {
      assert Transition(status, InvestigationFailed) == Some(Unresolved);
      assert Transition(status, InvestigationDone) == Some(AwaitingApproval);
      hide Transition, WithoutRun;
    } else {
      assert Transition(status, InvestigationDone).None?;
      hide Transition, WithoutRun;
    }
  }

  lemma DiagnosisStepEnds(s: State, a: DiagnosisAction, t: State)
    requires SmokeInv(s) && StepDiagnosis(s, a) == Some(t)
    ensures EndsIn(s, t, OutcomeOfDiagnosis(s, a))
  {
    hide StepFollowUp, StepRunEnds, Proposed;
    match a
    case FollowUpClick => FollowUpEnds(s, t);
    case RunEnds(run, ok) => RunEndsEnds(s, run, ok, t);
    case _ =>
  }

  lemma RejectEnds(s: State, pid: nat, t: State)
    requires DecideStatus(s) && SmokeInv(s) && StepReject(s, pid) == Some(t)
    ensures EndsIn(s, t, OutcomeOfApply(s, RejectClick(pid)))
  {
  }

  lemma StaleConfigEnds(s: State, pid: nat, t: State)
    requires DecideStatus(s) && SmokeInv(s) && StepStaleConfig(s, pid) == Some(t)
    ensures EndsIn(s, t, OutcomeOfApply(s, StaleConfigClick(pid)))
  {
  }

  lemma ApproveEnds(s: State, pid: nat, smoke: bool, t: State)
    requires DecideStatus(s) && SmokeInv(s) && StepApprove(s, pid, smoke) == Some(t)
    ensures EndsIn(s, t, OutcomeOfApply(s, ApproveClick(pid, smoke)))
  {
  }

  lemma VerifiesBaseEnds(s: State, gitOk: bool, t: State)
    requires DecideStatus(s) && SmokeInv(s) && StepVerifiesBase(s, gitOk) == Some(t)
    ensures EndsIn(s, t, OutcomeOfApply(s, VerifiesBase(gitOk)))
  {
    assert Transition(Applying, ApplyFailed) == Some(Stale);
    hide Transition;
  }

  lemma VerifiesBaseAgainEnds(s: State, gitOk: bool, t: State)
    requires DecideStatus(s) && SmokeInv(s) && StepVerifiesBaseAgain(s, gitOk) == Some(t)
    ensures EndsIn(s, t, OutcomeOfApply(s, VerifiesBaseAgain(gitOk)))
  {
    assert Transition(Applying, ApplyFailed) == Some(Stale);
    hide Transition;
  }

  lemma ApplyReturnsEnds(s: State, receiptOk: bool, t: State)
    requires DecideStatus(s) && SmokeInv(s) && StepApplyReturns(s, receiptOk) == Some(t)
    ensures EndsIn(s, t, OutcomeOfApply(s, ApplyReturns(receiptOk)))
  {
    assert Transition(Applying, ApplyFailed) == Some(Stale);
    assert Transition(Applying, ApplyOkNoSmoke) == Some(SmokeSkipped);
    hide Transition;
  }

  lemma ApplyStepEnds(s: State, a: ApplyAction, t: State)
    requires DecideStatus(s) && SmokeInv(s) && StepApply(s, a) == Some(t)
    ensures EndsIn(s, t, OutcomeOfApply(s, a))
  {
    hide StepReject, StepStaleConfig, StepApprove, StepVerifiesBase, StepVerifiesBaseAgain, StepApplyReturns,
         DecideStatus, OnBase;
    match a
    case RejectClick(pid) => RejectEnds(s, pid, t);
    case StaleConfigClick(pid) => StaleConfigEnds(s, pid, t);
    case ApproveClick(pid, smoke) => ApproveEnds(s, pid, smoke, t);
    case VerifiesBase(gitOk) => VerifiesBaseEnds(s, gitOk, t);
    case VerifiesBaseAgain(gitOk) => VerifiesBaseAgainEnds(s, gitOk, t);
    case ApplyReturns(receiptOk) => ApplyReturnsEnds(s, receiptOk, t);
    case _ =>
  }

  lemma SmokeBeginsEnds(s: State, t: State)
    requires DecideStatus(s) && SmokeInv(s) && StepSmokeBegins(s) == Some(t)
    ensures EndsIn(s, t, OutcomeOfSmoke(s, SmokeBegins))
  {
  }

  lemma SmokeReportedEnds(s: State, t: State)
    requires DecideStatus(s) && SmokeInv(s) && StepSmokeReported(s) == Some(t)
    ensures EndsIn(s, t, OutcomeOfSmoke(s, SmokeReported))
  {
    PatchingAccepts(s.incident.value.status);
    hide Transition;
  }

  lemma VerifiesAppliedEnds(s: State, gitOk: bool, t: State)
    requires DecideStatus(s) && SmokeInv(s) && StepVerifiesApplied(s, gitOk) == Some(t)
    ensures EndsIn(s, t, OutcomeOfSmoke(s, VerifiesApplied(gitOk)))
  {
    PatchingAccepts(s.incident.value.status);
    hide Transition;
  }

  lemma VerifiesAppliedAgainEnds(s: State, gitOk: bool, t: State)
    requires DecideStatus(s) && SmokeInv(s) && StepVerifiesAppliedAgain(s, gitOk) == Some(t)
    ensures EndsIn(s, t, OutcomeOfSmoke(s, VerifiesAppliedAgain(gitOk)))
  {
    PatchingAccepts(s.incident.value.status);
    hide Transition;
  }

  lemma ReverseReturnsEnds(s: State, intact: bool, evidence: bool, t: State)
    requires DecideStatus(s) && SmokeInv(s) && StepReverseReturns(s, intact, evidence) == Some(t)
    ensures EndsIn(s, t, OutcomeOfSmoke(s, ReverseReturns(intact, evidence)))
  {
    PatchingAccepts(s.incident.value.status);
    hide Transition;
  }

  lemma SmokeStepEnds(s: State, a: SmokeAction, t: State)
    requires DecideStatus(s) && SmokeInv(s) && StepSmoke(s, a) == Some(t)
    ensures EndsIn(s, t, OutcomeOfSmoke(s, a))
  {
    hide StepSmokeBegins, StepSmokeReported, StepVerifiesApplied, StepVerifiesAppliedAgain, StepReverseReturns,
         DecideStatus, OnBase, CanReverse, StillApplied;
    match a
    case SmokeBegins => SmokeBeginsEnds(s, t);
    case SmokeReported => SmokeReportedEnds(s, t);
    case VerifiesApplied(gitOk) => VerifiesAppliedEnds(s, gitOk, t);
    case VerifiesAppliedAgain(gitOk) => VerifiesAppliedAgainEnds(s, gitOk, t);
    case ReverseReturns(intact, evidence) => ReverseReturnsEnds(s, intact, evidence, t);
    case _ =>
  }

  lemma RetryStartsEnds(s: State, t: State)
    requires DecideStatus(s) && SmokeInv(s) && StepRetryStarts(s) == Some(t)
    ensures EndsIn(s, t, Some(RetryRunning))
  {
  }

  lemma RetryLaunchesEnds(s: State, accepting: bool, t: State)
    requires DecideStatus(s) && SmokeInv(s) && StepRetryLaunches(s, accepting) == Some(t)
    ensures EndsIn(s, t, OutcomeOfRetry(s, RetryLaunches(accepting)))
  {
  }

  lemma ObserverActsEnds(s: State, k: nat, t: State)
    requires SmokeInv(s) && StepObserverActs(s, k) == Some(t)
    ensures EndsIn(s, t, OutcomeOfRetry(s, ObserverActs(k)))
  {
    assert Transition(RetryRunning, RetryAborted) == Some(Unresolved);
    assert Transition(RetryRunning, RetrySucceeded) == Some(Resolved);
    hide Transition;
    var s1 := s.(observers := s.observers[..k] + s.observers[k + 1..]);
    if HasStatus(s, RetryRunning) {
      assert Fire(s1, RetrySucceeded) == WithStatus(s1, Resolved);
      assert Fire(s1, RetryAborted) == WithStatus(s1, Unresolved);
      hide Fire;
    } else {
      assert t == s1;
    }
  }

  lemma RetryStepEnds(s: State, a: RetryAction, t: State)
    requires DecideStatus(s) && SmokeInv(s) && StepRetry(s, a) == Some(t)
    ensures EndsIn(s, t, OutcomeOfRetry(s, a))
  {
    hide StepRetryStarts, StepRetryLaunches, StepObserverActs, DecideStatus;
    match a
    case RetryStarts => RetryStartsEnds(s, t);
    case RetryLaunches(accepting) => RetryLaunchesEnds(s, accepting, t);
    case ObserverActs(k) => ObserverActsEnds(s, k, t);
    case _ =>
  }

  lemma RecoversEnds(s: State, resume: bool, killed: bool, t: State)
    requires PhaseInv(s) && SmokeInv(s) && StepRecovers(s, resume, killed) == Some(t)
    ensures EndsIn(s, t, OutcomeOfCrash(s, RecoversIncident(resume, killed)))
  {
    if s.incident.Some? && s.incident.value.smokeLive {
    } else if s.incident.Some? {
      match s.incident.value.status
      case Diagnosing =>
      case RetryRunning =>
      case _ =>
    }
  }

  lemma CrashStepEnds(s: State, a: CrashAction, t: State)
    requires DecideStatus(s) && PhaseInv(s) && SmokeInv(s) && StepDown(s, a) == Some(t)
    ensures EndsIn(s, t, OutcomeOfCrash(s, a))
  {
    hide Transition, StepRecovers;
    if a.RecoversIncident? {
      RecoversEnds(s, a.resume, a.killed, t);
    }
  }

  /** Every step, crashes and recovery included, gives the incident exactly the status of the table above. */
  lemma StepEnds(s: State, a: Action, t: State)
    requires Inv(s) && SmokeInv(s) && Step(s, a) == Some(t)
    ensures SmokeInv(t) && (s.incident.Some? ==> t.incident.Some?)
    ensures Entered(s, t) == Outcome(s, a)
  {
    hide StepJob, StepDiagnosis, StepApply, StepSmoke, StepRetry, StepDown, FailureCovered, ObserverInv, IncidentInv,
         OutcomeOfJob, OutcomeOfDiagnosis, OutcomeOfApply, OutcomeOfSmoke, OutcomeOfRetry, OutcomeOfCrash, DecideStatus;
    match a
    case UserEdits(_) =>
    case JobMoves(job) => JobStepEnds(s, job, t);
    case DiagnosisMoves(diagnosis) => DiagnosisStepEnds(s, diagnosis, t);
    case ApplyMoves(apply) => ApplyStepEnds(s, apply, t);
    case SmokeMoves(smoke) => SmokeStepEnds(s, smoke, t);
    case RetryMoves(retry) => RetryStepEnds(s, retry, t);
    case CrashMoves(crash) => CrashStepEnds(s, crash, t);
  }

  lemma {:induction false} StateEnds(s: State, actions: seq<Action>, k: nat)
    requires Inv(s) && SmokeInv(s) && Run(s, actions).Some? && OrderlyRun(s, actions) && k <= |actions|
    ensures Inv(StateAt(s, actions, k)) && SmokeInv(StateAt(s, actions, k))
    decreases k
  {
    hide Inv, SmokeInv, Step, StateAt;
    if k == 0 {
      StateBefore(s, actions);
    } else {
      StateEnds(s, actions, k - 1);
      StateSteps(s, actions, k - 1);
      StateInvariant(s, actions, k);
      StepEnds(StateAt(s, actions, k - 1), actions[k - 1], StateAt(s, actions, k));
    }
  }

  lemma StateBefore(s: State, actions: seq<Action>)
    requires Run(s, actions).Some?
    ensures StateAt(s, actions, 0) == s
  {
  }

  // ----- what is final -----

  /** Nothing is under way for the incident, and what is left of it only runs down. */
  predicate RunsDown(s: State, t: State) {
    multiset(t.live) <= multiset(s.live) && !t.following && !InGit(t.decide)
  }

  lemma {:induction false} WithoutRunShrinks(live: seq<nat>, run: nat)
    ensures multiset(WithoutRun(live, run)) <= multiset(live)
  {
    if live != [] {
      assert live == [live[0]] + live[1..];
      if live[0] != run {
        WithoutRunShrinks(live[1..], run);
      }
    }
  }

  /** Nothing more will be decided or diagnosed. */
  predicate Settled(s: State) {
    && s.incident.Some? && Terminal(s.incident.value.status) && !s.incident.value.smokeLive
    && s.monitor.Gone? && (s.decide.NoDecision? || s.decide.Releasing?) && !s.following && !NeedsReplay(s)
  }

  lemma TerminalSettled(s: State)
    requires Inv(s) && SmokeInv(s) && s.incident.Some? && Terminal(s.incident.value.status)
    ensures Settled(s)
  {
  }

  predicate Keeps(s: State, a: Action, t: State)
    requires s.incident.Some?
  {
    HasStatus(t, s.incident.value.status) && RunsDown(s, t) && t.workspace == Edited(s.workspace, a)
  }

  lemma RunEndsKeepsTerminal(s: State, run: nat, ok: bool, t: State)
    requires Settled(s) && StepRunEnds(s, run, ok) == Some(t)
    ensures Keeps(s, DiagnosisMoves(RunEnds(run, ok)), t)
  {
    TerminalExactly(s.incident.value.status);
    hide Transition, WithoutRun;
    WithoutRunShrinks(s.live, run);
  }

  lemma DiagnosisStepKeepsTerminal(s: State, a: DiagnosisAction, t: State)
    requires Settled(s) && StepDiagnosis(s, a) == Some(t)
    ensures Keeps(s, DiagnosisMoves(a), t)
  {
    assert !Accepts(s.incident.value.status, FollowUp) by {
      TerminalExactly(s.incident.value.status);
    }
    hide Transition, StepRunEnds;
    if a.RunEnds? {
      RunEndsKeepsTerminal(s, a.run, a.ok, t);
    }
  }

  lemma CrashStepKeepsTerminal(s: State, a: CrashAction, t: State)
    requires Settled(s) && StepDown(s, a) == Some(t)
    ensures Keeps(s, CrashMoves(a), t)
  {
    hide StepRecovers;
    if a.RecoversIncident? {
      RecoveryKeepsTerminal(s, a.resume, a.killed, t);
    }
  }

  lemma RecoveryKeepsTerminal(s: State, resume: bool, killed: bool, t: State)
    requires Settled(s) && StepRecovers(s, resume, killed) == Some(t)
    ensures Keeps(s, CrashMoves(RecoversIncident(resume, killed)), t)
  {
  }

  /** A resolved or rejected incident stays so, starts no run and leaves the target to the user. */
  lemma TerminalStays(s: State, a: Action, t: State)
    requires Inv(s) && SmokeInv(s) && Step(s, a) == Some(t)
    requires s.incident.Some? && Terminal(s.incident.value.status)
    ensures HasStatus(t, s.incident.value.status) && RunsDown(s, t) && t.workspace == Edited(s.workspace, a)
  {
    hide Inv, Transition, StepDiagnosis, StepDown;
    TerminalSettled(s);
    match a
    case DiagnosisMoves(diagnosis) => DiagnosisStepKeepsTerminal(s, diagnosis, t);
    case CrashMoves(crash) => CrashStepKeepsTerminal(s, crash, t);
    case _ =>
  }

  /** From a resolved or rejected state on, in every run, crashes and recovery included. */
  lemma {:induction false} TerminalIsFinal(s: State, actions: seq<Action>, k: nat, m: nat)
    requires Inv(s) && SmokeInv(s) && Run(s, actions).Some? && OrderlyRun(s, actions) && k <= m <= |actions|
    requires var before := StateAt(s, actions, k); before.incident.Some? && Terminal(before.incident.value.status)
    ensures
      var before, after := StateAt(s, actions, k), StateAt(s, actions, m);
      && HasStatus(after, before.incident.value.status)
      && multiset(after.live) <= multiset(before.live)
      && !after.following
      && after.workspace == LastEdit(before.workspace, actions[k..], m - k)
    decreases m
  {
    hide Inv, SmokeInv, Step, StateAt, Edited, LastEdit, Terminal;
    if k == m {
      StateEnds(s, actions, k);
      TerminalSettled(StateAt(s, actions, k));
      NothingEdited(StateAt(s, actions, k).workspace, actions[k..]);
    } else {
      var middle := StateAt(s, actions, m - 1);
      TerminalIsFinal(s, actions, k, m - 1);
      StateEnds(s, actions, m - 1);
      StateSteps(s, actions, m - 1);
      TerminalStays(middle, actions[m - 1], StateAt(s, actions, m));
      LastEditStep(StateAt(s, actions, k).workspace, actions[k..], m - 1 - k);
      assert actions[k..][m - 1 - k] == actions[m - 1];
    }
  }

  predicate IsRejection(a: Action) {
    a.ApplyMoves? && a.apply.RejectClick?
  }

  /** The run's k-th action is a rejection, so the incident is rejected after it. */
  lemma RejectionTakes(s: State, actions: seq<Action>, k: nat)
    requires Inv(s) && SmokeInv(s) && Run(s, actions).Some? && OrderlyRun(s, actions) && k < |actions|
    requires IsRejection(actions[k])
    ensures HasStatus(StateAt(s, actions, k + 1), Rejected)
  {
    hide Inv, SmokeInv, Step, StateAt;
    StateEnds(s, actions, k);
    StateSteps(s, actions, k);
    StepEnds(StateAt(s, actions, k), actions[k], StateAt(s, actions, k + 1));
  }

  lemma OnlyRejectionRejects(s: State, a: Action)
    ensures Outcome(s, a) == Some(Rejected) <==> IsRejection(a)
  {
  }

  lemma {:induction false} RejectedByClick(s: State, actions: seq<Action>, k: nat) returns (j: nat)
    requires Inv(s) && SmokeInv(s) && Run(s, actions).Some? && OrderlyRun(s, actions) && k <= |actions|
    requires !HasStatus(s, Rejected) && HasStatus(StateAt(s, actions, k), Rejected)
    ensures j < k && IsRejection(actions[j])
    decreases k
  {
    hide Inv, SmokeInv, Step, StateAt, Outcome, IsRejection;
    StateBefore(s, actions);
    var before := StateAt(s, actions, k - 1);
    StateEnds(s, actions, k - 1);
    StateSteps(s, actions, k - 1);
    StepEnds(before, actions[k - 1], StateAt(s, actions, k));
    if HasStatus(before, Rejected) {
      j := RejectedByClick(s, actions, k - 1);
    } else {
      OnlyRejectionRejects(before, actions[k - 1]);
      j := k - 1;
    }
  }

  lemma RejectionStays(s: State, actions: seq<Action>, j: nat, k: nat)
    requires Inv(s) && SmokeInv(s) && Run(s, actions).Some? && OrderlyRun(s, actions) && j < k <= |actions|
    requires IsRejection(actions[j])
    ensures HasStatus(StateAt(s, actions, k), Rejected)
    ensures
      var before, after := StateAt(s, actions, j + 1), StateAt(s, actions, k);
      && multiset(after.live) <= multiset(before.live) && !after.following
      && after.workspace == LastEdit(before.workspace, actions[j + 1..], k - (j + 1))
  {
    hide Inv, SmokeInv, Step, StateAt, LastEdit, IsRejection;
    RejectionTakes(s, actions, j);
    TerminalIsFinal(s, actions, j + 1, k);
  }

  /**
   Rejections, in every run, crashes and recovery included: only one leads to a rejected incident, and
   from then on the incident is rejected, no diagnosis run starts, no follow-up is pending and only
   users write the target.
   */
  lemma RejectionIsFinal(workspace: Content, actions: seq<Action>, k: nat)
    requires OrderlyRun(Init(workspace), actions) && Run(Init(workspace), actions).Some? && k <= |actions|
    ensures
      HasStatus(StateAt(Init(workspace), actions, k), Rejected) <==> exists j :: 0 <= j < k && IsRejection(actions[j])
    ensures
      forall j :: 0 <= j < k && IsRejection(actions[j]) ==>
        var before, after := StateAt(Init(workspace), actions, j + 1), StateAt(Init(workspace), actions, k);
        && multiset(after.live) <= multiset(before.live) && !after.following
        && after.workspace == LastEdit(before.workspace, actions[j + 1..], k - (j + 1))
  {
    hide Inv, SmokeInv, Step, StateAt, LastEdit, IsRejection, OrderlyRun, Run;
    var s := Init(workspace);
    InitEnds(workspace);
    if HasStatus(StateAt(s, actions, k), Rejected) {
      var j := RejectedByClick(s, actions, k);
    }
    forall j | 0 <= j < k && IsRejection(actions[j]) {
      RejectionStays(s, actions, j, k);
    }
  }

  lemma InitEnds(workspace: Content)
    ensures Inv(Init(workspace)) && SmokeInv(Init(workspace)) && Init(workspace).incident.None?
  {
  }

  // ----- what becomes of a proposal -----

  /** A proposal that awaits approval is approved, rejected, made stale or followed up, or still awaits it. */
  lemma AwaitingEnds(s: State, a: Action, t: State)
    requires Inv(s) && SmokeInv(s) && Step(s, a) == Some(t) && HasStatus(s, AwaitingApproval)
    ensures HasStatus(t, Applying) <==> IsApproval(a)
    ensures IsApproval(a) ==>
      s.incident.value.proposal.Some? && t.decide == Approved(s.incident.value.proposal.value, a.apply.smoke)
    ensures HasStatus(t, Rejected) <==> IsRejection(a)
    ensures HasStatus(t, Stale) <==> a.ApplyMoves? && a.apply.StaleConfigClick?
    ensures HasStatus(t, Diagnosing) <==> a == DiagnosisMoves(FollowUpClick)
    ensures
      || HasStatus(t, Applying) || HasStatus(t, Rejected) || HasStatus(t, Stale) || HasStatus(t, Diagnosing)
      || HasStatus(t, AwaitingApproval)
  {
    AwaitingOutcome(s, a, t);
    if IsApproval(a) {
      ApprovalAsks(s, a.apply.pid, a.apply.smoke, t);
    }
    hide Inv, SmokeInv, Step, Outcome;
    StepEnds(s, a, t);
  }

  lemma ApprovalAsks(s: State, pid: nat, smoke: bool, t: State)
    requires StepApprove(s, pid, smoke) == Some(t)
    ensures s.incident.value.proposal.Some? && t.decide == Approved(s.incident.value.proposal.value, smoke)
  {
  }

  lemma AwaitingOutcome(s: State, a: Action, t: State)
    requires Inv(s) && Step(s, a) == Some(t) && HasStatus(s, AwaitingApproval)
    ensures Outcome(s, a) ==
      match a
      case ApplyMoves(ApproveClick(_, _)) => Some(Applying)
      case ApplyMoves(RejectClick(_)) => Some(Rejected)
      case ApplyMoves(StaleConfigClick(_)) => Some(Stale)
      case DiagnosisMoves(FollowUpClick) => Some(Diagnosing)
      case _ => None
  {
    hide Transition;
  }

  /** Every diagnosis starts without the artifacts of an earlier one. */
  lemma DiagnosisStartsAfresh(s: State, a: Action, t: State)
    requires Inv(s) && SmokeInv(s) && Step(s, a) == Some(t) && Entered(s, t) == Some(Diagnosing)
    ensures !t.incident.value.diagnosed && t.incident.value.proposal.None? && t.incident.value.active.None?
  {
    StepEnds(s, a, t);
    hide Inv, SmokeInv, Transition;
  }

  predicate Proposes(s: State, a: Action, p: Proposal) {
    && a.DiagnosisMoves? && a.diagnosis.RunProposes? && a.diagnosis.run in s.live
    && s.incident.Some? && s.incident.value.diagnosed && p == Proposal(s.nextId, s.workspace)
  }

  function ProposalOf(s: State): Option<Proposal> {
    if s.incident.Some? then s.incident.value.proposal else None
  }

  lemma JobStepProposesNothing(s: State, a: JobAction, t: State)
    requires StepJob(s, a) == Some(t)
    ensures ProposalOf(t).None? || ProposalOf(t) == ProposalOf(s)
  {
    hide Transition;
  }

  /** A step of a decision: the daemon, the job, the runs and the attempt stay, and nothing new is proposed. */
  predicate DecidesOnly(s: State, t: State) {
    && t.phase == s.phase && t.monitor == s.monitor && t.job == s.job && t.live == s.live && t.following == s.following
    && s.incident.Some? == t.incident.Some?
    && (s.incident.Some? ==> t.incident.value.attempt == s.incident.value.attempt)
    && (ProposalOf(t).None? || ProposalOf(t) == ProposalOf(s))
    && (s.decide.RolledBack? ==> t.decide.RolledBack?)
  }

  lemma DispatchDecides(s: State, event: Event, next: Decide)
    requires s.incident.Some? && !s.decide.RolledBack?
    ensures DecidesOnly(s, Dispatch(s, event, next))
  {
    hide Transition;
    match Transition(s.incident.value.status, event) {
      case Some(status) => assert Dispatch(s, event, next) == WithStatus(s, status).(decide := next);
      case None => assert Dispatch(s, event, next) == s.(illegal := true, decide := NoDecision);
    }
  }

  lemma ApplyReturnsDecides(s: State, receiptOk: bool, t: State)
    requires StepApplyReturns(s, receiptOk) == Some(t)
    ensures DecidesOnly(s, t)
  {
    hide Dispatch;
    DispatchDecides(s, ApplyFailed, Releasing);
    if s.decide.ok && receiptOk && !s.decide.smoke {
      var p := s.decide.p;
      DispatchDecides(s.(incident := Some(s.incident.value.(receipt := Some(Receipt(p.id, s.workspace))))),
                      ApplyOkNoSmoke, Cleared(p));
    }
  }

  lemma ApplyStepDecidesOnly(s: State, a: ApplyAction, t: State)
    requires StepApply(s, a) == Some(t)
    ensures DecidesOnly(s, t)
  {
    hide Dispatch, StepApplyReturns;
    match a
    case RejectClick(_) => DispatchDecides(s, Reject, Releasing);
    case StaleConfigClick(_) => DispatchDecides(s, ApproveInvalidated, Releasing);
    case ApproveClick(_, smoke) =>
      DispatchDecides(s.(approvals := s.approvals + 1), Approve, Approved(s.incident.value.proposal.value, smoke));
    case VerifiesBase(_) => DispatchDecides(s, ApplyFailed, Releasing);
    case VerifiesBaseAgain(_) => DispatchDecides(s, ApplyFailed, Releasing);
    case ApplyReturns(receiptOk) => ApplyReturnsDecides(s, receiptOk, t);
    case _ =>
  }

  lemma SmokeReportedDecides(s: State, t: State)
    requires StepSmokeReported(s) == Some(t)
    ensures DecidesOnly(s, t)
  {
    hide Dispatch;
    DispatchDecides(s, SmokePass, Cleared(s.decide.p));
    DispatchDecides(s, SmokeFailedBlocked, Releasing);
  }

  lemma ReverseReturnsDecides(s: State, intact: bool, evidence: bool, t: State)
    requires StepReverseReturns(s, intact, evidence) == Some(t)
    ensures DecidesOnly(s, t)
  {
    hide Transition;
  }

  lemma SmokeStepDecidesOnly(s: State, a: SmokeAction, t: State)
    requires StepSmoke(s, a) == Some(t) && !a.RolledBackResumes?
    ensures DecidesOnly(s, t)
  {
    hide Transition, StepSmokeReported, StepReverseReturns, StillApplied;
    match a
    case SmokeReported => SmokeReportedDecides(s, t);
    case ReverseReturns(intact, evidence) => ReverseReturnsDecides(s, intact, evidence, t);
    case _ =>
  }

  lemma RetryStepDecidesOnly(s: State, a: RetryAction, t: State)
    requires StepRetry(s, a) == Some(t) && !a.RetryLaunches?
    ensures DecidesOnly(s, t)
  {
    hide Dispatch, StepObserverActs;
    match a
    case RetryStarts => DispatchDecides(s, RetryStart, RetryDue(s.decide.p));
    case ObserverActs(k) => ObserverActsEffect(s, k, t);
    case _ =>
  }

  lemma SmokeStepProposesNothing(s: State, a: SmokeAction, t: State)
    requires StepSmoke(s, a) == Some(t)
    ensures ProposalOf(t).None? || ProposalOf(t) == ProposalOf(s)
  {
    if a.RolledBackResumes? {
      assert t == StartRun(s).(decide := NoDecision);
    } else {
      hide StepSmoke;
      SmokeStepDecidesOnly(s, a, t);
    }
  }

  lemma RetryStepProposesNothing(s: State, a: RetryAction, t: State)
    requires StepRetry(s, a) == Some(t)
    ensures ProposalOf(t).None? || ProposalOf(t) == ProposalOf(s)
  {
    if a.RetryLaunches? {
      assert t.incident == s.incident || t == Dispatch(s, RetryAborted, Releasing);
    } else {
      hide StepRetry;
      RetryStepDecidesOnly(s, a, t);
    }
  }

  lemma DiagnosisStepProposes(s: State, a: DiagnosisAction, t: State)
    requires StepDiagnosis(s, a) == Some(t) && ProposalOf(t).Some? && ProposalOf(t) != ProposalOf(s)
    ensures Proposes(s, DiagnosisMoves(a), ProposalOf(t).value)
  {
    hide Transition, WithoutRun;
  }

  /** Without a crash only a live run that has diagnosed proposes, and it records the target as it stands. */
  lemma NewProposal(s: State, a: Action, t: State)
    requires Step(s, a) == Some(t) && !a.CrashMoves? && ProposalOf(t).Some? && ProposalOf(t) != ProposalOf(s)
    ensures Proposes(s, a, ProposalOf(t).value)
  {
    hide StepJob, StepDiagnosis, StepApply, StepSmoke, StepRetry, Proposes;
    match a
    case UserEdits(_) =>
    case JobMoves(job) => JobStepProposesNothing(s, job, t);
    case DiagnosisMoves(diagnosis) => DiagnosisStepProposes(s, diagnosis, t);
    case ApplyMoves(apply) => ApplyStepDecidesOnly(s, apply, t);
    case SmokeMoves(smoke) => SmokeStepProposesNothing(s, smoke, t);
    case RetryMoves(retry) => RetryStepProposesNothing(s, retry, t);
  }

  lemma WithdrawalClears(s: State, a: Action, t: State)
    requires Step(s, a) == Some(t) && a.DiagnosisMoves? && a.diagnosis.RunWithdraws?
    ensures ProposalOf(t).None?
  {
  }

  /** The proposal at the k-th state goes back to the run that proposed it. */
  lemma {:induction false} ProposalGoesBack(s: State, actions: seq<Action>, k: nat) returns (j: nat)
    requires Run(s, actions).Some? && CrashFree(actions) && k <= |actions|
    requires ProposalOf(s).None? && ProposalOf(StateAt(s, actions, k)).Some?
    ensures j < k && Proposes(StateAt(s, actions, j), actions[j], ProposalOf(StateAt(s, actions, k)).value)
    ensures forall i :: j < i <= k ==> ProposalOf(StateAt(s, actions, i)) == ProposalOf(StateAt(s, actions, k))
    decreases k
  {
    hide Step, StateAt, Proposes, ProposalOf;
    StateBefore(s, actions);
    var before, after := StateAt(s, actions, k - 1), StateAt(s, actions, k);
    StateSteps(s, actions, k - 1);
    if ProposalOf(after) == ProposalOf(before) {
      j := ProposalGoesBack(s, actions, k - 1);
    } else {
      NewProposal(before, actions[k - 1], after);
      j := k - 1;
    }
  }

  /**
   In a run without a crash, whatever is approved was proposed by a live run of the same diagnosis, which
   had diagnosed, on top of the content the target then had, and was not withdrawn.
   */
  lemma ApprovedProposalIsFresh(workspace: Content, actions: seq<Action>, k: nat, p: Proposal) returns (j: nat)
    requires OrderlyRun(Init(workspace), actions) && Run(Init(workspace), actions).Some? && CrashFree(actions)
    requires k < |actions| && Approves(StateAt(Init(workspace), actions, k), actions[k], p)
    ensures j < k && Proposes(StateAt(Init(workspace), actions, j), actions[j], p)
    ensures p.base == StateAt(Init(workspace), actions, j).workspace
    ensures
      forall i :: j < i < k ==>
        Entered(StateAt(Init(workspace), actions, i), StateAt(Init(workspace), actions, i + 1)) != Some(Diagnosing)
    ensures forall i :: j < i < k ==> !(actions[i].DiagnosisMoves? && actions[i].diagnosis.RunWithdraws?)
  {
    hide Inv, SmokeInv, Step, StateAt;
    var s := Init(workspace);
    InitEnds(workspace);
    j := ProposalGoesBack(s, actions, k);
    forall i | j < i < k
      ensures Entered(StateAt(s, actions, i), StateAt(s, actions, i + 1)) != Some(Diagnosing)
    {
      var before, after := StateAt(s, actions, i), StateAt(s, actions, i + 1);
      StateEnds(s, actions, i);
      StateSteps(s, actions, i);
      assert ProposalOf(after).Some?;
      if Entered(before, after) == Some(Diagnosing) {
        DiagnosisStartsAfresh(before, actions[i], after);
      }
    }
    forall i | j < i < k
      ensures !(actions[i].DiagnosisMoves? && actions[i].diagnosis.RunWithdraws?)
    {
      StateSteps(s, actions, i);
      if actions[i].DiagnosisMoves? && actions[i].diagnosis.RunWithdraws? {
        WithdrawalClears(StateAt(s, actions, i), actions[i], StateAt(s, actions, i + 1));
      }
    }
  }

  // ----- how an attempt ends -----

  /** The end of an attempt, and that only an exit that failed by itself calls the failure callback. */
  lemma JobEndsExactly(s: State, rc: int, fault: bool, t: State)
    requires Inv(s) && StepJobEnds(s, rc, fault) == Some(t)
    ensures t.job.returncode == Some(rc) && t.job.attempt == s.job.attempt
    ensures t == s.(job := t.job, monitor := t.monitor)
    ensures t.job.status.Cancelled? <==> s.monitor == Alive(true)
    ensures t.job.status.Succeeded? <==> s.monitor == Alive(false) && !fault && rc == 0
    ensures t.job.status.Failed? <==> s.monitor == Alive(false) && (fault || rc != 0)
    ensures t.job.failure ==
      if !t.job.status.Failed? then None else Some(if fault then SupervisorError else ProcessExit)
    ensures t.monitor == if t.job.failure == Some(ProcessExit) then Capsule else Gone
  {
  }

  // ----- what is never forgotten -----

  /** While the daemon is up, an incident under diagnosis has a live run or a coroutine about to start one. */
  predicate DiagnosisCovered(s: State) {
    s.phase.Up? && HasStatus(s, Diagnosing) ==> |s.live| > 0 || StartPending(s)
  }

  /** An exit that failed is the incident's, once no monitor or callback is on its way with it. */
  predicate FailureTaken(s: State) {
    && Serving(s) && (s.monitor.Gone? || s.monitor.Opened? || s.monitor.Reopened?)
    && s.job.status.Failed? && s.job.failure == Some(ProcessExit) ==>
      s.incident.Some? && s.incident.value.attempt == s.job.attempt
  }

  /** A failed job has its failure on record. */
  predicate FailureRecorded(s: State) {
    s.job.status.Failed? ==> s.job.failure.Some?
  }

  predicate Remembers(s: State) {
    DiagnosisCovered(s) && FailureTaken(s) && FailureRecorded(s)
  }

  lemma CallbackLocksRemembers(s: State, t: State)
    requires Remembers(s) && StepCallbackLocks(s) == Some(t)
    ensures Remembers(t)
  {
    hide Transition;
  }

  lemma JobStepRemembers(s: State, a: JobAction, t: State)
    requires Remembers(s) && StepJob(s, a) == Some(t) && !t.second
    ensures Remembers(t)
  {
    hide Transition, StepCallbackLocks;
    if a.CallbackLocks? {
      CallbackLocksRemembers(s, t);
    }
  }

  lemma RunEndsRemembers(s: State, run: nat, ok: bool, t: State)
    requires Remembers(s) && StepRunEnds(s, run, ok) == Some(t) && EndsIn(s, t, OutcomeOfDiagnosis(s, RunEnds(run, ok)))
    ensures Remembers(t)
  {
    hide StepRunEnds, Proposed;
    RunEndsEffect(s, run, ok, t);
  }

  lemma FollowUpRemembers(s: State, t: State)
    requires Remembers(s) && StepFollowUp(s) == Some(t)
    ensures Remembers(t)
  {
    hide Transition;
  }

  lemma DiagnosisStepRemembers(s: State, a: DiagnosisAction, t: State)
    requires Remembers(s) && StepDiagnosis(s, a) == Some(t) && EndsIn(s, t, OutcomeOfDiagnosis(s, a))
    ensures Remembers(t)
  {
    hide StepRunEnds, StepFollowUp, Proposed, OutcomeOfDiagnosis;
    match a
    case RunEnds(run, ok) => RunEndsRemembers(s, run, ok, t);
    case FollowUpClick => FollowUpRemembers(s, t);
    case _ =>
  }

  /** A step of a decision forgets nothing: where it leads to diagnosis, a run is about to start. */
  lemma DecisionRemembers(s: State, t: State)
    requires Remembers(s) && DecidesOnly(s, t)
    requires Entered(s, t) == Some(Diagnosing) ==> t.decide.RolledBack?
    ensures Remembers(t)
  {
  }

  lemma ApplyStepRemembers(s: State, a: ApplyAction, t: State)
    requires Remembers(s) && StepApply(s, a) == Some(t) && EndsIn(s, t, OutcomeOfApply(s, a))
    ensures Remembers(t)
  {
    hide Remembers, StepApply, DecidesOnly;
    ApplyStepDecidesOnly(s, a, t);
    DecisionRemembers(s, t);
  }

  lemma ReverseReturnsReopens(s: State, intact: bool, evidence: bool, t: State)
    requires StepReverseReturns(s, intact, evidence) == Some(t) && Entered(s, t) == Some(Diagnosing)
    requires Transition(s.incident.value.status, SmokeFailedBlocked) != Some(Diagnosing)
    requires Transition(s.incident.value.status, SmokeFailedNoEvidence) != Some(Diagnosing)
    ensures t.decide.RolledBack?
  {
    hide Transition;
  }

  lemma SmokeStepRemembers(s: State, a: SmokeAction, t: State)
    requires Remembers(s) && StepSmoke(s, a) == Some(t) && EndsIn(s, t, OutcomeOfSmoke(s, a))
    ensures Remembers(t)
  {
    if a.RolledBackResumes? {
      assert t == StartRun(s).(decide := NoDecision);
    } else {
      if a.ReverseReturns? && Entered(s, t) == Some(Diagnosing) {
        ReverseReturnsReopens(s, a.intact, a.evidence, t);
      }
      hide Remembers, StepSmoke, DecidesOnly, StillApplied, CanReverse, OnBase;
      SmokeStepDecidesOnly(s, a, t);
      DecisionRemembers(s, t);
    }
  }

  lemma RetryLaunchesRemembers(s: State, accepting: bool, t: State)
    requires Remembers(s) && HasStatus(s, RetryRunning) && StepRetryLaunches(s, accepting) == Some(t)
    ensures Remembers(t)
  {
    assert Transition(RetryRunning, RetryAborted) == Some(Unresolved);
    hide Transition;
  }

  lemma RetryStepRemembers(s: State, a: RetryAction, t: State)
    requires Remembers(s) && DecideStatus(s) && StepRetry(s, a) == Some(t) && EndsIn(s, t, OutcomeOfRetry(s, a))
    ensures Remembers(t)
  {
    if a.RetryLaunches? {
      assert HasStatus(s, RetryRunning);
      hide Remembers, StepRetryLaunches;
      RetryLaunchesRemembers(s, a.accepting, t);
    } else {
      hide Remembers, StepRetry, DecidesOnly;
      RetryStepDecidesOnly(s, a, t);
      DecisionRemembers(s, t);
    }
  }

  lemma RecoveryStartsRun(s: State, resume: bool, killed: bool, t: State)
    requires SmokeInv(s) && HasStatus(s, Diagnosing) && StepRecovers(s, resume, killed) == Some(t)
    ensures |t.live| > 0
  {
  }

  lemma RecoversRemembers(s: State, resume: bool, killed: bool, t: State)
    requires Remembers(s) && SmokeInv(s) && StepRecovers(s, resume, killed) == Some(t)
    ensures Remembers(t)
  {
    hide StepRecovers, SmokeInv;
    RecoversEffect(s, resume, killed, t);
    if HasStatus(s, Diagnosing) {
      RecoveryStartsRun(s, resume, killed, t);
    }
  }

  lemma CrashStepRemembers(s: State, a: CrashAction, t: State)
    requires Remembers(s) && SmokeInv(s) && StepDown(s, a) == Some(t)
    ensures Remembers(t)
  {
    hide StepRecovers;
    if a.RecoversIncident? {
      hide Remembers, SmokeInv;
      RecoversRemembers(s, a.resume, a.killed, t);
    }
  }

  lemma EditRemembers(s: State, content: Content)
    requires Remembers(s)
    ensures Remembers(s.(workspace := content))
  {
  }

  lemma StepRemembers(s: State, a: Action, t: State)
    requires Inv(s) && SmokeInv(s) && Remembers(s) && Orderly(s, a) && Step(s, a) == Some(t)
    ensures Remembers(t)
  {
    assert DecideStatus(s);
    StepKeepsInv(s, a);
    assert !t.second;
    hide Inv, DecideStatus, SmokeInv, Remembers, StepJob, StepDiagnosis, StepApply, StepSmoke, StepRetry, StepDown,
         OutcomeOfJob, OutcomeOfDiagnosis, OutcomeOfApply, OutcomeOfSmoke, OutcomeOfRetry, OutcomeOfCrash;
    StepEnds(s, a, t);
    match a
    case UserEdits(content) => EditRemembers(s, content);
    case JobMoves(job) => JobStepRemembers(s, job, t);
    case DiagnosisMoves(diagnosis) => DiagnosisStepRemembers(s, diagnosis, t);
    case ApplyMoves(apply) => ApplyStepRemembers(s, apply, t);
    case SmokeMoves(smoke) => SmokeStepRemembers(s, smoke, t);
    case RetryMoves(retry) => RetryStepRemembers(s, retry, t);
    case CrashMoves(crash) => CrashStepRemembers(s, crash, t);
  }

  lemma {:induction false} RunRemembers(s: State, actions: seq<Action>)
    requires Inv(s) && SmokeInv(s) && Remembers(s) && OrderlyRun(s, actions) && Run(s, actions).Some?
    ensures Remembers(Run(s, actions).value)
    decreases |actions|
  {
    hide Inv, SmokeInv, Remembers, Orderly, Step;
    if actions != [] {
      var next := Step(s, actions[0]).value;
      StepKeepsInv(s, actions[0]);
      StepEnds(s, actions[0], next);
      StepRemembers(s, actions[0], next);
      RunRemembers(next, actions[1..]);
    }
  }

  /**
   Nothing is forgotten in any run, crashes and recovery included: while the daemon is up an incident under
   diagnosis has a live run or one about to start, a failed job has its failure on record, and once no
   callback is on its way with it, the last attempt's failed exit is the one the incident is about.
   */
  lemma NothingIsForgotten(workspace: Content, actions: seq<Action>, t: State)
    requires OrderlyRun(Init(workspace), actions) && Run(Init(workspace), actions) == Some(t)
    ensures t.phase.Up? && HasStatus(t, Diagnosing) ==> |t.live| > 0 || StartPending(t)
    ensures
      Serving(t) && t.monitor.Gone? && t.job.status.Failed? && t.job.failure == Some(ProcessExit) ==>
        t.incident.Some? && t.incident.value.attempt == t.job.attempt
    ensures t.job.status.Failed? ==> t.job.failure.Some?
  {
    hide Inv, SmokeInv, Step, StateAt;
    InitEnds(workspace);
    RunRemembers(Init(workspace), actions);
  }

  /**
   What recovery does to an incident's records besides its status: a quarantined change is no longer active,
   a killed smoke check no longer recorded, and everything else stays.
   */
  lemma RecoveryKeepsRecords(s: State, resume: bool, killed: bool, t: State)
    requires StepRecovers(s, resume, killed) == Some(t) && s.incident.Some? && t.incident.Some?
    ensures
      var i, j := s.incident.value, t.incident.value;
      && j.diagnosed == i.diagnosed && j.proposal == i.proposal && j.receipt == i.receipt && j.attempt == i.attempt
      && j.smokeLive == (i.smokeLive && !killed)
      && (j.active != i.active ==> j.active.None? && j.status.Unresolved?)
      && (!i.smokeLive && (Patching(i.status) || Checked(i.status)) ==> j.active.None?)
      && (j.run != i.run ==> i.status.Diagnosing?)
  {
    match s.incident.value.status
    case Diagnosing =>
    case RetryRunning =>
    case _ =>
  }

  // ----- the smoke check that was asked for -----

  /** Whether the decision still has to run a smoke check, up to the receipt. */
  function Asks(d: Decide): Option<bool> {
    match d
    case Approved(_, smoke) => Some(smoke)
    case GitChecks(_, smoke) => Some(smoke)
    case GitApplies(_, smoke) => Some(smoke)
    case GitApplied(_, smoke, _) => Some(smoke)
    case _ => None
  }

  predicate KeepsAsking(s: State, a: Action, t: State) {
    Asks(t.decide).Some? ==>
      Asks(t.decide) == Asks(s.decide) || (IsApproval(a) && Asks(t.decide) == Some(a.apply.smoke))
  }

  lemma ApplyReturnsAsksNothing(s: State, receiptOk: bool, t: State)
    requires StepApplyReturns(s, receiptOk) == Some(t)
    ensures Asks(t.decide).None? && (t.decide.SmokeStarts? ==> s.decide.GitApplied? && s.decide.smoke)
    ensures s.decide.GitApplied? && (Entered(s, t) == Some(SmokeSkipped) ==> !s.decide.smoke)
  {
  }

  lemma ApplyStepAsks(s: State, a: ApplyAction, t: State)
    requires StepApply(s, a) == Some(t)
    ensures KeepsAsking(s, ApplyMoves(a), t)
  {
    hide Transition, StepApplyReturns, Entered;
    if a.ApplyReturns? {
      ApplyReturnsAsksNothing(s, a.receiptOk, t);
    }
  }

  lemma JobStepAsks(s: State, a: JobAction, t: State)
    requires StepJob(s, a) == Some(t)
    ensures Asks(t.decide).None? || t.decide == s.decide
  {
    hide Transition;
  }

  lemma DiagnosisStepAsks(s: State, a: DiagnosisAction, t: State)
    requires StepDiagnosis(s, a) == Some(t)
    ensures Asks(t.decide).None? || t.decide == s.decide
  {
    hide Transition, WithoutRun, StepRunEnds;
    if a.RunEnds? {
      RunEndsEffect(s, a.run, a.ok, t);
    }
  }

  lemma SmokeStepAsks(s: State, a: SmokeAction, t: State)
    requires StepSmoke(s, a) == Some(t)
    ensures Asks(t.decide).None? || t.decide == s.decide
  {
    hide Transition, StillApplied, StepSmokeReported, StepReverseReturns;
    match a
    case SmokeReported => SmokeReportedAsks(s, t);
    case ReverseReturns(intact, evidence) => ReverseReturnsAsks(s, intact, evidence, t);
    case _ =>
  }

  lemma SmokeReportedAsks(s: State, t: State)
    requires StepSmokeReported(s) == Some(t)
    ensures Asks(t.decide).None?
  {
    hide Transition;
  }

  lemma ReverseReturnsAsks(s: State, intact: bool, evidence: bool, t: State)
    requires StepReverseReturns(s, intact, evidence) == Some(t)
    ensures Asks(t.decide).None?
  {
    hide Transition;
  }

  lemma RetryStepAsks(s: State, a: RetryAction, t: State)
    requires StepRetry(s, a) == Some(t)
    ensures Asks(t.decide).None? || t.decide == s.decide
  {
    hide Transition;
  }

  lemma CrashStepAsks(s: State, a: CrashAction, t: State)
    requires StepDown(s, a) == Some(t)
    ensures Asks(t.decide).None? || t.decide == s.decide
  {
    hide Transition, StepRecovers;
    if a.RecoversIncident? {
      RecoversEffect(s, a.resume, a.killed, t);
    }
  }

  /** Only an approval asks for a smoke check or none, and no step changes that. */
  lemma StepAsks(s: State, a: Action, t: State)
    requires Step(s, a) == Some(t)
    ensures KeepsAsking(s, a, t)
  {
    hide StepJob, StepDiagnosis, StepApply, StepSmoke, StepRetry, StepDown, Asks;
    AsksByDecide(s, t);
    match a
    case UserEdits(_) =>
    case JobMoves(job) => JobStepAsks(s, job, t);
    case DiagnosisMoves(diagnosis) => DiagnosisStepAsks(s, diagnosis, t);
    case ApplyMoves(apply) => ApplyStepAsks(s, apply, t);
    case SmokeMoves(smoke) => SmokeStepAsks(s, smoke, t);
    case RetryMoves(retry) => RetryStepAsks(s, retry, t);
    case CrashMoves(crash) => CrashStepAsks(s, crash, t);
  }

  lemma AsksByDecide(s: State, t: State)
    ensures s.decide == t.decide ==> Asks(s.decide) == Asks(t.decide)
  {
  }

  /** What a decision still asks for goes back to its approval. */
  lemma {:induction false} AskedByApproval(s: State, actions: seq<Action>, k: nat) returns (j: nat)
    requires Run(s, actions).Some? && k <= |actions| && Asks(s.decide).None?
    requires Asks(StateAt(s, actions, k).decide).Some?
    ensures j < k && IsApproval(actions[j])
    ensures forall i :: j < i <= k ==> Asks(StateAt(s, actions, i).decide) == Some(actions[j].apply.smoke)
    decreases k
  {
    hide Step, StateAt, Asks;
    StateBefore(s, actions);
    var before := StateAt(s, actions, k - 1);
    StateSteps(s, actions, k - 1);
    StepAsks(before, actions[k - 1], StateAt(s, actions, k));
    if Asks(before.decide) == Asks(StateAt(s, actions, k).decide) {
      j := AskedByApproval(s, actions, k - 1);
    } else {
      j := k - 1;
    }
  }

  /**
   In every run, crashes included, an applied change goes on to its smoke check or skips it just as its
   approval has asked.
   */
  lemma SmokeAsAsked(workspace: Content, actions: seq<Action>, k: nat) returns (j: nat)
    requires Run(Init(workspace), actions).Some? && k < |actions|
    requires actions[k].ApplyMoves? && actions[k].apply.ApplyReturns?
    ensures j < k && IsApproval(actions[j])
    ensures
      var before, after := StateAt(Init(workspace), actions, k), StateAt(Init(workspace), actions, k + 1);
      && (after.decide.SmokeStarts? ==> actions[j].apply.smoke)
      && (Entered(before, after) == Some(SmokeSkipped) ==> !actions[j].apply.smoke)
    ensures forall i :: j < i <= k ==> Held(StateAt(Init(workspace), actions, i).decide).Some?
  {
    hide Step, StateAt, Entered;
    var s := Init(workspace);
    var before, after := StateAt(s, actions, k), StateAt(s, actions, k + 1);
    StateSteps(s, actions, k);
    AppliedAsks(before, actions[k], after);
    j := AskedByApproval(s, actions, k);
  }

  lemma AppliedAsks(s: State, a: Action, t: State)
    requires Step(s, a) == Some(t) && a.ApplyMoves? && a.apply.ApplyReturns?
    ensures Asks(s.decide).Some?
    ensures t.decide.SmokeStarts? ==> Asks(s.decide) == Some(true)
    ensures Entered(s, t) == Some(SmokeSkipped) ==> Asks(s.decide) == Some(false)
  {
    hide StepApplyReturns, Entered;
    ApplyReturnsAsksNothing(s, a.apply.receiptOk, t);
  }
}
