/** When the daemon writes the patched file, what a rollback restores and what it never overwrites. */
module IncidentWorkspace {
  import opened Common
  import opened Fsm
  import opened IncidentProtocol
  import opened IncidentSafety
  import opened IncidentOrder

  /** The state of a run before its k-th action. */
  function StateAt(s: State, actions: seq<Action>, k: nat): State
    requires Run(s, actions).Some? && k <= |actions|
    decreases |actions|
  {
    if k == 0 then s else StateAt(Step(s, actions[0]).value, actions[1..], k - 1)
  }

  lemma {:induction false} StateSteps(s: State, actions: seq<Action>, k: nat)
    requires Run(s, actions).Some? && k < |actions|
    ensures Step(StateAt(s, actions, k), actions[k]) == Some(StateAt(s, actions, k + 1))
    decreases |actions|
  {
    hide Step;
    var next := Step(s, actions[0]).value;
    if k == 0 {
      assert StateAt(next, actions[1..], 0) == next;
    } else {
      StateSteps(next, actions[1..], k - 1);
      assert actions[1..][k - 1] == actions[k];
    }
  }

  lemma {:induction false} StateInvariant(s: State, actions: seq<Action>, k: nat)
    requires Inv(s) && Run(s, actions).Some? && OrderlyRun(s, actions) && k <= |actions|
    ensures Inv(StateAt(s, actions, k))
    ensures Ordered(s) && Matched(s) && CrashFree(actions) ==> Matched(StateAt(s, actions, k))
    decreases |actions|
  {
    hide Inv, Ordered, Matched, Orderly, Step, FindsLiveRun;
    if k > 0 {
      StepKeepsInv(s, actions[0]);
      if Ordered(s) && CrashFree(actions) {
        assert !FindsLiveRun(s, actions[0]) by {
          CrashFreeStartsOnce(s, actions);
        }
        StepKeepsOrdered(s, actions[0]);
      }
      StateInvariant(Step(s, actions[0]).value, actions[1..], k - 1);
    }
  }

  // ----- writes -----

  predicate CyanWrites(s: State, a: Action, t: State) {
    !a.UserEdits? && t.workspace != s.workspace
  }

  /** The approval of proposal `p`, which is the incident's active one. */
  predicate Approves(s: State, a: Action, p: Proposal) {
    && IsApproval(a) && HasStatus(s, AwaitingApproval)
    && s.incident.value.active == Some(a.apply.pid) && s.incident.value.proposal == Some(p)
  }

  /** The proposal a decision has approved and is not done with. */
  function Held(d: Decide): Option<Proposal> {
    if Deciding(d) then Some(d.p) else None
  }

  /** A decision goes on with its proposal. */
  predicate GoesOn(s: State, t: State) {
    Held(t.decide).Some? ==> Held(s.decide).Some? && (Matched(s) ==> Held(t.decide) == Held(s.decide))
  }

  lemma JobStepDecides(s: State, a: JobAction, t: State)
    requires StepJob(s, a) == Some(t)
    ensures t.workspace == s.workspace && GoesOn(s, t)
  {
    hide Transition, Matched;
  }

  lemma DiagnosisStepDecides(s: State, a: DiagnosisAction, t: State)
    requires StepDiagnosis(s, a) == Some(t)
    ensures t.workspace == s.workspace && GoesOn(s, t)
  {
    hide Transition, Matched, WithoutRun, ClearedArtifacts, StepRunEnds;
    if a.RunEnds? {
      RunEndsEffect(s, a.run, a.ok, t);
    }
  }

  lemma ApplyStepDecides(s: State, a: ApplyAction, t: State)
    requires StepApply(s, a) == Some(t)
    ensures t.workspace != s.workspace ==> s.decide.GitApplies?
    ensures a.ApproveClick? && Held(t.decide).Some? ==> Approves(s, ApplyMoves(a), Held(t.decide).value)
    ensures !a.ApproveClick? ==> GoesOn(s, t)
  {
    hide Transition, Matched, StepApplyReturns;
    if a.ApplyReturns? {
      ApplyReturnsGoesOn(s, a.receiptOk, t);
    }
  }

  lemma ApplyReturnsGoesOn(s: State, receiptOk: bool, t: State)
    requires StepApplyReturns(s, receiptOk) == Some(t)
    ensures t.workspace == s.workspace && GoesOn(s, t)
  {
    hide Transition, Matched;
  }

  lemma SmokeReportedGoesOn(s: State, t: State)
    requires StepSmokeReported(s) == Some(t)
    ensures t.workspace == s.workspace && GoesOn(s, t)
  {
    hide Transition;
  }

  lemma ReverseReturnsGoesOn(s: State, intact: bool, evidence: bool, t: State)
    requires StepReverseReturns(s, intact, evidence) == Some(t)
    ensures t.workspace == s.workspace && GoesOn(s, t)
  {
    hide Transition, Matched;
  }

  lemma SmokeStepDecides(s: State, a: SmokeAction, t: State)
    requires StepSmoke(s, a) == Some(t)
    ensures t.workspace != s.workspace ==> s.decide.GitReverses?
    ensures GoesOn(s, t)
  {
    hide Transition, StepSmokeReported, StepReverseReturns, Matched;
    match a
    case SmokeReported => SmokeReportedGoesOn(s, t);
    case ReverseReturns(intact, evidence) => ReverseReturnsGoesOn(s, intact, evidence, t);
    case _ =>
  }

  lemma RetryStepDecides(s: State, a: RetryAction, t: State)
    requires StepRetry(s, a) == Some(t)
    ensures t.workspace == s.workspace && GoesOn(s, t)
  {
    hide Transition, Matched;
  }

  lemma DownStepDecides(s: State, a: CrashAction, t: State)
    requires StepDown(s, a) == Some(t)
    ensures t.workspace != s.workspace ==> s.decide.GitApplies? || s.decide.GitReverses?
    ensures GoesOn(s, t)
  {
    hide Transition, Matched;
  }

  /** Only git writes the target, and only an approval begins a decision. */
  lemma StepDecides(s: State, a: Action, t: State)
    requires Step(s, a) == Some(t)
    ensures CyanWrites(s, a, t) ==> s.decide.GitApplies? || s.decide.GitReverses?
    ensures GoesOn(s, t) || (Held(t.decide).Some? && Approves(s, a, Held(t.decide).value))
  {
    hide StepJob, StepDiagnosis, StepApply, StepSmoke, StepRetry, StepDown, Matched;
    match a
    case UserEdits(_) =>
    case JobMoves(job) => JobStepDecides(s, job, t);
    case DiagnosisMoves(diagnosis) => DiagnosisStepDecides(s, diagnosis, t);
    case ApplyMoves(apply) => ApplyStepDecides(s, apply, t);
    case SmokeMoves(smoke) => SmokeStepDecides(s, smoke, t);
    case RetryMoves(retry) => RetryStepDecides(s, retry, t);
    case CrashMoves(crash) => DownStepDecides(s, crash, t);
  }

  /** A decision goes back to an approval, and was never given up in between. */
  lemma {:induction false} DecisionApproved(s: State, actions: seq<Action>, k: nat) returns (j: nat, p: Proposal)
    requires Run(s, actions).Some? && k <= |actions| && Held(s.decide).None?
    requires Held(StateAt(s, actions, k).decide).Some?
    ensures j < k && Approves(StateAt(s, actions, j), actions[j], p)
    ensures Held(StateAt(s, actions, j + 1).decide) == Some(p)
    ensures forall i :: j < i <= k ==> Held(StateAt(s, actions, i).decide).Some?
    decreases k
  {
    hide Step, Approves, Held, Matched;
    var before := StateAt(s, actions, k - 1);
    StateSteps(s, actions, k - 1);
    StepDecides(before, actions[k - 1], StateAt(s, actions, k));
    if Held(before.decide).Some? {
      j, p := DecisionApproved(s, actions, k - 1);
    } else {
      j, p := k - 1, Held(StateAt(s, actions, k).decide).value;
    }
  }

  /** Without a crash a decision keeps the proposal it approved. */
  lemma {:induction false} DecisionKeepsProposal(s: State, actions: seq<Action>, j: nat, k: nat)
    requires Inv(s) && Ordered(s) && Matched(s) && Run(s, actions).Some? && OrderlyRun(s, actions) && CrashFree(actions)
    requires j < k <= |actions| && forall i :: j < i <= k ==> Held(StateAt(s, actions, i).decide).Some?
    ensures forall i :: j < i <= k ==> Held(StateAt(s, actions, i).decide) == Held(StateAt(s, actions, j + 1).decide)
    decreases k
  {
    hide Step, Held, Inv, Ordered, Matched, StateAt;
    if j + 1 < k {
      StateInvariant(s, actions, k - 1);
      StateSteps(s, actions, k - 1);
      StepDecides(StateAt(s, actions, k - 1), actions[k - 1], StateAt(s, actions, k));
      ApprovalBeginsADecision(StateAt(s, actions, k - 1), actions[k - 1], StateAt(s, actions, k));
      DecisionKeepsProposal(s, actions, j, k - 1);
    }
  }

  lemma ApprovalBeginsADecision(s: State, a: Action, t: State)
    requires Inv(s) && Step(s, a) == Some(t) && Held(s.decide).Some?
    ensures !IsApproval(a)
  {
  }

  /**
   In every run, crashes included, whatever the daemon writes to the target it writes inside a
   decision that goes back, without interruption, to the approval of the active proposal; in a
   run without a crash that is the proposal it applies or rolls back.
   */
  lemma WritesFollowApproval(workspace: Content, actions: seq<Action>, k: nat) returns (j: nat, p: Proposal)
    requires Run(Init(workspace), actions).Some? && k < |actions|
    requires CyanWrites(StateAt(Init(workspace), actions, k), actions[k], StateAt(Init(workspace), actions, k + 1))
    ensures j < k && Approves(StateAt(Init(workspace), actions, j), actions[j], p)
    ensures forall i :: j < i <= k ==> Held(StateAt(Init(workspace), actions, i).decide).Some?
    ensures OrderlyRun(Init(workspace), actions) && CrashFree(actions) ==>
      && p.id == actions[j].apply.pid
      && forall i :: j < i <= k ==> Held(StateAt(Init(workspace), actions, i).decide) == Some(p)
  {
    hide Step, StateAt;
    var s := Init(workspace);
    StateSteps(s, actions, k);
    StepDecides(StateAt(s, actions, k), actions[k], StateAt(s, actions, k + 1));
    j, p := DecisionApproved(s, actions, k);
    if OrderlyRun(s, actions) && CrashFree(actions) {
      StateInvariant(s, actions, j);
      DecisionKeepsProposal(s, actions, j, k);
    }
  }

  // ----- what git writes over -----

  /** This step has handed the target to git, for the patch or for its reverse. */
  predicate StartsPatch(s: State, t: State) {
    t.decide.GitApplies? && !s.decide.GitApplies?
  }

  predicate StartsReverse(s: State, t: State) {
    t.decide.GitReverses? && !s.decide.GitReverses?
  }

  lemma ApplyStepStartsGit(s: State, a: ApplyAction, t: State)
    requires StepApply(s, a) == Some(t)
    ensures StartsPatch(s, t) ==> t.workspace == t.decide.p.base
    ensures !StartsReverse(s, t)
  {
    hide Transition, StepApplyReturns;
    if a.ApplyReturns? {
      ApplyReturnsStartsNoGit(s, a.receiptOk, t);
    }
  }

  lemma ApplyReturnsStartsNoGit(s: State, receiptOk: bool, t: State)
    requires StepApplyReturns(s, receiptOk) == Some(t)
    ensures !t.decide.GitApplies? && !t.decide.GitReverses?
  {
    hide Transition;
  }

  lemma SmokeStepStartsGit(s: State, a: SmokeAction, t: State)
    requires StepSmoke(s, a) == Some(t)
    ensures StartsReverse(s, t) ==> StillApplied(t)
    ensures !StartsPatch(s, t)
  {
    hide Transition, StepSmokeReported, StepReverseReturns, StepVerifiesAppliedAgain;
    match a
    case SmokeReported => SmokeReportedStartsNoGit(s, t);
    case ReverseReturns(intact, evidence) => ReverseReturnsStartsNoGit(s, intact, evidence, t);
    case VerifiesAppliedAgain(gitOk) => VerifiedAgainStartsReverse(s, gitOk, t);
    case _ =>
  }

  lemma SmokeReportedStartsNoGit(s: State, t: State)
    requires StepSmokeReported(s) == Some(t)
    ensures !t.decide.GitApplies? && !t.decide.GitReverses?
  {
    hide Transition;
  }

  lemma ReverseReturnsStartsNoGit(s: State, intact: bool, evidence: bool, t: State)
    requires StepReverseReturns(s, intact, evidence) == Some(t)
    ensures !t.decide.GitApplies? && !t.decide.GitReverses?
  {
    hide Transition;
  }

  lemma VerifiedAgainStartsReverse(s: State, gitOk: bool, t: State)
    requires StepVerifiesAppliedAgain(s, gitOk) == Some(t)
    ensures !t.decide.GitApplies? && (t.decide.GitReverses? ==> StillApplied(t))
  {
    hide Transition;
  }

  lemma JobStepStartsNoGit(s: State, a: JobAction, t: State)
    requires StepJob(s, a) == Some(t)
    ensures !StartsPatch(s, t) && !StartsReverse(s, t)
  {
    hide Transition;
  }

  lemma CrashStepStartsNoGit(s: State, a: CrashAction, t: State)
    requires StepDown(s, a) == Some(t)
    ensures !StartsPatch(s, t) && !StartsReverse(s, t)
  {
    hide Transition, StepRecovers;
    if a.RecoversIncident? {
      RecoversEffect(s, a.resume, a.killed, t);
    }
  }

  lemma DiagnosisStepStartsNoGit(s: State, a: DiagnosisAction, t: State)
    requires StepDiagnosis(s, a) == Some(t)
    ensures !StartsPatch(s, t) && !StartsReverse(s, t)
  {
    hide Transition, StepRunEnds, WithoutRun, ClearedArtifacts;
    if a.RunEnds? {
      RunEndsEffect(s, a.run, a.ok, t);
    }
  }

  lemma OtherStepStartsNoGit(s: State, a: Action, t: State)
    requires Step(s, a) == Some(t) && !a.ApplyMoves? && !a.SmokeMoves?
    ensures !StartsPatch(s, t) && !StartsReverse(s, t)
  {
    hide StepJob, StepDiagnosis, StepApply, StepSmoke, StepRetry, StepDown;
    match a
    case UserEdits(_) =>
    case JobMoves(job) => JobStepStartsNoGit(s, job, t);
    case DiagnosisMoves(diagnosis) => DiagnosisStepStartsNoGit(s, diagnosis, t);
    case RetryMoves(retry) => RetryStepStartsNoGit(s, retry, t);
    case CrashMoves(crash) => CrashStepStartsNoGit(s, crash, t);
  }

  lemma RetryStepStartsNoGit(s: State, a: RetryAction, t: State)
    requires StepRetry(s, a) == Some(t)
    ensures !StartsPatch(s, t) && !StartsReverse(s, t)
  {
    hide Transition;
  }

  /**
   Git is handed the target only while it holds the base of the approved proposal, and for the
   reverse only while it holds what the receipt of the patch recorded.
   */
  lemma GitStartsOverKnownContent(s: State, a: Action, t: State)
    requires Step(s, a) == Some(t)
    ensures StartsPatch(s, t) ==> t.workspace == t.decide.p.base
    ensures StartsReverse(s, t) ==> StillApplied(t)
  {
    hide StepJob, StepDiagnosis, StepApply, StepSmoke, StepRetry, StepDown, StillApplied;
    match a
    case ApplyMoves(apply) => ApplyStepStartsGit(s, apply, t);
    case SmokeMoves(smoke) => SmokeStepStartsGit(s, smoke, t);
    case _ => OtherStepStartsNoGit(s, a, t);
  }

  // ----- rollbacks -----

  /** The statuses a failed smoke check ends in when the patch has been rolled back. */
  predicate RolledBackTo(status: Status) {
    status.Diagnosing? || status.Unresolved?
  }

  predicate UnderSmoke(s: State) {
    Deciding(s.decide) && s.incident.Some? && Patching(s.incident.value.status)
  }

  predicate RolledBackNow(s: State) {
    s.incident.Some? && RolledBackTo(s.incident.value.status)
  }

  lemma SmokeStepRollsBack(s: State, a: SmokeAction, t: State)
    requires UnderSmoke(s) && StepSmoke(s, a) == Some(t) && RolledBackNow(t)
    ensures s.decide.GitReversed? && t.workspace == s.workspace == s.decide.p.base
  {
    PatchingAccepts(s.incident.value.status);
    hide Transition, StillApplied, StepReverseReturns, StepSmokeReported, StepSmokeBegins;
    match a
    case SmokeBegins => SmokeBeginsUnderSmoke(s, t);
    case SmokeReported => SmokeReportedEffect(s, t);
    case ReverseReturns(intact, evidence) => ReverseReturnsUnderSmoke(s, intact, evidence, t);
    case _ =>
  }

  lemma SmokeBeginsUnderSmoke(s: State, t: State)
    requires UnderSmoke(s) && StepSmokeBegins(s) == Some(t)
    ensures !RolledBackNow(t)
  {
  }

  lemma ReverseReturnsUnderSmoke(s: State, intact: bool, evidence: bool, t: State)
    requires UnderSmoke(s) && StepReverseReturns(s, intact, evidence) == Some(t) && RolledBackNow(t)
    ensures s.decide.GitReversed? && t.workspace == s.workspace == s.decide.p.base
  {
    PatchingAccepts(s.incident.value.status);
    hide Transition;
  }

  lemma JobStepRollsNothingBack(s: State, a: JobAction, t: State)
    requires UnderSmoke(s) && StepJob(s, a) == Some(t)
    ensures !RolledBackNow(t)
  {
    hide Transition;
  }

  lemma DiagnosisStepRollsNothingBack(s: State, a: DiagnosisAction, t: State)
    requires UnderSmoke(s) && StepDiagnosis(s, a) == Some(t)
    ensures !RolledBackNow(t)
  {
    assert Transition(s.incident.value.status, InvestigationDone).None?;
    hide Transition, WithoutRun, ClearedArtifacts;
  }

  lemma ApplyStepRollsNothingBack(s: State, a: ApplyAction, t: State)
    requires UnderSmoke(s) && DecideStatus(s) && StepApply(s, a) == Some(t)
    ensures !RolledBackNow(t)
  {
    var status := s.incident.value.status;
    assert Transition(status, ApplyFailed) != Some(Diagnosing) && Transition(status, ApplyFailed) != Some(Unresolved);
    hide Transition, StepApplyReturns;
    if a.ApplyReturns? {
      ApplyReturnsEffect(s, a.receiptOk, t);
    }
  }

  lemma RetryStepRollsNothingBack(s: State, a: RetryAction, t: State)
    requires UnderSmoke(s) && StepRetry(s, a) == Some(t)
    ensures !RolledBackNow(t)
  {
    var status := s.incident.value.status;
    assert Transition(status, RetryStart).None? && Transition(status, RetryAborted).None?;
    hide Transition;
  }

  /** A smoke failure reported as rolled back, with or without evidence, has the base content back in place. */
  lemma RollbackRestoresBase(s: State, a: Action, t: State)
    requires UnderSmoke(s) && DecideStatus(s) && Step(s, a) == Some(t) && RolledBackNow(t) && !a.CrashMoves?
    ensures s.decide.GitReversed? && t.workspace == s.workspace == s.decide.p.base
  {
    hide StepJob, StepDiagnosis, StepApply, StepSmoke, StepRetry, StepDown;
    match a
    case UserEdits(_) =>
    case JobMoves(job) => JobStepRollsNothingBack(s, job, t);
    case DiagnosisMoves(diagnosis) => DiagnosisStepRollsNothingBack(s, diagnosis, t);
    case ApplyMoves(apply) => ApplyStepRollsNothingBack(s, apply, t);
    case SmokeMoves(smoke) => SmokeStepRollsBack(s, smoke, t);
    case RetryMoves(retry) => RetryStepRollsNothingBack(s, retry, t);
  }

  /** In a run without a crash that is the content the approved proposal was made from. */
  lemma RollbackRestoresApprovedBase(workspace: Content, actions: seq<Action>, k: nat) returns (j: nat, p: Proposal)
    requires OrderlyRun(Init(workspace), actions) && CrashFree(actions) && Run(Init(workspace), actions).Some?
    requires k < |actions| && UnderSmoke(StateAt(Init(workspace), actions, k))
    requires RolledBackNow(StateAt(Init(workspace), actions, k + 1))
    ensures j < k && Approves(StateAt(Init(workspace), actions, j), actions[j], p)
    ensures StateAt(Init(workspace), actions, k + 1).workspace == p.base
  {
    hide Step, StateAt;
    var s := Init(workspace);
    StateSteps(s, actions, k);
    StateInvariant(s, actions, k);
    RollbackRestoresBase(StateAt(s, actions, k), actions[k], StateAt(s, actions, k + 1));
    j, p := DecisionApproved(s, actions, k);
    DecisionKeepsProposal(s, actions, j, k);
  }

  // ----- edits -----

  function Edited(content: Content, a: Action): Content {
    if a.UserEdits? then a.content else content
  }

  /** What the target holds after `k` actions in which only users write it. */
  function LastEdit(content: Content, actions: seq<Action>, k: nat): Content
    requires k <= |actions|
    decreases |actions|
  {
    if k == 0 then content else LastEdit(Edited(content, actions[0]), actions[1..], k - 1)
  }

  lemma {:induction false} LastEditStep(content: Content, actions: seq<Action>, k: nat)
    requires k < |actions|
    ensures LastEdit(content, actions, k + 1) == Edited(LastEdit(content, actions, k), actions[k])
    decreases |actions|
  {
    hide Edited;
    var next := Edited(content, actions[0]);
    if k == 0 {
      assert LastEdit(next, actions[1..], 0) == next;
    } else {
      LastEditStep(next, actions[1..], k - 1);
      assert actions[1..][k - 1] == actions[k];
    }
  }

  /** The last edit among the first `k` actions leaves something other than `content`. */
  predicate EditedAway(content: Content, actions: seq<Action>, k: nat)
    requires k <= |actions|
  {
    exists i :: 0 <= i < k && actions[i].UserEdits? && actions[i].content != content && NoEdit(actions, i + 1, k)
  }

  predicate NoEdit(actions: seq<Action>, from: nat, to: nat)
    requires to <= |actions|
  {
    forall m :: from <= m < to ==> !actions[m].UserEdits?
  }

  lemma {:induction false} LastEditIs(content: Content, actions: seq<Action>, k: nat)
    requires k <= |actions|
    ensures LastEdit(content, actions, k) != content <==> EditedAway(content, actions, k)
  {
    hide LastEdit;
    if k == 0 {
      NothingEdited(content, actions);
    } else {
      LastEditStep(content, actions, k - 1);
      if actions[k - 1].UserEdits? {
        assert NoEdit(actions, k, k);
      } else {
        LastEditIs(content, actions, k - 1);
        if i :|
          0 <= i < k - 1 && actions[i].UserEdits? && actions[i].content != content && NoEdit(actions, i + 1, k - 1)
        {
          assert NoEdit(actions, i + 1, k);
        }
      }
    }
  }

  lemma NothingEdited(content: Content, actions: seq<Action>)
    ensures LastEdit(content, actions, 0) == content
  {
  }

  // ----- what the daemon writes over -----

  predicate InGit(d: Decide) {
    d.GitApplies? || d.GitReverses?
  }

  /** What the receipt says that the patch has left. */
  function Recorded(s: State): Option<Content> {
    if s.incident.Some? && s.incident.value.receipt.Some? then Some(s.incident.value.receipt.value.applied) else None
  }

  /** What the target held when it was handed to git: the approved base, or what the receipt recorded. */
  function Expected(s: State): Option<Content> {
    match s.decide
    case GitApplies(p, _) => Some(p.base)
    case GitReverses(_) => Recorded(s)
    case _ => None
  }

  /** A step that leaves the target and the receipt alone leaves git's expectation alone. */
  predicate SameReceipt(s: State, t: State) {
    && (s.incident.Some? <==> t.incident.Some?)
    && (s.incident.Some? ==> t.incident.value.receipt == s.incident.value.receipt)
  }

  predicate LeavesGit(s: State, t: State) {
    && t.decide == s.decide && t.workspace == s.workspace
    && (SameReceipt(s, t) || (s.incident.None? && t.incident.Some? && t.incident.value.receipt.None?))
  }

  /** The smoke check is on its way and the rollback has not passed its last check of the target. */
  predicate BeforeReverse(d: Decide) {
    d.SmokeStarts? || d.SmokeRuns? || d.SmokeEnded? || d.AsksReverse? || d.GitReverseChecks?
  }

  /** The receipt is written and the decision is not done with it. */
  predicate AfterReceipt(d: Decide) {
    BeforeReverse(d) || d.GitReverses? || d.GitReversed?
  }

  /** From the hand-over to git for the patch to the end of the rollback. */
  predicate Working(d: Decide) {
    d.GitApplies? || d.GitApplied? || AfterReceipt(d)
  }

  lemma LeftToGit(s: State, t: State)
    requires LeavesGit(s, t)
    ensures Expected(t) == Expected(s)
  {
  }

  lemma JobStepKeepsGit(s: State, a: JobAction, t: State)
    requires StepJob(s, a) == Some(t) && Working(t.decide)
    ensures LeavesGit(s, t)
  {
    hide Transition, ClearedArtifacts, StepCallbackLocks, StepCapsule;
    match a
    case CapsuleReady => CapsuleKeepsGit(s, t);
    case CallbackLocks => CallbackLocksKeepsGit(s, t);
    case _ =>
  }

  lemma CapsuleKeepsGit(s: State, t: State)
    requires StepCapsule(s) == Some(t)
    ensures LeavesGit(s, t)
  {
  }

  lemma CallbackLocksKeepsGit(s: State, t: State)
    requires StepCallbackLocks(s) == Some(t)
    ensures LeavesGit(s, t)
  {
    hide Transition;
  }

  lemma DiagnosisStepKeepsGit(s: State, a: DiagnosisAction, t: State)
    requires StepDiagnosis(s, a) == Some(t) && Working(t.decide)
    ensures LeavesGit(s, t)
  {
    hide Transition, WithoutRun, ClearedArtifacts, StepRunEnds, StepFollowUp;
    if a.RunEnds? {
      RunEndsEffect(s, a.run, a.ok, t);
    }
    if a.FollowUpClick? {
      FollowUpDecidesNothing(s, t);
    }
  }

  lemma FollowUpDecidesNothing(s: State, t: State)
    requires StepFollowUp(s) == Some(t)
    ensures t.decide.NoDecision?
  {
    hide Transition;
  }

  lemma RetryStepKeepsGit(s: State, a: RetryAction, t: State)
    requires StepRetry(s, a) == Some(t) && Working(t.decide)
    ensures LeavesGit(s, t)
  {
    hide Transition, StepObserverActs;
    if a.ObserverActs? {
      ObserverActsEffect(s, a.k, t);
    }
  }

  lemma CrashStepKeepsGit(s: State, a: CrashAction, t: State)
    requires StepDown(s, a) == Some(t) && Working(t.decide)
    ensures LeavesGit(s, t)
  {
    hide Transition, StepRecovers;
    if a.RecoversIncident? {
      RecoversEffect(s, a.resume, a.killed, t);
    }
  }

  predicate DecideMoves(a: Action) {
    a.ApplyMoves? || a.SmokeMoves?
  }

  /** Only the decision itself leads into its work or changes what it works on. */
  lemma OutsideStepKeepsGit(s: State, a: Action, t: State)
    requires Step(s, a) == Some(t) && Working(t.decide) && !a.UserEdits? && !DecideMoves(a)
    ensures LeavesGit(s, t)
  {
    hide StepJob, StepDiagnosis, StepApply, StepSmoke, StepRetry, StepDown, LeavesGit, Working;
    match a
    case JobMoves(job) => JobStepKeepsGit(s, job, t);
    case DiagnosisMoves(diagnosis) => DiagnosisStepKeepsGit(s, diagnosis, t);
    case RetryMoves(retry) => RetryStepKeepsGit(s, retry, t);
    case CrashMoves(crash) => CrashStepKeepsGit(s, crash, t);
  }

  lemma ApplyStepEndsGit(s: State, a: ApplyAction, t: State)
    requires StepApply(s, a) == Some(t) && InGit(s.decide)
    ensures !InGit(t.decide)
  {
    hide Transition;
  }

  lemma SmokeStepEndsGit(s: State, a: SmokeAction, t: State)
    requires StepSmoke(s, a) == Some(t) && InGit(s.decide)
    ensures !InGit(t.decide)
  {
    hide Transition;
  }

  /** While git holds the target, only users change it, and what git expects stays. */
  lemma GitStepKeeps(s: State, a: Action, t: State)
    requires Step(s, a) == Some(t) && InGit(s.decide) && InGit(t.decide)
    ensures t.decide == s.decide && Expected(t) == Expected(s) && t.workspace == Edited(s.workspace, a)
  {
    hide StepJob, StepDiagnosis, StepApply, StepSmoke, StepRetry, StepDown, Expected, SameReceipt;
    match a
    case UserEdits(_) => EditKeepsExpectation(s, t);
    case ApplyMoves(apply) => ApplyStepEndsGit(s, apply, t);
    case SmokeMoves(smoke) => SmokeStepEndsGit(s, smoke, t);
    case _ =>
      OutsideStepKeepsGit(s, a, t);
      LeftToGit(s, t);
  }

  lemma EditKeepsExpectation(s: State, t: State)
    requires t.decide == s.decide && t.incident == s.incident
    ensures Expected(t) == Expected(s)
  {
  }

  lemma GitStartsExpected(s: State, a: Action, t: State)
    requires Step(s, a) == Some(t) && !InGit(s.decide) && InGit(t.decide)
    ensures Expected(t) == Some(t.workspace)
  {
    hide Step;
    GitStartsOverKnownContent(s, a, t);
  }

  lemma StartState(s: State, actions: seq<Action>)
    requires Run(s, actions).Some?
    ensures StateAt(s, actions, 0) == s
  {
  }

  /** The step that handed the target to git, and what has happened to it since. */
  lemma {:induction false} GitStarted(s: State, actions: seq<Action>, k: nat) returns (j: nat)
    requires Run(s, actions).Some? && k <= |actions| && !InGit(s.decide) && InGit(StateAt(s, actions, k).decide)
    ensures j < k && !InGit(StateAt(s, actions, j).decide)
    ensures Expected(StateAt(s, actions, j + 1)) == Some(StateAt(s, actions, j + 1).workspace)
    ensures forall i :: j < i <= k ==>
      && StateAt(s, actions, i).decide == StateAt(s, actions, k).decide
      && Expected(StateAt(s, actions, i)) == Expected(StateAt(s, actions, k))
    ensures StateAt(s, actions, k).workspace ==
      LastEdit(StateAt(s, actions, j + 1).workspace, actions[j + 1..], k - (j + 1))
    decreases k
  {
    hide Step, InGit, Expected, LastEdit, Edited, StateAt;
    StartState(s, actions);
    var before, now := StateAt(s, actions, k - 1), StateAt(s, actions, k);
    StateSteps(s, actions, k - 1);
    if InGit(before.decide) {
      j := GitStarted(s, actions, k - 1);
      GitStepKeeps(before, actions[k - 1], now);
      LastEditStep(StateAt(s, actions, j + 1).workspace, actions[j + 1..], k - 1 - (j + 1));
    } else {
      j := k - 1;
      GitStartsExpected(before, actions[k - 1], now);
      NothingEdited(now.workspace, actions[k..]);
    }
  }

  /**
   In every run, crashes included: what the daemon writes to the target it writes over the content
   that it checked (the approved base, or what the receipt recorded), unless a user has edited the
   target while git held it; and exactly then it writes over something else.
   */
  lemma OverwritesOnlyEditsDuringGit(workspace: Content, actions: seq<Action>, k: nat) returns (j: nat)
    requires Run(Init(workspace), actions).Some? && k < |actions|
    requires CyanWrites(StateAt(Init(workspace), actions, k), actions[k], StateAt(Init(workspace), actions, k + 1))
    ensures j < k && !InGit(StateAt(Init(workspace), actions, j).decide)
    ensures forall i :: j < i <= k ==>
      && InGit(StateAt(Init(workspace), actions, i).decide)
      && StateAt(Init(workspace), actions, i).decide == StateAt(Init(workspace), actions, k).decide
    ensures
      var now := StateAt(Init(workspace), actions, k);
      && Expected(now).Some? && Expected(now) == Some(StateAt(Init(workspace), actions, j + 1).workspace)
      && (now.workspace != Expected(now).value <==> EditedAway(Expected(now).value, actions[j + 1..], k - (j + 1)))
  {
    hide Step, StateAt, Expected, LastEdit, EditedAway;
    var s := Init(workspace);
    StateSteps(s, actions, k);
    StepDecides(StateAt(s, actions, k), actions[k], StateAt(s, actions, k + 1));
    j := GitStarted(s, actions, k);
    LastEditIs(StateAt(s, actions, j + 1).workspace, actions[j + 1..], k - (j + 1));
  }

  // ----- what the rollback writes over -----

  /** Git's patch ends with its own step, and leaves some content unless it fails. */
  lemma EntersApplied(s: State, a: Action, t: State)
    requires Step(s, a) == Some(t) && !s.decide.GitApplied? && t.decide.GitApplied?
    ensures s.decide.GitApplies? && a.ApplyMoves? && a.apply.GitWritesPatch? && t.decide.ok == a.apply.result.Some?
    ensures a.apply.result.Some? ==> t.workspace == a.apply.result.value
  {
    hide StepJob, StepDiagnosis, StepSmoke, StepRetry, StepDown, Transition, LeavesGit;
    match a
    case UserEdits(_) =>
    case ApplyMoves(_) =>
    case SmokeMoves(smoke) => SmokeStepAppliesNothing(s, smoke, t);
    case _ =>
      OutsideStepKeepsGit(s, a, t);
      SameDecision(s, t);
  }

  lemma SameDecision(s: State, t: State)
    requires LeavesGit(s, t)
    ensures t.decide == s.decide && t.workspace == s.workspace
  {
  }

  lemma SmokeStepAppliesNothing(s: State, a: SmokeAction, t: State)
    requires StepSmoke(s, a) == Some(t)
    ensures !t.decide.GitApplied? && !t.decide.GitApplies?
  {
    hide Transition;
  }

  /** Until the receipt is written only users change the target. */
  lemma AppliedStepKeeps(s: State, a: Action, t: State)
    requires Step(s, a) == Some(t) && s.decide.GitApplied? && t.decide.GitApplied?
    ensures t.decide == s.decide && t.workspace == Edited(s.workspace, a)
  {
    hide StepJob, StepDiagnosis, StepSmoke, StepRetry, StepDown, Transition, LeavesGit;
    match a
    case UserEdits(_) =>
    case ApplyMoves(_) =>
    case SmokeMoves(smoke) => SmokeStepAppliesNothing(s, smoke, t);
    case _ =>
      OutsideStepKeepsGit(s, a, t);
      SameDecision(s, t);
  }

  /** The receipt takes the target as it is found after git's patch. */
  lemma EntersReceipt(s: State, a: Action, t: State)
    requires Step(s, a) == Some(t) && !AfterReceipt(s.decide) && AfterReceipt(t.decide)
    ensures s.decide.GitApplied? && s.decide.ok && a == ApplyMoves(ApplyReturns(true))
    ensures Recorded(t) == Some(s.workspace)
  {
    hide StepJob, StepDiagnosis, StepApply, StepSmoke, StepRetry, StepDown, LeavesGit;
    match a
    case UserEdits(_) =>
    case ApplyMoves(apply) => ApplyStepEntersReceipt(s, apply, t);
    case SmokeMoves(smoke) => SmokeStepNeedsReceipt(s, smoke, t);
    case _ =>
      OutsideStepKeepsGit(s, a, t);
      SameDecision(s, t);
  }

  lemma ApplyStepEntersReceipt(s: State, a: ApplyAction, t: State)
    requires StepApply(s, a) == Some(t) && AfterReceipt(t.decide)
    ensures s.decide.GitApplied? && s.decide.ok && a == ApplyReturns(true)
    ensures Recorded(t) == Some(s.workspace)
  {
    hide Transition, StepApplyReturns;
    if a.ApplyReturns? {
      ApplyReturnsEntersReceipt(s, a.receiptOk, t);
    }
  }

  lemma ApplyReturnsEntersReceipt(s: State, receiptOk: bool, t: State)
    requires StepApplyReturns(s, receiptOk) == Some(t) && AfterReceipt(t.decide)
    ensures s.decide.GitApplied? && s.decide.ok && receiptOk
    ensures Recorded(t) == Some(s.workspace)
  {
    hide Transition;
  }

  lemma SmokeStepNeedsReceipt(s: State, a: SmokeAction, t: State)
    requires StepSmoke(s, a) == Some(t)
    ensures AfterReceipt(t.decide) ==> AfterReceipt(s.decide) && Recorded(t) == Recorded(s)
  {
    hide Transition, ClearedArtifacts, StillApplied, StepSmokeReported, StepReverseReturns;
    match a
    case SmokeReported => SmokeReportedKeepsReceipt(s, t);
    case ReverseReturns(intact, evidence) => ReverseReturnsEnds(s, intact, evidence, t);
    case _ =>
  }

  lemma SmokeReportedKeepsReceipt(s: State, t: State)
    requires StepSmokeReported(s) == Some(t)
    ensures AfterReceipt(s.decide) && Recorded(t) == Recorded(s)
  {
    hide Transition;
  }

  lemma ReverseReturnsEnds(s: State, intact: bool, evidence: bool, t: State)
    requires StepReverseReturns(s, intact, evidence) == Some(t)
    ensures !AfterReceipt(t.decide)
  {
    hide Transition;
  }

  /** The decision never changes its receipt. */
  lemma ReceiptStepKeeps(s: State, a: Action, t: State)
    requires Step(s, a) == Some(t) && AfterReceipt(s.decide) && AfterReceipt(t.decide)
    ensures Recorded(t) == Recorded(s)
  {
    hide StepJob, StepDiagnosis, StepApply, StepSmoke, StepRetry, StepDown, LeavesGit;
    match a
    case UserEdits(_) =>
    case ApplyMoves(apply) => ApplyStepEntersReceipt(s, apply, t);
    case SmokeMoves(smoke) => SmokeStepNeedsReceipt(s, smoke, t);
    case _ =>
      OutsideStepKeepsGit(s, a, t);
      SameRecord(s, t);
  }

  lemma SameRecord(s: State, t: State)
    requires LeavesGit(s, t)
    ensures Recorded(t) == Recorded(s)
  {
  }

  /** The step that wrote the receipt, which has stayed since. */
  lemma {:induction false} ReceiptWritten(s: State, actions: seq<Action>, k: nat) returns (w: nat)
    requires Run(s, actions).Some? && k <= |actions| && !AfterReceipt(s.decide)
    requires AfterReceipt(StateAt(s, actions, k).decide)
    ensures w < k && StateAt(s, actions, w).decide.GitApplied? && StateAt(s, actions, w).decide.ok
    ensures actions[w] == ApplyMoves(ApplyReturns(true))
    ensures Recorded(StateAt(s, actions, k)) == Some(StateAt(s, actions, w).workspace)
    ensures forall i :: w < i <= k ==> AfterReceipt(StateAt(s, actions, i).decide)
    decreases k
  {
    hide Step, AfterReceipt, Recorded, StateAt;
    StartState(s, actions);
    var before, now := StateAt(s, actions, k - 1), StateAt(s, actions, k);
    StateSteps(s, actions, k - 1);
    if AfterReceipt(before.decide) {
      w := ReceiptWritten(s, actions, k - 1);
      ReceiptStepKeeps(before, actions[k - 1], now);
    } else {
      w := k - 1;
      EntersReceipt(before, actions[k - 1], now);
    }
  }

  /** The step in which git left its patch, and the edits since. */
  lemma {:induction false} PatchWritten(s: State, actions: seq<Action>, w: nat) returns (g: nat)
    requires Run(s, actions).Some? && w <= |actions| && !s.decide.GitApplied?
    requires StateAt(s, actions, w).decide.GitApplied? && StateAt(s, actions, w).decide.ok
    ensures g < w && actions[g].ApplyMoves? && actions[g].apply.GitWritesPatch? && actions[g].apply.result.Some?
    ensures forall i :: g < i <= w ==> StateAt(s, actions, i).decide.GitApplied?
    ensures StateAt(s, actions, w).workspace == LastEdit(actions[g].apply.result.value, actions[g + 1..], w - (g + 1))
    decreases w
  {
    hide Step, StateAt, LastEdit, Edited;
    StartState(s, actions);
    var before, now := StateAt(s, actions, w - 1), StateAt(s, actions, w);
    StateSteps(s, actions, w - 1);
    if before.decide.GitApplied? {
      AppliedStepKeeps(before, actions[w - 1], now);
      g := PatchWritten(s, actions, w - 1);
      LastEditStep(actions[g].apply.result.value, actions[g + 1..], w - 1 - (g + 1));
    } else {
      g := w - 1;
      EntersApplied(before, actions[w - 1], now);
      NothingEdited(now.workspace, actions[w..]);
    }
  }

  /** Edits in two stretches of a run, one after the other. */
  lemma {:induction false} LastEditAppend(content: Content, first: seq<Action>, second: seq<Action>)
    ensures LastEdit(content, first + second, |first + second|) ==
      LastEdit(LastEdit(content, first, |first|), second, |second|)
    decreases |first|
  {
    hide Edited;
    if first == [] {
      assert first + second == second;
    } else {
      assert (first + second)[1..] == first[1..] + second;
      LastEditAppend(Edited(content, first[0]), first[1..], second);
    }
  }

  lemma {:induction false} LastEditOfPart(content: Content, actions: seq<Action>, k: nat)
    requires k <= |actions|
    ensures LastEdit(content, actions, k) == LastEdit(content, actions[..k], k)
    decreases k
  {
    hide Edited;
    if k > 0 {
      LastEditOfPart(Edited(content, actions[0]), actions[1..], k - 1);
      assert actions[..k][1..] == actions[1..][..k - 1];
    }
  }

  /** The actions in the two stretches in which no check stands between an edit and git's reverse. */
  function Unguarded(actions: seq<Action>, g: nat, w: nat, j: nat, k: nat): seq<Action>
    requires g < w <= j < k <= |actions|
  {
    actions[g + 1..w] + actions[j + 1..k]
  }

  /**
   In every run, when git's reverse is about to write: git's patch had left `patched` in step `g`, the
   receipt was written in step `w` and the target handed to git in step `j`. What the reverse writes
   over is what the user last wrote between `g` and `w`, before the receipt, or since `j`, while git
   holds the target. So it is something other than `patched` if and only if the last of these edits
   left something else; no other edit is written over.
   */
  lemma RollbackOverwritesExactly(workspace: Content, actions: seq<Action>, k: nat)
    returns (g: nat, w: nat, j: nat, patched: Content)
    requires Run(Init(workspace), actions).Some? && k <= |actions|
    requires StateAt(Init(workspace), actions, k).decide.GitReverses?
    ensures g < w <= j < k && actions[g] == ApplyMoves(GitWritesPatch(Some(patched)))
    ensures actions[w] == ApplyMoves(ApplyReturns(true))
    ensures forall i :: g < i <= w ==> StateAt(Init(workspace), actions, i).decide.GitApplied?
    ensures forall i :: w < i <= k ==> AfterReceipt(StateAt(Init(workspace), actions, i).decide)
    ensures !StateAt(Init(workspace), actions, j).decide.GitReverses?
    ensures forall i :: j < i <= k ==> StateAt(Init(workspace), actions, i).decide.GitReverses?
    ensures
      var edits := Unguarded(actions, g, w, j, k);
      var now := StateAt(Init(workspace), actions, k).workspace;
      && now == LastEdit(patched, edits, |edits|)
      && (now != patched <==> EditedAway(patched, edits, |edits|))
  {
    hide Step, StateAt, Expected, LastEdit, EditedAway;
    var s := Init(workspace);
    w := ReceiptWritten(s, actions, k);
    g := PatchWritten(s, actions, w);
    j := GitStarted(s, actions, k);
    patched := actions[g].apply.result.value;
    ReverseExpects(StateAt(s, actions, k));
    LastEditOfPart(patched, actions[g + 1..], w - (g + 1));
    assert actions[g + 1..][..w - (g + 1)] == actions[g + 1..w];
    LastEditOfPart(StateAt(s, actions, j + 1).workspace, actions[j + 1..], k - (j + 1));
    assert actions[j + 1..][..k - (j + 1)] == actions[j + 1..k];
    LastEditAppend(patched, actions[g + 1..w], actions[j + 1..k]);
    LastEditIs(patched, Unguarded(actions, g, w, j, k), |Unguarded(actions, g, w, j, k)|);
  }

  lemma ReverseExpects(s: State)
    requires s.decide.GitReverses?
    ensures Expected(s) == Recorded(s)
  {
  }

  // ----- edits made after the receipt was written -----

  /** What the rollback will look for: the recorded content until git is called, the base after it. */
  predicate LooksFor(s: State, known: Content) {
    || (BeforeReverse(s.decide) && Recorded(s) == Some(known))
    || (s.decide.GitReversed? && s.decide.p.base == known)
  }

  /** Somebody has changed the target since. */
  predicate EditedSince(s: State, known: Content) {
    UnderSmoke(s) && LooksFor(s, known) && s.workspace != known
  }

  /** The decision has ended with the smoke check: passed, or failed without a rollback. */
  predicate LeftInPlace(s: State) {
    (s.decide.Cleared? && HasStatus(s, SmokePassed)) || (s.decide.Releasing? && HasStatus(s, RollbackBlocked))
  }

  lemma SmokeStepKeepsEdit(s: State, a: SmokeAction, t: State, known: Content)
    requires DecideStatus(s) && EditedSince(s, known) && StepSmoke(s, a) == Some(t)
    ensures t.workspace == s.workspace && (EditedSince(t, known) || LeftInPlace(t))
    ensures s.decide.GitReversed? ==> LeftInPlace(t) && HasStatus(t, RollbackBlocked)
  {
    PatchingAccepts(s.incident.value.status);
    hide StepSmokeReported, StepSmokeBegins, StepReverseReturns, Transition;
    match a
    case SmokeBegins => SmokeBeginsKeepsEdit(s, t, known);
    case SmokeReported => SmokeReportedEffect(s, t);
    case ReverseReturns(intact, evidence) => ReverseReturnsKeepsEdit(s, intact, evidence, t, known);
    case _ =>
  }

  lemma SmokeBeginsKeepsEdit(s: State, t: State, known: Content)
    requires DecideStatus(s) && EditedSince(s, known) && StepSmokeBegins(s) == Some(t)
    ensures t.workspace == s.workspace && EditedSince(t, known)
  {
  }

  /** The base is looked for once more after git's reverse, so that an edit made since blocks. */
  lemma ReverseReturnsKeepsEdit(s: State, intact: bool, evidence: bool, t: State, known: Content)
    requires EditedSince(s, known) && StepReverseReturns(s, intact, evidence) == Some(t)
    ensures t.workspace == s.workspace && t.decide.Releasing? && HasStatus(t, RollbackBlocked)
  {
    PatchingAccepts(s.incident.value.status);
    hide Transition;
  }

  lemma JobStepKeepsEdit(s: State, a: JobAction, t: State, known: Content)
    requires EditedSince(s, known) && StepJob(s, a) == Some(t)
    ensures t.workspace == s.workspace && EditedSince(t, known)
  {
    hide Transition;
  }

  lemma DiagnosisStepKeepsEdit(s: State, a: DiagnosisAction, t: State, known: Content)
    requires EditedSince(s, known) && StepDiagnosis(s, a) == Some(t)
    ensures t.workspace == s.workspace && EditedSince(t, known)
  {
    assert Transition(s.incident.value.status, InvestigationDone).None?;
    hide Transition, WithoutRun, ClearedArtifacts;
  }

  predicate Awaiting(d: Decide) {
    BeforeReverse(d) || d.GitReversed?
  }

  lemma ApplyStepsWait(s: State, a: ApplyAction)
    requires Awaiting(s.decide)
    ensures StepApply(s, a).None?
  {
    hide Transition, Dispatch;
  }

  lemma RetryStepsWait(s: State, a: RetryAction)
    requires Awaiting(s.decide) && |s.observers| == 0
    ensures StepRetry(s, a).None?
  {
    hide Transition, Dispatch;
  }

  /** Until the smoke check is over the target holds what the user last wrote. */
  lemma StepKeepsEdit(s: State, a: Action, t: State, known: Content)
    requires Inv(s) && EditedSince(s, known) && Step(s, a) == Some(t) && !a.CrashMoves?
    requires a.UserEdits? ==> a.content != known
    ensures t.workspace == Edited(s.workspace, a) && (EditedSince(t, known) || LeftInPlace(t))
  {
    hide StepJob, StepDiagnosis, StepApply, StepSmoke, StepRetry, StepDown, Transition;
    match a
    case UserEdits(_) =>
    case JobMoves(job) => JobStepKeepsEdit(s, job, t, known);
    case DiagnosisMoves(diagnosis) => DiagnosisStepKeepsEdit(s, diagnosis, t, known);
    case SmokeMoves(smoke) => SmokeStepKeepsEdit(s, smoke, t, known);
    case ApplyMoves(apply) => ApplyStepsWait(s, apply);
    case RetryMoves(retry) => RetryStepsWait(s, retry);
  }

  /**
   An edit made after the receipt was written, before git is called for the rollback or after git has
   returned, is never overwritten: in every run in which nobody restores the content that is looked
   for, the target holds what the user last wrote until the smoke check is over, and it ends as
   passed or as a blocked rollback.
   */
  lemma {:induction false} EditsSurvive(s: State, actions: seq<Action>, known: Content) returns (n: nat)
    requires Inv(s) && EditedSince(s, known) && OrderlyRun(s, actions) && CrashFree(actions) && Run(s, actions).Some?
    requires forall k :: 0 <= k < |actions| && actions[k].UserEdits? ==> actions[k].content != known
    ensures n <= |actions|
    ensures forall k :: 0 <= k < n ==> EditedSince(StateAt(s, actions, k), known)
    ensures if n < |actions| then LeftInPlace(StateAt(s, actions, n))
            else EditedSince(StateAt(s, actions, n), known) || LeftInPlace(StateAt(s, actions, n))
    ensures forall k :: 0 <= k <= n ==> StateAt(s, actions, k).workspace == LastEdit(s.workspace, actions, k)
    decreases |actions|
  {
    hide Inv, EditedSince, LeftInPlace, Orderly, Step, Edited;
    if actions == [] {
      n := 0;
    } else {
      var t := Step(s, actions[0]).value;
      StepKeepsInv(s, actions[0]);
      StepKeepsEdit(s, actions[0], t, known);
      if EditedSince(t, known) {
        var m := EditsSurvive(t, actions[1..], known);
        n := m + 1;
      } else {
        n := 1;
        assert StateAt(t, actions[1..], 0) == t;
      }
    }
  }

  // ----- edits that the reverse writes over, when it cannot give the base -----

  /** Git's reverse gives the base only from what git's patch left. */
  predicate ReversesOnly(patched: Content, base: Content, found: Content, result: Content) {
    result == base ==> found == patched
  }

  /** After git's reverse has left something other than the base, that is kept, with the edits made since. */
  lemma {:induction false} ReversedStays(workspace: Content, actions: seq<Action>, k: nat, i: nat, base: Content,
                                         result: Content)
    requires OrderlyRun(Init(workspace), actions) && CrashFree(actions) && Run(Init(workspace), actions).Some?
    requires k < i <= |actions| && actions[k] == SmokeMoves(GitWritesReverse(Some(result))) && result != base
    requires StateAt(Init(workspace), actions, k).decide.GitReverses?
    requires StateAt(Init(workspace), actions, k).decide.p.base == base
    requires forall n :: k < n <= i ==> StateAt(Init(workspace), actions, n).decide.GitReversed?
    requires forall n :: k < n < i && actions[n].UserEdits? ==> actions[n].content != base
    ensures EditedSince(StateAt(Init(workspace), actions, i), base)
    ensures StateAt(Init(workspace), actions, i).workspace == LastEdit(result, actions[k + 1..], i - (k + 1))
    decreases i
  {
    hide StateAt, Step, LastEdit, Inv, EditedSince, Edited;
    var s := Init(workspace);
    var before, now := StateAt(s, actions, i - 1), StateAt(s, actions, i);
    InitInv(workspace);
    StateInvariant(s, actions, i - 1);
    StateSteps(s, actions, i - 1);
    if i == k + 1 {
      NothingEdited(result, actions[k + 1..]);
      ReverseLeaves(before, result, now);
    } else {
      ReversedStays(workspace, actions, k, i - 1, base, result);
      StepKeepsEdit(before, actions[i - 1], now, base);
      LastEditStep(result, actions[k + 1..], i - 1 - (k + 1));
    }
  }

  lemma ReverseLeaves(s: State, result: Content, t: State)
    requires Inv(s) && s.decide.GitReverses? && result != s.decide.p.base
    requires Step(s, SmokeMoves(GitWritesReverse(Some(result)))) == Some(t)
    ensures EditedSince(t, s.decide.p.base) && t.workspace == result
  {
  }

  /** The base is looked for when git has returned, and another content blocks. */
  lemma ReverseReturnsBlocks(s: State, a: SmokeAction, base: Content, t: State)
    requires Inv(s) && s.decide.GitReversed? && EditedSince(s, base) && Step(s, SmokeMoves(a)) == Some(t)
    ensures HasStatus(t, RollbackBlocked) && t.workspace == s.workspace
  {
    hide Step, EditedSince, LeftInPlace;
    assert StepSmoke(s, a) == Some(t) by {
      StepIsSmoke(s, a);
    }
    SmokeStepKeepsEdit(s, a, t, base);
  }

  lemma StepIsSmoke(s: State, a: SmokeAction)
    ensures Step(s, SmokeMoves(a)) == StepSmoke(s, a)
  {
  }

  /**
   In every crash-free run, provided that git's reverse gives the base only from what git's patch left
   and nobody writes the base back: an edit that the reverse has written over blocks the rollback.
   */
  lemma OverwrittenEditBlocks(workspace: Content, actions: seq<Action>, k: nat, m: nat, result: Content)
    returns (g: nat, w: nat, j: nat, patched: Content)
    requires OrderlyRun(Init(workspace), actions) && CrashFree(actions) && Run(Init(workspace), actions).Some?
    requires k < m < |actions| && StateAt(Init(workspace), actions, k).decide.GitReverses?
    requires actions[k] == SmokeMoves(GitWritesReverse(Some(result)))
    requires actions[m].SmokeMoves? && actions[m].smoke.ReverseReturns?
    requires forall n :: k < n <= m ==> StateAt(Init(workspace), actions, n).decide.GitReversed?
    requires forall n :: k < n < m && actions[n].UserEdits? ==>
      actions[n].content != StateAt(Init(workspace), actions, k).decide.p.base
    ensures g < w <= j < k && actions[g] == ApplyMoves(GitWritesPatch(Some(patched)))
    ensures actions[w] == ApplyMoves(ApplyReturns(true))
    ensures forall i :: g < i <= w ==> StateAt(Init(workspace), actions, i).decide.GitApplied?
    ensures forall i :: j < i <= k ==> StateAt(Init(workspace), actions, i).decide.GitReverses?
    ensures
      var edits := Unguarded(actions, g, w, j, k);
      var now, end := StateAt(Init(workspace), actions, k), StateAt(Init(workspace), actions, m + 1);
      ReversesOnly(patched, now.decide.p.base, now.workspace, result) && EditedAway(patched, edits, |edits|) ==>
        HasStatus(end, RollbackBlocked) && end.workspace == LastEdit(result, actions[k + 1..], m - (k + 1))
  {
    hide StateAt, Step, LastEdit, Inv, EditedSince, EditedAway, HasStatus;
    var s := Init(workspace);
    var now := StateAt(s, actions, k);
    g, w, j, patched := RollbackOverwritesExactly(workspace, actions, k);
    if result != now.decide.p.base {
      ReversedStays(workspace, actions, k, m, now.decide.p.base, result);
      InitInv(workspace);
      StateInvariant(s, actions, m);
      StateSteps(s, actions, m);
      ReverseReturnsBlocks(StateAt(s, actions, m), actions[m].smoke, now.decide.p.base, StateAt(s, actions, m + 1));
    }
  }
}
