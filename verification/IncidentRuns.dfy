/**
 Crash-free runs that reach each end of the protocol (resolved, rolled back, blocked by an edit), and
 runs in which an edit is lost.
 */
module IncidentRuns {
  import opened Common
  import opened Fsm
  import opened IncidentProtocol
  import opened IncidentSafety
  import opened IncidentOrder

  /** A crash-free run of a fresh job that ends in this state. */
  ghost predicate Reaches(workspace: Content, actions: seq<Action>, t: State) {
    OrderlyRun(Init(workspace), actions) && CrashFree(actions) && Run(Init(workspace), actions) == Some(t)
  }

  lemma Onward(workspace: Content, actions: seq<Action>, t: State, a: Action) returns (longer: seq<Action>, u: State)
    requires Reaches(workspace, actions, t) && Orderly(t, a) && Step(t, a).Some? && !a.CrashMoves?
    ensures longer == actions + [a] && Step(t, a) == Some(u) && Reaches(workspace, longer, u)
  {
    hide Step, Orderly;
    longer, u := Then(Init(workspace), actions, t, a);
  }

  lemma Begun(workspace: Content)
    ensures Reaches(workspace, [], Init(workspace))
  {
  }

  /** The first proposal of an incident whose job has failed once. */
  function FirstProposal(workspace: Content): Proposal {
    Proposal(1, workspace)
  }

  function FailedJob(): Job {
    Job(Failed, 1, Some(1), false, false, Some(ProcessExit))
  }

  function AwaitingState(workspace: Content): State {
    Init(workspace).(
      incident := Some(Incident(AwaitingApproval, 1, true, Some(FirstProposal(workspace)), Some(1), None, false,
                                Some(0))),
      job := FailedJob(), monitor := Gone, nextId := 2)
  }

  lemma DiagnosisOpens(workspace: Content) returns (actions: seq<Action>, t: State)
    ensures Reaches(workspace, actions, t) && t.live == [0]
    ensures t == AwaitingState(workspace).(
      incident := Some(Incident(Diagnosing, 1, false, None, None, None, false, Some(0))), live := [0], nextId := 1)
  {
    hide Reaches;
    Begun(workspace);
    actions, t := Onward(workspace, [], Init(workspace), JobMoves(JobLaunches(true)));
    actions, t := Onward(workspace, actions, t, JobMoves(JobEnds(1, false)));
    actions, t := Onward(workspace, actions, t, JobMoves(CapsuleReady));
    actions, t := Onward(workspace, actions, t, JobMoves(OpenedResumes));
  }

  lemma ApprovalAwaited(workspace: Content) returns (actions: seq<Action>, t: State)
    ensures Reaches(workspace, actions, t) && t == AwaitingState(workspace)
  {
    hide Reaches;
    actions, t := DiagnosisOpens(workspace);
    actions, t := Onward(workspace, actions, t, DiagnosisMoves(RunDiagnoses(0)));
    actions, t := Onward(workspace, actions, t, DiagnosisMoves(RunProposes(0)));
    actions, t := Onward(workspace, actions, t, DiagnosisMoves(RunEnds(0, true)));
  }

  /** The patch is in the workspace and its receipt is written. */
  function PatchedState(workspace: Content, patched: Content, smoke: bool): State {
    AwaitingState(workspace).(
      incident := Some(Incident(if smoke then Applying else SmokeSkipped, 1, true, Some(FirstProposal(workspace)),
                                Some(1), Some(Receipt(1, patched)), false, Some(0))),
      workspace := patched,
      decide := if smoke then SmokeStarts(FirstProposal(workspace)) else Cleared(FirstProposal(workspace)),
      approvals := 1)
  }

  lemma PatchDue(workspace: Content, smoke: bool) returns (actions: seq<Action>, t: State)
    ensures Reaches(workspace, actions, t)
    ensures t == AwaitingState(workspace).(
      incident := Some(AwaitingState(workspace).incident.value.(status := Applying)),
      decide := GitApplies(FirstProposal(workspace), smoke),
      approvals := 1)
  {
    hide Reaches;
    actions, t := ApprovalAwaited(workspace);
    actions, t := Onward(workspace, actions, t, ApplyMoves(ApproveClick(1, smoke)));
    actions, t := Onward(workspace, actions, t, ApplyMoves(VerifiesBase(true)));
    actions, t := Onward(workspace, actions, t, ApplyMoves(VerifiesBaseAgain(true)));
  }

  lemma PatchApplied(workspace: Content, patched: Content, smoke: bool) returns (actions: seq<Action>, t: State)
    ensures Reaches(workspace, actions, t) && t == PatchedState(workspace, patched, smoke)
  {
    hide Reaches;
    actions, t := PatchDue(workspace, smoke);
    actions, t := Onward(workspace, actions, t, ApplyMoves(GitWritesPatch(Some(patched))));
    actions, t := Onward(workspace, actions, t, ApplyMoves(ApplyReturns(true)));
  }

  lemma RetryObserved(workspace: Content, patched: Content) returns (actions: seq<Action>, t: State)
    ensures Reaches(workspace, actions, t) && HasStatus(t, RetryRunning) && t.phase.Up? && t.decide.NoDecision?
    ensures t.observers == [Watching]
    ensures t.monitor == Alive(false) && t.job == Job(Running, 2, None, false, false, None) && t.workspace == patched
  {
    hide Reaches;
    actions, t := PatchApplied(workspace, patched, false);
    actions, t := Onward(workspace, actions, t, RetryMoves(RetryStarts));
    actions, t := Onward(workspace, actions, t, RetryMoves(RetryLaunches(true)));
    actions, t := Onward(workspace, actions, t, JobMoves(JobLaunches(true)));
    actions, t := Onward(workspace, actions, t, RetryMoves(RetryReported));
  }

  /** Some run resolves, with the patch in place. */
  lemma SomeRunResolves(workspace: Content, patched: Content) returns (actions: seq<Action>, t: State)
    ensures Reaches(workspace, actions, t) && HasStatus(t, Resolved) && t.workspace == patched
  {
    hide Reaches;
    actions, t := RetryObserved(workspace, patched);
    actions, t := Onward(workspace, actions, t, JobMoves(JobEnds(0, false)));
    actions, t := Onward(workspace, actions, t, RetryMoves(ObserverWakes(0)));
    actions, t := Onward(workspace, actions, t, RetryMoves(ObserverActs(0)));
  }

  lemma SmokeFails(workspace: Content, patched: Content) returns (actions: seq<Action>, t: State)
    ensures Reaches(workspace, actions, t)
    ensures t == PatchedState(workspace, patched, true).(
      incident := Some(PatchedState(workspace, patched, true).incident.value.(status := SmokeRunning)),
      decide := AsksReverse(FirstProposal(workspace)))
  {
    hide Reaches;
    actions, t := PatchApplied(workspace, patched, true);
    actions, t := Onward(workspace, actions, t, SmokeMoves(SmokeBegins));
    actions, t := Onward(workspace, actions, t, SmokeMoves(SmokeReturns(false)));
    actions, t := Onward(workspace, actions, t, SmokeMoves(SmokeReported));
  }

  /** The target is handed to git for the reverse. */
  function ReverseDueState(workspace: Content, patched: Content): State {
    PatchedState(workspace, patched, true).(
      incident := Some(PatchedState(workspace, patched, true).incident.value.(status := SmokeRunning)),
      decide := GitReverses(FirstProposal(workspace)))
  }

  lemma ReverseDue(workspace: Content, patched: Content) returns (actions: seq<Action>, t: State)
    ensures Reaches(workspace, actions, t) && t == ReverseDueState(workspace, patched)
  {
    hide Reaches;
    actions, t := SmokeFails(workspace, patched);
    actions, t := Onward(workspace, actions, t, SmokeMoves(VerifiesApplied(true)));
    actions, t := Onward(workspace, actions, t, SmokeMoves(VerifiesAppliedAgain(true)));
  }

  /** Some run rolls its patch back and starts diagnosing again. */
  lemma SomeRunRollsBack(workspace: Content, patched: Content) returns (actions: seq<Action>, t: State)
    ensures Reaches(workspace, actions, t) && HasStatus(t, Diagnosing) && t.workspace == workspace && |t.live| == 1
  {
    hide Reaches;
    actions, t := ReverseDue(workspace, patched);
    actions, t := Onward(workspace, actions, t, SmokeMoves(GitWritesReverse(Some(workspace))));
    actions, t := Onward(workspace, actions, t, SmokeMoves(ReverseReturns(true, true)));
    actions, t := Onward(workspace, actions, t, SmokeMoves(RolledBackResumes));
  }

  /** An edit during the smoke check blocks the rollback and stays. */
  lemma SomeEditBlocksTheRollback(workspace: Content, patched: Content, edited: Content)
    returns (actions: seq<Action>, t: State)
    requires edited != patched
    ensures Reaches(workspace, actions, t) && HasStatus(t, RollbackBlocked) && t.workspace == edited
  {
    hide Reaches;
    actions, t := SmokeFails(workspace, patched);
    actions, t := Onward(workspace, actions, t, UserEdits(edited));
    actions, t := Onward(workspace, actions, t, SmokeMoves(VerifiesApplied(true)));
  }

  /** An edit made after git's reverse, before the base is checked again, blocks the rollback and stays too. */
  lemma SomeEditAfterGitBlocks(workspace: Content, patched: Content, edited: Content)
    returns (actions: seq<Action>, t: State)
    requires edited != workspace
    ensures Reaches(workspace, actions, t) && HasStatus(t, RollbackBlocked) && t.workspace == edited
  {
    hide Reaches;
    actions, t := ReverseDue(workspace, patched);
    actions, t := Onward(workspace, actions, t, SmokeMoves(GitWritesReverse(Some(workspace))));
    actions, t := Onward(workspace, actions, t, UserEdits(edited));
    actions, t := Onward(workspace, actions, t, SmokeMoves(ReverseReturns(true, true)));
  }

  /**
   An edit made while git holds the target is lost: git has read the file before the edit and
   writes the base over it, and the rollback is reported.
   */
  lemma SomeEditIsOverwritten(workspace: Content, patched: Content, edited: Content)
    returns (before: seq<Action>, actions: seq<Action>, t: State)
    requires edited != patched && edited != workspace
    ensures Reaches(workspace, actions, t) && HasStatus(t, Diagnosing) && t.workspace == workspace
    ensures actions == before + [UserEdits(edited)] + [SmokeMoves(GitWritesReverse(Some(workspace)))]
                       + [SmokeMoves(ReverseReturns(true, true))] + [SmokeMoves(RolledBackResumes)]
  {
    hide Reaches;
    before, t := ReverseDue(workspace, patched);
    actions, t := Onward(workspace, before, t, UserEdits(edited));
    actions, t := Onward(workspace, actions, t, SmokeMoves(GitWritesReverse(Some(workspace))));
    actions, t := Onward(workspace, actions, t, SmokeMoves(ReverseReturns(true, true)));
    actions, t := Onward(workspace, actions, t, SmokeMoves(RolledBackResumes));
  }

  /** The patch is applied, edited before its receipt is written, and the smoke check of the result fails. */
  lemma EditedBeforeReceipt(workspace: Content, patched: Content, edited: Content)
    returns (before: seq<Action>, actions: seq<Action>, t: State)
    ensures Reaches(workspace, actions, t) && t == PatchedState(workspace, edited, true)
    ensures actions == before + [ApplyMoves(GitWritesPatch(Some(patched)))] + [UserEdits(edited)]
                       + [ApplyMoves(ApplyReturns(true))]
  {
    hide Reaches;
    before, t := PatchDue(workspace, true);
    actions, t := Onward(workspace, before, t, ApplyMoves(GitWritesPatch(Some(patched))));
    actions, t := Onward(workspace, actions, t, UserEdits(edited));
    actions, t := Onward(workspace, actions, t, ApplyMoves(ApplyReturns(true)));
  }

  function SmokeFailed(): seq<Action> {
    [SmokeMoves(SmokeBegins), SmokeMoves(SmokeReturns(false)), SmokeMoves(SmokeReported),
     SmokeMoves(VerifiesApplied(true)), SmokeMoves(VerifiesAppliedAgain(true))]
  }

  lemma SmokeFailsOnward(workspace: Content, start: seq<Action>, patched: Content)
    returns (actions: seq<Action>, t: State)
    requires Reaches(workspace, start, PatchedState(workspace, patched, true))
    ensures actions == start + SmokeFailed() && Reaches(workspace, actions, t)
    ensures t == ReverseDueState(workspace, patched)
  {
    hide Reaches;
    t := PatchedState(workspace, patched, true);
    actions, t := Onward(workspace, start, t, SmokeMoves(SmokeBegins));
    actions, t := Onward(workspace, actions, t, SmokeMoves(SmokeReturns(false)));
    actions, t := Onward(workspace, actions, t, SmokeMoves(SmokeReported));
    actions, t := Onward(workspace, actions, t, SmokeMoves(VerifiesApplied(true)));
    actions, t := Onward(workspace, actions, t, SmokeMoves(VerifiesAppliedAgain(true)));
  }

  /**
   An edit made between git's patch and the receipt is recorded as what the patch left: every check
   passes, the reverse writes over it, and when that gives the base the rollback is reported.
   */
  lemma SomeRecordedEditIsLost(workspace: Content, patched: Content, edited: Content)
    returns (before: seq<Action>, actions: seq<Action>, t: State)
    requires edited != patched && edited != workspace
    ensures Reaches(workspace, actions, t) && HasStatus(t, Diagnosing) && t.workspace == workspace
    ensures actions == before + [ApplyMoves(GitWritesPatch(Some(patched)))] + [UserEdits(edited)]
                       + [ApplyMoves(ApplyReturns(true))]
                       + SmokeFailed() + [SmokeMoves(GitWritesReverse(Some(workspace)))]
                       + [SmokeMoves(ReverseReturns(true, true))] + [SmokeMoves(RolledBackResumes)]
  {
    hide Reaches;
    before, actions, t := EditedBeforeReceipt(workspace, patched, edited);
    actions, t := SmokeFailsOnward(workspace, actions, edited);
    actions, t := Onward(workspace, actions, t, SmokeMoves(GitWritesReverse(Some(workspace))));
    actions, t := Onward(workspace, actions, t, SmokeMoves(ReverseReturns(true, true)));
    actions, t := Onward(workspace, actions, t, SmokeMoves(RolledBackResumes));
  }

  /** When the reverse gives something else, the rollback blocks, but the target no longer holds the edit. */
  lemma SomeRecordedEditIsRewritten(workspace: Content, patched: Content, edited: Content, reversed: Content)
    returns (before: seq<Action>, actions: seq<Action>, t: State)
    requires edited != patched && reversed != edited && reversed != workspace
    ensures Reaches(workspace, actions, t) && HasStatus(t, RollbackBlocked) && t.workspace == reversed
    ensures actions == before + [ApplyMoves(GitWritesPatch(Some(patched)))] + [UserEdits(edited)]
                       + [ApplyMoves(ApplyReturns(true))]
                       + SmokeFailed() + [SmokeMoves(GitWritesReverse(Some(reversed)))]
                       + [SmokeMoves(ReverseReturns(true, true))]
  {
    hide Reaches;
    before, actions, t := EditedBeforeReceipt(workspace, patched, edited);
    actions, t := SmokeFailsOnward(workspace, actions, edited);
    actions, t := Onward(workspace, actions, t, SmokeMoves(GitWritesReverse(Some(reversed))));
    actions, t := Onward(workspace, actions, t, SmokeMoves(ReverseReturns(true, true)));
  }

  // ----- why observers must be in time -----

  /** Any run of a fresh job that ends in this state, with observers as late as they like. */
  ghost predicate Runs(workspace: Content, actions: seq<Action>, t: State) {
    Run(Init(workspace), actions) == Some(t)
  }

  lemma {:induction false} RunOnward(s: State, actions: seq<Action>, t: State, a: Action)
    requires Run(s, actions) == Some(t) && Step(t, a).Some?
    ensures Run(s, actions + [a]) == Step(t, a)
    decreases |actions|
  {
    hide Step;
    var longer := actions + [a];
    if actions == [] {
      assert longer == [a] && longer[1..] == [];
    } else {
      assert longer[0] == actions[0] && longer[1..] == actions[1..] + [a];
      RunOnward(Step(s, actions[0]).value, actions[1..], t, a);
    }
  }

  lemma Next(workspace: Content, actions: seq<Action>, t: State, a: Action) returns (longer: seq<Action>, u: State)
    requires Runs(workspace, actions, t) && Step(t, a).Some?
    ensures Step(t, a) == Some(u) && Runs(workspace, longer, u)
  {
    hide Step;
    longer, u := actions + [a], Step(t, a).value;
    RunOnward(Init(workspace), actions, t, a);
  }

  /** Nothing else is going on. */
  predicate Calm(t: State, observers: seq<Observer>) {
    t.phase.Up? && t.decide.NoDecision? && !t.following && t.incident.Some? && t.observers == observers
  }

  /** One diagnosis run is live, after attempt `n` has ended. */
  predicate InDiagnosis(t: State, n: nat, observers: seq<Observer>) {
    Calm(t, observers) && HasStatus(t, Diagnosing) && |t.live| == 1 && t.monitor.Gone? && t.job.attempt == n
  }

  predicate InApproval(t: State, n: nat, observers: seq<Observer>) {
    && Calm(t, observers) && HasStatus(t, AwaitingApproval) && |t.live| == 0 && t.monitor.Gone? && t.job.attempt == n
    && t.incident.value.diagnosed && t.incident.value.proposal.Some?
    && t.incident.value.proposal.value.base == t.workspace
    && t.incident.value.active == Some(t.incident.value.proposal.value.id)
  }

  predicate InPatch(t: State, n: nat, observers: seq<Observer>) {
    && t.phase.Up? && t.decide.Cleared? && !t.following && HasStatus(t, SmokeSkipped) && t.observers == observers
    && |t.live| == 0 && t.monitor.Gone? && t.job.attempt == n
  }

  /** Attempt `n` retries the command. */
  predicate InRetry(t: State, n: nat, observers: seq<Observer>) {
    && Calm(t, observers) && HasStatus(t, RetryRunning) && |t.live| == 0 && t.monitor == Alive(false)
    && t.job == Job(Running, n, None, false, false, None) && t.incident.value.attempt < n
  }

  lemma Proposed(workspace: Content, actions: seq<Action>, t: State, n: nat, observers: seq<Observer>)
    returns (longer: seq<Action>, u: State)
    requires Runs(workspace, actions, t) && InDiagnosis(t, n, observers) && t.incident.value.attempt <= n
    ensures Runs(workspace, longer, u) && InApproval(u, n, observers) && u.incident.value.attempt <= n
  {
    hide Runs;
    var run := t.live[0];
    longer, u := Next(workspace, actions, t, DiagnosisMoves(RunDiagnoses(run)));
    longer, u := Next(workspace, longer, u, DiagnosisMoves(RunProposes(run)));
    longer, u := Next(workspace, longer, u, DiagnosisMoves(RunEnds(run, true)));
  }

  lemma Patched(workspace: Content, actions: seq<Action>, t: State, n: nat, observers: seq<Observer>)
    returns (longer: seq<Action>, u: State)
    requires Runs(workspace, actions, t) && InApproval(t, n, observers) && t.incident.value.attempt <= n
    ensures Runs(workspace, longer, u) && InPatch(u, n, observers) && u.incident.value.attempt <= n
  {
    hide Runs;
    longer, u := Next(workspace, actions, t, ApplyMoves(ApproveClick(t.incident.value.active.value, false)));
    longer, u := Next(workspace, longer, u, ApplyMoves(VerifiesBase(true)));
    longer, u := Next(workspace, longer, u, ApplyMoves(VerifiesBaseAgain(true)));
    longer, u := Next(workspace, longer, u, ApplyMoves(GitWritesPatch(Some(workspace))));
    longer, u := Next(workspace, longer, u, ApplyMoves(ApplyReturns(true)));
  }

  lemma Retried(workspace: Content, actions: seq<Action>, t: State, n: nat, observers: seq<Observer>)
    returns (longer: seq<Action>, u: State)
    requires Runs(workspace, actions, t) && InPatch(t, n, observers) && t.incident.value.attempt <= n
    ensures Runs(workspace, longer, u) && InRetry(u, n + 1, observers + [Watching])
  {
    hide Runs;
    longer, u := Next(workspace, actions, t, RetryMoves(RetryStarts));
    longer, u := Next(workspace, longer, u, RetryMoves(RetryLaunches(true)));
    longer, u := Next(workspace, longer, u, JobMoves(JobLaunches(true)));
    longer, u := Next(workspace, longer, u, RetryMoves(RetryReported));
  }

  /** From a diagnosis to the next retry, which adds an observer. */
  lemma Cycle(workspace: Content, actions: seq<Action>, t: State, n: nat, observers: seq<Observer>)
    returns (longer: seq<Action>, u: State)
    requires Runs(workspace, actions, t) && InDiagnosis(t, n, observers) && t.incident.value.attempt <= n
    ensures Runs(workspace, longer, u) && InRetry(u, n + 1, observers + [Watching])
  {
    hide Runs, InDiagnosis, InApproval, InPatch, InRetry;
    longer, u := Proposed(workspace, actions, t, n, observers);
    longer, u := Patched(workspace, longer, u, n, observers);
    longer, u := Retried(workspace, longer, u, n, observers);
  }

  /** A retry fails while its observer has not woken yet. */
  lemma RetryFails(workspace: Content, actions: seq<Action>, t: State, n: nat, observers: seq<Observer>)
    returns (longer: seq<Action>, u: State)
    requires Runs(workspace, actions, t) && InRetry(t, n, observers)
    ensures Runs(workspace, longer, u) && InDiagnosis(u, n, observers) && u.incident.value.attempt <= n
  {
    hide Runs;
    longer, u := Next(workspace, actions, t, JobMoves(JobEnds(1, false)));
    longer, u := Next(workspace, longer, u, JobMoves(CapsuleReady));
    longer, u := Next(workspace, longer, u, JobMoves(CallbackLocks));
    longer, u := Next(workspace, longer, u, JobMoves(ReopenedResumes));
  }

  /** The incident is unresolved after attempt `n` has ended. */
  predicate InLimbo(t: State, n: nat, observers: seq<Observer>) {
    && Calm(t, observers) && HasStatus(t, Unresolved) && |t.live| == 0 && t.monitor.Gone? && t.job.attempt == n
  }

  lemma FollowedUp(workspace: Content, actions: seq<Action>, t: State, n: nat, observers: seq<Observer>)
    returns (longer: seq<Action>, u: State)
    requires Runs(workspace, actions, t) && InLimbo(t, n, observers) && t.incident.value.attempt <= n
    ensures Runs(workspace, longer, u) && InDiagnosis(u, n, observers) && u.incident.value.attempt <= n
  {
    hide Runs;
    longer, u := Next(workspace, actions, t, DiagnosisMoves(FollowUpClick));
    longer, u := Next(workspace, longer, u, DiagnosisMoves(FollowUpResumes));
  }

  /** Attempt `n` has been cancelled, and its retry is still running as far as the incident knows. */
  predicate InCancellation(t: State, n: nat, observers: seq<Observer>) {
    && Calm(t, observers) && HasStatus(t, RetryRunning) && |t.live| == 0 && t.monitor.Gone?
    && t.job.attempt == n && t.job.status.Cancelled? && t.job.returncode.Some? && t.incident.value.attempt < n
  }

  lemma RetryCancelled(workspace: Content, actions: seq<Action>, t: State, n: nat, observers: seq<Observer>)
    returns (longer: seq<Action>, u: State)
    requires Runs(workspace, actions, t) && InRetry(t, n, observers)
    ensures Runs(workspace, longer, u) && InCancellation(u, n, observers)
  {
    hide Runs;
    longer, u := Next(workspace, actions, t, JobMoves(CancelAsked));
    longer, u := Next(workspace, longer, u, JobMoves(JobEnds(1, false)));
  }

  /** A cancelled retry is seen by two observers, of which the older one acts late. */
  lemma CancelSeenTwice(workspace: Content, actions: seq<Action>, t: State, n: nat)
    returns (longer: seq<Action>, u: State)
    requires Runs(workspace, actions, t) && InCancellation(t, n, [Watching, Watching])
    ensures Runs(workspace, longer, u) && InLimbo(u, n, [Seen(Cancelled, false)]) && u.incident.value.attempt <= n
  {
    hide Runs;
    longer, u := Next(workspace, actions, t, RetryMoves(ObserverWakes(0)));
    longer, u := Next(workspace, longer, u, RetryMoves(ObserverWakes(1)));
    longer, u := Next(workspace, longer, u, RetryMoves(ObserverActs(1)));
  }

  /** The late observer then aborts a retry that has succeeded, whose own observer becomes late. */
  lemma SuccessAborted(workspace: Content, actions: seq<Action>, t: State, n: nat)
    returns (longer: seq<Action>, u: State)
    requires Runs(workspace, actions, t) && InRetry(t, n, [Seen(Cancelled, false), Watching])
    ensures Runs(workspace, longer, u) && InLimbo(u, n, [Seen(Succeeded, false)]) && u.incident.value.attempt <= n
  {
    hide Runs;
    longer, u := Next(workspace, actions, t, JobMoves(JobEnds(0, false)));
    longer, u := Next(workspace, longer, u, RetryMoves(ObserverWakes(1)));
    longer, u := Next(workspace, longer, u, RetryMoves(ObserverActs(0)));
  }

  /**
   Without the assumption that observers are in time the truth of `resolved` fails: an observer
   that saw an earlier retry succeed resolves the incident while a later one is still running.
   */
  lemma LateObserverResolvesFalsely(workspace: Content) returns (actions: seq<Action>, t: State)
    ensures Runs(workspace, actions, t) && HasStatus(t, Resolved) && t.job.status.Running?
  {
    hide Runs, Reaches, InDiagnosis, InRetry, InLimbo, InCancellation;
    var cancelled, succeeded := Seen(Cancelled, false), Seen(Succeeded, false);
    assert [] + [Watching] == [Watching] && [Watching] + [Watching] == [Watching, Watching];
    assert [cancelled] + [Watching] == [cancelled, Watching] && [succeeded] + [Watching] == [succeeded, Watching];
    actions, t := FirstDiagnosis(workspace);
    actions, t := Cycle(workspace, actions, t, 1, []);
    actions, t := RetryFails(workspace, actions, t, 2, [Watching]);
    actions, t := Cycle(workspace, actions, t, 2, [Watching]);
    actions, t := RetryCancelled(workspace, actions, t, 3, [Watching, Watching]);
    actions, t := CancelSeenTwice(workspace, actions, t, 3);
    actions, t := FollowedUp(workspace, actions, t, 3, [Seen(Cancelled, false)]);
    actions, t := Cycle(workspace, actions, t, 3, [Seen(Cancelled, false)]);
    actions, t := SuccessAborted(workspace, actions, t, 4);
    actions, t := FollowedUp(workspace, actions, t, 4, [Seen(Succeeded, false)]);
    actions, t := Cycle(workspace, actions, t, 4, [Seen(Succeeded, false)]);
    actions, t := LateObserverActs(workspace, actions, t, 5);
  }

  lemma FirstDiagnosis(workspace: Content) returns (actions: seq<Action>, t: State)
    ensures Runs(workspace, actions, t) && InDiagnosis(t, 1, []) && t.incident.value.attempt == 1
  {
    actions, t := DiagnosisOpens(workspace);
  }

  lemma LateObserverActs(workspace: Content, actions: seq<Action>, t: State, n: nat)
    returns (longer: seq<Action>, u: State)
    requires Runs(workspace, actions, t) && InRetry(t, n, [Seen(Succeeded, false), Watching])
    ensures Runs(workspace, longer, u) && HasStatus(u, Resolved) && u.job.status.Running?
  {
    hide Runs;
    longer, u := Next(workspace, actions, t, RetryMoves(ObserverActs(0)));
  }
}
