/** The incident status table of `training/incidents/fsm.py`. */
module Fsm {
  import opened Common

  datatype Status =
    | Diagnosing | AwaitingApproval | Applying | SmokeRunning | SmokePassed | SmokeSkipped
    | RetryRunning | Resolved | Rejected | Stale | Unresolved | RollbackBlocked

  datatype Event =
    | InvestigationDone | InvestigationFailed | Approve | ApproveInvalidated | Reject | FollowUp
    | ApplyOkSmoke | ApplyOkNoSmoke | ApplyFailed | SmokePass | SmokeFailedRolledBack
    | SmokeFailedNoEvidence | SmokeFailedBlocked | RetryStart | RetrySucceeded | RetryAborted | RetryFailed

  datatype RecoveryAction = Keep | Reconcile | Quarantine

  const InitialState := Diagnosing

  /** The target of an event, or none when the table does not accept it. */
  function Transition(state: Status, event: Event): Option<Status> {
    match (state, event)
    case (Diagnosing, InvestigationDone) => Some(AwaitingApproval)
    case (Diagnosing, InvestigationFailed) => Some(Unresolved)
    case (AwaitingApproval, Approve) => Some(Applying)
    case (AwaitingApproval, ApproveInvalidated) => Some(Stale)
    case (AwaitingApproval, Reject) => Some(Rejected)
    case (AwaitingApproval, FollowUp) => Some(Diagnosing)
    case (Applying, ApplyOkSmoke) => Some(SmokeRunning)
    case (Applying, SmokePass) => Some(SmokePassed)
    case (Applying, ApplyOkNoSmoke) => Some(SmokeSkipped)
    case (Applying, ApplyFailed) => Some(Stale)
    case (Applying, SmokeFailedRolledBack) => Some(Diagnosing)
    case (Applying, SmokeFailedNoEvidence) => Some(Unresolved)
    case (Applying, SmokeFailedBlocked) => Some(RollbackBlocked)
    case (SmokeRunning, SmokePass) => Some(SmokePassed)
    case (SmokeRunning, SmokeFailedRolledBack) => Some(Diagnosing)
    case (SmokeRunning, SmokeFailedNoEvidence) => Some(Unresolved)
    case (SmokeRunning, SmokeFailedBlocked) => Some(RollbackBlocked)
    case (SmokePassed, RetryStart) => Some(RetryRunning)
    case (SmokeSkipped, RetryStart) => Some(RetryRunning)
    case (RetryRunning, RetrySucceeded) => Some(Resolved)
    case (RetryRunning, RetryAborted) => Some(Unresolved)
    case (RetryRunning, RetryFailed) => Some(Diagnosing)
    case (Stale, FollowUp) => Some(Diagnosing)
    case (Unresolved, FollowUp) => Some(Diagnosing)
    case (RollbackBlocked, FollowUp) => Some(Diagnosing)
    case _ => None
  }

  predicate Accepts(state: Status, event: Event) {
    Transition(state, event).Some?
  }

  function RecoverAction(state: Status): RecoveryAction {
    match state
    case Diagnosing | AwaitingApproval | RetryRunning => Reconcile
    case Applying | SmokeRunning | SmokePassed | SmokeSkipped => Quarantine
    case Resolved | Rejected | Stale | Unresolved | RollbackBlocked => Keep
  }

  // ----- whole event histories -----

  /** The status after a list of events, or none when some event is not accepted. */
  function After(state: Status, events: seq<Event>): Option<Status>
    decreases |events|
  {
    if events == [] then Some(state)
    else
      match Transition(state, events[0])
      case None => None
      case Some(next) => After(next, events[1..])
  }

  predicate Terminal(state: Status) {
    state.Resolved? || state.Rejected?
  }

  /** The statuses an incident has only between an approval and the end of what it started. */
  predicate UnderApproval(state: Status) {
    state in {Applying, SmokeRunning, SmokePassed, SmokeSkipped, RetryRunning}
  }

  /** Terminal statuses accept nothing, and they are the only ones that do. */
  lemma TerminalExactly(state: Status)
    ensures Terminal(state) <==> forall e: Event :: !Accepts(state, e)
  {
    match state
    case Diagnosing => assert Accepts(state, InvestigationDone);
    case AwaitingApproval => assert Accepts(state, Approve);
    case Applying => assert Accepts(state, ApplyFailed);
    case SmokeRunning => assert Accepts(state, SmokePass);
    case SmokePassed => assert Accepts(state, RetryStart);
    case SmokeSkipped => assert Accepts(state, RetryStart);
    case RetryRunning => assert Accepts(state, RetryAborted);
    case Stale => assert Accepts(state, FollowUp);
    case Unresolved => assert Accepts(state, FollowUp);
    case RollbackBlocked => assert Accepts(state, FollowUp);
    case Resolved =>
    case Rejected =>
  }

  lemma NothingAfterResolved(events: seq<Event>)
    requires After(Resolved, events).Some?
    ensures events == []
  {
  }

  /** Events that send an incident back to diagnosis. */
  predicate Reopens(event: Event) {
    event in {FollowUp, SmokeFailedRolledBack, RetryFailed}
  }

  /**
   A history that resolves, from any status: the last approval `a` and the retry `r` it led
   to, with -1 for one that lies before the history.
   */
  lemma {:induction false} ResolvedHistory(state: Status, events: seq<Event>) returns (a: int, r: int)
    requires !state.Resolved? && After(state, events) == Some(Resolved)
    ensures |events| > 0 && events[|events| - 1] == RetrySucceeded
    ensures -1 <= a <= r < |events| - 1 && (a == r ==> a == -1)
    ensures if a == -1 then UnderApproval(state) else events[a] == Approve
    ensures if r == -1 then state.RetryRunning? else events[r] == RetryStart
    ensures forall k :: a < k < |events| ==> !Reopens(events[k])
    decreases |events|
  {
    var next := Transition(state, events[0]).value;
    if next.Resolved? {
      a, r := -1, -1;
      NothingAfterResolved(events[1..]);
    } else {
      var a', r' := ResolvedHistory(next, events[1..]);
      a := if a' >= 0 then a' + 1 else if events[0] == Approve then 0 else -1;
      r := if r' >= 0 then r' + 1 else if events[0] == RetryStart then 0 else -1;
      assert forall k :: 1 <= k < |events| ==> events[k] == events[1..][k - 1];
    }
  }

  /**
   Every accepted history of an incident that ends resolved holds an approval, after it no
   return to diagnosis, then a started retry, and last a retry that succeeded.
   */
  lemma ResolvedNeedsApproval(events: seq<Event>) returns (a: nat, r: nat)
    requires After(InitialState, events) == Some(Resolved)
    ensures a < r < |events| - 1
    ensures events[a] == Approve && events[r] == RetryStart && events[|events| - 1] == RetrySucceeded
    ensures forall k :: a < k < |events| ==> !Reopens(events[k])
  {
    var a', r' := ResolvedHistory(InitialState, events);
    a, r := a', r';
  }
}
