/**
 The job supervisor (`jobs/supervisor.py`): attempts are launched one at a time under a lock,
 watched by a monitor, cancelled on request, and recorded in job.json, attempt.json and the
 event log. Each step below is the code between two awaits.
 */
module Supervisor {
  import opened Common

  type JobId = string

  datatype Status = Starting | Running | Succeeded | Failed | Cancelled
  datatype FailureKind = LaunchError | ProcessExit | SupervisorError
  datatype EventType = JobStarted | JobSucceeded | JobFailed | JobCancelled

  datatype JobRecord = JobRecord(status: Status, current: Option<string>, attemptIds: seq<string>)
  datatype AttemptRecord = AttemptRecord(
    id: string, status: Status, launched: bool, returncode: Option<int>, error: Option<string>,
    failure: Option<FailureKind>)
  datatype LogEvent = LogEvent(kind: EventType, attempt: string, status: Status)

  /** What is on disk for one job. */
  datatype JobFiles = JobFiles(record: JobRecord, attempts: map<string, AttemptRecord>, log: seq<LogEvent>)

  /** A running attempt: whether its cancellation was requested, and its process's return code once that has exited. */
  datatype Process = Process(cancelRequested: bool, returncode: Option<int>)

  /** The disk, the running attempts, and the launch that holds the lock. */
  datatype State = State(
    files: map<JobId, JobFiles>, running: map<JobId, Process>, launching: Option<JobId>, accepting: bool)

  datatype Action =
    | StopStarting
    | Start(job: JobId)
    | Retry(job: JobId)
    | LaunchSucceeds
    | LaunchFails(error: string)
    | Cancel(job: JobId)
    | ProcessExits(job: JobId, returncode: int)
    | MonitorEnds(job: JobId, persistenceError: Option<string>)

  // ----- attempt names -----

  function Padded(digits: string): string
    decreases 4 - |digits|
  {
    if |digits| >= 4 then digits else Padded("0" + digits)
  }

  /** `attempt-0001`, `attempt-0002`, ... */
  function AttemptName(n: nat): string {
    "attempt-" + Padded(Decimal(n))
  }

  lemma {:induction false} PaddedValue(digits: string)
    requires forall i :: 0 <= i < |digits| ==> IsDigit(digits[i])
    ensures forall i :: 0 <= i < |Padded(digits)| ==> IsDigit(Padded(digits)[i])
    ensures DecimalValue(Padded(digits)) == DecimalValue(digits)
    decreases 4 - |digits|
  {
    if |digits| < 4 {
      LeadingZero(digits);
      PaddedValue("0" + digits);
    }
  }

  lemma {:induction false} LeadingZero(digits: string)
    requires forall i :: 0 <= i < |digits| ==> IsDigit(digits[i])
    ensures DecimalValue("0" + digits) == DecimalValue(digits)
  {
    var more := "0" + digits;
    if digits == "" {
      assert more == "0" && more[..0] == "";
    } else {
      assert more[..|more| - 1] == "0" + digits[..|digits| - 1];
      LeadingZero(digits[..|digits| - 1]);
    }
  }

  lemma NamesDiffer(m: nat, n: nat)
    requires AttemptName(m) == AttemptName(n)
    ensures m == n
  {
    PaddedValue(Decimal(m));
    PaddedValue(Decimal(n));
    DecimalRoundTrip(m);
    DecimalRoundTrip(n);
    assert AttemptName(m)[8..] == Padded(Decimal(m)) && AttemptName(n)[8..] == Padded(Decimal(n));
  }

  // ----- steps -----

  function Finished(a: AttemptRecord, cancelled: bool, returncode: int,
                    persistenceError: Option<string>): AttemptRecord {
    var b := a.(returncode := Some(returncode));
    if cancelled then b.(status := Cancelled)
    else if persistenceError.Some?
    then b.(status := Failed, error := persistenceError, failure := Some(SupervisorError))
    else if returncode == 0 then b.(status := Succeeded)
    else b.(status := Failed, failure := Some(ProcessExit))
  }

  function FinalEvent(status: Status): EventType {
    match status
    case Cancelled => JobCancelled
    case Succeeded => JobSucceeded
    case _ => JobFailed
  }

  /** The head of `_launch`: the next attempt, recorded as starting. */
  function BeginAttempt(f: JobFiles): JobFiles {
    var id := AttemptName(|f.record.attemptIds| + 1);
    JobFiles(
      JobRecord(Starting, Some(id), f.record.attemptIds + [id]),
      f.attempts[id := AttemptRecord(id, Starting, false, None, None, None)],
      f.log)
  }

  /** The attempt, the job and an event written with one status. */
  function Recorded(f: JobFiles, a: AttemptRecord, kind: EventType): JobFiles {
    JobFiles(f.record.(status := a.status), f.attempts[a.id := a], f.log + [LogEvent(kind, a.id, a.status)])
  }

  predicate HasCurrent(f: JobFiles) {
    f.record.current.Some? && f.record.current.value in f.attempts
  }

  function Current(f: JobFiles): AttemptRecord
    requires HasCurrent(f)
  {
    f.attempts[f.record.current.value]
  }

  /** One step, or none when it cannot happen or raises without a change. */
  function Step(s: State, a: Action): Option<State> {
    match a
    case StopStarting => Some(s.(accepting := false))
    case Start(job) =>
      if s.launching.Some? || !s.accepting || job in s.files then None
      else Some(s.(files := s.files[job := BeginAttempt(JobFiles(JobRecord(Starting, None, []), map[], []))],
                   launching := Some(job)))
    case Retry(job) =>
      if s.launching.Some? || !s.accepting || job in s.running || job !in s.files then None
      else Some(s.(files := s.files[job := BeginAttempt(s.files[job])], launching := Some(job)))
    case LaunchSucceeds =>
      if s.launching.None? || s.launching.value !in s.files || !HasCurrent(s.files[s.launching.value]) then None
      else
        var job := s.launching.value;
        var attempt := Current(s.files[job]).(status := Running, launched := true);
        Some(s.(files := s.files[job := Recorded(s.files[job], attempt, JobStarted)],
                running := s.running[job := Process(false, None)], launching := None))
    case LaunchFails(error) =>
      if s.launching.None? || s.launching.value !in s.files || !HasCurrent(s.files[s.launching.value]) then None
      else
        var job := s.launching.value;
        var attempt := Current(s.files[job]).(status := Failed, error := Some(error), failure := Some(LaunchError));
        Some(s.(files := s.files[job := Recorded(s.files[job], attempt, JobFailed)], launching := None))
    case Cancel(job) =>
      if job !in s.running || s.running[job].returncode.Some? then None
      else Some(s.(running := s.running[job := s.running[job].(cancelRequested := true)]))
    case ProcessExits(job, returncode) =>
      if job !in s.running || s.running[job].returncode.Some? then None
      else Some(s.(running := s.running[job := s.running[job].(returncode := Some(returncode))]))
    case MonitorEnds(job, persistenceError) =>
      if job !in s.running || s.running[job].returncode.None? || job !in s.files || !HasCurrent(s.files[job]) then None
      else
        var p := s.running[job];
        var attempt := Finished(Current(s.files[job]), p.cancelRequested, p.returncode.value, persistenceError);
        Some(s.(files := s.files[job := Recorded(s.files[job], attempt, FinalEvent(attempt.status))],
                running := s.running - {job}))
  }

  // ----- what every step keeps -----

  predicate Active(status: Status) {
    status.Starting? || status.Running?
  }

  /** The events an attempt has logged, told from its record. */
  function EventsOf(a: AttemptRecord): seq<LogEvent> {
    (if a.launched then [LogEvent(JobStarted, a.id, Running)] else [])
    + if Active(a.status) then [] else [LogEvent(FinalEvent(a.status), a.id, a.status)]
  }

  function LogOf(attempts: map<string, AttemptRecord>, n: nat): seq<LogEvent>
    requires forall k :: 1 <= k <= n ==> AttemptName(k) in attempts
  {
    if n == 0 then [] else LogOf(attempts, n - 1) + EventsOf(attempts[AttemptName(n)])
  }

  /** An attempt's record is what its process did. */
  predicate RecordOk(a: AttemptRecord) {
    match a.status
    case Starting => !a.launched && a.returncode.None? && a.failure.None? && a.error.None?
    case Running => a.launched && a.returncode.None? && a.failure.None? && a.error.None?
    case Succeeded => a.launched && a.returncode == Some(0) && a.failure.None? && a.error.None?
    case Cancelled => a.launched && a.returncode.Some? && a.failure.None?
    case Failed =>
      if a.returncode.None? then !a.launched && a.failure == Some(LaunchError) && a.error.Some?
      else
        && a.launched && a.failure == Some(if a.error.Some? then SupervisorError else ProcessExit)
        && (a.error.None? ==> a.returncode != Some(0))
  }

  predicate JobOk(f: JobFiles) {
    var n := |f.record.attemptIds|;
    && n > 0
    && (forall k :: 1 <= k <= n ==> f.record.attemptIds[k - 1] == AttemptName(k) && AttemptName(k) in f.attempts)
    && (forall k :: 1 <= k <= n ==>
           f.attempts[AttemptName(k)].id == AttemptName(k) && RecordOk(f.attempts[AttemptName(k)]))
    && (forall k :: 1 <= k < n ==> !Active(f.attempts[AttemptName(k)].status))
    && f.record.current == Some(AttemptName(n)) && f.record.status == f.attempts[AttemptName(n)].status
    && f.log == LogOf(f.attempts, n)
  }

  predicate Inv(s: State) {
    && (forall job :: job in s.files ==> JobOk(s.files[job]))
    && (forall job :: job in s.files ==> (s.files[job].record.status.Running? <==> job in s.running))
    && (forall job :: job in s.files ==> (s.files[job].record.status.Starting? <==> s.launching == Some(job)))
    && (forall job :: job in s.running ==> job in s.files)
    && (s.launching.Some? ==> s.launching.value in s.files)
  }

  lemma {:induction false} LogOfFrame(before: map<string, AttemptRecord>, after: map<string, AttemptRecord>, n: nat)
    requires forall k :: 1 <= k <= n ==>
      AttemptName(k) in before && AttemptName(k) in after && before[AttemptName(k)] == after[AttemptName(k)]
    ensures LogOf(before, n) == LogOf(after, n)
  {
    if n > 0 {
      LogOfFrame(before, after, n - 1);
    }
  }

  lemma BeginKeepsJob(f: JobFiles)
    requires f.record.attemptIds == [] ==> f.log == []
    requires f.record.attemptIds != [] ==> JobOk(f) && !Active(f.record.status)
    ensures JobOk(BeginAttempt(f)) && BeginAttempt(f).record.status.Starting?
  {
    hide AttemptName;
    var n, g := |f.record.attemptIds|, BeginAttempt(f);
    forall k | 1 <= k <= n
      ensures AttemptName(k) != AttemptName(n + 1)
    {
      if AttemptName(k) == AttemptName(n + 1) {
        NamesDiffer(k, n + 1);
      }
    }
    LogOfFrame(f.attempts, g.attempts, n);
    assert EventsOf(g.attempts[AttemptName(n + 1)]) == [];
    forall k | 1 <= k <= n + 1
      ensures g.record.attemptIds[k - 1] == AttemptName(k)
    {
      if k <= n {
        assert g.record.attemptIds[k - 1] == f.record.attemptIds[k - 1];
      }
    }
  }

  lemma RecordKeepsJob(f: JobFiles, a: AttemptRecord, kind: EventType)
    requires JobOk(f) && a.id == Current(f).id && RecordOk(a)
    requires EventsOf(a) == EventsOf(Current(f)) + [LogEvent(kind, a.id, a.status)]
    ensures JobOk(Recorded(f, a, kind))
  {
    hide AttemptName;
    var n, g := |f.record.attemptIds|, Recorded(f, a, kind);
    forall k | 1 <= k < n
      ensures AttemptName(k) != AttemptName(n)
    {
      if AttemptName(k) == AttemptName(n) {
        NamesDiffer(k, n);
      }
    }
    LogOfFrame(f.attempts, g.attempts, n - 1);
    assert g.log == LogOf(f.attempts, n - 1) + EventsOf(Current(f)) + [LogEvent(kind, a.id, a.status)];
  }

  /** The launch in progress belongs to a job whose last attempt is starting, and a running job's is running. */
  lemma CurrentIs(f: JobFiles)
    requires JobOk(f)
    ensures HasCurrent(f) && RecordOk(Current(f)) && Current(f).status == f.record.status
  {
  }

  lemma LaunchEndsKeepInv(s: State, a: Action)
    requires Inv(s) && (a.LaunchSucceeds? || a.LaunchFails?) && Step(s, a).Some?
    ensures Inv(Step(s, a).value)
  {
    hide JobOk, RecordOk, EventsOf;
    var job := s.launching.value;
    var f := s.files[job];
    CurrentIs(f);
    var attempt := if a.LaunchSucceeds? then Current(f).(status := Running, launched := true)
                   else Current(f).(status := Failed, error := Some(a.error), failure := Some(LaunchError));
    var kind := if a.LaunchSucceeds? then JobStarted else JobFailed;
    AttemptMoves(Current(f), attempt, kind);
    RecordKeepsJob(f, attempt, kind);
  }

  lemma MonitorEndsKeepsInv(s: State, job: JobId, persistenceError: Option<string>)
    requires Inv(s) && Step(s, MonitorEnds(job, persistenceError)).Some?
    ensures Inv(Step(s, MonitorEnds(job, persistenceError)).value)
  {
    hide JobOk, RecordOk, EventsOf;
    var f := s.files[job];
    CurrentIs(f);
    var attempt := Finished(Current(f), s.running[job].cancelRequested, s.running[job].returncode.value,
                            persistenceError);
    AttemptMoves(Current(f), attempt, FinalEvent(attempt.status));
    RecordKeepsJob(f, attempt, FinalEvent(attempt.status));
  }

  /** The three ways an active attempt moves on, and the event that tells of each. */
  lemma AttemptMoves(a: AttemptRecord, b: AttemptRecord, kind: EventType)
    requires RecordOk(a) && a.id == b.id
    requires
      || (a.status.Starting? && kind.JobStarted? && b == a.(status := Running, launched := true))
      || (a.status.Starting? && kind.JobFailed? && b.error.Some?
          && b == a.(status := Failed, error := b.error, failure := Some(LaunchError)))
      || (a.status.Running? && kind == FinalEvent(b.status) && exists c, r, e :: b == Finished(a, c, r, e))
    ensures RecordOk(b) && EventsOf(b) == EventsOf(a) + [LogEvent(kind, b.id, b.status)]
  {
  }

  lemma BeginKeepsInv(s: State, a: Action)
    requires Inv(s) && (a.Start? || a.Retry?) && Step(s, a).Some?
    ensures Inv(Step(s, a).value)
  {
    hide JobOk;
    if a.Start? {
      BeginKeepsJob(JobFiles(JobRecord(Starting, None, []), map[], []));
    } else {
      CurrentIs(s.files[a.job]);
      HasAttempts(s.files[a.job]);
      BeginKeepsJob(s.files[a.job]);
    }
  }

  lemma HasAttempts(f: JobFiles)
    requires JobOk(f)
    ensures f.record.attemptIds != []
  {
  }

  lemma StepKeepsInv(s: State, a: Action)
    requires Inv(s) && Step(s, a).Some?
    ensures Inv(Step(s, a).value)
  {
    hide JobOk;
    match a
    case StopStarting =>
    case Start(_) => BeginKeepsInv(s, a);
    case Retry(_) => BeginKeepsInv(s, a);
    case LaunchSucceeds => LaunchEndsKeepInv(s, a);
    case LaunchFails(_) => LaunchEndsKeepInv(s, a);
    case Cancel(_) =>
    case ProcessExits(_, _) =>
    case MonitorEnds(job, persistenceError) => MonitorEndsKeepsInv(s, job, persistenceError);
  }

  // ----- whole runs -----

  const EMPTY := State(map[], map[], None, true)

  function Run(s: State, actions: seq<Action>): Option<State>
    decreases |actions|
  {
    if actions == [] then Some(s)
    else
      match Step(s, actions[0])
      case None => None
      case Some(t) => Run(t, actions[1..])
  }

  lemma {:induction false} RunKeepsInv(s: State, actions: seq<Action>)
    requires Inv(s) && Run(s, actions).Some?
    ensures Inv(Run(s, actions).value)
    decreases |actions|
  {
    hide Inv, Step;
    if actions != [] {
      StepKeepsInv(s, actions[0]);
      RunKeepsInv(Step(s, actions[0]).value, actions[1..]);
    }
  }

  /** `find_attempt_event` over any type: the last event an attempt has logged. */
  function LastEventOf(log: seq<LogEvent>, attempt: string): Option<LogEvent> {
    if log == [] then None
    else if log[|log| - 1].attempt == attempt then Some(log[|log| - 1])
    else LastEventOf(log[..|log| - 1], attempt)
  }

  lemma {:induction false} LastOfAppended(log: seq<LogEvent>, events: seq<LogEvent>, attempt: string)
    ensures LastEventOf(log + events, attempt) ==
      if LastEventOf(events, attempt).Some? then LastEventOf(events, attempt) else LastEventOf(log, attempt)
    decreases |events|
  {
    if events == [] {
      assert log + events == log;
    } else {
      var front := events[..|events| - 1];
      assert (log + events)[..|log + events| - 1] == log + front;
      LastOfAppended(log, front, attempt);
    }
  }

  lemma OwnEventsOnly(a: AttemptRecord, other: string)
    requires a.id != other
    ensures LastEventOf(EventsOf(a), other).None?
  {
    var started := if a.launched then [LogEvent(JobStarted, a.id, Running)] else [];
    var ended := if Active(a.status) then [] else [LogEvent(FinalEvent(a.status), a.id, a.status)];
    LastOfAppended(started, ended, other);
    assert |started| == 1 ==> started[..0] == [];
    assert |ended| == 1 ==> ended[..0] == [];
  }

  lemma {:induction false} NotLoggedBefore(attempts: map<string, AttemptRecord>, n: nat, m: nat)
    requires n < m && forall k :: 1 <= k <= n ==>
      AttemptName(k) in attempts && attempts[AttemptName(k)].id == AttemptName(k)
    ensures LastEventOf(LogOf(attempts, n), AttemptName(m)).None?
  {
    hide AttemptName, Padded;
    if n > 0 {
      NotLoggedBefore(attempts, n - 1, m);
      if AttemptName(n) == AttemptName(m) {
        NamesDiffer(n, m);
      }
      LastOfAppended(LogOf(attempts, n - 1), EventsOf(attempts[AttemptName(n)]), AttemptName(m));
      OwnEventsOnly(attempts[AttemptName(n)], AttemptName(m));
    }
  }

  lemma LastOwnEvent(a: AttemptRecord)
    requires RecordOk(a)
    ensures var last := LastEventOf(EventsOf(a), a.id); a.status == if last.Some? then last.value.status else Starting
  {
  }

  /** The job's status is that of its current attempt and of the last event that attempt has logged. */
  lemma StatusIsLastLogged(f: JobFiles)
    requires JobOk(f)
    ensures
      var last := LastEventOf(f.log, f.record.current.value);
      f.record.status == Current(f).status == if last.Some? then last.value.status else Starting
  {
    hide AttemptName, Padded;
    var n := |f.record.attemptIds|;
    NotLoggedBefore(f.attempts, n - 1, n);
    LastOfAppended(LogOf(f.attempts, n - 1), EventsOf(Current(f)), f.record.current.value);
    LastOwnEvent(Current(f));
  }

  /**
   At every suspension point of every run without a crash, and for every job: the attempts are
   named 1 to n, only the last may be active, the log is what the attempts' records tell, the
   job's status is its current attempt's and that of the attempt's last event, and a job has
   succeeded only when its attempt ended with 0, uncancelled and with its log written.
   */
  lemma SupervisorRun(actions: seq<Action>, t: State, job: JobId)
    requires Run(EMPTY, actions) == Some(t) && job in t.files
    ensures JobOk(t.files[job])
    ensures
      var f := t.files[job];
      var last := LastEventOf(f.log, f.record.current.value);
      f.record.status == Current(f).status == if last.Some? then last.value.status else Starting
    ensures t.files[job].record.status.Succeeded? ==>
      RecordOk(Current(t.files[job])) && Current(t.files[job]).returncode == Some(0)
    ensures t.files[job].record.status.Running? <==> job in t.running
  {
    hide JobOk, Step, AttemptName;
    RunKeepsInv(EMPTY, actions);
    StatusIsLastLogged(t.files[job]);
    CurrentIs(t.files[job]);
  }

  // ----- how attempts end -----

  predicate Ends(a: Action, job: JobId) {
    a.MonitorEnds? && a.job == job
  }

  /** The cancellation of a job has been asked for since its last attempt ended. */
  predicate Asked(actions: seq<Action>, job: JobId) {
    exists i :: 0 <= i < |actions| && actions[i] == Cancel(job)
                && forall j :: i < j < |actions| ==> !Ends(actions[j], job)
  }

  /** The job's process has exited with this code since its last attempt ended. */
  predicate Exited(actions: seq<Action>, job: JobId, returncode: int) {
    exists i :: 0 <= i < |actions| && actions[i] == ProcessExits(job, returncode)
                && forall j :: i < j < |actions| ==> !Ends(actions[j], job)
  }

  lemma AskedOneMore(actions: seq<Action>, a: Action, job: JobId)
    ensures Asked(actions + [a], job) <==> a == Cancel(job) || (Asked(actions, job) && !Ends(a, job))
  {
    var more := actions + [a];
    assert more[|actions|] == a && forall j :: 0 <= j < |actions| ==> more[j] == actions[j];
    if Asked(actions, job) && !Ends(a, job) {
      var i :| 0 <= i < |actions| && actions[i] == Cancel(job)
               && forall j :: i < j < |actions| ==> !Ends(actions[j], job);
      assert more[i] == Cancel(job) && forall j :: i < j < |more| ==> !Ends(more[j], job);
    }
    if Asked(more, job) && a != Cancel(job) {
      var i :| 0 <= i < |more| && more[i] == Cancel(job) && forall j :: i < j < |more| ==> !Ends(more[j], job);
      assert actions[i] == Cancel(job) && forall j :: i < j < |actions| ==> !Ends(more[j], job);
    }
  }

  lemma ExitedOneMore(actions: seq<Action>, a: Action, job: JobId, returncode: int)
    ensures
      Exited(actions + [a], job, returncode) <==>
      a == ProcessExits(job, returncode) || (Exited(actions, job, returncode) && !Ends(a, job))
  {
    var more := actions + [a];
    assert more[|actions|] == a && forall j :: 0 <= j < |actions| ==> more[j] == actions[j];
    if Exited(actions, job, returncode) && !Ends(a, job) {
      var i :| 0 <= i < |actions| && actions[i] == ProcessExits(job, returncode)
               && forall j :: i < j < |actions| ==> !Ends(actions[j], job);
      assert more[i] == ProcessExits(job, returncode) && forall j :: i < j < |more| ==> !Ends(more[j], job);
    }
    if Exited(more, job, returncode) && a != ProcessExits(job, returncode) {
      var i :| 0 <= i < |more| && more[i] == ProcessExits(job, returncode)
               && forall j :: i < j < |more| ==> !Ends(more[j], job);
      assert actions[i] == ProcessExits(job, returncode) && forall j :: i < j < |actions| ==> !Ends(more[j], job);
    }
  }

  lemma {:induction false} RunOneMore(s: State, actions: seq<Action>, a: Action)
    requires Run(s, actions + [a]).Some?
    ensures Run(s, actions).Some? && Step(Run(s, actions).value, a) == Run(s, actions + [a])
    decreases |actions|
  {
    hide Step;
    var more := actions + [a];
    if actions == [] {
      assert more[0] == a && more[1..] == [];
    } else {
      assert more[0] == actions[0] && more[1..] == actions[1..] + [a];
      RunOneMore(Step(s, actions[0]).value, actions[1..], a);
    }
  }

  /** What a step changes of the process of one job. */
  lemma StepProcess(s: State, a: Action, job: JobId, t: State)
    requires Inv(s) && Step(s, a) == Some(t)
    ensures job in t.running ==> !Ends(a, job)
    ensures job in t.running && job !in s.running ==> t.running[job] == Process(false, None)
    ensures job in t.running && job in s.running ==>
      && t.running[job].cancelRequested == (s.running[job].cancelRequested || a == Cancel(job))
      && t.running[job].returncode ==
         if a.ProcessExits? && a.job == job then Some(a.returncode) else s.running[job].returncode
    ensures job !in t.running ==> job !in s.running || Ends(a, job)
    ensures a == Cancel(job) || (a.ProcessExits? && a.job == job) ==>
      job in s.running && job in t.running && s.running[job].returncode.None?
  {
    hide JobOk, BeginAttempt, Recorded, Finished;
  }

  /** The process of a running job has been asked to end, and has exited, just as the actions say. */
  lemma {:induction false} ProcessHistory(actions: seq<Action>, t: State, job: JobId)
    requires Run(EMPTY, actions) == Some(t)
    ensures Asked(actions, job) <==> job in t.running && t.running[job].cancelRequested
    ensures forall rc :: Exited(actions, job, rc) <==> job in t.running && t.running[job].returncode == Some(rc)
    decreases |actions|
  {
    hide Inv, Step, Asked, Exited;
    NothingAsked(job);
    if actions != [] {
      var front, last := actions[..|actions| - 1], actions[|actions| - 1];
      assert actions == front + [last];
      RunOneMore(EMPTY, front, last);
      var s := Run(EMPTY, front).value;
      ProcessHistory(front, s, job);
      RunKeepsInv(EMPTY, front);
      StepProcess(s, last, job, t);
      AskedOneMore(front, last, job);
      forall rc
        ensures Exited(actions, job, rc) <==> job in t.running && t.running[job].returncode == Some(rc)
      {
        ExitedOneMore(front, last, job, rc);
      }
    }
  }

  lemma NothingAsked(job: JobId)
    ensures !Asked([], job) && forall rc :: !Exited([], job, rc)
    ensures Run(EMPTY, []) == Some(EMPTY) && job !in EMPTY.running && Inv(EMPTY)
  {
  }

  /** The end of a monitor, as the files tell it. */
  lemma MonitorRecords(s: State, job: JobId, persistenceError: Option<string>, t: State)
    requires Inv(s) && Step(s, MonitorEnds(job, persistenceError)) == Some(t)
    ensures job in s.running && s.running[job].returncode.Some? && job !in t.running
    ensures job in s.files && HasCurrent(s.files[job]) && Current(s.files[job]).status.Running?
    ensures RecordOk(Current(s.files[job]))
    ensures
      var p, f := s.running[job], s.files[job];
      var attempt := Finished(Current(f), p.cancelRequested, p.returncode.value, persistenceError);
      && job in t.files && HasCurrent(t.files[job]) && Current(t.files[job]) == attempt
      && t.files[job].record == f.record.(status := attempt.status)
      && t.files[job].log == f.log + [LogEvent(FinalEvent(attempt.status), attempt.id, attempt.status)]
  {
    hide JobOk, RecordOk, Finished, FinalEvent;
    CurrentIs(s.files[job]);
    CurrentNamed(s.files[job]);
    FinishedNamed(Current(s.files[job]), s.running[job], persistenceError);
  }

  lemma FinishedNamed(a: AttemptRecord, p: Process, persistenceError: Option<string>)
    ensures p.returncode.Some? ==> Finished(a, p.cancelRequested, p.returncode.value, persistenceError).id == a.id
  {
  }

  lemma CurrentNamed(f: JobFiles)
    requires JobOk(f)
    ensures HasCurrent(f) && f.record.current == Some(Current(f).id)
  {
  }

  /**
   How an attempt ends, in every run without a crash: cancelled exactly when its cancellation was asked for
   before its process exited, otherwise failed when its log could not be written, and otherwise by its
   return code; the record, the job and one more event say so.
   */
  lemma AttemptEnds(actions: seq<Action>, s: State, job: JobId, persistenceError: Option<string>, t: State)
    requires Run(EMPTY, actions) == Some(s) && Step(s, MonitorEnds(job, persistenceError)) == Some(t)
    ensures job in t.files && job in s.files && HasCurrent(t.files[job]) && job !in t.running
    ensures
      var attempt := Current(t.files[job]);
      && attempt.returncode.Some? && Exited(actions, job, attempt.returncode.value)
      && attempt.status == (if Asked(actions, job) then Cancelled
                            else if persistenceError.None? && attempt.returncode == Some(0) then Succeeded
                            else Failed)
      && attempt.error == (if attempt.status.Failed? then persistenceError else None)
      && attempt.failure == (if !attempt.status.Failed? then None
                             else Some(if persistenceError.Some? then SupervisorError else ProcessExit))
    ensures
      var attempt, f, before := Current(t.files[job]), t.files[job], s.files[job];
      && f.record == before.record.(status := attempt.status)
      && |f.log| == |before.log| + 1 && f.log[..|before.log|] == before.log
      && f.log[|before.log|].attempt == attempt.id && f.log[|before.log|].status == attempt.status
      && (f.log[|before.log|].kind.JobCancelled? <==> Asked(actions, job))
      && (f.log[|before.log|].kind.JobSucceeded? <==> attempt.status.Succeeded?)
      && (f.log[|before.log|].kind.JobFailed? <==> attempt.status.Failed?)
  {
    hide Inv, Step, Asked, Exited, JobOk, HasCurrent, Current;
    NothingAsked(job);
    ProcessHistory(actions, s, job);
    RunKeepsInv(EMPTY, actions);
    MonitorRecords(s, job, persistenceError, t);
  }

  // ----- shutting down -----

  predicate Begins(a: Action) {
    a.Start? || a.Retry?
  }

  lemma StepAccepts(s: State, a: Action, t: State)
    requires Step(s, a) == Some(t)
    ensures t.accepting == (s.accepting && !a.StopStarting?) && (Begins(a) ==> s.accepting)
  {
    hide BeginAttempt, Recorded, Finished;
  }

  /** Once the supervisor has stopped starting, no attempt begins any more. */
  lemma {:induction false} NothingBeginsAfterStop(s: State, actions: seq<Action>, i: nat)
    requires Run(s, actions).Some? && i < |actions| && Begins(actions[i])
    ensures s.accepting && forall k :: 0 <= k < i ==> !actions[k].StopStarting?
    decreases |actions|
  {
    hide Step, Begins;
    var next := Step(s, actions[0]).value;
    StepAccepts(s, actions[0], next);
    if i > 0 {
      assert actions[1..][i - 1] == actions[i];
      NothingBeginsAfterStop(next, actions[1..], i - 1);
      assert forall k :: 0 < k < i ==> actions[1..][k - 1] == actions[k];
    }
  }

  // ----- the supervisor -----

  lemma JobsHaveCurrent(s: State)
    requires Inv(s)
    ensures forall job :: job in s.running ==> job in s.files && HasCurrent(s.files[job])
    ensures s.launching.Some? ==> s.launching.value in s.files && HasCurrent(s.files[s.launching.value])
  {
  }

  class JobSupervisor {
    var files: map<JobId, JobFiles>
    var running: map<JobId, Process>
    var launching: Option<JobId>
    var accepting: bool

    constructor ()
      ensures Now() == EMPTY
    {
      files, running, launching, accepting := map[], map[], None, true;
    }

    function Now(): State
      reads this
    {
      State(files, running, launching, accepting)
    }

    method StopStarting()
      modifies this`accepting
      ensures Step(old(Now()), Action.StopStarting) == Some(Now())
    {
      accepting := false;
    }

    /** `start` up to the launch of the process; false when it raises. */
    method Start(job: JobId) returns (ok: bool)
      requires launching.None? && job !in files
      modifies this`files, this`launching
      ensures if ok then Step(old(Now()), Action.Start(job)) == Some(Now()) else Now() == old(Now()) && !accepting
    {
      if !accepting {
        return false;
      }
      files := files[job := JobFiles(JobRecord(Starting, None, []), map[], [])];
      BeginLaunch(job);
      assert files == old(files)[job := BeginAttempt(JobFiles(JobRecord(Starting, None, []), map[], []))];
      ok := true;
    }

    /** `retry` up to the launch of the process; false when it raises. */
    method Retry(job: JobId) returns (ok: bool)
      requires launching.None? && job in files
      modifies this`files, this`launching
      ensures if ok then Step(old(Now()), Action.Retry(job)) == Some(Now())
              else Now() == old(Now()) && (!accepting || job in running)
    {
      if !accepting || job in running {
        return false;
      }
      BeginLaunch(job);
      ok := true;
    }

    /** The head of `_launch`. */
    method BeginLaunch(job: JobId)
      requires job in files
      modifies this`files, this`launching
      ensures files == old(files)[job := BeginAttempt(old(files)[job])] && launching == Some(job)
    {
      var record, attempts := files[job].record, files[job].attempts;
      var id := AttemptName(|record.attemptIds| + 1);
      record := JobRecord(Status.Starting, Some(id), record.attemptIds + [id]);
      attempts := attempts[id := AttemptRecord(id, Status.Starting, false, None, None, None)];
      files := files[job := JobFiles(record, attempts, files[job].log)];
      launching := Some(job);
    }

    /** The records of an attempt, of its job and of the event that both have reached. */
    method Record(job: JobId, attempt: AttemptRecord, kind: EventType)
      requires job in files
      modifies this`files
      ensures files == old(files)[job := Recorded(old(files)[job], attempt, kind)]
    {
      var f := files[job];
      f := f.(attempts := f.attempts[attempt.id := attempt]);
      f := f.(record := f.record.(status := attempt.status));
      f := f.(log := f.log + [LogEvent(kind, attempt.id, attempt.status)]);
      files := files[job := f];
    }

    /** `_launch` once the process exists. */
    method LaunchSucceeds()
      requires Inv(Now()) && launching.Some?
      modifies this
      ensures Step(old(Now()), Action.LaunchSucceeds) == Some(Now())
    {
      hide Inv;
      JobsHaveCurrent(Now());
      var job := launching.value;
      var attempt := files[job].attempts[files[job].record.current.value];
      attempt := attempt.(status := Running, launched := true);
      Record(job, attempt, JobStarted);
      running := running[job := Process(false, None)];
      launching := None;
    }

    /** `_record_launch_failure`. */
    method LaunchFails(error: string)
      requires Inv(Now()) && launching.Some?
      modifies this
      ensures Step(old(Now()), Action.LaunchFails(error)) == Some(Now())
    {
      hide Inv;
      JobsHaveCurrent(Now());
      var job := launching.value;
      var attempt := files[job].attempts[files[job].record.current.value];
      attempt := attempt.(status := Failed, error := Some(error), failure := Some(LaunchError));
      Record(job, attempt, JobFailed);
      launching := None;
    }

    /** `cancel` up to the signal: a process that has already exited stays uncancelled. */
    method Cancel(job: JobId)
      modifies this`running
      ensures
        if job in old(running) && old(running)[job].returncode.None?
        then Step(old(Now()), Action.Cancel(job)) == Some(Now()) else Now() == old(Now())
    {
      if job !in running || running[job].returncode.Some? {
        return;
      }
      running := running[job := running[job].(cancelRequested := true)];
    }

    /** The event loop sees the process exit. */
    method ProcessExits(job: JobId, returncode: int)
      requires job in running && running[job].returncode.None?
      modifies this`running
      ensures Step(old(Now()), Action.ProcessExits(job, returncode)) == Some(Now())
    {
      running := running[job := running[job].(returncode := Some(returncode))];
    }

    /** `_monitor` once the process has exited and its output is drained. */
    method MonitorEnds(job: JobId, persistenceError: Option<string>)
      requires Inv(Now()) && job in running && running[job].returncode.Some?
      modifies this`files, this`running
      ensures Step(old(Now()), Action.MonitorEnds(job, persistenceError)) == Some(Now())
    {
      hide Inv;
      JobsHaveCurrent(Now());
      var process := running[job];
      var returncode := process.returncode.value;
      var attempt := files[job].attempts[files[job].record.current.value].(returncode := Some(returncode));
      var kind;
      ghost var finished := Finished(Current(files[job]), process.cancelRequested, returncode, persistenceError);
      if process.cancelRequested {
        attempt, kind := attempt.(status := Cancelled), JobCancelled;
      } else if persistenceError.Some? {
        attempt := attempt.(status := Failed, error := persistenceError, failure := Some(SupervisorError));
        kind := JobFailed;
      } else if returncode == 0 {
        attempt, kind := attempt.(status := Succeeded), JobSucceeded;
      } else {
        attempt, kind := attempt.(status := Failed, failure := Some(ProcessExit)), JobFailed;
      }
      assert attempt == finished && kind == FinalEvent(finished.status);
      Record(job, attempt, kind);
      running := running - {job};
    }
  }
}
