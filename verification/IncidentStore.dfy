/**
 The files of one incident (`training/incidents/store.py`): the snapshot that every mutator
 rewrites atomically, and the proposal's diff beside it. Writes that touch both are ordered so
 that a crash between them never leaves a snapshot without the diff it names.
 */
module IncidentStore {
  import opened Common

  datatype Proposal = Proposal(id: string, patchSha256: string)
  datatype Receipt = Receipt(proposalId: string, appliedSha256: string)

  datatype Incident = Incident(
    status: string, diagnosis: Option<string>, proposal: Option<Proposal>, activeProposal: Option<string>,
    receipt: Option<Receipt>)

  datatype Files = Files(snapshot: Incident, diff: Option<string>)

  /** What the disk does at once: a file is replaced or removed as a whole. */
  datatype Write =
    | ReplaceSnapshot(incident: Incident)
    | ReplaceDiff(patch: string)
    | RemoveDiff

  function Done(f: Files, w: Write): Files {
    match w
    case ReplaceSnapshot(incident) => f.(snapshot := incident)
    case ReplaceDiff(patch) => f.(diff := Some(patch))
    case RemoveDiff => f.(diff := None)
  }

  function AllDone(f: Files, writes: seq<Write>): Files
    decreases |writes|
  {
    if writes == [] then f else AllDone(Done(f, writes[0]), writes[1..])
  }

  /** The store's operations. */
  datatype Operation =
    | WriteProposal(proposal: Proposal, patch: string)
    | ClearProposal
    | ClearAgentArtifacts
    | WriteDiagnosis(diagnosis: string)
    | WriteReceipt(receipt: Receipt)
    | SetStatus(status: string)
    | SetActiveProposal(id: Option<string>)

  /** The writes of an operation, in order. */
  function Writes(f: Files, op: Operation): seq<Write> {
    var i := f.snapshot;
    match op
    case WriteProposal(proposal, patch) => [ReplaceDiff(patch), ReplaceSnapshot(i.(proposal := Some(proposal)))]
    case ClearProposal => [ReplaceSnapshot(i.(proposal := None)), RemoveDiff]
    case ClearAgentArtifacts => [ReplaceSnapshot(i.(diagnosis := None, proposal := None, activeProposal := None)),
                                 RemoveDiff]
    case WriteDiagnosis(diagnosis) => [ReplaceSnapshot(i.(diagnosis := Some(diagnosis)))]
    case WriteReceipt(receipt) => [ReplaceSnapshot(i.(receipt := Some(receipt)))]
    case SetStatus(status) => [ReplaceSnapshot(i.(status := status))]
    case SetActiveProposal(id) => [ReplaceSnapshot(i.(activeProposal := id))]
  }

  /** An operation that a crash may cut after its first `k` writes. */
  datatype Step = Step(op: Operation, k: nat)

  function After(f: Files, s: Step): Files {
    var writes := Writes(f, s.op);
    AllDone(f, writes[..if s.k < |writes| then s.k else |writes|])
  }

  lemma OneDone(f: Files, v: Write)
    ensures AllDone(f, [v]) == Done(f, v)
  {
    assert [v][1..] == [];
    assert AllDone(Done(f, v), []) == Done(f, v);
  }

  lemma TwoDone(f: Files, v: Write, w: Write)
    ensures AllDone(f, [v, w]) == Done(Done(f, v), w)
  {
    assert [v, w][1..] == [w];
    OneDone(Done(f, v), w);
  }

  /** An operation has one write or two, and a crash cuts it before, between or after them. */
  lemma AfterIs(f: Files, s: Step)
    ensures
      var writes := Writes(f, s.op);
      && 1 <= |writes| <= 2
      && After(f, s) ==
         if s.k == 0 then f
         else if s.k == 1 || |writes| == 1 then Done(f, writes[0])
         else Done(Done(f, writes[0]), writes[1])
  {
    var writes := Writes(f, s.op);
    OneDone(f, writes[0]);
    if s.k > 0 {
      assert writes[..1] == [writes[0]];
      if |writes| == 2 {
        TwoDone(f, writes[0], writes[1]);
        assert writes[..2] == [writes[0], writes[1]];
      }
    }
  }

  /** What each operation leaves, field by field, once it is done. */
  lemma OperationDone(f: Files, op: Operation, k: nat)
    requires k >= 2
    ensures
      var t, i := After(f, Step(op, k)), After(f, Step(op, k)).snapshot;
      match op
      case WriteProposal(proposal, patch) =>
        i == f.snapshot.(proposal := Some(proposal)) && t.diff == Some(patch)
      case ClearProposal => i == f.snapshot.(proposal := None) && t.diff.None?
      case ClearAgentArtifacts =>
        && i.diagnosis.None? && i.proposal.None? && i.activeProposal.None? && t.diff.None?
        && i.status == f.snapshot.status && i.receipt == f.snapshot.receipt
      case WriteDiagnosis(diagnosis) => i == f.snapshot.(diagnosis := Some(diagnosis)) && t.diff == f.diff
      case WriteReceipt(receipt) => i == f.snapshot.(receipt := Some(receipt)) && t.diff == f.diff
      case SetStatus(status) => i == f.snapshot.(status := status) && t.diff == f.diff
      case SetActiveProposal(id) => i == f.snapshot.(activeProposal := id) && t.diff == f.diff
  {
    AfterIs(f, Step(op, k));
    hide After;
  }

  /** What a crash between the two writes of an operation leaves: the new diff, or the cleared snapshot. */
  lemma OperationCut(f: Files, op: Operation)
    requires op.WriteProposal? || op.ClearProposal? || op.ClearAgentArtifacts?
    ensures
      var t := After(f, Step(op, 1));
      if op.WriteProposal? then t == f.(diff := Some(op.patch))
      else t.diff == f.diff && t.snapshot == After(f, Step(op, 2)).snapshot && t.snapshot.proposal.None?
  {
    AfterIs(f, Step(op, 1));
    AfterIs(f, Step(op, 2));
    hide After;
  }

  function Run(f: Files, steps: seq<Step>): Files
    decreases |steps|
  {
    if steps == [] then f else Run(After(f, steps[0]), steps[1..])
  }

  // ----- the hash of a diff -----

  /** SHA-256, taken to be injective. */
  type Digest = string -> string

  ghost predicate Injective(sha: Digest) {
    forall a, b :: sha(a) == sha(b) ==> a == b
  }

  /** A proposal is written with the hash of its own diff, as `ProposePatchTool` does. */
  predicate Honest(sha: Digest, op: Operation) {
    op.WriteProposal? ==> op.proposal.patchSha256 == sha(op.patch)
  }

  /** What `_verify_base_state` asks of the diff before it is applied. */
  predicate DiffMatches(sha: Digest, f: Files) {
    f.snapshot.proposal.Some? && f.diff.Some? && sha(f.diff.value) == f.snapshot.proposal.value.patchSha256
  }

  /** A crash has cut the replacement of a proposal between the new diff and the new snapshot. */
  predicate CutReplacement(s: Step) {
    s.op.WriteProposal? && s.k == 1
  }

  /** The last step that touched the diff or the proposal has not cut a replacement. */
  predicate Settled(steps: seq<Step>) {
    steps == [] || (
      var last := steps[|steps| - 1];
      if last.op.WriteProposal? && last.k > 0 then last.k > 1
      else if (last.op.ClearProposal? || last.op.ClearAgentArtifacts?) && last.k > 0 then true
      else Settled(steps[..|steps| - 1]))
  }

  const FRESH := Files(Incident("diagnosing", None, None, None, None), None)

  /** A snapshot that names a proposal has a diff; and the diff is the proposal's own, while `settled`. */
  predicate FilesInv(sha: Digest, f: Files, settled: bool) {
    && (f.snapshot.proposal.Some? ==> f.diff.Some?)
    && (settled && f.snapshot.proposal.Some? ==> DiffMatches(sha, f))
  }

  /** Whether the diff belongs to the snapshot after one more step. */
  function SettledAfter(settled: bool, s: Step): bool {
    if s.op.WriteProposal? && s.k > 0 then s.k > 1
    else if (s.op.ClearProposal? || s.op.ClearAgentArtifacts?) && s.k > 0 then true
    else settled
  }

  lemma StepKeepsFiles(sha: Digest, f: Files, s: Step, settled: bool)
    requires FilesInv(sha, f, settled) && Honest(sha, s.op)
    ensures FilesInv(sha, After(f, s), SettledAfter(settled, s))
  {
    AfterIs(f, s);
    hide After;
  }

  lemma {:induction false} RunKeepsFiles(sha: Digest, f: Files, steps: seq<Step>, settled: bool)
    requires FilesInv(sha, f, settled) && forall i :: 0 <= i < |steps| ==> Honest(sha, steps[i].op)
    ensures FilesInv(sha, Run(f, steps), SettledRun(settled, steps))
    decreases |steps|
  {
    hide After, FilesInv;
    if steps != [] {
      StepKeepsFiles(sha, f, steps[0], settled);
      RunKeepsFiles(sha, After(f, steps[0]), steps[1..], SettledAfter(settled, steps[0]));
    }
  }

  function SettledRun(settled: bool, steps: seq<Step>): bool
    decreases |steps|
  {
    if steps == [] then settled else SettledRun(SettledAfter(settled, steps[0]), steps[1..])
  }

  lemma {:induction false} SettledRunLast(settled: bool, steps: seq<Step>)
    requires steps != []
    ensures SettledRun(settled, steps) == SettledAfter(SettledRun(settled, steps[..|steps| - 1]), steps[|steps| - 1])
    decreases |steps|
  {
    if |steps| > 1 {
      SettledRunLast(SettledAfter(settled, steps[0]), steps[1..]);
      assert steps[1..][..|steps| - 2] == steps[..|steps| - 1][1..];
    } else {
      assert steps[..0] == [];
    }
  }

  lemma {:induction false} SettledIs(steps: seq<Step>)
    ensures SettledRun(true, steps) == Settled(steps)
    decreases |steps|
  {
    if steps != [] {
      SettledRunLast(true, steps);
      SettledIs(steps[..|steps| - 1]);
    }
  }

  /**
   Over every run of the store, cut by crashes anywhere: a snapshot never names a proposal whose
   diff is gone, and the diff is the proposal's own unless a crash has cut its replacement.
   */
  lemma {:induction false} SnapshotNamesItsDiff(sha: Digest, steps: seq<Step>)
    requires forall i :: 0 <= i < |steps| ==> Honest(sha, steps[i].op)
    ensures
      var f := Run(FRESH, steps);
      && (f.snapshot.proposal.Some? ==> f.diff.Some?)
      && (f.snapshot.proposal.Some? && Settled(steps) ==> DiffMatches(sha, f))
  {
    RunKeepsFiles(sha, FRESH, steps, true);
    SettledIs(steps);
  }

  /** A cut replacement leaves the old proposal beside the new diff; its hash refuses it unless they are the same. */
  lemma CutReplacementIsRefused(sha: Digest, f: Files, s: Step)
    requires Injective(sha) && DiffMatches(sha, f) && CutReplacement(s)
    ensures DiffMatches(sha, After(f, s)) <==> s.op.patch == f.diff.value
  {
    AfterIs(f, s);
    hide After;
  }

  // ----- the store -----

  class IncidentStore {
    var snapshot: Incident
    var diff: Option<string>

    /** Every write to the disk so far, in the order it was made. */
    ghost var written: seq<Write>

    constructor ()
      ensures Now() == FRESH && written == []
    {
      snapshot, diff, written := FRESH.snapshot, FRESH.diff, [];
    }

    function Now(): Files
      reads this`snapshot, this`diff
    {
      Files(snapshot, diff)
    }

    /** The disk and the record of writes move together, one write at a time. */
    twostate predicate Made(w: Write)
      reads this
    {
      Now() == Done(old(Now()), w) && written == old(written) + [w]
    }

    /** The writes of a whole operation have been made, in its order and no others. */
    twostate predicate Performed(op: Operation)
      reads this
    {
      && Now() == AllDone(old(Now()), Writes(old(Now()), op))
      && written == old(written) + Writes(old(Now()), op)
    }

    /** `update_incident`: the snapshot is read, changed and replaced. */
    method UpdateIncident(mutator: Incident -> Incident)
      modifies this
      ensures Made(ReplaceSnapshot(mutator(old(snapshot))))
    {
      var incident := mutator(snapshot);
      snapshot, written := incident, written + [ReplaceSnapshot(incident)];
    }

    method WriteDiff(patch: string)
      modifies this
      ensures Made(ReplaceDiff(patch))
    {
      diff, written := Some(patch), written + [ReplaceDiff(patch)];
    }

    method UnlinkDiff()
      modifies this
      ensures Made(RemoveDiff)
    {
      diff, written := None, written + [RemoveDiff];
    }

    method WriteProposal(proposal: Proposal, patch: string)
      modifies this
      ensures Performed(Operation.WriteProposal(proposal, patch))
      ensures Now() == Files(old(snapshot).(proposal := Some(proposal)), Some(patch))
    {
      WriteDiff(patch);
      UpdateIncident((i: Incident) => i.(proposal := Some(proposal)));
      TwoDone(old(Now()), ReplaceDiff(patch), ReplaceSnapshot(snapshot));
    }

    method ClearProposal()
      modifies this
      ensures Performed(Operation.ClearProposal)
      ensures Now() == Files(old(snapshot).(proposal := None), None)
    {
      UpdateIncident((i: Incident) => i.(proposal := None));
      UnlinkDiff();
      TwoDone(old(Now()), ReplaceSnapshot(snapshot), RemoveDiff);
    }

    method ClearAgentArtifacts()
      modifies this
      ensures Performed(Operation.ClearAgentArtifacts)
      ensures Now() == Files(old(snapshot).(diagnosis := None, proposal := None, activeProposal := None), None)
    {
      UpdateIncident((i: Incident) => i.(diagnosis := None, proposal := None, activeProposal := None));
      UnlinkDiff();
      TwoDone(old(Now()), ReplaceSnapshot(snapshot), RemoveDiff);
    }

    method WriteReceipt(receipt: Receipt)
      modifies this
      ensures Performed(Operation.WriteReceipt(receipt))
      ensures Now() == Files(old(snapshot).(receipt := Some(receipt)), old(diff))
    {
      UpdateIncident((i: Incident) => i.(receipt := Some(receipt)));
      OneDone(old(Now()), ReplaceSnapshot(snapshot));
    }
  }
}
