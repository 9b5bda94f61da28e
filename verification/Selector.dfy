/**
 Choosing evidence from both logs within a byte budget (`select_evidence` in
 `training/incidents/selector.py`): candidates in a fixed order, each rendered whole or trimmed,
 and room kept for a traceback's final exception line.
 */
module Selector {
  import opened Common
  import opened Utf8
  import opened LogScan

  /** The JSON header of a block, which names its stream, byte range and description. */
  type Header = (Source, nat, nat, Kind) -> seq<Byte>

  /** `_render`: header, newline and decoded content. */
  function Render(h: Header, c: Candidate): seq<Byte> {
    h(c.source, c.start, End(c), c.kind) + [NEWLINE] + Replaced(c.content)
  }

  /** The rendered blocks with a newline between two blocks. */
  function JoinedText(h: Header, blocks: seq<Candidate>): seq<Byte> {
    if blocks == [] then []
    else if |blocks| == 1 then Render(h, blocks[0])
    else JoinedText(h, blocks[..|blocks| - 1]) + [NEWLINE] + Render(h, blocks[|blocks| - 1])
  }

  function SelectedBytes(blocks: seq<Candidate>): nat {
    if blocks == [] then 0 else SelectedBytes(blocks[..|blocks| - 1]) + |blocks[|blocks| - 1].content|
  }

  lemma JoinedGrows(h: Header, blocks: seq<Candidate>, c: Candidate)
    ensures JoinedText(h, blocks + [c]) ==
      (if blocks == [] then [] else JoinedText(h, blocks) + [NEWLINE]) + Render(h, c)
  {
    assert (blocks + [c])[..|blocks|] == blocks;
  }

  /** Decoding never shrinks a text, so the raw bytes of the blocks take no more than their rendering. */
  lemma {:induction false} SelectedWithinText(h: Header, blocks: seq<Candidate>)
    ensures SelectedBytes(blocks) <= |JoinedText(h, blocks)|
  {
    if blocks != [] {
      SelectedWithinText(h, blocks[..|blocks| - 1]);
      ReplacingNeverShrinks(blocks[|blocks| - 1].content);
    }
  }

  // ----- the order of the candidates -----

  function Priority(c: Candidate): nat {
    match c.kind
    case Traceback => 1
    case FinalException => 2
    case WorkspaceFrame => 3
    case ErrorLine => 4
    case LogTail => if c.source.Stderr? then 5 else 6
  }

  /** The sort key: priority, then later in the log, then stderr before stdout. */
  predicate KeyAtMost(a: Candidate, b: Candidate) {
    || Priority(a) < Priority(b)
    || (Priority(a) == Priority(b) && a.start > b.start)
    || (Priority(a) == Priority(b) && a.start == b.start && (a.source.Stderr? || b.source.Stdout?))
  }

  function Placed(c: Candidate, cs: seq<Candidate>): seq<Candidate> {
    if cs == [] || KeyAtMost(c, cs[0]) then [c] + cs else [cs[0]] + Placed(c, cs[1..])
  }

  /** A stable sort. */
  function InOrder(cs: seq<Candidate>): seq<Candidate> {
    if cs == [] then [] else Placed(cs[0], InOrder(cs[1..]))
  }

  /** Each candidate is tried before those it has a smaller key than. */
  predicate Ordered(cs: seq<Candidate>) {
    forall i, j :: 0 <= i < j < |cs| ==> KeyAtMost(cs[i], cs[j])
  }

  /** No two candidates are of the same kind and stream. */
  predicate Distinct(cs: seq<Candidate>) {
    forall i, j :: 0 <= i < j < |cs| ==> !Alike(cs[i], cs[j])
  }

  predicate Alike(a: Candidate, b: Candidate) {
    a.source == b.source && a.kind == b.kind
  }

  lemma {:induction false} PlacedElements(c: Candidate, cs: seq<Candidate>)
    ensures multiset(Placed(c, cs)) == multiset(cs) + multiset{c}
  {
    if cs != [] && !KeyAtMost(c, cs[0]) {
      PlacedElements(c, cs[1..]);
      assert cs == [cs[0]] + cs[1..];
    }
  }

  lemma PlacedFrom(c: Candidate, cs: seq<Candidate>, j: nat)
    requires j < |Placed(c, cs)|
    ensures Placed(c, cs)[j] == c || Placed(c, cs)[j] in cs
  {
    PlacedElements(c, cs);
    assert Placed(c, cs)[j] in multiset(Placed(c, cs));
  }

  lemma {:induction false} PlacedInOrder(c: Candidate, cs: seq<Candidate>)
    requires Ordered(cs)
    ensures Ordered(Placed(c, cs))
  {
    if cs != [] {
      if KeyAtMost(c, cs[0]) {
        assert forall j :: 0 <= j < |cs| ==> KeyAtMost(c, cs[j]);
      } else {
        PlacedInOrder(c, cs[1..]);
        forall j | 0 <= j < |Placed(c, cs[1..])|
          ensures KeyAtMost(cs[0], Placed(c, cs[1..])[j])
        {
          PlacedFrom(c, cs[1..], j);
        }
      }
    }
  }

  lemma {:induction false} PlacedDistinct(c: Candidate, cs: seq<Candidate>)
    requires Distinct(cs) && forall j :: 0 <= j < |cs| ==> !Alike(c, cs[j])
    ensures Distinct(Placed(c, cs))
  {
    hide Alike, KeyAtMost;
    AlikeIsSymmetric();
    if cs != [] && !KeyAtMost(c, cs[0]) {
      PlacedDistinct(c, cs[1..]);
      forall j | 0 <= j < |Placed(c, cs[1..])|
        ensures !Alike(cs[0], Placed(c, cs[1..])[j])
      {
        PlacedFrom(c, cs[1..], j);
      }
    }
  }

  lemma AlikeIsSymmetric()
    ensures forall a, b :: Alike(a, b) ==> Alike(b, a)
  {
  }

  lemma {:induction false} InOrderSorts(cs: seq<Candidate>)
    ensures Ordered(InOrder(cs)) && multiset(InOrder(cs)) == multiset(cs)
    ensures Distinct(cs) ==> Distinct(InOrder(cs))
  {
    hide KeyAtMost, Placed, Alike;
    if cs != [] {
      var rest := InOrder(cs[1..]);
      InOrderSorts(cs[1..]);
      PlacedInOrder(cs[0], rest);
      PlacedElements(cs[0], rest);
      assert cs == [cs[0]] + cs[1..];
      if Distinct(cs) {
        forall j | 0 <= j < |rest|
          ensures !Alike(cs[0], rest[j])
        {
          assert rest[j] in multiset(rest);
          assert rest[j] in cs[1..];
        }
        PlacedDistinct(cs[0], rest);
      }
    }
  }

  // ----- trimming one candidate -----

  /** The size of the text with one more block. */
  function SizeWith(h: Header, blocks: seq<Candidate>, c: Candidate): nat {
    |JoinedText(h, blocks + [c])|
  }

  /** The candidate without `n` bytes: a tail loses its beginning, everything else its end. */
  function Cut(c: Candidate, n: nat): Candidate
    requires n <= |c.content|
  {
    if c.kind.LogTail? then c.(start := c.start + n, content := c.content[n..])
    else c.(content := c.content[..|c.content| - n])
  }

  /** What is left of a candidate when it has been cut until it fits, if anything is. */
  function Trimmed(h: Header, blocks: seq<Candidate>, c: Candidate, available: int): Option<Candidate>
    decreases |c.content|
  {
    if c.content == [] then None
    else if SizeWith(h, blocks, c) <= available then Some(c)
    else
      var overflow := SizeWith(h, blocks, c) - available;
      Trimmed(h, blocks, Cut(c, if overflow <= |c.content| then overflow else |c.content|), available)
  }

  /** A part of a candidate at its own place, of the same kind. */
  predicate PartOf(r: Candidate, c: Candidate) {
    && r.source == c.source && r.kind == c.kind
    && c.start <= r.start && End(r) <= End(c)
    && r.content == c.content[r.start - c.start..End(r) - c.start]
    && (if c.kind.LogTail? then End(r) == End(c) else r.start == c.start)
  }

  lemma CutIsPart(c: Candidate, n: nat)
    requires n <= |c.content|
    ensures PartOf(Cut(c, n), c) && |Cut(c, n).content| == |c.content| - n
  {
  }

  lemma PartOfItself(c: Candidate)
    ensures PartOf(c, c)
  {
  }

  lemma PartOfPart(a: Candidate, b: Candidate, c: Candidate)
    requires PartOf(a, b) && PartOf(b, c)
    ensures PartOf(a, c)
  {
    SliceOfSlice(c.content, b.start - c.start, End(b) - c.start, a.start - b.start, End(a) - b.start);
  }

  lemma CutOnce(h: Header, blocks: seq<Candidate>, c: Candidate, available: int) returns (n: nat)
    requires c.content != [] && SizeWith(h, blocks, c) > available
    ensures 0 < n <= |c.content| && Trimmed(h, blocks, c, available) == Trimmed(h, blocks, Cut(c, n), available)
    ensures n == if SizeWith(h, blocks, c) - available <= |c.content| then SizeWith(h, blocks, c) - available
                 else |c.content|
  {
    var overflow := SizeWith(h, blocks, c) - available;
    n := if overflow <= |c.content| then overflow else |c.content|;
  }

  lemma NotCut(h: Header, blocks: seq<Candidate>, c: Candidate, available: int)
    requires c.content == [] || SizeWith(h, blocks, c) <= available
    ensures Trimmed(h, blocks, c, available) == if c.content == [] then None else Some(c)
  {
  }

  lemma {:induction false} TrimmedFits(h: Header, blocks: seq<Candidate>, c: Candidate, available: int)
    ensures
      var r := Trimmed(h, blocks, c, available);
      r.Some? ==> PartOf(r.value, c) && r.value.content != [] && SizeWith(h, blocks, r.value) <= available
    ensures c.content != [] && SizeWith(h, blocks, c) <= available ==> Trimmed(h, blocks, c, available) == Some(c)
    decreases |c.content|
  {
    hide PartOf, SizeWith, Cut, Trimmed;
    if c.content == [] || SizeWith(h, blocks, c) <= available {
      NotCut(h, blocks, c, available);
      PartOfItself(c);
    } else {
      var n := CutOnce(h, blocks, c, available);
      var less := Cut(c, n);
      CutIsPart(c, n);
      TrimmedFits(h, blocks, less, available);
      var r := Trimmed(h, blocks, less, available);
      if r.Some? {
        PartOfPart(r.value, less, c);
      }
    }
  }

  // ----- choosing -----

  datatype Choice = Choice(selected: seq<Candidate>, seen: set<seq<Byte>>, duplicates: nat, stopped: bool)

  /** The exception line that goes with a traceback. */
  function PartnerOf(all: seq<Candidate>, source: Source): Option<Candidate> {
    if all == [] then None
    else if all[0].kind.FinalException? && all[0].source == source then Some(all[0])
    else PartnerOf(all[1..], source)
  }

  /** What a traceback leaves free: its exception line and a newline, unless that line is selected already. */
  function Reserve(h: Header, all: seq<Candidate>, seen: set<seq<Byte>>, c: Candidate): nat {
    if !c.kind.Traceback? then 0
    else
      match PartnerOf(all, c.source)
      case None => 0
      case Some(x) => if x.content in seen then 0 else |Render(h, x)| + 1
  }

  /** One candidate: a duplicate, a traceback that finds no room, the end of the selection, or one more block. */
  function Choose(h: Header, all: seq<Candidate>, maxBytes: nat, p: Choice, c: Candidate): Choice {
    if p.stopped then p
    else if c.content in p.seen then p.(duplicates := p.duplicates + 1)
    else
      var available := maxBytes - Reserve(h, all, p.seen, c);
      if |JoinedText(h, p.selected)| >= available then p.(stopped := !c.kind.Traceback?)
      else
        match Trimmed(h, p.selected, c, available)
        case None => p.(stopped := !c.kind.Traceback?)
        case Some(r) => Choice(p.selected + [r], p.seen + {c.content}, p.duplicates, false)
  }

  /** The choice after the first `n` candidates. */
  function Chosen(h: Header, all: seq<Candidate>, maxBytes: nat, n: nat): Choice
    requires n <= |all|
  {
    if n == 0 then Choice([], {}, 0, false) else Choose(h, all, maxBytes, Chosen(h, all, maxBytes, n - 1), all[n - 1])
  }

  /** Each selected block is a part of a candidate. */
  predicate FromCandidates(selected: seq<Candidate>, all: seq<Candidate>) {
    forall i :: 0 <= i < |selected| ==>
      selected[i].content != [] && exists k :: 0 <= k < |all| && PartOf(selected[i], all[k])
  }

  lemma {:induction false} ChosenFits(h: Header, all: seq<Candidate>, maxBytes: nat, n: nat)
    requires n <= |all|
    ensures |JoinedText(h, Chosen(h, all, maxBytes, n).selected)| <= maxBytes
    ensures FromCandidates(Chosen(h, all, maxBytes, n).selected, all)
  {
    hide JoinedText, Choose, FromCandidates;
    if n == 0 {
      NothingChosen(h, all);
    } else {
      ChosenFits(h, all, maxBytes, n - 1);
      ChoiceFits(h, all, maxBytes, Chosen(h, all, maxBytes, n - 1), n - 1);
    }
  }

  lemma NothingChosen(h: Header, all: seq<Candidate>)
    ensures JoinedText(h, []) == [] && FromCandidates([], all)
  {
  }

  lemma FromCandidatesGrow(selected: seq<Candidate>, r: Candidate, all: seq<Candidate>, k: nat)
    requires FromCandidates(selected, all) && k < |all| && r.content != [] && PartOf(r, all[k])
    ensures FromCandidates(selected + [r], all)
  {
    hide PartOf;
  }

  lemma ChoiceFits(h: Header, all: seq<Candidate>, maxBytes: nat, p: Choice, k: nat)
    requires k < |all| && |JoinedText(h, p.selected)| <= maxBytes && FromCandidates(p.selected, all)
    ensures |JoinedText(h, Choose(h, all, maxBytes, p, all[k]).selected)| <= maxBytes
    ensures FromCandidates(Choose(h, all, maxBytes, p, all[k]).selected, all)
  {
    hide JoinedText, Trimmed, PartOf, FromCandidates, Reserve, Choose;
    var available := maxBytes - Reserve(h, all, p.seen, all[k]);
    TrimmedFits(h, p.selected, all[k], available);
    ChoiceAppends(h, all, maxBytes, p, all[k]);
    var r := Trimmed(h, p.selected, all[k], available);
    if r.Some? {
      FromCandidatesGrow(p.selected, r.value, all, k);
    }
  }

  /** A choice changes the selection only by appending what is left of the candidate. */
  lemma ChoiceAppends(h: Header, all: seq<Candidate>, maxBytes: nat, p: Choice, c: Candidate)
    ensures
      var q, r := Choose(h, all, maxBytes, p, c), Trimmed(h, p.selected, c, maxBytes - Reserve(h, all, p.seen, c));
      q.selected == p.selected || (r.Some? && q.selected == p.selected + [r.value])
  {
    hide JoinedText, Trimmed, Reserve;
  }

  lemma {:induction false} ChosenGrows(h: Header, all: seq<Candidate>, maxBytes: nat, m: nat, n: nat)
    requires m <= n <= |all|
    ensures Chosen(h, all, maxBytes, m).selected <= Chosen(h, all, maxBytes, n).selected
    decreases n
  {
    hide JoinedText, Trimmed, Reserve, Choose;
    if m < n {
      ChosenGrows(h, all, maxBytes, m, n - 1);
      ChoiceAppends(h, all, maxBytes, Chosen(h, all, maxBytes, n - 1), all[n - 1]);
    }
  }

  // ----- which candidates are selected whole -----

  /** When its turn comes, the candidate is no duplicate and fits as it is, its reserve left free. */
  ghost predicate FitsWhole(h: Header, all: seq<Candidate>, maxBytes: nat, k: nat)
    requires k < |all|
  {
    var p, c := Chosen(h, all, maxBytes, k), all[k];
    !p.stopped && c.content !in p.seen && SizeWith(h, p.selected, c) <= maxBytes - Reserve(h, all, p.seen, c)
  }

  /** A step adds at most a part of its own candidate, so that no other kind or stream appears. */
  lemma StepBrings(h: Header, all: seq<Candidate>, maxBytes: nat, n: nat)
    requires n < |all|
    ensures
      var before, after := Chosen(h, all, maxBytes, n).selected, Chosen(h, all, maxBytes, n + 1).selected;
      || after == before
      || (|after| == |before| + 1 && after == before + [after[|before|]] && Alike(after[|before|], all[n]))
  {
    hide JoinedText, Trimmed, Reserve, Choose;
    var p, c := Chosen(h, all, maxBytes, n), all[n];
    ChoiceAppends(h, all, maxBytes, p, c);
    TrimmedFits(h, p.selected, c, maxBytes - Reserve(h, all, p.seen, c));
  }

  lemma {:induction false} NotYetSelected(h: Header, all: seq<Candidate>, maxBytes: nat, k: nat, n: nat)
    requires Distinct(all) && n <= k < |all|
    ensures all[k] !in Chosen(h, all, maxBytes, n).selected
    decreases n
  {
    hide Chosen;
    if n == 0 {
      ChosenStarts(h, all, maxBytes);
    } else {
      NotYetSelected(h, all, maxBytes, k, n - 1);
      StepBrings(h, all, maxBytes, n - 1);
    }
  }

  lemma ChosenStarts(h: Header, all: seq<Candidate>, maxBytes: nat)
    ensures Chosen(h, all, maxBytes, 0).selected == []
  {
  }

  lemma {:induction false} OnlyInItsTurn(h: Header, all: seq<Candidate>, maxBytes: nat, k: nat, n: nat)
    requires Distinct(all) && k < n <= |all|
    ensures all[k] in Chosen(h, all, maxBytes, n).selected <==> all[k] in Chosen(h, all, maxBytes, k + 1).selected
    decreases n
  {
    hide Chosen;
    if n > k + 1 {
      OnlyInItsTurn(h, all, maxBytes, k, n - 1);
      StepBrings(h, all, maxBytes, n - 1);
    }
  }

  /** In its turn a candidate is selected as it is exactly when it fits whole. */
  lemma TurnSelects(h: Header, all: seq<Candidate>, maxBytes: nat, p: Choice, c: Candidate)
    requires c.content != [] && c !in p.selected
    ensures
      c in Choose(h, all, maxBytes, p, c).selected <==>
      (!p.stopped && c.content !in p.seen && SizeWith(h, p.selected, c) <= maxBytes - Reserve(h, all, p.seen, c))
  {
    hide Trimmed, Reserve, JoinedText;
    var available := maxBytes - Reserve(h, all, p.seen, c);
    TrimmedFits(h, p.selected, c, available);
    JoinedGrows(h, p.selected, c);
    NothingJoined(h);
  }

  /** For every candidate: it is selected whole if and only if it fits whole in its turn. */
  lemma SelectedWhole(h: Header, all: seq<Candidate>, maxBytes: nat, k: nat)
    requires Distinct(all) && k < |all| && all[k].content != []
    ensures all[k] in Chosen(h, all, maxBytes, |all|).selected <==> FitsWhole(h, all, maxBytes, k)
  {
    hide Choose, Trimmed, Reserve, JoinedText, SizeWith;
    NotYetSelected(h, all, maxBytes, k, k);
    OnlyInItsTurn(h, all, maxBytes, k, |all|);
    TurnSelects(h, all, maxBytes, Chosen(h, all, maxBytes, k), all[k]);
  }

  // ----- what tracebacks leave free -----

  /** The selection is empty or leaves room for a separator and `r` more bytes. */
  predicate RoomFor(h: Header, blocks: seq<Candidate>, r: nat, maxBytes: nat) {
    blocks == [] || |JoinedText(h, blocks)| + 1 + r <= maxBytes
  }

  predicate AllMarkers(seen: set<seq<Byte>>) {
    forall content :: content in seen ==> IsMarker(content)
  }

  /** A traceback never ends the selection, and keeps what it reserves. */
  lemma TracebackStep(h: Header, all: seq<Candidate>, maxBytes: nat, p: Choice, t: Candidate, r: nat)
    requires t.kind.Traceback? && IsMarker(t.content) && !p.stopped && AllMarkers(p.seen)
    ensures
      var q := Choose(h, all, maxBytes, p, t);
      && !q.stopped && AllMarkers(q.seen)
      && (RoomFor(h, p.selected, r, maxBytes) && Reserve(h, all, p.seen, t) > r ==> RoomFor(h, q.selected, r, maxBytes))
  {
    hide Trimmed, Reserve, JoinedText, IsMarker;
    TrimmedFits(h, p.selected, t, maxBytes - Reserve(h, all, p.seen, t));
  }

  lemma RoomIsEnough(h: Header, blocks: seq<Candidate>, c: Candidate, maxBytes: nat)
    requires RoomFor(h, blocks, |Render(h, c)|, maxBytes) && |Render(h, c)| <= maxBytes
    ensures SizeWith(h, blocks, c) <= maxBytes
  {
    JoinedGrows(h, blocks, c);
  }

  lemma {:induction false} PartnerIs(all: seq<Candidate>, c: Candidate)
    requires Distinct(all) && c in all && c.kind.FinalException?
    ensures PartnerOf(all, c.source) == Some(c)
  {
    if all[0] != c {
      assert c in all[1..];
      PartnerIs(all[1..], c);
    }
  }

  lemma FirstChosen(h: Header, all: seq<Candidate>, maxBytes: nat, n: nat)
    requires n <= 2 <= |all|
    ensures Chosen(h, all, maxBytes, n) ==
      var p := Choice([], {}, 0, false);
      if n == 0 then p
      else if n == 1 then Choose(h, all, maxBytes, p, all[0])
      else Choose(h, all, maxBytes, Choose(h, all, maxBytes, p, all[0]), all[1])
  {
    hide Choose;
    assert Chosen(h, all, maxBytes, 0) == Choice([], {}, 0, false);
    assert n >= 1 ==> Chosen(h, all, maxBytes, 1) == Choose(h, all, maxBytes, Choice([], {}, 0, false), all[0]);
  }

  lemma NothingJoined(h: Header)
    ensures JoinedText(h, []) == []
  {
  }

  // ----- both logs -----

  datatype Logs = Logs(stdout: seq<Byte>, stderr: seq<Byte>)

  function LogOf(logs: Logs, source: Source): seq<Byte> {
    if source.Stdout? then logs.stdout else logs.stderr
  }

  function Other(source: Source): Source {
    if source.Stdout? then Stderr else Stdout
  }

  /** The candidates of both logs in the order they are tried. */
  function Candidates(p: Patterns, logs: Logs): seq<Candidate> {
    InOrder(Scanned(p, Stderr, logs.stderr) + Scanned(p, Stdout, logs.stdout))
  }

  lemma CandidateFromLog(p: Patterns, logs: Logs, c: Candidate)
    requires c in Candidates(p, logs)
    ensures FromLog(c, LogOf(logs, c.source))
  {
    hide FromLog, Scanned, InOrder;
    var listed := Scanned(p, Stderr, logs.stderr) + Scanned(p, Stdout, logs.stdout);
    InOrderSorts(listed);
    assert c in multiset(InOrder(listed));
    assert c in listed;
    if c in Scanned(p, Stderr, logs.stderr) {
      ScannedFromLog(p, Stderr, logs.stderr, c);
    } else {
      ScannedFromLog(p, Stdout, logs.stdout, c);
    }
  }

  lemma PartFromLog(r: Candidate, c: Candidate, log: seq<Byte>)
    requires PartOf(r, c) && r.content != [] && FromLog(c, log)
    ensures FromLog(r, log)
  {
    var a, b := r.start - c.start, End(r) - c.start;
    SliceOfSlice(log, c.start, End(c), a, b);
  }

  /**
   Every selected block holds exactly the log's bytes of its range, decoded when rendered; the
   text fits the budget, and so do the raw bytes.
   */
  lemma SelectionIsSound(h: Header, p: Patterns, logs: Logs, maxBytes: nat)
    ensures
      var all := Candidates(p, logs);
      var selected := Chosen(h, all, maxBytes, |all|).selected;
      && (forall i :: 0 <= i < |selected| ==> FromLog(selected[i], LogOf(logs, selected[i].source)))
      && SelectedBytes(selected) <= |JoinedText(h, selected)| <= maxBytes
  {
    hide FromLog, JoinedText, Chosen, PartOf, Candidates;
    var all := Candidates(p, logs);
    var selected := Chosen(h, all, maxBytes, |all|).selected;
    ChosenFits(h, all, maxBytes, |all|);
    SelectedWithinText(h, selected);
    forall i | 0 <= i < |selected|
      ensures FromLog(selected[i], LogOf(logs, selected[i].source))
    {
      var k :| 0 <= k < |all| && PartOf(selected[i], all[k]);
      CandidateFromLog(p, logs, all[k]);
      SameSource(selected[i], all[k]);
      PartFromLog(selected[i], all[k], LogOf(logs, all[k].source));
    }
  }

  lemma SameSource(r: Candidate, c: Candidate)
    requires PartOf(r, c)
    ensures r.source == c.source
  {
  }

  function TracebackIn(log: seq<Byte>, source: Source): Option<Candidate> {
    TracebackOf(Lines(log), |Lines(log)|, source)
  }

  function ExceptionIn(p: Patterns, log: seq<Byte>, source: Source): Option<Candidate> {
    ExceptionOf(Lines(log), |Lines(log)|, source, p.error)
  }

  /** The candidates beside the traceback: at most one is an exception line, and that is the traceback's. */
  lemma OtherKinds(p: Patterns, source: Source, log: seq<Byte>)
    ensures forall c :: c in Others(p, source, log) ==>
      !c.kind.Traceback? && (c.kind.FinalException? ==> ExceptionIn(p, log, source) == Some(c))
    ensures ExceptionIn(p, log, source).Some? ==> ExceptionIn(p, log, source).value in Others(p, source, log)
  {
    hide Present, ExceptionOf, FrameOf, ErrorOf, TailOf, Lines;
    KindsOf(p, source, log);
    var lines := Lines(log);
    FourPresent(ExceptionOf(lines, |lines|, source, p.error), FrameOf(lines, |lines|, source, p.frame),
                ErrorOf(lines, |lines|, source, p.error), TailOf(log, source));
  }

  lemma KindsOf(p: Patterns, source: Source, log: seq<Byte>)
    ensures ExceptionIn(p, log, source).Some? ==> ExceptionIn(p, log, source).value.kind.FinalException?
    ensures FrameOf(Lines(log), |Lines(log)|, source, p.frame).Some? ==>
      FrameOf(Lines(log), |Lines(log)|, source, p.frame).value.kind.WorkspaceFrame?
    ensures ErrorOf(Lines(log), |Lines(log)|, source, p.error).Some? ==>
      ErrorOf(Lines(log), |Lines(log)|, source, p.error).value.kind.ErrorLine?
    ensures TailOf(log, source).Some? ==> TailOf(log, source).value.kind.LogTail?
  {
    hide LastMatch, LastMarker, BlockEnd, Lines, Offset, IsMarker, Blank;
  }

  lemma FourPresent(a: Option<Candidate>, b: Option<Candidate>, d: Option<Candidate>, e: Option<Candidate>)
    ensures forall c :: c in Present(a) + Present(b) + Present(d) + Present(e) <==>
      Some(c) == a || Some(c) == b || Some(c) == d || Some(c) == e
  {
  }

  predicate OfKind(c: Option<Candidate>, kind: Kind) {
    c.Some? ==> c.value.kind == kind
  }

  function Rank(kind: Kind): nat {
    match kind
    case Traceback => 0
    case FinalException => 1
    case WorkspaceFrame => 2
    case ErrorLine => 3
    case LogTail => 4
  }

  /** Distinct candidates of kinds from one rank on and below another. */
  predicate DistinctBetween(cs: seq<Candidate>, from: nat, to: nat) {
    Distinct(cs) && forall i :: 0 <= i < |cs| ==> from <= Rank(cs[i].kind) < to
  }

  lemma OnePresent(c: Option<Candidate>, kind: Kind)
    requires OfKind(c, kind)
    ensures DistinctBetween(Present(c), Rank(kind), Rank(kind) + 1)
  {
  }

  lemma DistinctKinds(cs: seq<Candidate>, ds: seq<Candidate>, from: nat, between: nat, to: nat)
    requires from <= between <= to && DistinctBetween(cs, from, between) && DistinctBetween(ds, between, to)
    ensures DistinctBetween(cs + ds, from, to)
  {
  }

  lemma FiveDistinct(a: Option<Candidate>, b: Option<Candidate>, d: Option<Candidate>, e: Option<Candidate>,
                     f: Option<Candidate>)
    requires OfKind(a, Traceback) && OfKind(b, FinalException) && OfKind(d, WorkspaceFrame) && OfKind(e, ErrorLine)
    requires OfKind(f, LogTail)
    ensures Distinct(Present(a) + (Present(b) + Present(d) + Present(e) + Present(f)))
  {
    hide Distinct, Present, OfKind;
    OnePresent(a, Traceback);
    OnePresent(b, FinalException);
    OnePresent(d, WorkspaceFrame);
    OnePresent(e, ErrorLine);
    OnePresent(f, LogTail);
    DistinctKinds(Present(b), Present(d), 1, 2, 3);
    DistinctKinds(Present(b) + Present(d), Present(e), 1, 3, 4);
    DistinctKinds(Present(b) + Present(d) + Present(e), Present(f), 1, 4, 5);
    DistinctKinds(Present(a), Present(b) + Present(d) + Present(e) + Present(f), 0, 1, 5);
  }

  lemma ScannedDistinct(p: Patterns, source: Source, log: seq<Byte>)
    ensures Distinct(Scanned(p, source, log))
  {
    hide Distinct, Present, Lines, ExceptionOf, FrameOf, ErrorOf, TailOf, TracebackOf;
    KindsOf(p, source, log);
    KindsOfPair(p, log, source);
    var lines := Lines(log);
    FiveDistinct(TracebackOf(lines, |lines|, source), ExceptionOf(lines, |lines|, source, p.error),
                 FrameOf(lines, |lines|, source, p.frame), ErrorOf(lines, |lines|, source, p.error),
                 TailOf(log, source));
  }

  lemma CandidatesDistinct(p: Patterns, logs: Logs)
    ensures Ordered(Candidates(p, logs)) && Distinct(Candidates(p, logs))
  {
    hide InOrder, Scanned, Ordered, FromLog;
    var err, out := Scanned(p, Stderr, logs.stderr), Scanned(p, Stdout, logs.stdout);
    ScannedDistinct(p, Stderr, logs.stderr);
    ScannedDistinct(p, Stdout, logs.stdout);
    forall i, j | 0 <= i < |err| && 0 <= j < |out|
      ensures !Alike(err[i], out[j])
    {
      ScannedFromLog(p, Stderr, logs.stderr, err[i]);
      ScannedFromLog(p, Stdout, logs.stdout, out[j]);
    }
    InOrderSorts(err + out);
  }

  /** Which tracebacks and exception lines are among the candidates. */
  lemma CandidatesHold(p: Patterns, logs: Logs, source: Source)
    ensures
      var all := Candidates(p, logs);
      var t, x := TracebackIn(LogOf(logs, source), source), ExceptionIn(p, LogOf(logs, source), source);
      && (t.Some? ==>
             t.value in all && t.value.kind.Traceback? && t.value.source == source && IsMarker(t.value.content))
      && (x.Some? ==> x.value in all && x.value.kind.FinalException? && x.value.source == source
                      && !IsMarker(x.value.content) && x.value.content != [] && t.Some?)
      && (forall c :: c in all && c.source == source && c.kind.Traceback? ==> t == Some(c))
      && (forall c :: c in all && c.source == source && c.kind.FinalException? ==> x == Some(c))
  {
    hide InOrder, Others, TracebackIn, ExceptionIn, Lines, FromLog, IsMarker;
    var err, out := Scanned(p, Stderr, logs.stderr), Scanned(p, Stdout, logs.stdout);
    var mine := Scanned(p, source, LogOf(logs, source));
    InOrderSorts(err + out);
    SameElements(InOrder(err + out), err + out);
    KindsOfPair(p, LogOf(logs, source), source);
    OtherKinds(p, source, LogOf(logs, source));
    TracebackIsMarked(p, LogOf(logs, source), source);
    forall c | c in Candidates(p, logs) && c.source == source
      ensures c in mine
    {
      if c in Scanned(p, Other(source), LogOf(logs, Other(source))) {
        ScannedFromLog(p, Other(source), LogOf(logs, Other(source)), c);
      }
    }
    ScannedIs(p, source, LogOf(logs, source));
  }

  lemma SameElements(a: seq<Candidate>, b: seq<Candidate>)
    requires multiset(a) == multiset(b)
    ensures forall c :: c in a <==> c in b
  {
    forall c
      ensures c in a <==> c in b
    {
      assert c in a <==> c in multiset(a);
      assert c in b <==> c in multiset(b);
    }
  }

  lemma ScannedIs(p: Patterns, source: Source, log: seq<Byte>)
    ensures forall c :: c in Scanned(p, source, log) <==>
      Some(c) == TracebackIn(log, source) || c in Others(p, source, log)
  {
    hide Others, TracebackOf, Lines;
  }

  /** A traceback holds its first line's marker, which no exception line has. */
  lemma TracebackIsMarked(p: Patterns, log: seq<Byte>, source: Source)
    ensures TracebackIn(log, source).Some? ==> IsMarker(TracebackIn(log, source).value.content)
    ensures
      var x := ExceptionIn(p, log, source);
      x.Some? ==> !IsMarker(x.value.content) && x.value.content != [] && TracebackIn(log, source).Some?
  {
    var lines := Lines(log);
    if LastMarker(lines, |lines|).Some? {
      var m := LastMarker(lines, |lines|).value;
      var e := BlockEnd(lines, m + 1, |lines|);
      hide Lines, Concat, BlockEnd, LastMatch, LastMarker, Blank, Offset, IsMarker;
      CappedIsPrefix(lines[m], Concat(lines[m + 1..e]));
      MarkerInPrefix(lines[m], BlockOf(lines, m, e));
    }
  }

  lemma MarkerInPrefix(line: seq<Byte>, block: seq<Byte>)
    requires IsMarker(line) && line <= block
    ensures IsMarker(block)
  {
    var i :| 0 <= i <= |line| && OccursAt(line, MARKER, i);
    assert block[i..i + |MARKER|] == line[i..i + |MARKER|];
    assert OccursAt(block, MARKER, i);
  }

  lemma KindsOfPair(p: Patterns, log: seq<Byte>, source: Source)
    ensures TracebackIn(log, source).Some? ==>
      TracebackIn(log, source).value.kind.Traceback? && TracebackIn(log, source).value.source == source
    ensures ExceptionIn(p, log, source).Some? ==>
      ExceptionIn(p, log, source).value.kind.FinalException? && ExceptionIn(p, log, source).value.source == source
  {
    hide LastMatch, LastMarker, BlockEnd, Lines, Offset, IsMarker, Blank, Concat;
  }

  // ----- the exception reserve -----

  /** With one traceback, it is tried first and its exception line next. */
  lemma TracebackThenException(p: Patterns, logs: Logs, source: Source)
    requires ExceptionIn(p, LogOf(logs, source), source).Some?
    requires TracebackIn(LogOf(logs, Other(source)), Other(source)).None?
    ensures
      var all := Candidates(p, logs);
      && |all| >= 2
      && Some(all[0]) == TracebackIn(LogOf(logs, source), source)
      && Some(all[1]) == ExceptionIn(p, LogOf(logs, source), source)
  {
    hide Candidates, TracebackIn, ExceptionIn;
    var all := Candidates(p, logs);
    CandidatesDistinct(p, logs);
    CandidatesHold(p, logs, source);
    CandidatesHold(p, logs, Other(source));
    var t, x := TracebackIn(LogOf(logs, source), source).value, ExceptionIn(p, LogOf(logs, source), source).value;
    var i :| 0 <= i < |all| && all[i] == t;
    var j :| 0 <= j < |all| && all[j] == x;
    assert all[0] in all && all[1] in all;
  }

  /**
   When only one log has a traceback and the rendering of its final exception line fits the
   budget alone, that line is selected whole, however long the traceback is.
   */
  lemma ExceptionReserve(h: Header, p: Patterns, logs: Logs, source: Source, maxBytes: nat)
    requires TracebackIn(LogOf(logs, source), source).Some?
    requires TracebackIn(LogOf(logs, Other(source)), Other(source)).None?
    requires ExceptionIn(p, LogOf(logs, source), source).Some?
    requires |Render(h, ExceptionIn(p, LogOf(logs, source), source).value)| <= maxBytes
    ensures
      var all := Candidates(p, logs);
      ExceptionIn(p, LogOf(logs, source), source).value in Chosen(h, all, maxBytes, |all|).selected
  {
    hide Render, Candidates, TracebackIn, ExceptionIn, SizeWith, Choose, Chosen, IsMarker;
    var all, nothing := Candidates(p, logs), Choice([], {}, 0, false);
    TracebackThenException(p, logs, source);
    var t, x := all[0], all[1];
    CandidatesDistinct(p, logs);
    CandidatesHold(p, logs, source);
    PartnerIs(all, x);
    TracebackStep(h, all, maxBytes, nothing, t, |Render(h, x)|);
    FirstChosen(h, all, maxBytes, 1);
    RoomIsEnough(h, Chosen(h, all, maxBytes, 1).selected, x, maxBytes);
    SelectedWhole(h, all, maxBytes, 1);
  }

  /** The exception line that is tried first. */
  function FirstTried(err: Option<Candidate>, out: Option<Candidate>): Option<Candidate> {
    if err.None? then out else if out.Some? && !KeyAtMost(err.value, out.value) then out else err
  }

  function FirstException(p: Patterns, logs: Logs): Option<Candidate> {
    FirstTried(ExceptionIn(p, logs.stderr, Stderr), ExceptionIn(p, logs.stdout, Stdout))
  }

  predicate BothTracebacks(logs: Logs) {
    TracebackIn(logs.stderr, Stderr).Some? && TracebackIn(logs.stdout, Stdout).Some?
  }

  /** Candidates of lower priority stand further on. */
  lemma PlaceOf(all: seq<Candidate>, c: Candidate) returns (k: nat)
    requires Ordered(all) && c in all
    ensures k < |all| && all[k] == c && forall i :: 0 <= i <= k ==> Priority(all[i]) <= Priority(c)
  {
    k :| 0 <= k < |all| && all[k] == c;
  }

  /** With two tracebacks, these are tried first, and an exception line next. */
  lemma TracebacksThenException(p: Patterns, logs: Logs)
    requires BothTracebacks(logs) && FirstException(p, logs).Some?
    ensures
      var all := Candidates(p, logs);
      && |all| >= 3 && all[0].kind.Traceback? && all[1].kind.Traceback? && all[0].source != all[1].source
      && IsMarker(all[0].content) && IsMarker(all[1].content) && all[2] == FirstException(p, logs).value
  {
    hide Candidates, TracebackIn, ExceptionIn, IsMarker, KeyAtMost;
    var all := Candidates(p, logs);
    CandidatesDistinct(p, logs);
    CandidatesHold(p, logs, Stderr);
    CandidatesHold(p, logs, Stdout);
    var i := PlaceOf(all, TracebackIn(logs.stderr, Stderr).value);
    var j := PlaceOf(all, TracebackIn(logs.stdout, Stdout).value);
    var k := PlaceOf(all, FirstException(p, logs).value);
    assert all[0] in all && all[1] in all && all[2] in all;
    assert all[2].kind.FinalException?;
    FirstIsLeast(all, 2, k, ExceptionIn(p, logs.stderr, Stderr), ExceptionIn(p, logs.stdout, Stdout));
  }

  lemma FirstIsLeast(all: seq<Candidate>, i: nat, k: nat, err: Option<Candidate>, out: Option<Candidate>)
    requires Ordered(all) && Distinct(all) && i <= k < |all|
    requires err.Some? ==> err.value.source.Stderr? && err.value.kind.FinalException?
    requires out.Some? ==> out.value.source.Stdout? && out.value.kind.FinalException?
    requires FirstTried(err, out) == Some(all[k]) && Some(all[i]) in {err, out}
    ensures i == k
  {
  }

  /**
   For all logs with two tracebacks: the exception line that is tried first is selected whole if and
   only if its rendering and a separator fit beside what the two tracebacks have taken.
   */
  lemma TwoTracebacksExactly(h: Header, p: Patterns, logs: Logs, maxBytes: nat)
    requires BothTracebacks(logs) && FirstException(p, logs).Some?
    ensures
      var all, x := Candidates(p, logs), FirstException(p, logs).value;
      && |all| >= 3
      && (x in Chosen(h, all, maxBytes, |all|).selected <==>
        SizeWith(h, Chosen(h, all, maxBytes, 2).selected, x) <= maxBytes)
  {
    hide Candidates, TracebackIn, ExceptionIn, SizeWith, Choose, Chosen, IsMarker;
    var all, nothing := Candidates(p, logs), Choice([], {}, 0, false);
    TracebacksThenException(p, logs);
    CandidatesDistinct(p, logs);
    CandidatesHold(p, logs, Stderr);
    CandidatesHold(p, logs, Stdout);
    TracebackStep(h, all, maxBytes, nothing, all[0], 0);
    TracebackStep(h, all, maxBytes, Choose(h, all, maxBytes, nothing, all[0]), all[1], 0);
    FirstChosen(h, all, maxBytes, 2);
    SelectedWhole(h, all, maxBytes, 2);
  }

  /**
   What a caller can tell beforehand: the line fits alone and is rendered no longer than the other log's
   exception line.
   */
  lemma ShorterExceptionIsWhole(h: Header, p: Patterns, logs: Logs, maxBytes: nat)
    requires BothTracebacks(logs) && ExceptionIn(p, logs.stderr, Stderr).Some?
    requires ExceptionIn(p, logs.stdout, Stdout).Some?
    requires
      var x := FirstException(p, logs).value;
      && |Render(h, x)| <= maxBytes
      && |Render(h, x)| <= |Render(h, ExceptionIn(p, LogOf(logs, Other(x.source)), Other(x.source)).value)|
    ensures
      var all := Candidates(p, logs);
      FirstException(p, logs).value in Chosen(h, all, maxBytes, |all|).selected
  {
    hide Candidates, TracebackIn, ExceptionIn, SizeWith, Choose, Chosen, IsMarker, Render;
    var all, nothing, x := Candidates(p, logs), Choice([], {}, 0, false), FirstException(p, logs).value;
    TracebacksThenException(p, logs);
    CandidatesDistinct(p, logs);
    CandidatesHold(p, logs, Stderr);
    CandidatesHold(p, logs, Stdout);
    PartnerIs(all, ExceptionIn(p, logs.stderr, Stderr).value);
    PartnerIs(all, ExceptionIn(p, logs.stdout, Stdout).value);
    TracebackStep(h, all, maxBytes, nothing, all[0], |Render(h, x)|);
    TracebackStep(h, all, maxBytes, Choose(h, all, maxBytes, nothing, all[0]), all[1], |Render(h, x)|);
    FirstChosen(h, all, maxBytes, 2);
    RoomIsEnough(h, Chosen(h, all, maxBytes, 2).selected, x, maxBytes);
    TwoTracebacksExactly(h, p, logs, maxBytes);
  }

  // ----- the selection itself -----

  /** The loop that cuts a candidate until its rendering fits. */
  method Trim(h: Header, blocks: seq<Candidate>, c: Candidate, available: int) returns (r: Option<Candidate>)
    ensures r == Trimmed(h, blocks, c, available)
  {
    hide SizeWith;
    var left := c;
    while left.content != []
      invariant Trimmed(h, blocks, left, available) == Trimmed(h, blocks, c, available)
      decreases |left.content|
    {
      var size := SizeWith(h, blocks, left);
      if size <= available {
        return Some(left);
      }
      var overflow := size - available;
      left := Cut(left, if overflow <= |left.content| then overflow else |left.content|);
    }
    r := None;
  }

  datatype Reference = Reference(source: Source, start: nat, end: nat, kind: Kind)
  datatype Selection = Selection(
    content: seq<Byte>, references: seq<Reference>, scannedBytes: nat, selectedBytes: nat, duplicates: nat)

  function ReferencesOf(blocks: seq<Candidate>): seq<Reference> {
    seq(|blocks|, i requires 0 <= i < |blocks| =>
      Reference(blocks[i].source, blocks[i].start, End(blocks[i]), blocks[i].kind))
  }

  /** Each reference names, in its stream's log, exactly the bytes of its block. */
  predicate NamesBytes(references: seq<Reference>, blocks: seq<Candidate>, logs: Logs) {
    && |references| == |blocks|
    && forall i :: 0 <= i < |blocks| ==>
         var reference := references[i];
         && reference.source == blocks[i].source && reference.kind == blocks[i].kind
         && reference.start < reference.end <= |LogOf(logs, reference.source)|
         && LogOf(logs, reference.source)[reference.start..reference.end] == blocks[i].content
  }

  lemma ReferencesName(h: Header, p: Patterns, logs: Logs, maxBytes: nat)
    ensures
      var selected := Chosen(h, Candidates(p, logs), maxBytes, |Candidates(p, logs)|).selected;
      NamesBytes(ReferencesOf(selected), selected, logs)
  {
    hide Chosen, Candidates;
    SelectionIsSound(h, p, logs, maxBytes);
  }

  /** `select_evidence`: none for a budget that is not positive. */
  method SelectEvidence(h: Header, p: Patterns, logs: Logs, maxBytes: int) returns (r: Option<Selection>)
    ensures r.None? <==> maxBytes <= 0
    ensures r.Some? ==>
      var all := Candidates(p, logs);
      var choice := Chosen(h, all, maxBytes, |all|);
      r == Some(Selection(JoinedText(h, choice.selected), ReferencesOf(choice.selected), |logs.stdout| + |logs.stderr|,
                          SelectedBytes(choice.selected), choice.duplicates))
      && NamesBytes(r.value.references, choice.selected, logs)
  {
    hide JoinedText, Trimmed, Reserve, Scanned, InOrder, SelectedBytes, FromLog, NamesBytes;
    if maxBytes <= 0 {
      return None;
    }
    var out, outSize := Scan(p, Stdout, logs.stdout);
    var err, errSize := Scan(p, Stderr, logs.stderr);
    var all := InOrder(err + out);
    var choice := Choice([], {}, 0, false);
    var selectedSize := 0;
    NothingSelected();
    for k := 0 to |all|
      invariant choice == Chosen(h, all, maxBytes, k) && selectedSize == SelectedBytes(choice.selected)
    {
      var c := all[k];
      if choice.stopped {
        StoppedForGood(h, all, maxBytes, k);
        break;
      }
      if c.content in choice.seen {
        choice := choice.(duplicates := choice.duplicates + 1);
        continue;
      }
      var available := maxBytes - Reserve(h, all, choice.seen, c);
      if |JoinedText(h, choice.selected)| >= available {
        choice := choice.(stopped := !c.kind.Traceback?);
        continue;
      }
      var left := Trim(h, choice.selected, c, available);
      if left.None? {
        choice := choice.(stopped := !c.kind.Traceback?);
        continue;
      }
      SelectedGrows(choice.selected, left.value);
      selectedSize := selectedSize + |left.value.content|;
      choice := choice.(selected := choice.selected + [left.value], seen := choice.seen + {c.content});
    }
    ReferencesName(h, p, logs, maxBytes);
    r := Some(Selection(JoinedText(h, choice.selected), ReferencesOf(choice.selected), outSize + errSize, selectedSize,
                        choice.duplicates));
  }

  lemma NothingSelected()
    ensures SelectedBytes([]) == 0
  {
  }

  lemma SelectedGrows(blocks: seq<Candidate>, c: Candidate)
    ensures SelectedBytes(blocks + [c]) == SelectedBytes(blocks) + |c.content|
  {
    assert (blocks + [c])[..|blocks|] == blocks;
  }

  lemma {:induction false} StoppedForGood(h: Header, all: seq<Candidate>, maxBytes: nat, k: nat)
    requires k <= |all| && Chosen(h, all, maxBytes, k).stopped
    ensures Chosen(h, all, maxBytes, |all|) == Chosen(h, all, maxBytes, k)
    decreases |all| - k
  {
    if k < |all| {
      StoppedForGood(h, all, maxBytes, k + 1);
    }
  }


  // ----- logs whose tracebacks share the reserve -----

  function Name(source: Source): string {
    if source.Stdout? then "stdout" else "stderr"
  }

  function Description(source: Source, kind: Kind): string {
    match kind
    case Traceback => "latest complete Python traceback"
    case FinalException => "traceback final exception line"
    case WorkspaceFrame => "workspace traceback frame"
    case ErrorLine => "latest stderr error/exception/fatal line"
    case LogTail => if source.Stderr? then "stderr tail" else "stdout tail fallback"
  }

  /** The header that `_render` prints, where `attempt` is the job's and the attempt's id with a slash between them. */
  function JsonHeader(attempt: string): Header {
    (source: Source, start: nat, end: nat, kind: Kind) =>
      Ascii("{\"source\":\"" + Name(source) + "\",\"reference\":\"" + Name(source) + ":" + attempt + "@bytes:"
            + Decimal(start) + "-" + Decimal(end) + "\",\"description\":\"" + Description(source, kind) + "\"}")
  }

  const MARKER_LINE: seq<Byte> := MARKER + [NEWLINE]
  const LONG_LINE: seq<Byte> := Ascii("ValueError: a") + [NEWLINE]
  const SHORT_LINE: seq<Byte> := Ascii("KeyError") + [NEWLINE]

  function TracebackLog(line: seq<Byte>): seq<Byte> {
    MARKER_LINE + line
  }

  /** A traceback of one exception line in each stream, the longer line in stderr. */
  function TwoLogs(): Logs {
    Logs(TracebackLog(SHORT_LINE), TracebackLog(LONG_LINE))
  }

  function TracebackFrom(source: Source, line: seq<Byte>): Candidate {
    Candidate(source, 0, Traceback, TracebackLog(line))
  }

  function ExceptionFrom(source: Source, line: seq<Byte>): Candidate {
    Candidate(source, |MARKER_LINE|, FinalException, line)
  }

  predicate OneLine(line: seq<Byte>) {
    line != [] && line[|line| - 1] == NEWLINE && NEWLINE !in line[..|line| - 1]
  }

  lemma FirstLineIs(line: seq<Byte>, rest: seq<Byte>)
    requires OneLine(line)
    ensures Lines(line + rest) == [line] + Lines(rest)
  {
    var log := line + rest;
    var n := LineLength(log);
    assert log[|line| - 1] == NEWLINE;
    assert n <= |line|;
    assert log[n - 1] == line[n - 1];
    assert n == |line|;
    assert log[..n] == line && log[n..] == rest;
  }

  lemma MarkerLineIsMarked()
    ensures |MARKER_LINE| == 35 && OneLine(MARKER_LINE) && IsMarker(MARKER_LINE)
  {
    assert |MARKER| == 34;
    assert MARKER_LINE[0..34] == MARKER;
    assert OccursAt(MARKER_LINE, MARKER, 0);
  }

  lemma LinesOfTracebackLog(line: seq<Byte>)
    requires OneLine(line)
    ensures Lines(TracebackLog(line)) == [MARKER_LINE, line]
  {
    hide OneLine, Lines;
    MarkerLineIsMarked();
    FirstLineIs(MARKER_LINE, line);
    FirstLineIs(line, []);
    assert line + [] == line;
    NoLines();
  }

  /** The whole log is one traceback, and its last line the exception. */
  lemma BlockOfTwoLines(lines: seq<seq<Byte>>)
    requires |lines| == 2 && |lines[0]| + |lines[1]| <= MAX_BLOCK_BYTES
    ensures BlockOf(lines, 0, 2) == lines[0] + lines[1] && Offset(lines, 0) == 0 && Offset(lines, 1) == |lines[0]|
  {
    assert lines[1..2] == [lines[1]] && lines[..1] == [lines[0]];
    ConcatSnoc([], lines[0]);
    ConcatSnoc([], lines[1]);
    assert [] + [lines[0]] == [lines[0]] && [] + [lines[1]] == [lines[1]];
  }

  /** What a scan finds in a log of one marker line and one exception line. */
  lemma ScannedTracebackLog(p: Patterns, source: Source, line: seq<Byte>)
    requires OneLine(line) && |line| < |MARKER| && line[0] > 32 && p.error(line)
    ensures TracebackIn(TracebackLog(line), source) == Some(TracebackFrom(source, line))
    ensures ExceptionIn(p, TracebackLog(line), source) == Some(ExceptionFrom(source, line))
  {
    hide IsMarker, OneLine, Lines, Concat, BlockOf, Offset;
    var lines := [MARKER_LINE, line];
    MarkerLineIsMarked();
    LinesOfTracebackLog(line);
    BlockOfTwoLines(lines);
    ShortLineIsNoMarker(line);
    assert LastMarker(lines, 1) == Some(0);
    assert LastMarker(lines, 2) == Some(0);
    assert BlockEnd(lines, 1, 2) == 2;
  }

  lemma NoLines()
    ensures Lines([]) == []
  {
  }

  lemma ShortLineIsNoMarker(line: seq<Byte>)
    requires |line| < |MARKER|
    ensures !IsMarker(line)
  {
  }

  lemma {:induction false} AsciiIsUnchanged(bytes: seq<Byte>)
    requires forall i :: 0 <= i < |bytes| ==> bytes[i] < 0x80
    ensures KeepsLength(bytes)
    decreases |bytes|
  {
    if bytes != [] {
      AsciiKept(bytes);
      AsciiIsUnchanged(bytes[1..]);
    }
  }

  lemma PrintedLine(text: string)
    requires text != "" && text[0] > ' ' && forall i :: 0 <= i < |text| ==> 32 <= text[i] as int < 128
    ensures
      var line := Ascii(text) + [NEWLINE];
      |line| == |text| + 1 && OneLine(line) && line[0] > 32 && KeepsLength(line)
  {
    var line := Ascii(text) + [NEWLINE];
    assert line[..|line| - 1] == Ascii(text);
    AsciiIsUnchanged(line);
  }

  lemma LinesOfTwoLogs()
    ensures |LONG_LINE| == 14 && OneLine(LONG_LINE) && LONG_LINE[0] > 32 && KeepsLength(LONG_LINE)
    ensures |SHORT_LINE| == 9 && OneLine(SHORT_LINE) && SHORT_LINE[0] > 32 && KeepsLength(SHORT_LINE)
    ensures |MARKER| == 34
  {
    hide OneLine, KeepsLength;
    PrintedLine("ValueError: a");
    PrintedLine("KeyError");
  }

  /** The four candidates that matter. */
  lemma TwoLogsAre(p: Patterns)
    requires p.error(LONG_LINE) && p.error(SHORT_LINE)
    ensures
      var all := Candidates(p, TwoLogs());
      && BothTracebacks(TwoLogs()) && |all| >= 3
      && all[0] == TracebackFrom(Stderr, LONG_LINE) && all[1] == TracebackFrom(Stdout, SHORT_LINE)
      && all[2] == ExceptionFrom(Stderr, LONG_LINE) && FirstException(p, TwoLogs()) == Some(all[2])
      && ExceptionFrom(Stdout, SHORT_LINE) in all
  {
    hide Candidates, TracebackIn, ExceptionIn, OneLine, IsMarker, TracebackLog, KeepsLength;
    var logs := TwoLogs();
    var all := Candidates(p, logs);
    LinesOfTwoLogs();
    ScannedTracebackLog(p, Stderr, LONG_LINE);
    ScannedTracebackLog(p, Stdout, SHORT_LINE);
    TracebacksThenException(p, logs);
    CandidatesDistinct(p, logs);
    CandidatesHold(p, logs, Stderr);
    CandidatesHold(p, logs, Stdout);
    assert all[0] in all && all[1] in all;
  }

  /** A header's size depends on its stream only by the range. */
  lemma ExceptionHeaderSize(attempt: string, source: Source, start: nat, end: nat)
    ensures |JsonHeader(attempt)(source, start, end, FinalException)| ==
      |JsonHeader(attempt)(Stderr, 0, 0, FinalException)| + |Decimal(start)| + |Decimal(end)| - 2
  {
    assert |Name(source)| == |Name(Stderr)| == 6;
    assert |Description(source, FinalException)| == |Description(Stderr, FinalException)|;
  }

  lemma RenderedLines(attempt: string)
    ensures |Render(JsonHeader(attempt), ExceptionFrom(Stderr, LONG_LINE))| ==
      |Render(JsonHeader(attempt), ExceptionFrom(Stdout, SHORT_LINE))| + 5
  {
    hide JsonHeader, OneLine, IsMarker;
    LinesOfTwoLogs();
    MarkerLineIsMarked();
    assert |Decimal(49)| == |Decimal(44)| == 2;
    ExceptionHeaderSize(attempt, Stderr, 35, 49);
    ExceptionHeaderSize(attempt, Stdout, 35, 44);
  }

  /** Just enough for both tracebacks, a separator and the shorter exception line. */
  function TightBudget(attempt: string): nat {
    var h := JsonHeader(attempt);
    |JoinedText(h, [TracebackFrom(Stderr, LONG_LINE), TracebackFrom(Stdout, SHORT_LINE)])| + 1
    + |Render(h, ExceptionFrom(Stdout, SHORT_LINE))|
  }

  lemma JoinedSizes(h: Header, t: Candidate, u: Candidate)
    ensures |JoinedText(h, [t])| == |Render(h, t)| == SizeWith(h, [], t)
    ensures |JoinedText(h, [t, u])| == |Render(h, t)| + 1 + |Render(h, u)| == SizeWith(h, [t], u)
  {
    JoinedGrows(h, [t], u);
    assert [] + [t] == [t] && [t] + [u] == [t, u];
  }

  /** With this budget both tracebacks are selected whole. */
  lemma BothTracebacksSelected(attempt: string, p: Patterns)
    requires p.error(LONG_LINE) && p.error(SHORT_LINE)
    ensures
      var all := Candidates(p, TwoLogs());
      |all| >= 2 && Chosen(JsonHeader(attempt), all, TightBudget(attempt), 2).selected == [all[0], all[1]]
  {
    hide Candidates, Render, JsonHeader, SizeWith, JoinedText, TracebackLog, IsMarker, FirstException, TracebackIn,
         ExceptionIn, Choose;
    var h, all, maxBytes := JsonHeader(attempt), Candidates(p, TwoLogs()), TightBudget(attempt);
    TwoLogsAre(p);
    CandidatesDistinct(p, TwoLogs());
    PartnerIs(all, all[2]);
    PartnerIs(all, ExceptionFrom(Stdout, SHORT_LINE));
    RenderedLines(attempt);
    TracebackIsLong(h, all[1]);
    JoinedSizes(h, all[0], all[1]);
    NothingJoined(h);
    FirstChosen(h, all, maxBytes, 2);
    TracebacksDiffer();
    var p0 := Choice([], {}, 0, false);
    WholeStep(h, all, maxBytes, p0, all[0]);
    var p1 := Choose(h, all, maxBytes, p0, all[0]);
    assert p1.selected == [all[0]];
    WholeStep(h, all, maxBytes, p1, all[1]);
  }

  lemma WholeStep(h: Header, all: seq<Candidate>, maxBytes: nat, p: Choice, c: Candidate)
    requires !p.stopped && c.content !in p.seen && c.content != []
    requires SizeWith(h, p.selected, c) <= maxBytes - Reserve(h, all, p.seen, c)
    ensures Choose(h, all, maxBytes, p, c) == Choice(p.selected + [c], p.seen + {c.content}, p.duplicates, false)
  {
    hide Trimmed, Reserve, JoinedText;
    TrimmedFits(h, p.selected, c, maxBytes - Reserve(h, all, p.seen, c));
    JoinedGrows(h, p.selected, c);
    NothingJoined(h);
  }

  lemma TracebackIsLong(h: Header, t: Candidate)
    requires t.content == TracebackLog(SHORT_LINE)
    ensures |Render(h, t)| > 35
  {
    MarkerLineIsMarked();
    LinesOfTwoLogs();
    ReplacingNeverShrinks(t.content);
  }

  lemma TracebacksDiffer()
    ensures TracebackLog(LONG_LINE) != TracebackLog(SHORT_LINE) && TracebackLog(LONG_LINE) != []
    ensures TracebackLog(SHORT_LINE) != []
    ensures SHORT_LINE != TracebackLog(LONG_LINE)
  {
    MarkerLineIsMarked();
    LinesOfTwoLogs();
    assert |TracebackLog(LONG_LINE)| == 49 && |TracebackLog(SHORT_LINE)| == 44;
  }

  /**
   Tracebacks in both logs may break the reserve: with these logs the second traceback takes what the
   first one left for its exception line, which fits the budget alone but is not selected whole.
   */
  lemma TwoTracebacksShareTheReserve(attempt: string, p: Patterns)
    requires p.error(LONG_LINE) && p.error(SHORT_LINE)
    ensures
      var h, logs, maxBytes := JsonHeader(attempt), TwoLogs(), TightBudget(attempt);
      var all := Candidates(p, logs);
      && BothTracebacks(logs) && FirstException(p, logs).Some?
      && |Render(h, FirstException(p, logs).value)| <= maxBytes
      && FirstException(p, logs).value !in Chosen(h, all, maxBytes, |all|).selected
  {
    hide Candidates, Render, JsonHeader, JoinedText, TracebackLog, IsMarker, FirstException, TracebackIn, ExceptionIn,
         Trimmed, Choose, Chosen;
    var h, logs, maxBytes := JsonHeader(attempt), TwoLogs(), TightBudget(attempt);
    var all := Candidates(p, logs);
    TwoLogsAre(p);
    BothTracebacksSelected(attempt, p);
    RenderedLines(attempt);
    TracebackIsLong(h, all[1]);
    JoinedSizes(h, all[0], all[1]);
    JoinedGrows(h, [all[0], all[1]], all[2]);
    TwoTracebacksExactly(h, p, logs, maxBytes);
  }
}
