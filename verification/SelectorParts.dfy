/**
 How much of a candidate the selection takes: the longest part that fits where decoding keeps the
 length, and for every log not far less than the room there is.
 */
module SelectorParts {
  import opened Common
  import opened Utf8
  import opened LogScan
  import opened Selector

  // ----- the size of a part -----

  /** The part of a candidate that trimming may leave with `m` bytes. */
  function Part(c: Candidate, m: nat): Candidate
    requires m <= |c.content|
  {
    if c.kind.LogTail? then c.(start := End(c) - m, content := c.content[|c.content| - m..])
    else c.(content := c.content[..m])
  }

  /** A header's size depends on its range only by the digits of its two ends. */
  ghost predicate Measured(h: Header, fixed: (Source, Kind) -> nat) {
    forall source, start, end, kind ::
      |h(source, start, end, kind)| == fixed(source, kind) + |Decimal(start)| + |Decimal(end)|
  }

  /** Every part of the candidate is decoded to as many bytes as it has. */
  predicate KeepsParts(c: Candidate) {
    forall m :: 0 <= m <= |c.content| ==> KeepsLength(Part(c, m).content)
  }

  lemma JsonHeaderMeasured(attempt: string)
    ensures Measured(JsonHeader(attempt), (source, kind) => |JsonHeader(attempt)(source, 0, 0, kind)| - 2)
  {
  }

  lemma {:induction false} DigitsGrow(a: nat, b: nat)
    requires a <= b
    ensures |Decimal(a)| <= |Decimal(b)|
    decreases b
  {
    if b >= 10 && a >= 10 {
      DigitsGrow(a / 10, b / 10);
    }
  }

  /** The size of the text before the digits and the content of one more block. */
  function Before(h: Header, fixed: (Source, Kind) -> nat, blocks: seq<Candidate>, c: Candidate): nat {
    (if blocks == [] then 0 else |JoinedText(h, blocks)| + 1) + fixed(c.source, c.kind) + 1
  }

  lemma SizeIs(h: Header, fixed: (Source, Kind) -> nat, blocks: seq<Candidate>, c: Candidate)
    requires Measured(h, fixed)
    ensures SizeWith(h, blocks, c) ==
            Before(h, fixed, blocks, c) + |Decimal(c.start)| + |Decimal(End(c))| + |Replaced(c.content)|
  {
    hide Replaced, Decimal, JoinedText;
    JoinedGrows(h, blocks, c);
  }

  lemma PartSize(h: Header, fixed: (Source, Kind) -> nat, blocks: seq<Candidate>, c: Candidate, m: nat)
    requires Measured(h, fixed) && KeepsParts(c) && m <= |c.content|
    ensures SizeWith(h, blocks, Part(c, m)) ==
            Before(h, fixed, blocks, c) + |Decimal(Part(c, m).start)| + |Decimal(End(Part(c, m)))| + m
  {
    hide Replaced, Decimal, JoinedText, SizeWith, Measured;
    SizeIs(h, fixed, blocks, Part(c, m));
  }

  // ----- the longest part -----

  /** The digits that a candidate's range may lose between `n` bytes of it and all. */
  function Lost(c: Candidate, n: nat): nat
    requires n <= |c.content|
  {
    if c.kind.LogTail? then 0
    else
      DigitsGrow(c.start + n, End(c));
      |Decimal(End(c))| - |Decimal(c.start + n)|
  }

  function Length(r: Option<Candidate>): nat {
    if r.Some? then |r.value.content| else 0
  }

  /**
   What is left of a candidate is a part that fits, or nothing; and no part fits that is longer by more
   than the digits its range has lost.
   */
  predicate LongestPart(h: Header, blocks: seq<Candidate>, c: Candidate, available: int, r: Option<Candidate>) {
    && Length(r) <= |c.content|
    && (r.Some? ==> r.value == Part(c, Length(r)) && r.value.content != [] && SizeWith(h, blocks, r.value) <= available)
    && forall m :: Length(r) + Lost(c, Length(r)) < m <= |c.content| ==> SizeWith(h, blocks, Part(c, m)) > available
  }

  lemma WholePart(c: Candidate)
    ensures Part(c, |c.content|) == c && Lost(c, |c.content|) == 0
  {
  }

  lemma CutToPart(c: Candidate, n: nat)
    requires n <= |c.content|
    ensures Cut(c, n) == Part(c, |c.content| - n)
  {
  }

  lemma PartOfLess(c: Candidate, n: nat, m: nat)
    requires m <= n <= |c.content|
    ensures Part(Part(c, n), m) == Part(c, m) && |Part(c, n).content| == n
  {
  }

  lemma PartKeepsParts(c: Candidate, n: nat)
    requires KeepsParts(c) && n <= |c.content|
    ensures KeepsParts(Part(c, n))
  {
    hide KeepsLength;
    forall m | 0 <= m <= n
      ensures KeepsLength(Part(Part(c, n), m).content)
    {
      PartOfLess(c, n, m);
    }
  }

  /** One cut of a candidate that does not fit: nothing much longer than what it leaves fits. */
  lemma CutIsNeeded(h: Header, fixed: (Source, Kind) -> nat, blocks: seq<Candidate>, c: Candidate, available: int,
                    n: nat, m: nat)
    requires Measured(h, fixed) && KeepsParts(c) && SizeWith(h, blocks, c) > available
    requires n < |c.content| && |c.content| - n <= SizeWith(h, blocks, c) - available
    requires n + Lost(c, n) < m <= |c.content|
    ensures SizeWith(h, blocks, Part(c, m)) > available
  {
    hide SizeWith, Measured, KeepsParts, Decimal;
    PartSize(h, fixed, blocks, c, m);
    PartSize(h, fixed, blocks, c, |c.content|);
    WholePart(c);
    DigitsGrow(Part(c, |c.content|).start, Part(c, m).start);
    DigitsGrow(c.start + n, End(Part(c, m)));
  }

  /** Without digits to lose in front, one cut is enough. */
  lemma OneCutFits(h: Header, fixed: (Source, Kind) -> nat, blocks: seq<Candidate>, c: Candidate, available: int,
                   n: nat)
    requires Measured(h, fixed) && KeepsParts(c) && !c.kind.LogTail? && SizeWith(h, blocks, c) > available
    requires n < |c.content| && |c.content| - n == SizeWith(h, blocks, c) - available
    ensures SizeWith(h, blocks, Part(c, n)) <= available
  {
    hide SizeWith, Measured, KeepsParts, Decimal;
    PartSize(h, fixed, blocks, c, n);
    PartSize(h, fixed, blocks, c, |c.content|);
    WholePart(c);
    DigitsGrow(End(Part(c, n)), End(c));
  }

  lemma LongestOfLess(h: Header, blocks: seq<Candidate>, c: Candidate, available: int, n: nat, r: Option<Candidate>)
    requires n <= |c.content| && LongestPart(h, blocks, Part(c, n), available, r)
    requires c.kind.LogTail? || Length(r) == n
    requires forall m :: n + Lost(c, n) < m <= |c.content| ==> SizeWith(h, blocks, Part(c, m)) > available
    ensures LongestPart(h, blocks, c, available, r)
  {
    hide SizeWith, Decimal, Part, Lost;
    PartOfLess(c, n, n);
    PartOfLess(c, n, Length(r));
    forall m | Length(r) + Lost(c, Length(r)) < m <= |c.content|
      ensures SizeWith(h, blocks, Part(c, m)) > available
    {
      if m <= n {
        LessIsLonger(h, blocks, c, available, n, r, m);
      } else {
        NothingLostOfTails(c, n);
      }
    }
  }

  lemma NothingLostOfTails(c: Candidate, n: nat)
    requires n <= |c.content|
    ensures c.kind.LogTail? ==> Lost(c, n) == 0
  {
  }

  lemma LessIsLonger(h: Header, blocks: seq<Candidate>, c: Candidate, available: int, n: nat, r: Option<Candidate>,
                     m: nat)
    requires n <= |c.content| && LongestPart(h, blocks, Part(c, n), available, r) && Length(r) < m <= n
    requires c.kind.LogTail?
    ensures SizeWith(h, blocks, Part(c, m)) > available
  {
    hide SizeWith, Decimal;
    PartOfLess(c, n, m);
    assert Lost(Part(c, n), Length(r)) == 0;
  }

  /**
   Where decoding keeps the length of a candidate's parts, trimming takes as little as can be: the longest
   part that fits, up to the digits its range loses, and nothing is left only if no part fits but for them.
   */
  lemma {:induction false} TrimmedIsLongest(h: Header, fixed: (Source, Kind) -> nat, blocks: seq<Candidate>,
                                            c: Candidate, available: int)
    requires Measured(h, fixed) && KeepsParts(c)
    ensures LongestPart(h, blocks, c, available, Trimmed(h, blocks, c, available))
    decreases |c.content|
  {
    hide SizeWith, Trimmed, Measured, KeepsParts, Decimal;
    WholePart(c);
    if c.content == [] || SizeWith(h, blocks, c) <= available {
      NotCut(h, blocks, c, available);
    } else {
      var cut := CutOnce(h, blocks, c, available);
      var n := |c.content| - cut;
      var less := Part(c, n);
      CutToPart(c, cut);
      forall m | n + Lost(c, n) < m <= |c.content|
        ensures SizeWith(h, blocks, Part(c, m)) > available
      {
        CutIsNeeded(h, fixed, blocks, c, available, n, m);
      }
      PartKeepsParts(c, n);
      TrimmedIsLongest(h, fixed, blocks, less, available);
      if !c.kind.LogTail? {
        if n > 0 {
          OneCutFits(h, fixed, blocks, c, available, n);
        }
        NotCut(h, blocks, less, available);
      }
      LongestOfLess(h, blocks, c, available, n, Trimmed(h, blocks, less, available));
    }
  }

  // ----- how much any trimming may take -----

  /** What is left, with the empty part for nothing. */
  function Left(c: Candidate, r: Option<Candidate>): Candidate {
    if r.Some? then r.value else Part(c, 0)
  }

  function Max(a: int, b: int): int {
    if a >= b then a else b
  }

  /** How far a cut may go below the room: what decoding frees besides the overflow, and the digits of the range. */
  function Slack(c: Candidate, overflow: int): int {
    2 * Max(overflow, 6 + |Decimal(End(c))|) + |Decimal(End(c))|
  }

  /** Cutting a candidate frees at most three bytes for each byte and the digits of its range. */
  lemma CutFrees(h: Header, fixed: (Source, Kind) -> nat, blocks: seq<Candidate>, c: Candidate, n: nat)
    requires Measured(h, fixed) && n <= |c.content|
    ensures SizeWith(h, blocks, c) <= SizeWith(h, blocks, Part(c, n)) + 3 * (|c.content| - n) + |Decimal(End(c))|
    ensures SizeWith(h, blocks, Part(c, n)) + (|c.content| - n) <= SizeWith(h, blocks, c) + 6 + |Decimal(End(c))|
    ensures |Decimal(End(Part(c, n)))| <= |Decimal(End(c))|
  {
    hide SizeWith, Replaced, Decimal, Measured;
    var part := Part(c, n);
    SizeIs(h, fixed, blocks, c);
    SizeIs(h, fixed, blocks, part);
    DigitsGrow(c.start, part.start);
    DigitsGrow(part.start, End(c));
    DigitsGrow(End(part), End(c));
    FrontCut(c.content, if c.kind.LogTail? then |c.content| - n else 0);
    BackCut(c.content, if c.kind.LogTail? then |c.content| else n);
  }

  /**
   For every log: what trimming leaves of a candidate that does not fit is rendered to nearly all the room
   there is, short of it by at most twice the overflow (or 6 and the digits of its end, if that is more)
   and those digits again.
   */
  lemma {:induction false} TrimmedLeavesLittle(h: Header, fixed: (Source, Kind) -> nat, blocks: seq<Candidate>,
                                               c: Candidate, available: int)
    requires Measured(h, fixed) && c.content != [] && SizeWith(h, blocks, c) > available
    ensures
      SizeWith(h, blocks, Left(c, Trimmed(h, blocks, c, available))) + Slack(c, SizeWith(h, blocks, c) - available)
      >= available
    decreases |c.content|
  {
    hide SizeWith, Trimmed, Measured, Decimal;
    var cut := CutOnce(h, blocks, c, available);
    var n := |c.content| - cut;
    var less := Part(c, n);
    CutToPart(c, cut);
    CutFrees(h, fixed, blocks, c, n);
    PartOfLess(c, n, 0);
    if n == 0 || SizeWith(h, blocks, less) <= available {
      NotCut(h, blocks, less, available);
    } else {
      TrimmedLeavesLittle(h, fixed, blocks, less, available);
    }
  }

  // ----- the order of the candidates -----

  /** Tracebacks are tried first, then exception lines, workspace frames, error lines and at last the tails. */
  lemma KindsInOrder(p: Patterns, logs: Logs, i: nat, j: nat)
    requires i < j < |Candidates(p, logs)|
    ensures
      var a, b := Candidates(p, logs)[i], Candidates(p, logs)[j];
      && (b.kind.Traceback? ==> a.kind.Traceback?)
      && (b.kind.FinalException? ==> a.kind.Traceback? || a.kind.FinalException?)
      && (b.kind.WorkspaceFrame? ==> !a.kind.ErrorLine? && !a.kind.LogTail?)
      && (b.kind.ErrorLine? ==> !a.kind.LogTail?)
      && (a.kind.LogTail? && b.kind.LogTail? ==> a.source.Stderr? && b.source.Stdout?)
      && (a.kind == b.kind && !a.kind.LogTail? ==>
            a.start > b.start || (a.start == b.start && a.source.Stderr? && b.source.Stdout?))
  {
    hide Candidates;
    CandidatesDistinct(p, logs);
    assert KeyAtMost(Candidates(p, logs)[i], Candidates(p, logs)[j]);
    assert !Alike(Candidates(p, logs)[i], Candidates(p, logs)[j]);
  }

  // ----- the selection, candidate by candidate -----

  /** Where every byte is ASCII, every part keeps its length. */
  lemma AsciiKeepsParts(c: Candidate)
    requires forall i :: 0 <= i < |c.content| ==> c.content[i] < 0x80
    ensures KeepsParts(c)
  {
    forall m | 0 <= m <= |c.content|
      ensures KeepsLength(Part(c, m).content)
    {
      AsciiIsUnchanged(Part(c, m).content);
    }
  }

  /** A traceback leaves room for its stream's exception line and a newline until that line is selected. */
  lemma ReserveIs(h: Header, all: seq<Candidate>, seen: set<seq<Byte>>, c: Candidate)
    requires Distinct(all)
    ensures !c.kind.Traceback? ==> Reserve(h, all, seen, c) == 0
    ensures c.kind.Traceback? ==>
      forall x :: x in all && x.kind.FinalException? && x.source == c.source ==>
        Reserve(h, all, seen, c) == if x.content in seen then 0 else |Render(h, x)| + 1
    ensures (forall x :: x in all && x.kind.FinalException? ==> x.source != c.source) ==> Reserve(h, all, seen, c) == 0
  {
    hide Render, Alike;
    forall x | x in all && x.kind.FinalException? && x.source == c.source
      ensures PartnerOf(all, c.source) == Some(x)
    {
      PartnerIs(all, x);
    }
    NoPartner(all, c.source);
  }

  lemma {:induction false} NoPartner(all: seq<Candidate>, source: Source)
    ensures (forall x :: x in all && x.kind.FinalException? ==> x.source != source) ==> PartnerOf(all, source) == None
  {
    if all != [] {
      NoPartner(all[1..], source);
    }
  }

  /** The block that a step has added, if any. */
  function Gained(p: Choice, q: Choice): Option<Candidate> {
    if |q.selected| == |p.selected| + 1 then Some(q.selected[|p.selected|]) else None
  }

  /** The choice after a candidate of which this has been left. */
  function Took(p: Choice, c: Candidate, r: Option<Candidate>): Choice {
    match r
    case None => p.(stopped := !c.kind.Traceback?)
    case Some(x) => Choice(p.selected + [x], p.seen + {c.content}, p.duplicates, false)
  }

  lemma NoRoom(h: Header, blocks: seq<Candidate>, c: Candidate, available: int)
    requires |JoinedText(h, blocks)| >= available
    ensures SizeWith(h, blocks, c) > available
  {
    hide Replaced;
    JoinedGrows(h, blocks, c);
    NothingJoined(h);
  }

  lemma NoneFits(h: Header, blocks: seq<Candidate>, c: Candidate, available: int)
    requires |JoinedText(h, blocks)| >= available
    ensures LongestPart(h, blocks, c, available, None)
  {
    hide JoinedText, SizeWith;
    forall m | 0 <= m <= |c.content|
      ensures SizeWith(h, blocks, Part(c, m)) > available
    {
      NoRoom(h, blocks, Part(c, m), available);
    }
  }

  /** What a step does with a candidate that is no duplicate. */
  lemma StepTakes(h: Header, all: seq<Candidate>, maxBytes: nat, p: Choice, c: Candidate)
    requires !p.stopped && c.content !in p.seen
    ensures
      var available, q := maxBytes - Reserve(h, all, p.seen, c), Choose(h, all, maxBytes, p, c);
      var r := if |JoinedText(h, p.selected)| >= available then None else Trimmed(h, p.selected, c, available);
      q == Took(p, c, r) && Gained(p, q) == r
  {
    hide JoinedText, Trimmed, Reserve;
  }

  /**
   The selection step by step. A candidate whose content is selected already is counted as a duplicate;
   of every other one the longest part that fits beside what is selected, its reserve left free, is
   selected, up to the digits its range loses; and the selection ends when nothing is left of a candidate
   that is no traceback.
   */
  lemma StepTakesLongest(h: Header, fixed: (Source, Kind) -> nat, all: seq<Candidate>, maxBytes: nat, k: nat)
    requires Measured(h, fixed) && k < |all| && KeepsParts(all[k])
    ensures
      var p, q, c := Chosen(h, all, maxBytes, k), Chosen(h, all, maxBytes, k + 1), all[k];
      if p.stopped then q == p
      else if c.content in p.seen then q == p.(duplicates := p.duplicates + 1)
      else
        && LongestPart(h, p.selected, c, maxBytes - Reserve(h, all, p.seen, c), Gained(p, q))
        && q == Took(p, c, Gained(p, q))
  {
    hide JoinedText, Trimmed, Reserve, LongestPart, Measured, KeepsParts, SizeWith;
    var p, c := Chosen(h, all, maxBytes, k), all[k];
    if !p.stopped && c.content !in p.seen {
      hide Choose;
      var available := maxBytes - Reserve(h, all, p.seen, c);
      StepTakes(h, all, maxBytes, p, c);
      if |JoinedText(h, p.selected)| >= available {
        NoneFits(h, p.selected, c, available);
      } else {
        TrimmedIsLongest(h, fixed, p.selected, c, available);
      }
    }
  }

  /** For all logs, a step leaves little of the room that a candidate could have filled. */
  lemma StepLeavesLittle(h: Header, fixed: (Source, Kind) -> nat, all: seq<Candidate>, maxBytes: nat, k: nat)
    requires Measured(h, fixed) && k < |all| && all[k].content != []
    ensures
      var p, q, c := Chosen(h, all, maxBytes, k), Chosen(h, all, maxBytes, k + 1), all[k];
      var available := maxBytes - Reserve(h, all, p.seen, c);
      !p.stopped && c.content !in p.seen && SizeWith(h, p.selected, c) > available ==>
        SizeWith(h, p.selected, Left(c, Gained(p, q))) + Slack(c, SizeWith(h, p.selected, c) - available) >= available
  {
    hide JoinedText, Trimmed, Reserve, Measured, SizeWith, Decimal;
    var p, c := Chosen(h, all, maxBytes, k), all[k];
    var available := maxBytes - Reserve(h, all, p.seen, c);
    if !p.stopped && c.content !in p.seen && SizeWith(h, p.selected, c) > available {
      hide Choose;
      StepTakes(h, all, maxBytes, p, c);
      if |JoinedText(h, p.selected)| >= available {
        NoRoom(h, p.selected, Part(c, 0), available);
      } else {
        TrimmedLeavesLittle(h, fixed, p.selected, c, available);
      }
    }
  }
}
