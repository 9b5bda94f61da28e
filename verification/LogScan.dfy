/**
 Scanning one training log for evidence (`_scan` in `training/incidents/selector.py`): the last
 traceback with its final exception line, the last error and workspace lines, and the tail.
 */
module LogScan {
  import opened Common
  import opened Utf8

  datatype Source = Stdout | Stderr
  datatype Kind = Traceback | FinalException | WorkspaceFrame | ErrorLine | LogTail

  /** Bytes of a log from an offset on, and what they are evidence of. */
  datatype Candidate = Candidate(source: Source, start: nat, kind: Kind, content: seq<Byte>)

  function End(c: Candidate): nat {
    c.start + |c.content|
  }

  /** The regular expressions for error lines and for frames inside the workspace. */
  datatype Patterns = Patterns(error: seq<Byte> -> bool, frame: seq<Byte> -> bool)

  const NEWLINE: Byte := 10
  const MAX_BLOCK_BYTES := 32 * 1024
  const TAIL_BYTES := 8 * 1024

  function Ascii(s: string): seq<Byte> {
    seq(|s|, i requires 0 <= i < |s| => if s[i] as int < 128 then s[i] as int else 63)
  }

  const MARKER: seq<Byte> := Ascii("Traceback (most recent call last):")

  predicate OccursAt(line: seq<Byte>, part: seq<Byte>, i: int) {
    0 <= i <= |line| - |part| && line[i..i + |part|] == part
  }

  predicate Contains(line: seq<Byte>, part: seq<Byte>) {
    exists i :: 0 <= i <= |line| && OccursAt(line, part, i)
  }

  predicate IsMarker(line: seq<Byte>) {
    Contains(line, MARKER)
  }

  /** `not line.strip()`. */
  predicate Blank(line: seq<Byte>) {
    forall i :: 0 <= i < |line| ==> line[i] == 32 || 9 <= line[i] <= 13
  }

  // ----- lines -----

  function LineLength(log: seq<Byte>): (n: nat)
    requires log != []
    ensures 0 < n <= |log| && NEWLINE !in log[..n - 1] && (log[n - 1] == NEWLINE || n == |log|)
  {
    if log[0] == NEWLINE || |log| == 1 then 1
    else
      assert log[1..][..LineLength(log[1..]) - 1] == log[1..LineLength(log[1..])];
      LineLength(log[1..]) + 1
  }

  /** The lines of a log, each with its newline. */
  function Lines(log: seq<Byte>): (lines: seq<seq<Byte>>)
    ensures forall i :: 0 <= i < |lines| ==> lines[i] != []
    decreases |log|
  {
    if log == [] then [] else [log[..LineLength(log)]] + Lines(log[LineLength(log)..])
  }

  function Concat(lines: seq<seq<Byte>>): seq<Byte> {
    if lines == [] then [] else lines[0] + Concat(lines[1..])
  }

  lemma {:induction false} ConcatAppend(a: seq<seq<Byte>>, b: seq<seq<Byte>>)
    ensures Concat(a + b) == Concat(a) + Concat(b)
  {
    if a == [] {
      assert a + b == b;
    } else {
      assert (a + b)[1..] == a[1..] + b;
      ConcatAppend(a[1..], b);
    }
  }

  lemma ConcatSnoc(a: seq<seq<Byte>>, line: seq<Byte>)
    ensures Concat(a + [line]) == Concat(a) + line
  {
    ConcatAppend(a, [line]);
    assert Concat([line]) == line + Concat([line][1..]) == line;
  }

  lemma {:induction false} LinesCover(log: seq<Byte>)
    ensures Concat(Lines(log)) == log
    decreases |log|
  {
    if log != [] {
      LinesCover(log[LineLength(log)..]);
    }
  }

  function Offset(lines: seq<seq<Byte>>, k: nat): nat
    requires k <= |lines|
  {
    |Concat(lines[..k])|
  }

  /** Consecutive lines are consecutive bytes of the log. */
  lemma LinesAre(lines: seq<seq<Byte>>, i: nat, j: nat)
    requires i <= j <= |lines|
    ensures
      var log := Concat(lines);
      Offset(lines, i) <= Offset(lines, j) <= |log| && log[Offset(lines, i)..Offset(lines, j)] == Concat(lines[i..j])
  {
    var log := Concat(lines);
    assert lines == lines[..i] + lines[i..j] + lines[j..];
    ConcatAppend(lines[..i], lines[i..j]);
    ConcatAppend(lines[..i] + lines[i..j], lines[j..]);
    assert lines[..j] == lines[..i] + lines[i..j];
    assert log == Concat(lines[..i]) + Concat(lines[i..j]) + Concat(lines[j..]);
  }

  lemma OffsetStep(lines: seq<seq<Byte>>, k: nat)
    requires k < |lines|
    ensures Offset(lines, k + 1) == Offset(lines, k) + |lines[k]|
  {
    assert lines[..k + 1] == lines[..k] + [lines[k]];
    ConcatSnoc(lines[..k], lines[k]);
  }

  // ----- what a scan looks for -----

  /** The last of the first `n` lines that begins a traceback. */
  function LastMarker(lines: seq<seq<Byte>>, n: nat): (r: Option<nat>)
    requires n <= |lines|
    ensures r.Some? ==> r.value < n && IsMarker(lines[r.value])
    ensures forall i :: (if r.Some? then r.value + 1 else 0) <= i < n ==> !IsMarker(lines[i])
  {
    if n == 0 then None else if IsMarker(lines[n - 1]) then Some(n - 1) else LastMarker(lines, n - 1)
  }

  /** The first blank line from `i` on and before `n`, or `n`. */
  function BlockEnd(lines: seq<seq<Byte>>, i: nat, n: nat): (e: nat)
    requires i <= n <= |lines|
    ensures i <= e <= n && (e < n ==> Blank(lines[e])) && forall j :: i <= j < e ==> !Blank(lines[j])
    decreases n - i
  {
    if i == n || Blank(lines[i]) then i else BlockEnd(lines, i + 1, n)
  }

  /** The last line in a range that matches a pattern and begins no traceback. */
  function LastMatch(lines: seq<seq<Byte>>, i: nat, n: nat, pattern: seq<Byte> -> bool): (r: Option<nat>)
    requires i <= n <= |lines|
    ensures r.Some? ==> i <= r.value < n && pattern(lines[r.value]) && !IsMarker(lines[r.value])
    ensures forall j :: (if r.Some? then r.value + 1 else i) <= j < n ==> IsMarker(lines[j]) || !pattern(lines[j])
    decreases n
  {
    if n == i then None
    else if pattern(lines[n - 1]) && !IsMarker(lines[n - 1]) then Some(n - 1)
    else LastMatch(lines, i, n - 1, pattern)
  }

  function LineCandidate(lines: seq<seq<Byte>>, source: Source, kind: Kind, at: Option<nat>): Option<Candidate>
    requires at.Some? ==> at.value < |lines|
  {
    if at.None? then None else Some(Candidate(source, Offset(lines, at.value), kind, lines[at.value]))
  }

  /** At most `n` bytes of a sequence. */
  function Upto(s: seq<Byte>, n: int): seq<Byte> {
    if n <= 0 then [] else if |s| <= n then s else s[..n]
  }

  lemma UptoGrows(a: seq<Byte>, b: seq<Byte>, n: int)
    ensures Upto(a + b, n) == Upto(a, n) + Upto(b, n - |Upto(a, n)|)
  {
    if 0 < n < |a| + |b| {
      assert (a + b)[..n] == if n <= |a| then a[..n] else a + b[..n - |a|];
    }
  }

  /** The first line of a traceback, and what fills the block after it. */
  function Capped(first: seq<Byte>, rest: seq<Byte>): seq<Byte> {
    first + Upto(rest, MAX_BLOCK_BYTES - |first|)
  }

  /** The traceback that line `m` begins and that ends before line `e`. */
  function BlockOf(lines: seq<seq<Byte>>, m: nat, e: nat): seq<Byte>
    requires m < e <= |lines|
  {
    Capped(lines[m], Concat(lines[m + 1..e]))
  }

  /** The last traceback of the first `n` lines. */
  function TracebackOf(lines: seq<seq<Byte>>, n: nat, source: Source): Option<Candidate>
    requires n <= |lines|
  {
    match LastMarker(lines, n)
    case None => None
    case Some(m) => Some(Candidate(source, Offset(lines, m), Traceback, BlockOf(lines, m, BlockEnd(lines, m + 1, n))))
  }

  /** Its final exception line, the blank line that ended it included in the search. */
  function ExceptionOf(lines: seq<seq<Byte>>, n: nat, source: Source, error: seq<Byte> -> bool): Option<Candidate>
    requires n <= |lines|
  {
    match LastMarker(lines, n)
    case None => None
    case Some(m) =>
      var e := BlockEnd(lines, m + 1, n);
      LineCandidate(lines, source, FinalException, LastMatch(lines, m + 1, if e < n then e + 1 else n, error))
  }

  function ErrorOf(lines: seq<seq<Byte>>, n: nat, source: Source, error: seq<Byte> -> bool): Option<Candidate>
    requires n <= |lines|
  {
    if source.Stdout? then None else LineCandidate(lines, source, ErrorLine, LastMatch(lines, 0, n, error))
  }

  function FrameOf(lines: seq<seq<Byte>>, n: nat, source: Source, frame: seq<Byte> -> bool): Option<Candidate>
    requires n <= |lines|
  {
    LineCandidate(lines, source, WorkspaceFrame, LastMatch(lines, 0, n, frame))
  }

  /** The end of the log, up to 8 KiB of it. */
  function TailOf(log: seq<Byte>, source: Source): (tail: Option<Candidate>)
    ensures tail.None? <==> log == []
    ensures tail.Some? ==>
      && End(tail.value) == |log| && |tail.value.content| == (if |log| < TAIL_BYTES then |log| else TAIL_BYTES)
      && tail.value.content == log[tail.value.start..] && tail.value.source == source && tail.value.kind.LogTail?
  {
    if log == [] then None
    else
      var start := if |log| > TAIL_BYTES then |log| - TAIL_BYTES else 0;
      Some(Candidate(source, start, LogTail, log[start..]))
  }

  function Present(c: Option<Candidate>): seq<Candidate> {
    if c.Some? then [c.value] else []
  }

  /** The candidates beside the traceback. */
  function Others(p: Patterns, source: Source, log: seq<Byte>): seq<Candidate> {
    var lines := Lines(log);
    var n := |lines|;
    Present(ExceptionOf(lines, n, source, p.error)) + Present(FrameOf(lines, n, source, p.frame))
    + Present(ErrorOf(lines, n, source, p.error)) + Present(TailOf(log, source))
  }

  /** All the candidates of a log, in the order `_scan` lists them. */
  function Scanned(p: Patterns, source: Source, log: seq<Byte>): seq<Candidate> {
    Present(TracebackOf(Lines(log), |Lines(log)|, source)) + Others(p, source, log)
  }

  // ----- provenance -----

  /** The candidate's content is exactly its byte range of the log, and not empty. */
  predicate FromLog(c: Candidate, log: seq<Byte>) {
    c.content != [] && End(c) <= |log| && log[c.start..End(c)] == c.content
  }

  lemma LineFromLog(lines: seq<seq<Byte>>, k: nat, c: Candidate)
    requires k < |lines| && lines[k] != [] && c.start == Offset(lines, k) && c.content == lines[k]
    ensures FromLog(c, Concat(lines))
  {
    LinesAre(lines, k, k + 1);
    OffsetStep(lines, k);
    assert lines[k..k + 1] == [] + [lines[k]];
    ConcatSnoc([], lines[k]);
  }

  /** A traceback stays contiguous however it is capped. */
  lemma BlockFromLog(lines: seq<seq<Byte>>, m: nat, e: nat, c: Candidate)
    requires m < e <= |lines| && lines[m] != [] && c.start == Offset(lines, m) && c.content == BlockOf(lines, m, e)
    ensures FromLog(c, Concat(lines))
  {
    hide Capped, Concat;
    LinesAre(lines, m, e);
    CappedIsPrefix(lines[m], Concat(lines[m + 1..e]));
    FirstLine(lines, m, e);
    PrefixFromLog(Concat(lines), c.start, Offset(lines, e), c);
  }

  lemma FirstLine(lines: seq<seq<Byte>>, m: nat, e: nat)
    requires m < e <= |lines|
    ensures Concat(lines[m..e]) == lines[m] + Concat(lines[m + 1..e])
  {
    assert lines[m..e][1..] == lines[m + 1..e];
  }

  lemma CappedIsPrefix(first: seq<Byte>, rest: seq<Byte>)
    ensures first <= Capped(first, rest) <= first + rest
  {
    assert Upto(rest, MAX_BLOCK_BYTES - |first|) <= rest;
  }

  lemma PrefixFromLog(log: seq<Byte>, from: nat, to: nat, c: Candidate)
    requires from <= to <= |log| && c.start == from && c.content != [] && c.content <= log[from..to]
    ensures FromLog(c, log)
  {
    assert log[from..End(c)] == log[from..to][..|c.content|];
  }

  lemma TracebackFromLog(lines: seq<seq<Byte>>, source: Source, c: Candidate)
    requires TracebackOf(lines, |lines|, source) == Some(c) && forall i :: 0 <= i < |lines| ==> lines[i] != []
    ensures c.source == source && c.kind.Traceback? && FromLog(c, Concat(lines))
  {
    hide FromLog, BlockOf, Concat, LastMarker, BlockEnd, Offset, IsMarker, Blank;
    var m := LastMarker(lines, |lines|).value;
    BlockFromLog(lines, m, BlockEnd(lines, m + 1, |lines|), c);
  }

  lemma LineCandidateFromLog(lines: seq<seq<Byte>>, source: Source, kind: Kind, at: Option<nat>, c: Candidate)
    requires at.Some? ==> at.value < |lines|
    requires LineCandidate(lines, source, kind, at) == Some(c) && forall i :: 0 <= i < |lines| ==> lines[i] != []
    ensures c.source == source && c.kind == kind && FromLog(c, Concat(lines))
  {
    LineFromLog(lines, at.value, c);
  }

  lemma AmongPresent(a: Option<Candidate>, b: Option<Candidate>, d: Option<Candidate>, e: Option<Candidate>,
                     f: Option<Candidate>, c: Candidate)
    ensures c in Present(a) + (Present(b) + Present(d) + Present(e) + Present(f)) <==>
      Some(c) == a || Some(c) == b || Some(c) == d || Some(c) == e || Some(c) == f
  {
  }

  /** Every candidate of a scan is non-empty and holds exactly the log's bytes of its range. */
  lemma ScannedFromLog(p: Patterns, source: Source, log: seq<Byte>, c: Candidate)
    requires c in Scanned(p, source, log)
    ensures c.source == source && FromLog(c, log)
  {
    hide FromLog, TracebackOf, LineCandidate, LastMatch, LastMarker, BlockEnd, Lines, Concat, TailOf, IsMarker, Blank,
         Present;
    var lines := Lines(log);
    var n := |lines|;
    LinesCover(log);
    AmongPresent(TracebackOf(lines, n, source), ExceptionOf(lines, n, source, p.error),
                 FrameOf(lines, n, source, p.frame), ErrorOf(lines, n, source, p.error), TailOf(log, source), c);
    if Some(c) == TracebackOf(lines, n, source) {
      TracebackFromLog(lines, source, c);
    } else if Some(c) == ExceptionOf(lines, n, source, p.error) {
      var m := LastMarker(lines, n).value;
      var e := BlockEnd(lines, m + 1, n);
      LineCandidateFromLog(lines, source, FinalException, LastMatch(lines, m + 1, if e < n then e + 1 else n, p.error),
                           c);
    } else if Some(c) == FrameOf(lines, n, source, p.frame) {
      LineCandidateFromLog(lines, source, WorkspaceFrame, LastMatch(lines, 0, n, p.frame), c);
    } else if Some(c) == ErrorOf(lines, n, source, p.error) {
      LineCandidateFromLog(lines, source, ErrorLine, LastMatch(lines, 0, n, p.error), c);
    } else {
      TailFromLog(log, source);
    }
  }

  // ----- the candidates, described -----

  /** The last line from `from` on and before `to` that matches a pattern and begins no traceback. */
  predicate IsLastMatch(lines: seq<seq<Byte>>, k: nat, from: nat, to: nat, pattern: seq<Byte> -> bool)
    requires to <= |lines|
  {
    && from <= k < to && pattern(lines[k]) && !IsMarker(lines[k])
    && forall j :: k < j < to ==> IsMarker(lines[j]) || !pattern(lines[j])
  }

  /** Line `m` begins the last traceback, which ends before line `e`: at the first blank line, or with the log. */
  predicate IsLastTraceback(lines: seq<seq<Byte>>, m: nat, e: nat) {
    && m < e <= |lines| && IsMarker(lines[m]) && (forall j :: m < j < |lines| ==> !IsMarker(lines[j]))
    && (forall j :: m < j < e ==> !Blank(lines[j])) && (e < |lines| ==> Blank(lines[e]))
  }

  predicate IsLine(c: Candidate, lines: seq<seq<Byte>>, k: nat)
    requires k < |lines|
  {
    c.start == Offset(lines, k) && c.content == lines[k]
  }

  /** What each kind of candidate is. */
  ghost predicate Described(p: Patterns, source: Source, log: seq<Byte>, c: Candidate) {
    var lines := Lines(log);
    && c.source == source
    && match c.kind
       case Traceback =>
         exists m: nat, e: nat ::
           IsLastTraceback(lines, m, e) && c.start == Offset(lines, m) && c.content == BlockOf(lines, m, e)
       case FinalException =>
         exists m: nat, e: nat, k: nat ::
           && IsLastTraceback(lines, m, e)
           && IsLastMatch(lines, k, m + 1, if e < |lines| then e + 1 else e, p.error) && IsLine(c, lines, k)
       case WorkspaceFrame => exists k: nat :: IsLastMatch(lines, k, 0, |lines|, p.frame) && IsLine(c, lines, k)
       case ErrorLine =>
         source.Stderr? && exists k: nat :: IsLastMatch(lines, k, 0, |lines|, p.error) && IsLine(c, lines, k)
       case LogTail =>
         && log != [] && End(c) == |log| && |c.content| == (if |log| < TAIL_BYTES then |log| else TAIL_BYTES)
         && c.content == log[c.start..]
  }

  lemma LastMatchIs(lines: seq<seq<Byte>>, i: nat, n: nat, pattern: seq<Byte> -> bool, k: nat)
    requires i <= n <= |lines|
    ensures LastMatch(lines, i, n, pattern) == Some(k) <==> IsLastMatch(lines, k, i, n, pattern)
  {
    hide IsMarker, LastMatch;
    var r := LastMatch(lines, i, n, pattern);
    assert r.Some? ==> IsLastMatch(lines, r.value, i, n, pattern);
  }

  lemma LastTracebackIs(lines: seq<seq<Byte>>, m: nat, e: nat)
    ensures IsLastTraceback(lines, m, e) <==>
      LastMarker(lines, |lines|) == Some(m) && BlockEnd(lines, m + 1, |lines|) == e
  {
    hide IsMarker, Blank;
    var n := |lines|;
    var r := LastMarker(lines, n);
    if IsLastTraceback(lines, m, e) {
      assert r == Some(m);
      var f := BlockEnd(lines, m + 1, n);
      assert f == e;
    }
  }

  lemma LineIs(lines: seq<seq<Byte>>, source: Source, kind: Kind, at: Option<nat>, c: Candidate)
    requires at.Some? ==> at.value < |lines|
    ensures LineCandidate(lines, source, kind, at) == Some(c) <==>
      at.Some? && c.source == source && c.kind == kind && IsLine(c, lines, at.value)
  {
  }

  lemma MatchIs(lines: seq<seq<Byte>>, i: nat, n: nat, pattern: seq<Byte> -> bool, source: Source, kind: Kind,
                c: Candidate)
    requires i <= n <= |lines|
    ensures LineCandidate(lines, source, kind, LastMatch(lines, i, n, pattern)) == Some(c) <==>
      && c.source == source && c.kind == kind
      && exists k: nat :: IsLastMatch(lines, k, i, n, pattern) && IsLine(c, lines, k)
  {
    hide LineCandidate, LastMatch, IsLastMatch, IsLine;
    var r := LastMatch(lines, i, n, pattern);
    LineIs(lines, source, kind, r, c);
    if r.Some? {
      LastMatchIs(lines, i, n, pattern, r.value);
    }
    forall k: nat
      ensures IsLastMatch(lines, k, i, n, pattern) <==> r == Some(k)
    {
      LastMatchIs(lines, i, n, pattern, k);
    }
  }

  lemma TracebackIs(lines: seq<seq<Byte>>, source: Source, c: Candidate)
    ensures TracebackOf(lines, |lines|, source) == Some(c) <==>
      && c.source == source && c.kind.Traceback?
      && exists m: nat, e: nat ::
           IsLastTraceback(lines, m, e) && c.start == Offset(lines, m) && c.content == BlockOf(lines, m, e)
  {
    hide IsLastTraceback, BlockOf, Offset, LastMarker, BlockEnd, IsMarker;
    var n := |lines|;
    var r := LastMarker(lines, n);
    if r.Some? {
      LastTracebackIs(lines, r.value, BlockEnd(lines, r.value + 1, n));
    }
    forall m: nat, e: nat | IsLastTraceback(lines, m, e)
      ensures r == Some(m) && BlockEnd(lines, m + 1, n) == e
    {
      LastTracebackIs(lines, m, e);
    }
  }

  lemma ExceptionIs(lines: seq<seq<Byte>>, source: Source, error: seq<Byte> -> bool, c: Candidate)
    ensures ExceptionOf(lines, |lines|, source, error) == Some(c) <==>
      && c.source == source && c.kind.FinalException?
      && exists m: nat, e: nat, k: nat ::
           && IsLastTraceback(lines, m, e)
           && IsLastMatch(lines, k, m + 1, if e < |lines| then e + 1 else e, error) && IsLine(c, lines, k)
  {
    hide IsLastTraceback, IsLastMatch, IsLine, LastMarker, BlockEnd, LastMatch, LineCandidate, IsMarker;
    var n := |lines|;
    var r := LastMarker(lines, n);
    if r.Some? {
      var e := BlockEnd(lines, r.value + 1, n);
      LastTracebackIs(lines, r.value, e);
      MatchIs(lines, r.value + 1, if e < n then e + 1 else n, error, source, FinalException, c);
    }
    forall m: nat, e: nat | IsLastTraceback(lines, m, e)
      ensures r == Some(m) && BlockEnd(lines, m + 1, n) == e
    {
      LastTracebackIs(lines, m, e);
    }
  }

  lemma TailIs(log: seq<Byte>, source: Source, c: Candidate)
    ensures TailOf(log, source) == Some(c) <==>
      && c.source == source && c.kind.LogTail? && log != [] && End(c) == |log|
      && |c.content| == (if |log| < TAIL_BYTES then |log| else TAIL_BYTES) && c.content == log[c.start..]
  {
  }

  /** A scan finds exactly the candidates that the description fits. */
  lemma ScannedExactly(p: Patterns, source: Source, log: seq<Byte>, c: Candidate)
    ensures c in Scanned(p, source, log) <==> Described(p, source, log, c)
  {
    hide TracebackOf, ExceptionOf, LineCandidate, LastMatch, Lines, TailOf, Present, IsLastTraceback, IsLastMatch,
         IsLine, BlockOf, Offset;
    var lines := Lines(log);
    var n := |lines|;
    AmongPresent(TracebackOf(lines, n, source), ExceptionOf(lines, n, source, p.error),
                 FrameOf(lines, n, source, p.frame), ErrorOf(lines, n, source, p.error), TailOf(log, source), c);
    TracebackIs(lines, source, c);
    ExceptionIs(lines, source, p.error, c);
    MatchIs(lines, 0, n, p.frame, source, WorkspaceFrame, c);
    MatchIs(lines, 0, n, p.error, source, ErrorLine, c);
    TailIs(log, source, c);
  }

  lemma TailFromLog(log: seq<Byte>, source: Source)
    ensures TailOf(log, source).Some? ==>
      TailOf(log, source).value.source == source && FromLog(TailOf(log, source).value, log)
  {
  }

  // ----- the scan itself -----

  lemma {:induction false} BlockEndExtends(lines: seq<seq<Byte>>, i: nat, k: nat)
    requires i <= k < |lines|
    ensures BlockEnd(lines, i, k + 1) ==
      if BlockEnd(lines, i, k) < k then BlockEnd(lines, i, k) else if Blank(lines[k]) then k else k + 1
    decreases k - i
  {
    hide Blank;
    if i < k && !Blank(lines[i]) {
      BlockEndExtends(lines, i + 1, k);
    }
  }

  /** What a traceback still takes of its next line. */
  function Piece(taken: nat, line: seq<Byte>): seq<Byte> {
    Upto(line, MAX_BLOCK_BYTES - taken)
  }

  lemma BlockGrows(lines: seq<seq<Byte>>, m: nat, k: nat)
    requires m < k < |lines|
    ensures BlockOf(lines, m, k + 1) == BlockOf(lines, m, k) + Piece(|BlockOf(lines, m, k)|, lines[k])
  {
    hide Concat;
    assert lines[m + 1..k + 1] == lines[m + 1..k] + [lines[k]];
    ConcatSnoc(lines[m + 1..k], lines[k]);
    CappedGrows(lines[m], Concat(lines[m + 1..k]), lines[k]);
  }

  lemma CappedGrows(first: seq<Byte>, rest: seq<Byte>, line: seq<Byte>)
    ensures Capped(first, rest + line) == Capped(first, rest) + Piece(|Capped(first, rest)|, line)
  {
    hide Upto;
    var room := MAX_BLOCK_BYTES - |first|;
    UptoGrows(rest, line, room);
    assert first + (Upto(rest, room) + Upto(line, room - |Upto(rest, room)|)) ==
      first + Upto(rest, room) + Upto(line, room - |Upto(rest, room)|);
  }

  /** The locals of `_scan` that follow tracebacks. */
  datatype Tracking = Tracking(
    start: Option<nat>, taken: seq<seq<Byte>>, bytes: nat, current: Option<Candidate>,
    latest: Option<Candidate>, latestException: Option<Candidate>)

  /** They follow the traceback that line `m` begins. */
  predicate Follows(t: Tracking, lines: seq<seq<Byte>>, m: nat, k: nat, source: Source, error: seq<Byte> -> bool)
    requires m < k <= |lines|
  {
    && t.start == Some(Offset(lines, m)) && t.taken != []
    && Concat(t.taken) == BlockOf(lines, m, k) && t.bytes == |Concat(t.taken)|
    && t.current == LineCandidate(lines, source, FinalException, LastMatch(lines, m + 1, k, error))
  }

  /** What they hold after the first `k` lines. */
  predicate Tracks(t: Tracking, lines: seq<seq<Byte>>, k: nat, source: Source, error: seq<Byte> -> bool)
    requires k <= |lines|
  {
    match LastMarker(lines, k)
    case None => t == Tracking(None, [], 0, None, None, None)
    case Some(m) =>
      if BlockEnd(lines, m + 1, k) == k then Follows(t, lines, m, k, source, error)
      else
        t == Tracking(None, [], 0, None, TracebackOf(lines, k, source), ExceptionOf(lines, k, source, error))
  }

  function Finished(t: Tracking, source: Source): Tracking {
    if t.start.Some? && t.taken != []
    then Tracking(None, [], 0, None, Some(Candidate(source, t.start.value, Traceback, Concat(t.taken))), t.current)
    else Tracking(None, [], 0, None, t.latest, t.latestException)
  }

  /** `finish_traceback`. */
  method FinishTraceback(t: Tracking, source: Source) returns (r: Tracking)
    ensures r == Finished(t, source)
  {
    r := t;
    if t.start.Some? && t.taken != [] {
      r := r.(latest := Some(Candidate(source, t.start.value, Traceback, Concat(t.taken))),
              latestException := t.current);
    }
    r := r.(start := None, taken := [], bytes := 0, current := None);
  }

  lemma NothingTracked(lines: seq<seq<Byte>>, source: Source, error: seq<Byte> -> bool)
    ensures Tracks(Tracking(None, [], 0, None, None, None), lines, 0, source, error)
  {
  }

  lemma MarkerTracked(t: Tracking, lines: seq<seq<Byte>>, k: nat, source: Source, error: seq<Byte> -> bool)
    requires k < |lines| && IsMarker(lines[k])
    requires t.start == Some(Offset(lines, k)) && t.taken == [lines[k]] && t.bytes == |lines[k]| && t.current.None?
    ensures Tracks(t, lines, k + 1, source, error)
  {
    hide IsMarker, Blank, Offset;
    assert lines[k + 1..k + 1] == [];
    ConcatSnoc([], lines[k]);
    assert [] + [lines[k]] == [lines[k]];
  }

  /** The traceback's locals after one more of its lines, which may be its blank end. */
  function Followed(t: Tracking, line: seq<Byte>, exception: Option<Candidate>): Tracking {
    var piece := Piece(t.bytes, line);
    var t1 :=
      if !Blank(line) && t.bytes < MAX_BLOCK_BYTES
      then t.(taken := t.taken + [piece], bytes := t.bytes + |piece|)
      else t;
    if exception.Some? then t1.(current := exception) else t1
  }

  lemma LineFollowed(t: Tracking, lines: seq<seq<Byte>>, m: nat, k: nat, source: Source, error: seq<Byte> -> bool,
                     exception: Option<Candidate>)
    requires m < k < |lines| && !IsMarker(lines[k]) && Follows(t, lines, m, k, source, error)
    requires exception == if error(lines[k]) then Some(Candidate(source, Offset(lines, k), FinalException, lines[k]))
                          else None
    ensures !Blank(lines[k]) ==> Follows(Followed(t, lines[k], exception), lines, m, k + 1, source, error)
    ensures Followed(t, lines[k], exception).current ==
      LineCandidate(lines, source, FinalException, LastMatch(lines, m + 1, k + 1, error))
  {
    hide IsMarker, Blank, Offset, Concat, BlockOf, Piece, LineCandidate, LastMatch;
    ExceptionGrows(lines, m, k, source, error, exception);
    BlockGrows(lines, m, k);
    ConcatSnoc(t.taken, Piece(t.bytes, lines[k]));
    FullTakesNothing(t.bytes, lines[k], BlockOf(lines, m, k));
  }

  lemma LineTracked(t: Tracking, lines: seq<seq<Byte>>, k: nat, source: Source, error: seq<Byte> -> bool,
                    exception: Option<Candidate>)
    requires k < |lines| && !IsMarker(lines[k]) && t.start.Some? && Tracks(t, lines, k, source, error)
    requires exception == if error(lines[k]) then Some(Candidate(source, Offset(lines, k), FinalException, lines[k]))
                          else None
    ensures
      var f := Followed(t, lines[k], exception);
      Tracks(if Blank(lines[k]) then Finished(f, source) else f, lines, k + 1, source, error)
  {
    hide IsMarker, Blank, Offset, Concat, BlockOf, Piece, LineCandidate, LastMatch;
    var m := LastMarker(lines, k).value;
    BlockEndExtends(lines, m + 1, k);
    LineFollowed(t, lines, m, k, source, error, exception);
  }

  lemma ExceptionGrows(lines: seq<seq<Byte>>, m: nat, k: nat, source: Source, error: seq<Byte> -> bool,
                       exception: Option<Candidate>)
    requires m < k < |lines| && !IsMarker(lines[k])
    requires exception == if error(lines[k]) then Some(Candidate(source, Offset(lines, k), FinalException, lines[k]))
                          else None
    ensures LineCandidate(lines, source, FinalException, LastMatch(lines, m + 1, k + 1, error)) ==
      if exception.Some? then exception
      else LineCandidate(lines, source, FinalException, LastMatch(lines, m + 1, k, error))
  {
    hide IsMarker, Offset;
  }

  lemma FullTakesNothing(taken: nat, line: seq<Byte>, block: seq<Byte>)
    ensures taken >= MAX_BLOCK_BYTES ==> Piece(taken, line) == [] && block + Piece(taken, line) == block
  {
  }

  lemma OutsideTracked(t: Tracking, lines: seq<seq<Byte>>, k: nat, source: Source, error: seq<Byte> -> bool)
    requires k < |lines| && !IsMarker(lines[k]) && t.start.None? && Tracks(t, lines, k, source, error)
    ensures Tracks(t, lines, k + 1, source, error)
  {
    hide IsMarker, Blank, Offset, Concat, BlockOf, LastMatch;
    if LastMarker(lines, k).Some? {
      BlockEndExtends(lines, LastMarker(lines, k).value + 1, k);
    }
  }

  lemma EndTracked(t: Tracking, lines: seq<seq<Byte>>, source: Source, error: seq<Byte> -> bool)
    requires Tracks(t, lines, |lines|, source, error)
    ensures
      if t.start.Some? then
        && t.taken != []
        && TracebackOf(lines, |lines|, source) == Some(Candidate(source, t.start.value, Traceback, Concat(t.taken)))
        && ExceptionOf(lines, |lines|, source, error) == t.current
      else
        && TracebackOf(lines, |lines|, source) == t.latest
        && ExceptionOf(lines, |lines|, source, error) == t.latestException
  {
    hide IsMarker, Blank, Offset, Concat, BlockOf, LastMatch;
  }

  /** `_scan`: one pass over the lines finds exactly the candidates. */
  method Scan(p: Patterns, source: Source, log: seq<Byte>) returns (candidates: seq<Candidate>, total: nat)
    ensures candidates == Scanned(p, source, log) && total == |log|
  {
    hide Tracks, Followed, IsMarker, Blank, Offset, LastMarker, Contains, Concat;
    var lines := Lines(log);
    var t := Tracking(None, [], 0, None, None, None);
    var latestError, latestFrame := None, None;
    total := 0;
    NothingTracked(lines, source, p.error);
    OffsetStart(lines);
    for k := 0 to |lines|
      invariant total == Offset(lines, k) && Tracks(t, lines, k, source, p.error)
      invariant latestError == ErrorOf(lines, k, source, p.error) && latestFrame == FrameOf(lines, k, source, p.frame)
    {
      var line, lineStart := lines[k], total;
      total := total + |line|;
      OffsetStep(lines, k);
      if IsMarker(line) {
        t := FinishTraceback(t, source);
        t := t.(start := Some(lineStart), taken := [line], bytes := |line|);
        MarkerTracked(t, lines, k, source, p.error);
      } else {
        if t.start.Some? {
          var exception := if p.error(line) then Some(Candidate(source, lineStart, FinalException, line)) else None;
          LineTracked(t, lines, k, source, p.error, exception);
          t := FollowLine(t, line, exception);
          if Blank(line) {
            t := FinishTraceback(t, source);
          }
        } else {
          OutsideTracked(t, lines, k, source, p.error);
        }
        if source.Stderr? && p.error(line) {
          latestError := Some(Candidate(source, lineStart, ErrorLine, line));
        }
        if p.frame(line) {
          latestFrame := Some(Candidate(source, lineStart, WorkspaceFrame, line));
        }
      }
    }
    EndTracked(t, lines, source, p.error);
    t := FinishTraceback(t, source);
    candidates :=
      Present(t.latest)
      + (Present(t.latestException) + Present(latestFrame) + Present(latestError) + Present(TailOf(log, source)));
    TotalRead(log);
  }

  lemma OffsetStart(lines: seq<seq<Byte>>)
    ensures Offset(lines, 0) == 0
  {
  }

  lemma TotalRead(log: seq<Byte>)
    ensures Offset(Lines(log), |Lines(log)|) == |log|
  {
    LinesCover(log);
    assert Lines(log)[..|Lines(log)|] == Lines(log);
  }

  /** A traceback takes what it has room for of a line that is not blank, and remembers an exception line. */
  method FollowLine(t: Tracking, line: seq<Byte>, exception: Option<Candidate>) returns (r: Tracking)
    ensures r == Followed(t, line, exception)
  {
    r := t;
    if !Blank(line) && r.bytes < MAX_BLOCK_BYTES {
      var remaining := MAX_BLOCK_BYTES - r.bytes;
      var piece := if |line| <= remaining then line else line[..remaining];
      r := r.(taken := r.taken + [piece], bytes := r.bytes + |piece|);
    }
    if exception.Some? {
      r := r.(current := exception);
    }
  }
}
