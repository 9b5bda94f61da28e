/**
 Bounded evidence from the logs of a failed smoke check (`training/incidents/evidence.py`): the
 tail of each stream under a one-line header that names its byte range.
 */
module SmokeEvidence {
  import opened Common
  import opened Utf8

  datatype Source = Stdout | Stderr

  /** A tail of a log: everything from `start` to the end. */
  datatype Block = Block(source: Source, start: nat, end: nat, content: seq<Byte>)

  /**
   The bytes of the JSON header for `stream:smoke-incident/proposal@bytes:start-size`: a part
   that depends on the stream and ids only, and the two offsets in decimal.
   */
  function HeaderSize(fixed: nat, start: nat, size: nat): nat {
    fixed + |Decimal(start)| + |Decimal(size)|
  }

  /** What the tail of `n` bytes takes: header, newline and raw bytes. */
  function TailSize(fixed: nat, size: nat, n: nat): nat
    requires n <= size
  {
    HeaderSize(fixed, size - n, size) + 1 + n
  }

  predicate TailFits(fixed: nat, size: nat, n: nat, budget: int) {
    n <= size && TailSize(fixed, size, n) <= budget
  }

  /** A tail shorter by `d` bytes takes at most `d` bytes less, since the header only grows. */
  lemma {:induction false} TailShrinksSlowly(fixed: nat, size: nat, n: nat, d: nat)
    requires d <= n <= size
    ensures TailSize(fixed, size, n - d) + d >= TailSize(fixed, size, n)
  {
    DecimalMonotone(size - n, size - (n - d));
  }

  function Existing(log: Option<seq<Byte>>): seq<Byte> {
    match log
    case None => []
    case Some(data) => data
  }

  /** The tail that is longest among those of at least one byte that fit, if any fits. */
  ghost predicate IsLongestTail(fixed: nat, log: seq<Byte>, budget: int, block: Option<Block>) {
    var n := if block.Some? then block.value.end - block.value.start else 0;
    && (block.Some? ==> IsTail(block.value, log) && TailFits(fixed, |log|, n, budget))
    && forall m: nat :: n < m <= |log| ==> !TailFits(fixed, |log|, m, budget)
  }

  /** A block is a tail of its log, decoded. */
  predicate IsTail(b: Block, log: seq<Byte>) {
    b.start < b.end == |log| && b.content == Replaced(log[b.start..])
  }

  /**
   `_smoke_block`: from the last `budget` bytes the loop drops what is too much until the rest
   fits with its header. That ends with the longest tail that fits, or with none when none does.
   */
  method SmokeBlock(log: Option<seq<Byte>>, source: Source, fixed: nat, budget: int) returns (block: Option<Block>)
    ensures IsLongestTail(fixed, Existing(log), budget, block)
    ensures block.Some? ==> block.value.source == source
  {
    if log.None? || log.value == [] {
      return None;
    }
    var size := |log.value|;
    if budget <= 0 {
      return None;
    }
    var n: nat := if size <= budget then size else budget;
    while n > 0
      invariant 0 <= n <= size
      invariant forall m: nat :: n < m <= size ==> !TailFits(fixed, size, m, budget)
    {
      var encoded := TailSize(fixed, size, n);
      if encoded <= budget {
        return Some(Block(source, size - n, size, Replaced(log.value[size - n..])));
      }
      var drop := if encoded - budget <= n then encoded - budget else n;
      forall m: nat | n - drop < m <= size
        ensures !TailFits(fixed, size, m, budget)
      {
        if m <= n {
          TailShrinksSlowly(fixed, size, n, n - m);
        }
      }
      n := n - drop;
    }
    block := None;
  }

  // ----- both streams -----

  /** The size of a block as selected: its header, a newline and its raw bytes. */
  function RawSize(fixed: nat, b: Block): int {
    HeaderSize(fixed, b.start, b.end) + 1 + b.end - b.start
  }

  /** The size of a block as rendered: its header, a newline and its decoded text. */
  function RenderedSize(fixed: nat, b: Block): int {
    HeaderSize(fixed, b.start, b.end) + 1 + |b.content|
  }

  /** Two optional parts with a newline between them. */
  function Joined(first: Option<int>, second: Option<int>): int {
    match (first, second)
    case (None, None) => 0
    case (Some(a), None) => a
    case (None, Some(b)) => b
    case (Some(a), Some(b)) => a + 1 + b
  }

  function RawPart(fixed: nat, block: Option<Block>): Option<int> {
    if block.Some? then Some(RawSize(fixed, block.value)) else None
  }

  function RenderedPart(fixed: nat, block: Option<Block>): Option<int> {
    if block.Some? then Some(RenderedSize(fixed, block.value)) else None
  }

  lemma RenderedAtLeastRaw(fixed: nat, b: Block, log: seq<Byte>)
    requires IsTail(b, log)
    ensures RenderedSize(fixed, b) >= RawSize(fixed, b)
    ensures RenderedSize(fixed, b) == RawSize(fixed, b) <==> |b.content| == b.end - b.start
  {
    ReplacingNeverShrinks(log[b.start..]);
  }

  // ----- which tails are selected -----

  /**
   Some budget selects the tail from `start` on: the number of its header has no digit more than
   the one before, so that the tail that begins one byte earlier does not fit as well.
   */
  predicate Selectable(start: nat) {
    start == 0 || |Decimal(start)| == |Decimal(start - 1)|
  }

  lemma SelectableNextTo(start: nat)
    requires !Selectable(start)
    ensures start > 1 && Selectable(start - 1) && Selectable(start + 1)
  {
    DecimalMonotone(start - 1, start);
    DecimalStepsApart(start - 1);
  }

  /** A longer tail never takes less. */
  lemma {:induction false} TailNeverShrinks(fixed: nat, size: nat, n: nat, m: nat)
    requires n <= m <= size
    ensures TailSize(fixed, size, n) <= TailSize(fixed, size, m)
    decreases m - n
  {
    if n < m {
      DecimalStep(size - n - 1);
      TailNeverShrinks(fixed, size, n + 1, m);
    }
  }

  /** The start of a selected tail is selectable. */
  lemma LongestIsSelectable(fixed: nat, log: seq<Byte>, budget: int, b: Block)
    requires IsLongestTail(fixed, log, budget, Some(b))
    ensures Selectable(b.start)
  {
    if b.start > 0 {
      var n := b.end - b.start;
      assert !TailFits(fixed, |log|, n + 1, budget);
      DecimalMonotone(b.start - 1, b.start);
    }
  }

  /** A selectable start is that of the longest tail for the budget that the tail takes. */
  lemma SelectableIsLongest(fixed: nat, log: seq<Byte>, b: Block)
    requires IsTail(b, log) && Selectable(b.start)
    ensures IsLongestTail(fixed, log, RawSize(fixed, b), Some(b))
  {
    var size, n := |log|, b.end - b.start;
    forall m: nat | n < m <= size
      ensures !TailFits(fixed, size, m, RawSize(fixed, b))
    {
      assert TailSize(fixed, size, n + 1) == TailSize(fixed, size, n) + 1;
      TailNeverShrinks(fixed, size, n + 1, m);
    }
  }

  // ----- which logs are rendered within the budget -----

  ghost predicate TailsKeepLength(log: seq<Byte>) {
    forall start :: 0 <= start < |log| && Selectable(start) ==> KeepsLength(log[start..])
  }

  /** The byte at `i` is ASCII, or of a two-byte character that no selectable start cuts. */
  predicate PlainAt(log: seq<Byte>, i: nat)
    requires i < |log|
  {
    || log[i] < 0x80
    || (TwoBytes(log[i..]) && !Selectable(i + 1))
    || (i > 0 && TwoBytes(log[i - 1..]) && !Selectable(i))
  }

  /** What a caller can tell from the bytes alone; a log of ASCII is plain. */
  predicate Plain(log: seq<Byte>) {
    forall i :: 0 <= i < |log| ==> PlainAt(log, i)
  }

  /** Where a tail is selectable and keeps its length, the log is plain. */
  lemma PlainAtSelectable(log: seq<Byte>, i: nat)
    requires TailsKeepLength(log) && i < |log| && KeepsLength(log[i..])
    ensures log[i] < 0x80 || (TwoBytes(log[i..]) && !Selectable(i + 1))
  {
    hide KeepsLength, Selectable;
    var bytes := log[i..];
    FirstKept(bytes);
    if bytes[0] >= 0x80 {
      NotInside(log, i + 1);
      if |bytes| >= 3 && IsContinuation(bytes[2]) && Selectable(i + 2) {
        NotInside(log, i + 2);
      }
      if !TwoBytes(bytes) {
        assert !Selectable(i + 1) && !Selectable(i + 2);
        SelectableNextTo(i + 1);
      }
    }
  }

  /** No selectable start lies inside a character. */
  lemma NotInside(log: seq<Byte>, i: nat)
    requires TailsKeepLength(log) && i < |log| && IsContinuation(log[i])
    ensures !Selectable(i)
  {
    ContinuationGrows(log[i..]);
  }

  lemma KeptIsPlain(log: seq<Byte>, i: nat)
    requires TailsKeepLength(log) && i < |log|
    ensures PlainAt(log, i)
  {
    hide KeepsLength, Selectable;
    if Selectable(i) {
      PlainAtSelectable(log, i);
    } else {
      SelectableNextTo(i);
      PlainAtSelectable(log, i - 1);
      if log[i - 1] < 0x80 {
        AsciiKept(log[i - 1..]);
        assert log[i - 1..][1..] == log[i..];
        PlainAtSelectable(log, i);
      }
    }
  }

  /** In a plain log every tail that begins at a selectable start keeps its length. */
  lemma {:induction false} PlainIsKept(log: seq<Byte>, i: nat)
    requires Plain(log) && i <= |log| && (Selectable(i) || i == |log|)
    ensures KeepsLength(log[i..])
    decreases |log| - i
  {
    hide KeepsLength, Selectable;
    if i == |log| {
      NothingKept(log[i..]);
    } else if log[i] < 0x80 {
      assert log[i..][1..] == log[i + 1..];
      AsciiKept(log[i..]);
      if Selectable(i + 1) || i + 1 == |log| {
        PlainIsKept(log, i + 1);
      } else {
        SelectableNextTo(i + 1);
        assert PlainAt(log, i + 1);
        assert log[i + 1] < 0x80;
        assert log[i + 1..][1..] == log[i + 2..];
        AsciiKept(log[i + 1..]);
        PlainIsKept(log, i + 2);
      }
    } else {
      assert PlainAt(log, i);
      SelectableNextTo(i + 1);
      assert log[i..][2..] == log[i + 2..];
      TwoBytesKept(log[i..]);
      PlainIsKept(log, i + 2);
    }
  }

  lemma NothingKept(bytes: seq<Byte>)
    requires bytes == []
    ensures KeepsLength(bytes)
  {
  }

  /** Every selectable tail keeps its length exactly in a plain log. */
  lemma TailsKeepLengthExactly(log: seq<Byte>)
    ensures TailsKeepLength(log) <==> Plain(log)
  {
    hide KeepsLength, Selectable, PlainAt;
    if TailsKeepLength(log) {
      forall i | 0 <= i < |log|
        ensures PlainAt(log, i)
      {
        KeptIsPlain(log, i);
      }
    }
    if Plain(log) {
      forall start | 0 <= start < |log| && Selectable(start)
        ensures KeepsLength(log[start..])
      {
        PlainIsKept(log, start);
      }
    }
  }

  // ----- the selection -----

  /** What the first block as rendered leaves of the budget, with a separator when there is one. */
  function LeftFor(fixedErr: nat, maxBytes: int, err: Option<Block>): int {
    maxBytes - Joined(RenderedPart(fixedErr, err), if err.Some? then Some(0) else None)
  }

  /** The longest tail of stderr, then the longest tail of stdout in what the first block leaves as rendered. */
  ghost predicate IsSelection(
    stdout: seq<Byte>, stderr: seq<Byte>, fixedOut: nat, fixedErr: nat, maxBytes: int,
    err: Option<Block>, out: Option<Block>)
  {
    && (err.Some? ==> err.value.source.Stderr?)
    && (out.Some? ==> out.value.source.Stdout?)
    && IsLongestTail(fixedErr, stderr, maxBytes, err)
    && IsLongestTail(fixedOut, stdout, LeftFor(fixedErr, maxBytes, err), out)
  }

  function RenderedText(fixedOut: nat, fixedErr: nat, err: Option<Block>, out: Option<Block>): int {
    Joined(RenderedPart(fixedErr, err), RenderedPart(fixedOut, out))
  }

  /**
   `select_smoke_evidence`. Headers and raw bytes of both blocks stay within `maxBytes`, and so
   does the rendered text when the selected bytes are well-formed, or both logs plain.
   */
  method SelectSmokeEvidence(stdout: Option<seq<Byte>>, stderr: Option<seq<Byte>>, fixedOut: nat, fixedErr: nat,
                             maxBytes: nat)
    returns (err: Option<Block>, out: Option<Block>)
    requires maxBytes > 0
    ensures IsSelection(Existing(stdout), Existing(stderr), fixedOut, fixedErr, maxBytes, err, out)
    ensures Joined(RawPart(fixedErr, err), RawPart(fixedOut, out)) <= maxBytes
    ensures
      && (err.Some? ==> WellFormed(Existing(stderr)[err.value.start..]))
      && (out.Some? ==> WellFormed(Existing(stdout)[out.value.start..])) ==>
      RenderedText(fixedOut, fixedErr, err, out) <= maxBytes
    ensures Plain(Existing(stdout)) && Plain(Existing(stderr)) ==>
      RenderedText(fixedOut, fixedErr, err, out) <= maxBytes
  {
    hide TailFits, Replaced, WellFormed, HeaderSize, Plain;
    var remaining: int := maxBytes;
    err := SmokeBlock(stderr, Stderr, fixedErr, remaining);
    var separator := 0;
    if err.Some? {
      BlockFits(fixedErr, err.value, Existing(stderr), remaining);
      remaining := remaining - RenderedSize(fixedErr, err.value);
      separator := 1;
    }
    out := SmokeBlock(stdout, Stdout, fixedOut, remaining - separator);
    if out.Some? {
      BlockFits(fixedOut, out.value, Existing(stdout), remaining - separator);
    }
    if Plain(Existing(stdout)) && Plain(Existing(stderr)) {
      PlainSelectionFits(Existing(stdout), Existing(stderr), fixedOut, fixedErr, maxBytes, err, out);
    }
  }

  /** What a fitting tail takes, raw and rendered. */
  lemma BlockFits(fixed: nat, b: Block, log: seq<Byte>, budget: int)
    requires IsTail(b, log) && TailFits(fixed, |log|, b.end - b.start, budget)
    ensures RawSize(fixed, b) <= budget && RawSize(fixed, b) <= RenderedSize(fixed, b)
    ensures WellFormed(log[b.start..]) ==> RenderedSize(fixed, b) == RawSize(fixed, b)
  {
    RenderedAtLeastRaw(fixed, b, log);
    ReplacedUnchanged(log[b.start..]);
  }

  lemma PlainBlockFits(fixed: nat, log: seq<Byte>, budget: int, b: Block)
    requires Plain(log) && IsLongestTail(fixed, log, budget, Some(b))
    ensures RenderedSize(fixed, b) == RawSize(fixed, b) <= budget
  {
    hide Plain, Selectable;
    LongestIsSelectable(fixed, log, budget, b);
    TailsKeepLengthExactly(log);
    assert KeepsLength(log[b.start..]);
  }

  lemma PlainSelectionFits(
    stdout: seq<Byte>, stderr: seq<Byte>, fixedOut: nat, fixedErr: nat, maxBytes: nat,
    err: Option<Block>, out: Option<Block>)
    requires Plain(stdout) && Plain(stderr) && IsSelection(stdout, stderr, fixedOut, fixedErr, maxBytes, err, out)
    ensures RenderedText(fixedOut, fixedErr, err, out) <= maxBytes
  {
    hide Plain, IsLongestTail, RenderedSize;
    if err.Some? {
      PlainBlockFits(fixedErr, stderr, maxBytes, err.value);
    }
    if out.Some? {
      PlainBlockFits(fixedOut, stdout, LeftFor(fixedErr, maxBytes, err), out.value);
    }
  }

  // ----- the rendered text against the budget -----

  /** Whatever the budget, the rendered text is within it. */
  ghost predicate AlwaysFits(stdout: seq<Byte>, stderr: seq<Byte>, fixedOut: nat, fixedErr: nat) {
    forall maxBytes: nat, err, out ::
      maxBytes > 0 && IsSelection(stdout, stderr, fixedOut, fixedErr, maxBytes, err, out) ==>
        RenderedText(fixedOut, fixedErr, err, out) <= maxBytes
  }

  /** A log that is not plain has a tail that is selected for the budget it takes, and grows when decoded. */
  lemma GrowingTail(fixed: nat, log: seq<Byte>, source: Source) returns (b: Block)
    requires !Plain(log)
    ensures b.source == source && IsLongestTail(fixed, log, RawSize(fixed, b), Some(b))
    ensures RenderedSize(fixed, b) > RawSize(fixed, b) > 0
  {
    hide Plain, Selectable, KeepsLength;
    TailsKeepLengthExactly(log);
    var start :| 0 <= start < |log| && Selectable(start) && !KeepsLength(log[start..]);
    b := Block(source, start, |log|, Replaced(log[start..]));
    SelectableIsLongest(fixed, log, b);
    RenderedAtLeastRaw(fixed, b, log);
    NotKeptGrows(log[start..]);
  }

  lemma NotKeptGrows(bytes: seq<Byte>)
    requires !KeepsLength(bytes)
    ensures |Replaced(bytes)| != |bytes|
  {
  }

  lemma NoTailWithoutRoom(fixed: nat, log: seq<Byte>, budget: int)
    requires budget <= 0
    ensures IsLongestTail(fixed, log, budget, None)
  {
    hide Decimal;
  }

  /** A whole log is its longest tail for every budget it fits. */
  lemma WholeIsLongest(fixed: nat, log: seq<Byte>, source: Source, budget: int)
    requires log != [] && TailSize(fixed, |log|, |log|) <= budget
    ensures IsLongestTail(fixed, log, budget, Some(Block(source, 0, |log|, Replaced(log))))
  {
    assert log[0..] == log;
  }

  /** A stderr that is not plain passes some budget on its own. */
  lemma StderrPasses(stdout: seq<Byte>, stderr: seq<Byte>, fixedOut: nat, fixedErr: nat)
    requires !Plain(stderr)
    ensures !AlwaysFits(stdout, stderr, fixedOut, fixedErr)
  {
    hide Plain, IsLongestTail, RenderedSize, RawSize;
    var b := GrowingTail(fixedErr, stderr, Stderr);
    NoTailWithoutRoom(fixedOut, stdout, RawSize(fixedErr, b) - Joined(RenderedPart(fixedErr, Some(b)), Some(0)));
    assert IsSelection(stdout, stderr, fixedOut, fixedErr, RawSize(fixedErr, b), Some(b), None);
  }

  /** A stdout that is not plain passes some budget beside a whole stderr. */
  lemma StdoutPasses(stdout: seq<Byte>, stderr: seq<Byte>, fixedOut: nat, fixedErr: nat)
    requires !Plain(stdout)
    ensures !AlwaysFits(stdout, stderr, fixedOut, fixedErr)
  {
    hide Plain, IsLongestTail, RenderedSize, RawSize, HeaderSize;
    var b := GrowingTail(fixedOut, stdout, Stdout);
    if stderr == [] {
      EmptyHasNoTail(fixedErr, RawSize(fixedOut, b));
      assert IsSelection(stdout, stderr, fixedOut, fixedErr, RawSize(fixedOut, b), None, Some(b));
    } else {
      var whole := Block(Stderr, 0, |stderr|, Replaced(stderr));
      WholeTakes(fixedErr, stderr, whole);
      var maxBytes := RenderedSize(fixedErr, whole) + 1 + RawSize(fixedOut, b);
      WholeIsLongest(fixedErr, stderr, Stderr, maxBytes);
      assert IsSelection(stdout, stderr, fixedOut, fixedErr, maxBytes, Some(whole), Some(b));
    }
  }

  lemma WholeTakes(fixed: nat, log: seq<Byte>, b: Block)
    requires log != [] && b.start == 0 && b.end == |log| && b.content == Replaced(log)
    ensures 0 < TailSize(fixed, |log|, |log|) <= RenderedSize(fixed, b)
  {
    ReplacingNeverShrinks(log);
  }

  lemma EmptyHasNoTail(fixed: nat, budget: int)
    ensures IsLongestTail(fixed, [], budget, None)
  {
  }

  /**
   For all logs: the rendered text is within every budget if and only if both logs are plain, that
   is, hold only ASCII and two-byte characters that stand across a power of ten from 10 on.
   */
  lemma RenderedTextFits(stdout: seq<Byte>, stderr: seq<Byte>, fixedOut: nat, fixedErr: nat)
    ensures AlwaysFits(stdout, stderr, fixedOut, fixedErr) <==> Plain(stdout) && Plain(stderr)
  {
    hide Plain, IsSelection, RenderedText;
    if Plain(stdout) && Plain(stderr) {
      forall maxBytes: nat, err, out |
        maxBytes > 0 && IsSelection(stdout, stderr, fixedOut, fixedErr, maxBytes, err, out)
        ensures RenderedText(fixedOut, fixedErr, err, out) <= maxBytes
      {
        PlainSelectionFits(stdout, stderr, fixedOut, fixedErr, maxBytes, err, out);
      }
    } else if !Plain(stderr) {
      StderrPasses(stdout, stderr, fixedOut, fixedErr);
    } else {
      StdoutPasses(stdout, stderr, fixedOut, fixedErr);
    }
  }

  /** One well-formed character whose first byte is cut off: its second byte fits raw and is rendered as three. */
  lemma CutCharacterPassesTheBudget(fixed: nat)
    ensures
      var log: seq<Byte> := [0xC3, 0xA9];
      var b := Block(Stderr, 1, 2, Replaced([0xA9]));
      && WellFormed(log)
      && IsLongestTail(fixed, log, fixed + 4, Some(b))
      && RenderedSize(fixed, b) == fixed + 6
  {
    var log: seq<Byte> := [0xC3, 0xA9];
    assert log[1..] == [0xA9];
    assert Fits(log, 1) && SubpartFrom(log, 1) == SubpartFrom(log, 2) == 2;
    assert Replaced([0xA9]) == REPLACEMENT + Replaced([]);
    assert !TailFits(fixed, 2, 2, fixed + 4);
  }
}
