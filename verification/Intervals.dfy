/**
 Counting the distinct log bytes that a list of evidence intervals covers, by sorting and
 merging (`cyan_bench/incident_track.py` and `cyan_bench/baselines.py`).
 */
module Intervals {
  import opened Common

  datatype Source = Stdout | Stderr
  datatype Interval = Interval(source: Source, start: int, end: int)
  datatype Range = Range(start: int, end: int)

  // ----- the covered bytes -----

  predicate Holds(r: Range, x: int) {
    r.start <= x < r.end
  }

  function Bytes(r: Range): set<int> {
    set x: int | r.start <= x < r.end && Holds(r, x)
  }

  function Covered(ranges: seq<Range>): set<int> {
    if ranges == [] then {} else Covered(ranges[..|ranges| - 1]) + Bytes(ranges[|ranges| - 1])
  }

  lemma {:induction false} BytesCount(r: Range)
    ensures |Bytes(r)| == if r.start <= r.end then r.end - r.start else 0
    decreases r.end - r.start
  {
    if r.start < r.end {
      BytesCount(Range(r.start, r.end - 1));
      assert r.end - 1 !in Bytes(Range(r.start, r.end - 1));
      assert Bytes(r) == Bytes(Range(r.start, r.end - 1)) + {r.end - 1};
    } else {
      assert Bytes(r) == {};
    }
  }

  lemma {:induction false} CoveredIff(ranges: seq<Range>, x: int)
    ensures x in Covered(ranges) <==> exists r :: r in ranges && x in Bytes(r)
  {
    if ranges != [] {
      var front, last := ranges[..|ranges| - 1], ranges[|ranges| - 1];
      CoveredIff(front, x);
      assert ranges == front + [last];
    }
  }

  // ----- sorting -----

  /** The order of Python tuples. */
  predicate AtMost(a: Range, b: Range) {
    a.start < b.start || (a.start == b.start && a.end <= b.end)
  }

  predicate Ordered(ranges: seq<Range>) {
    forall i, j :: 0 <= i < j < |ranges| ==> AtMost(ranges[i], ranges[j])
  }

  function Inserted(r: Range, ranges: seq<Range>): seq<Range> {
    if ranges == [] || AtMost(r, ranges[0]) then [r] + ranges else [ranges[0]] + Inserted(r, ranges[1..])
  }

  function Sorted(ranges: seq<Range>): seq<Range> {
    if ranges == [] then [] else Inserted(ranges[0], Sorted(ranges[1..]))
  }

  lemma {:induction false} InsertedElements(r: Range, ranges: seq<Range>)
    ensures multiset(Inserted(r, ranges)) == multiset(ranges) + multiset{r}
  {
    if ranges != [] && !AtMost(r, ranges[0]) {
      InsertedElements(r, ranges[1..]);
      assert ranges == [ranges[0]] + ranges[1..];
    }
  }

  lemma {:induction false} InsertedIsOrdered(r: Range, ranges: seq<Range>)
    requires Ordered(ranges)
    ensures Ordered(Inserted(r, ranges))
  {
    if ranges != [] && !AtMost(r, ranges[0]) {
      InsertedIsOrdered(r, ranges[1..]);
      InsertedElements(r, ranges[1..]);
      var rest := Inserted(r, ranges[1..]);
      forall j | 0 <= j < |rest|
        ensures AtMost(ranges[0], rest[j])
      {
        assert rest[j] in multiset(rest);
        assert rest[j] == r || rest[j] in ranges[1..];
      }
    }
  }

  lemma {:induction false} SortedIsOrdered(ranges: seq<Range>)
    ensures Ordered(Sorted(ranges)) && multiset(Sorted(ranges)) == multiset(ranges)
  {
    if ranges != [] {
      SortedIsOrdered(ranges[1..]);
      InsertedIsOrdered(ranges[0], Sorted(ranges[1..]));
      InsertedElements(ranges[0], Sorted(ranges[1..]));
      assert ranges == [ranges[0]] + ranges[1..];
    }
  }

  // ----- merging -----

  predicate Inverted(r: Range) {
    r.start > r.end
  }

  /** Some range begins before an inverted one and reaches its start. */
  predicate Absorbed(r: Range, ranges: seq<Range>) {
    exists q :: q in ranges && q.start < r.start <= q.end
  }

  predicate AllAbsorbed(ranges: seq<Range>) {
    forall r :: r in ranges && Inverted(r) ==> Absorbed(r, ranges)
  }

  /** One step of the merge: a new block, or a longer last one. */
  function Merged(blocks: seq<Range>, r: Range): seq<Range> {
    if blocks == [] || r.start > blocks[|blocks| - 1].end then blocks + [r]
    else
      var last := blocks[|blocks| - 1];
      blocks[|blocks| - 1 := Range(last.start, if last.end >= r.end then last.end else r.end)]
  }

  function Lengths(blocks: seq<Range>): int {
    if blocks == [] then 0
    else Lengths(blocks[..|blocks| - 1]) + (blocks[|blocks| - 1].end - blocks[|blocks| - 1].start)
  }

  /** What the last block says about the ranges merged so far. */
  predicate LastBlock(last: Range, done: seq<Range>) {
    && (forall r :: r in done ==> if Inverted(last) then r.end < last.start else r.end <= last.end)
    && (!Inverted(last) ==> Bytes(last) <= Covered(done) && exists r :: r in done && r.end == last.end)
    && done != [] && last.start <= done[|done| - 1].start
  }

  predicate MergeInv(done: seq<Range>, blocks: seq<Range>) {
    && (done == [] <==> blocks == [])
    && (blocks != [] ==> LastBlock(blocks[|blocks| - 1], done))
    && Lengths(blocks) <= |Covered(done)|
    && (Lengths(blocks) == |Covered(done)| <==> AllAbsorbed(done))
  }

  /** What one more range adds to the covered bytes. */
  lemma CoveredGrows(done: seq<Range>, r: Range, added: Range)
    requires Bytes(r) - Covered(done) == Bytes(added)
    ensures |Covered(done + [r])| == |Covered(done)| + |Bytes(added)|
    ensures Covered(done) <= Covered(done + [r]) && Bytes(r) <= Covered(done + [r])
  {
    assert (done + [r])[..|done|] == done;
    assert Covered(done + [r]) == Covered(done) + Bytes(added);
    assert Covered(done) !! Bytes(added);
  }

  /** Later ranges absorb nothing earlier. */
  lemma AbsorbedGrows(done: seq<Range>, r: Range)
    requires Ordered(done + [r])
    ensures AllAbsorbed(done + [r]) <==> AllAbsorbed(done) && (Inverted(r) ==> Absorbed(r, done))
  {
    var more := done + [r];
    forall q | q in done && Inverted(q)
      ensures Absorbed(q, more) <==> Absorbed(q, done)
    {
      var i :| 0 <= i < |done| && done[i] == q;
      assert AtMost(more[i], more[|done|]);
    }
    assert Inverted(r) ==> (Absorbed(r, more) <==> Absorbed(r, done));
    assert forall q :: q in more <==> q in done || q == r;
  }

  /** A range beyond the last block: it meets no byte covered so far. */
  lemma NewBlock(done: seq<Range>, blocks: seq<Range>, r: Range)
    requires MergeInv(done, blocks) && Ordered(done + [r])
    requires blocks == [] || r.start > blocks[|blocks| - 1].end
    ensures MergeInv(done + [r], blocks + [r])
  {
    var more := done + [r];
    EndsBefore(done, blocks, r);
    assert Bytes(r) - Covered(done) == Bytes(r) by {
      forall x | x in Bytes(r)
        ensures x !in Covered(done)
      {
        CoveredIff(done, x);
      }
    }
    CoveredGrows(done, r, r);
    BytesCount(r);
    AbsorbedGrows(done, r);
    assert (blocks + [r])[..|blocks|] == blocks;
    assert more[|done|] == r && r in more;
  }

  lemma EndsBefore(done: seq<Range>, blocks: seq<Range>, r: Range)
    requires MergeInv(done, blocks) && Ordered(done + [r])
    requires blocks == [] || r.start > blocks[|blocks| - 1].end
    ensures forall q :: q in done ==> q.end < r.start
  {
    if done != [] {
      assert (done + [r])[|done| - 1] == done[|done| - 1];
      assert AtMost((done + [r])[|done| - 1], (done + [r])[|done|]);
    }
  }

  /** A range that begins within the last block or at its end: it adds what reaches beyond the block. */
  lemma LongerBlock(done: seq<Range>, blocks: seq<Range>, r: Range)
    requires MergeInv(done, blocks) && Ordered(done + [r])
    requires blocks != [] && r.start <= blocks[|blocks| - 1].end
    ensures MergeInv(done + [r], Merged(blocks, r))
  {
    hide LastBlock, AllAbsorbed, Ordered, Covered, Bytes, Absorbed;
    var last := blocks[|blocks| - 1];
    var longer := Range(last.start, if last.end >= r.end then last.end else r.end);
    LastIsProper(done, last, r);
    AddsBeyond(done, last, r, longer);
    CoveredGrows(done, r, Range(last.end, longer.end));
    BytesCount(Range(last.end, longer.end));
    AbsorbedGrows(done, r);
    InvertedIsAbsorbed(done, last, r);
    LongerLastBlock(done, last, r, longer);
    LengthsLonger(blocks, longer);
  }

  lemma LengthsLonger(blocks: seq<Range>, longer: Range)
    requires blocks != [] && longer.start == blocks[|blocks| - 1].start
    ensures Lengths(blocks[|blocks| - 1 := longer]) == Lengths(blocks) + (longer.end - blocks[|blocks| - 1].end)
  {
    assert blocks[|blocks| - 1 := longer][..|blocks| - 1] == blocks[..|blocks| - 1];
  }

  lemma LastIsProper(done: seq<Range>, last: Range, r: Range)
    requires LastBlock(last, done) && Ordered(done + [r]) && r.start <= last.end
    ensures !Inverted(last) && last.start <= r.start
  {
    var more := done + [r];
    assert AtMost(more[|done| - 1], more[|done|]) && more[|done| - 1] == done[|done| - 1];
  }

  lemma AddsBeyond(done: seq<Range>, last: Range, r: Range, longer: Range)
    requires LastBlock(last, done) && !Inverted(last) && last.start <= r.start <= last.end
    requires longer == Range(last.start, if last.end >= r.end then last.end else r.end)
    ensures Bytes(r) - Covered(done) == Bytes(Range(last.end, longer.end))
  {
    forall x
      ensures x in Bytes(r) - Covered(done) <==> x in Bytes(Range(last.end, longer.end))
    {
      CoveredIff(done, x);
      assert x in Bytes(last) ==> x in Covered(done);
    }
  }

  lemma LongerLastBlock(done: seq<Range>, last: Range, r: Range, longer: Range)
    requires LastBlock(last, done) && !Inverted(last) && last.start <= r.start <= last.end
    requires longer == Range(last.start, if last.end >= r.end then last.end else r.end)
    requires Covered(done) <= Covered(done + [r]) && Bytes(r) <= Covered(done + [r])
    ensures LastBlock(longer, done + [r])
  {
    var more := done + [r];
    assert forall q :: q in more <==> q in done || q == r;
    forall x | x in Bytes(longer)
      ensures x in Covered(more)
    {
      assert x in Bytes(last) || x in Bytes(r);
    }
    if last.end >= r.end {
      var q :| q in done && q.end == last.end;
      assert q in more;
    } else {
      assert r in more;
    }
  }

  lemma InvertedIsAbsorbed(done: seq<Range>, last: Range, r: Range)
    requires LastBlock(last, done) && !Inverted(last) && r.start <= last.end && Ordered(done + [r])
    ensures Inverted(r) ==> Absorbed(r, done)
  {
    var q :| q in done && q.end == last.end;
    var i :| 0 <= i < |done| && done[i] == q;
    assert AtMost((done + [r])[i], (done + [r])[|done|]);
  }

  lemma NothingMerged()
    ensures MergeInv([], [])
  {
  }

  lemma MergeCounts(done: seq<Range>, blocks: seq<Range>)
    requires MergeInv(done, blocks)
    ensures Lengths(blocks) <= |Covered(done)| && (Lengths(blocks) == |Covered(done)| <==> AllAbsorbed(done))
  {
  }

  lemma PrefixOrdered(ranges: seq<Range>, n: nat)
    requires Ordered(ranges) && n <= |ranges|
    ensures Ordered(ranges[..n])
  {
  }

  /** One stream: the ranges are sorted, merged block by block, and the blocks' lengths added up. */
  method MergedBytes(ranges: seq<Range>) returns (total: int)
    ensures total <= |Covered(ranges)|
    ensures total == |Covered(ranges)| <==> AllAbsorbed(ranges)
  {
    hide MergeInv, Covered, AllAbsorbed, Sorted;
    var sorted := Sorted(ranges);
    SortedIsOrdered(ranges);
    var merged: seq<Range> := [];
    NothingMerged();
    for k := 0 to |sorted|
      invariant MergeInv(sorted[..k], merged)
    {
      var r := sorted[k];
      assert sorted[..k + 1] == sorted[..k] + [r];
      PrefixOrdered(sorted, k + 1);
      if merged == [] || r.start > merged[|merged| - 1].end {
        NewBlock(sorted[..k], merged, r);
        merged := merged + [r];
      } else {
        LongerBlock(sorted[..k], merged, r);
        var last := merged[|merged| - 1];
        assert Merged(merged, r) ==
          merged[|merged| - 1 := Range(last.start, if last.end >= r.end then last.end else r.end)];
        merged := merged[|merged| - 1 := Range(last.start, if last.end >= r.end then last.end else r.end)];
      }
    }
    assert sorted[..|sorted|] == sorted;
    total := 0;
    for k := 0 to |merged|
      invariant total == Lengths(merged[..k])
    {
      assert merged[..k + 1][..k] == merged[..k];
      total := total + (merged[k].end - merged[k].start);
    }
    assert merged[..|merged|] == merged;
    MergeCounts(sorted, merged);
    SameElements(sorted, ranges);
  }

  /** The covered bytes and the absorbed ranges depend only on which ranges there are. */
  lemma SameElements(a: seq<Range>, b: seq<Range>)
    requires multiset(a) == multiset(b)
    ensures Covered(a) == Covered(b) && (AllAbsorbed(a) <==> AllAbsorbed(b))
  {
    forall r
      ensures r in a <==> r in b
    {
      assert r in a <==> r in multiset(a);
      assert r in b <==> r in multiset(b);
    }
    forall x
      ensures x in Covered(a) <==> x in Covered(b)
    {
      CoveredIff(a, x);
      CoveredIff(b, x);
    }
  }

  // ----- both streams -----

  function OnStream(intervals: seq<Interval>, source: Source): seq<Range> {
    if intervals == [] then []
    else
      (if intervals[0].source == source then [Range(intervals[0].start, intervals[0].end)] else [])
      + OnStream(intervals[1..], source)
  }

  /** The distinct bytes that an interval list covers, stream by stream. */
  function CoveredBytes(intervals: seq<Interval>): nat {
    |Covered(OnStream(intervals, Stdout))| + |Covered(OnStream(intervals, Stderr))|
  }

  /** The bytes covered on a stream are those of its own intervals, and no other's. */
  lemma {:induction false} StreamBytes(intervals: seq<Interval>, source: Source, x: int)
    ensures
      x in Covered(OnStream(intervals, source)) <==>
      exists i :: 0 <= i < |intervals| && intervals[i].source == source && intervals[i].start <= x < intervals[i].end
  {
    if intervals != [] {
      var own := if intervals[0].source == source then [Range(intervals[0].start, intervals[0].end)] else [];
      StreamBytes(intervals[1..], source, x);
      CoveredAppend(own, OnStream(intervals[1..], source));
      assert own == [] || (own == [own[0]] && own[..0] == []);
      if exists i :: 0 <= i < |intervals| && intervals[i].source == source
                     && intervals[i].start <= x < intervals[i].end {
        var i :| 0 <= i < |intervals| && intervals[i].source == source && intervals[i].start <= x < intervals[i].end;
        assert i > 0 ==> intervals[1..][i - 1] == intervals[i];
        assert i == 0 ==> x in Bytes(own[0]);
      }
      if x in Covered(OnStream(intervals[1..], source)) {
        var i :| 0 <= i < |intervals[1..]| && intervals[1..][i].source == source
                 && intervals[1..][i].start <= x < intervals[1..][i].end;
        assert intervals[1..][i] == intervals[i + 1];
      }
    }
  }

  lemma {:induction false} CoveredAppend(some: seq<Range>, more: seq<Range>)
    ensures Covered(some + more) == Covered(some) + Covered(more)
    decreases |more|
  {
    if more == [] {
      assert some + more == some;
    } else {
      var front := more[..|more| - 1];
      assert (some + more)[..|some + more| - 1] == some + front;
      CoveredAppend(some, front);
    }
  }

  /** An interval list that `_union_bytes` counts exactly: every inverted interval is absorbed on its stream. */
  predicate Countable(intervals: seq<Interval>) {
    AllAbsorbed(OnStream(intervals, Stdout)) && AllAbsorbed(OnStream(intervals, Stderr))
  }

  /**
   `_union_bytes`: never more than the bytes covered, and exactly those if and only if every
   inverted interval begins inside one that began before it.
   */
  method UnionBytes(intervals: seq<Interval>) returns (total: int)
    ensures total <= CoveredBytes(intervals)
    ensures total == CoveredBytes(intervals) <==> Countable(intervals)
  {
    var out := MergedBytes(OnStream(intervals, Stdout));
    var err := MergedBytes(OnStream(intervals, Stderr));
    total := out + err;
  }

  /** Intervals that do not end before they start, touching, nested or repeated, are always counted exactly. */
  lemma {:induction false} ProperIntervalsAreCountable(intervals: seq<Interval>)
    requires forall i :: 0 <= i < |intervals| ==> intervals[i].start <= intervals[i].end
    ensures Countable(intervals)
  {
    OnStreamProper(intervals, Stdout);
    OnStreamProper(intervals, Stderr);
  }

  lemma {:induction false} OnStreamProper(intervals: seq<Interval>, source: Source)
    requires forall i :: 0 <= i < |intervals| ==> intervals[i].start <= intervals[i].end
    ensures forall r :: r in OnStream(intervals, source) ==> !Inverted(r)
  {
    if intervals != [] {
      OnStreamProper(intervals[1..], source);
    }
  }
}
