/**
 Printing a replacement as a unified diff: difflib's line groups, rendered with the
 no-newline markers that `build_replacement_diff` adds.
 */
module PatchBuild {
  import opened Common
  import opened Lines
  import opened Patch

  // ----- edit scripts -----

  datatype Tag = Equal | Replace | Delete | Insert

  /** One difflib opcode: lines `i1..i2` of the original against `j1..j2` of the update. */
  datatype Opcode = Opcode(tag: Tag, i1: nat, i2: nat, j1: nat, j2: nat)

  type Group = seq<Opcode>

  predicate ValidOpcode(a: seq<string>, b: seq<string>, op: Opcode) {
    && op.i1 <= op.i2 <= |a| && op.j1 <= op.j2 <= |b|
    && (op.tag.Equal? ==> a[op.i1..op.i2] == b[op.j1..op.j2])
    && (op.tag.Delete? ==> op.j1 == op.j2)
    && (op.tag.Insert? ==> op.i1 == op.i2)
  }

  /** The opcodes follow each other without gaps from line `i` and line `j` on. */
  predicate Chained(a: seq<string>, b: seq<string>, ops: seq<Opcode>, i: nat, j: nat)
    decreases |ops|
  {
    ops == [] || (
      && ops[0].i1 == i && ops[0].j1 == j && ValidOpcode(a, b, ops[0])
      && Chained(a, b, ops[1..], ops[0].i2, ops[0].j2))
  }

  function Last(g: Group): Opcode
    requires g != []
  {
    g[|g| - 1]
  }

  /**
   The groups cover every difference: outside them the two texts agree line by line. A
   group without original lines has no context, so the original has no line before it.
   */
  predicate ValidGroups(a: seq<string>, b: seq<string>, groups: seq<Group>, i: nat, j: nat)
    requires i <= |a| && j <= |b|
    decreases |groups|
  {
    if groups == [] then a[i..] == b[j..]
    else
      var g := groups[0];
      && g != [] && i <= g[0].i1 <= |a| && j <= g[0].j1 <= |b|
      && a[i..g[0].i1] == b[j..g[0].j1]
      && Chained(a, b, g, g[0].i1, g[0].j1)
      && g[0].i1 <= Last(g).i2 <= |a| && g[0].j1 <= Last(g).j2 <= |b|
      && (g[0].i1 == Last(g).i2 ==> g[0].i1 == 0)
      && ValidGroups(a, b, groups[1..], Last(g).i2, Last(g).j2)
  }

  // ----- difflib.unified_diff -----

  function Marked(mark: char, ls: seq<string>): seq<string> {
    if ls == [] then [] else [[mark] + ls[0]] + Marked(mark, ls[1..])
  }

  function OpcodeLines(a: seq<string>, b: seq<string>, op: Opcode): seq<string>
    requires ValidOpcode(a, b, op)
  {
    if op.tag.Equal? then Marked(' ', a[op.i1..op.i2])
    else Marked('-', a[op.i1..op.i2]) + Marked('+', b[op.j1..op.j2])
  }

  function GroupLines(a: seq<string>, b: seq<string>, g: Group, i: nat, j: nat): seq<string>
    requires Chained(a, b, g, i, j)
    decreases |g|
  {
    if g == [] then [] else OpcodeLines(a, b, g[0]) + GroupLines(a, b, g[1..], g[0].i2, g[0].j2)
  }

  /** difflib's `_format_range_unified`. */
  function RangeText(start: nat, stop: nat): string
    requires start <= stop
  {
    if stop == start + 1 then Decimal(start + 1)
    else if stop == start then Decimal(start) + "," + Decimal(0)
    else Decimal(start + 1) + "," + Decimal(stop - start)
  }

  function HunkLine(i1: nat, i2: nat, j1: nat, j2: nat): string
    requires i1 <= i2 && j1 <= j2
  {
    "@@ -" + (RangeText(i1, i2) + (" +" + (RangeText(j1, j2) + " @@\n")))
  }

  function DiffLines(a: seq<string>, b: seq<string>, groups: seq<Group>, i: nat, j: nat): seq<string>
    requires i <= |a| && j <= |b| && ValidGroups(a, b, groups, i, j)
    decreases |groups|
  {
    if groups == [] then []
    else
      var g := groups[0];
      [HunkLine(g[0].i1, Last(g).i2, g[0].j1, Last(g).j2)]
      + GroupLines(a, b, g, g[0].i1, g[0].j1)
      + DiffLines(a, b, groups[1..], Last(g).i2, Last(g).j2)
  }

  function OldName(path: string): string { "--- a/" + path + "\n" }

  function NewName(path: string): string { "+++ b/" + path + "\n" }

  function UnifiedDiff(path: string, a: seq<string>, b: seq<string>, groups: seq<Group>): seq<string>
    requires ValidGroups(a, b, groups, 0, 0)
  {
    if groups == [] then [] else [OldName(path), NewName(path)] + DiffLines(a, b, groups, 0, 0)
  }

  // ----- no-newline markers -----

  predicate NeedsMarker(line: string) {
    IsContent(line) && !IsFileHeader(line) && line[|line| - 1] !in {'\n', '\r'}
  }

  function Rendered(line: string): seq<string> {
    if NeedsMarker(line) then [line + "\n", MARKER + "\n"] else [line]
  }

  function RenderedAll(lines: seq<string>): seq<string> {
    if lines == [] then [] else Rendered(lines[0]) + RenderedAll(lines[1..])
  }

  lemma {:induction false} RenderedAppend(x: seq<string>, y: seq<string>)
    ensures RenderedAll(x + y) == RenderedAll(x) + RenderedAll(y)
  {
    hide Rendered;
    if x == [] {
      assert x + y == y;
    } else {
      assert (x + y)[1..] == x[1..] + y;
      RenderedAppend(x[1..], y);
    }
  }

  /** `build_replacement_diff` for one valid edit script; none stands for PatchError. */
  function Built(path: string, original: string, updated: string, groups: seq<Group>): Option<string>
    requires ValidGroups(SplitLines(original), SplitLines(updated), groups, 0, 0)
  {
    var patch := Join(RenderedAll(UnifiedDiff(path, SplitLines(original), SplitLines(updated), groups)));
    if original == updated || patch == "" then None else Some(patch)
  }

  method BuildReplacementDiff(path: string, original: string, updated: string, groups: seq<Group>)
    returns (r: Option<string>)
    requires ValidGroups(SplitLines(original), SplitLines(updated), groups, 0, 0)
    ensures r == Built(path, original, updated, groups)
  {
    if original == updated {
      return None;
    }
    var lines := UnifiedDiff(path, SplitLines(original), SplitLines(updated), groups);
    hide ValidGroups, UnifiedDiff, SplitLines, IsContent, IsFileHeader, Join;
    var rendered: seq<string> := [];
    for i := 0 to |lines|
      invariant rendered == RenderedAll(lines[..i])
    {
      RenderedAppend(lines[..i], [lines[i]]);
      assert lines[..i] + [lines[i]] == lines[..i + 1];
      assert RenderedAll([lines[i]]) == Rendered(lines[i]);
      if NeedsMarker(lines[i]) {
        rendered := rendered + [lines[i] + "\n", MARKER + "\n"];
      } else {
        rendered := rendered + [lines[i]];
      }
    }
    assert lines[..|lines|] == lines;
    var patch := Join(rendered);
    if patch == "" {
      return None;
    }
    r := Some(patch);
  }
}
