/** When a printed diff counts as binary, and the round trip stated on the inputs alone. */
module PatchPlain {
  import opened Common
  import opened Lines
  import opened Patch
  import opened PatchBuild
  import opened PatchRoundTrip

  // ----- where a binary marker may stand -----

  /** A marker across the seam of two texts holds the characters on both sides of it. */
  lemma AcrossTheSeam(x: string, y: string, part: string)
    ensures part <= x + y && |part| > |x| > 0 ==> x[|x| - 1] in part && y != "" && y[0] in part
  {
    if part <= x + y && |part| > |x| > 0 {
      assert part[|x| - 1] == x[|x| - 1];
      assert part[|x|] == y[0];
    }
  }

  /** A marker that cannot lie across the seam lies on one side of it. */
  lemma {:induction false} ContainsJoined(x: string, y: string, part: string)
    requires part != "" && (x == "" || y == "" || x[|x| - 1] !in part || y[0] !in part)
    ensures Contains(x + y, part) <==> Contains(x, part) || Contains(y, part)
  {
    if x == "" {
      assert x + y == y;
    } else {
      assert (x + y)[1..] == x[1..] + y;
      ContainsJoined(x[1..], y, part);
      AcrossTheSeam(x, y, part);
    }
  }

  lemma {:induction false} ContainsPart(x: string, y: string, part: string)
    requires Contains(x, part) || Contains(y, part)
    ensures Contains(x + y, part)
  {
    if x == "" {
      assert x + y == y;
    } else {
      assert (x + y)[1..] == x[1..] + y;
      if Contains(x[1..], part) || Contains(y, part) {
        ContainsPart(x[1..], y, part);
      }
    }
  }

  predicate MarkFree(c: char) {
    c != '\0' && c !in "GIT binary patch" && c !in "Binary files "
  }

  /** Line ends, and the characters that only a printed diff adds, are in no marker. */
  lemma BinaryJoined(x: string, y: string)
    requires x == "" || y == "" || MarkFree(x[|x| - 1]) || MarkFree(y[0])
    ensures IsBinary(x + y) <==> IsBinary(x) || IsBinary(y)
  {
    hide Contains;
    ContainsJoined(x, y, "GIT binary patch");
    ContainsJoined(x, y, "Binary files ");
  }

  lemma BinaryPart(x: string, y: string)
    requires IsBinary(x) || IsBinary(y)
    ensures IsBinary(x + y)
  {
    hide Contains;
    if Contains(x, "GIT binary patch") || Contains(y, "GIT binary patch") {
      ContainsPart(x, y, "GIT binary patch");
    }
    if Contains(x, "Binary files ") || Contains(y, "Binary files ") {
      ContainsPart(x, y, "Binary files ");
    }
  }

  predicate Unmarked(s: string) {
    forall i :: 0 <= i < |s| ==> s[i] != '\0' && s[i] != 'G' && s[i] != 'B'
  }

  lemma {:induction false} UnmarkedContains(x: string, y: string, part: string)
    requires part != "" && part[0] !in x
    ensures Contains(x + y, part) <==> Contains(y, part)
  {
    if x == "" {
      assert x + y == y;
    } else {
      assert (x + y)[1..] == x[1..] + y;
      UnmarkedContains(x[1..], y, part);
    }
  }

  /** A text in front in which no marker can begin makes no difference. */
  lemma BinaryAfter(x: string, y: string)
    requires Unmarked(x)
    ensures IsBinary(x + y) <==> IsBinary(y)
  {
    hide Contains;
    UnmarkedContains(x, y, "GIT binary patch");
    UnmarkedContains(x, y, "Binary files ");
  }

  lemma UnmarkedIsPlain(x: string)
    requires Unmarked(x)
    ensures !IsBinary(x)
  {
    assert x + "" == x;
    BinaryAfter(x, "");
  }

  // ----- lines -----

  predicate NoneBinary(ls: seq<string>) {
    forall k :: 0 <= k < |ls| ==> !IsBinary(ls[k])
  }

  lemma {:induction false} LinesOfPlain(ls: seq<string>)
    requires !IsBinary(Join(ls))
    ensures NoneBinary(ls)
  {
    hide IsBinary;
    if ls != [] {
      if IsBinary(ls[0]) || IsBinary(Join(ls[1..])) {
        BinaryPart(ls[0], Join(ls[1..]));
      }
      LinesOfPlain(ls[1..]);
    }
  }

  predicate Ended(s: string) {
    s != "" && s[|s| - 1] in {'\n', '\r'}
  }

  lemma {:induction false} BinaryJoin(ls: seq<string>)
    requires forall k :: 0 <= k < |ls| ==> Ended(ls[k])
    ensures IsBinary(Join(ls)) <==> !NoneBinary(ls)
  {
    if ls == [] {
      UnmarkedIsPlain("");
    } else {
      hide IsBinary;
      BinaryJoined(ls[0], Join(ls[1..]));
      BinaryJoin(ls[1..]);
      assert NoneBinary(ls) <==> !IsBinary(ls[0]) && NoneBinary(ls[1..]);
    }
  }

  // ----- printed lines -----

  lemma RangeTextUnmarked(start: nat, stop: nat)
    requires start <= stop
    ensures Unmarked(RangeText(start, stop))
  {
  }

  lemma HunkLinePlain(i1: nat, i2: nat, j1: nat, j2: nat)
    requires i1 <= i2 && j1 <= j2
    ensures !IsBinary(HunkLine(i1, i2, j1, j2))
  {
    hide RangeText, IsBinary;
    RangeTextUnmarked(i1, i2);
    RangeTextUnmarked(j1, j2);
    UnmarkedIsPlain(HunkLine(i1, i2, j1, j2));
  }

  lemma {:induction false} MarkedNotBinary(mark: char, ls: seq<string>)
    requires mark in {' ', '+', '-'} && NoneBinary(ls)
    ensures NoneBinary(Marked(mark, ls))
  {
    hide IsBinary;
    if ls != [] {
      BinaryAfter([mark], ls[0]);
      MarkedNotBinary(mark, ls[1..]);
    }
  }

  lemma {:induction false} GroupNotBinary(a: seq<string>, b: seq<string>, g: Group, i: nat, j: nat)
    requires Chained(a, b, g, i, j) && NoneBinary(a) && NoneBinary(b)
    ensures NoneBinary(GroupLines(a, b, g, i, j))
  {
    hide IsBinary, Marked;
    if g != [] {
      var op := g[0];
      GroupNotBinary(a, b, g[1..], op.i2, op.j2);
      MarkedNotBinary('-', a[op.i1..op.i2]);
      MarkedNotBinary('+', b[op.j1..op.j2]);
      MarkedNotBinary(' ', a[op.i1..op.i2]);
    }
  }

  lemma {:induction false} DiffNotBinary(a: seq<string>, b: seq<string>, groups: seq<Group>, i: nat, j: nat)
    requires i <= |a| && j <= |b| && ValidGroups(a, b, groups, i, j) && NoneBinary(a) && NoneBinary(b)
    ensures NoneBinary(DiffLines(a, b, groups, i, j))
  {
    hide IsBinary, GroupLines, HunkLine, Chained;
    if groups != [] {
      var g := groups[0];
      GroupNotBinary(a, b, g, g[0].i1, g[0].j1);
      HunkLinePlain(g[0].i1, Last(g).i2, g[0].j1, Last(g).j2);
      DiffNotBinary(a, b, groups[1..], Last(g).i2, Last(g).j2);
    }
  }

  /** Hunk headers end in a line feed. */
  predicate HeadersEnd(es: seq<string>) {
    forall k :: 0 <= k < |es| && es[k] != "" && es[k][0] == '@' ==> Ended(es[k])
  }

  lemma {:induction false} MarkedHaveNoHeader(mark: char, ls: seq<string>)
    requires mark != '@'
    ensures HeadersEnd(Marked(mark, ls))
  {
    if ls != [] {
      MarkedHaveNoHeader(mark, ls[1..]);
    }
  }

  lemma {:induction false} GroupHasNoHeader(a: seq<string>, b: seq<string>, g: Group, i: nat, j: nat)
    requires Chained(a, b, g, i, j)
    ensures HeadersEnd(GroupLines(a, b, g, i, j))
  {
    hide Marked, Ended;
    if g != [] {
      var op := g[0];
      GroupHasNoHeader(a, b, g[1..], op.i2, op.j2);
      MarkedHaveNoHeader('-', a[op.i1..op.i2]);
      MarkedHaveNoHeader('+', b[op.j1..op.j2]);
      MarkedHaveNoHeader(' ', a[op.i1..op.i2]);
    }
  }

  lemma {:induction false} DiffHeadersEnd(a: seq<string>, b: seq<string>, groups: seq<Group>, i: nat, j: nat)
    requires i <= |a| && j <= |b| && ValidGroups(a, b, groups, i, j)
    ensures HeadersEnd(DiffLines(a, b, groups, i, j))
  {
    hide GroupLines, HunkLine, Chained;
    if groups != [] {
      var g := groups[0];
      GroupHasNoHeader(a, b, g, g[0].i1, g[0].j1);
      HunkLineEnds(g[0].i1, Last(g).i2, g[0].j1, Last(g).j2);
      DiffHeadersEnd(a, b, groups[1..], Last(g).i2, Last(g).j2);
    }
  }

  lemma HunkLineEnds(i1: nat, i2: nat, j1: nat, j2: nat)
    requires i1 <= i2 && j1 <= j2
    ensures Ended(HunkLine(i1, i2, j1, j2))
  {
    hide RangeText;
  }

  /** A printed line that is no file header: rendering ends it and adds no marker. */
  predicate Printable(e: string) {
    (IsContent(e) && !IsFileHeader(e)) || Ended(e)
  }

  lemma RenderedBinary(e: string)
    requires Printable(e)
    ensures forall k :: 0 <= k < |Rendered(e)| ==> Ended(Rendered(e)[k])
    ensures NoneBinary(Rendered(e)) <==> !IsBinary(e)
  {
    hide IsBinary, IsFileHeader;
    UnmarkedIsPlain("\n");
    UnmarkedIsPlain(MARKER + "\n");
    BinaryJoined(e, "\n");
  }

  lemma {:induction false} RenderedAllBinary(es: seq<string>)
    requires forall k :: 0 <= k < |es| ==> Printable(es[k])
    ensures forall k :: 0 <= k < |RenderedAll(es)| ==> Ended(RenderedAll(es)[k])
    ensures NoneBinary(RenderedAll(es)) <==> NoneBinary(es)
  {
    hide IsBinary, Printable, Rendered, Ended;
    if es != [] {
      RenderedBinary(es[0]);
      RenderedAllBinary(es[1..]);
      var first, rest := Rendered(es[0]), RenderedAll(es[1..]);
      assert NoneBinary(first + rest) <==> NoneBinary(first) && NoneBinary(rest) by {
        assert forall k :: 0 <= k < |rest| ==> (first + rest)[|first| + k] == rest[k];
        assert forall k :: 0 <= k < |first| ==> (first + rest)[k] == first[k];
      }
      assert NoneBinary(es) <==> !IsBinary(es[0]) && NoneBinary(es[1..]);
    }
  }

  lemma NamesBinary(path: string)
    ensures IsBinary(OldName(path)) <==> IsBinary(path)
    ensures IsBinary(NewName(path)) <==> IsBinary(path)
  {
    hide IsBinary;
    UnmarkedIsPlain("\n");
    BinaryJoined(path, "\n");
    BinaryAfter("--- a/", path + "\n");
    BinaryAfter("+++ b/", path + "\n");
    assert OldName(path) == "--- a/" + (path + "\n") && NewName(path) == "+++ b/" + (path + "\n");
  }

  /** A printed diff without lookalikes counts as binary exactly when its path or one of its lines does. */
  lemma PrintedIsBinary(path: string, es: seq<string>)
    requires AllGood(es) && HeadersEnd(es)
    ensures IsBinary(Printed(path, es)) <==> IsBinary(path) || !NoneBinary(es)
  {
    hide IsBinary, ParseHeader, Rendered;
    var lines := [OldName(path), NewName(path)] + es;
    NamesBinary(path);
    forall k | 0 <= k < |lines|
      ensures Printable(lines[k])
    {
      if k >= 2 {
        assert lines[k] == es[k - 2];
        assert GoodContent(es[k - 2]) || GoodHeader(es[k - 2]);
      }
    }
    RenderedAllBinary(lines);
    BinaryJoin(RenderedAll(lines));
    assert NoneBinary(lines) <==> !IsBinary(OldName(path)) && !IsBinary(NewName(path)) && NoneBinary(es) by {
      assert forall k :: 0 <= k < |es| ==> lines[k + 2] == es[k];
      assert lines[0] == OldName(path) && lines[1] == NewName(path);
    }
  }

  /**
   The round trip on the inputs alone: when neither the texts nor the path hold a NUL or a binary
   marker, the path is safe, and no line of the texts begins with `-- ` or `++ `, the built patch is
   accepted and gives exactly the updated text.
   */
  lemma PlainInputsRoundTrip(path: string, original: string, updated: string, groups: seq<Group>)
    requires NoBreaks(path) && original != updated
    requires ValidGroups(SplitLines(original), SplitLines(updated), groups, 0, 0)
    requires !IsBinary(path) && !IsBinary(original) && !IsBinary(updated) && HeaderName(path).Path?
    requires NoneBegins("-- ", SplitLines(original)) && NoneBegins("++ ", SplitLines(updated))
    ensures Built(path, original, updated, groups).Some?
    ensures Applied(original, Built(path, original, updated, groups).value) == Some(updated)
  {
    hide IsBinary, SplitLines, ValidGroups, DiffLines, Applied, Printed, NoBreaks, NoneBegins, AllLines, HeaderName,
         NoFileHeader;
    var a, b := SplitLines(original), SplitLines(updated);
    var es := DiffLines(a, b, groups, 0, 0);
    SplitAllLines(original);
    SplitAllLines(updated);
    JoinSplit(original);
    JoinSplit(updated);
    LinesOfPlain(a);
    LinesOfPlain(b);
    PlainTexts(a, b, groups, 0, 0);
    DiffGood(a, b, groups, 0, 0);
    DiffNotBinary(a, b, groups, 0, 0);
    DiffHeadersEnd(a, b, groups, 0, 0);
    PrintedIsBinary(path, es);
    DiffersHasGroup(original, updated, groups);
    BuiltIsPrinted(path, original, updated, groups);
    RoundTrip(path, original, updated, groups);
  }
}
