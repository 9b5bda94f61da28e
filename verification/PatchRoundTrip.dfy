/**
 The printed diff, read back by the parser and applied to the original, gives the updated
 text, except for the inputs on which the parser refuses the patch.
 */
module PatchRoundTrip {
  import opened Common
  import opened Lines
  import opened Patch
  import opened PatchBuild

  // ----- hunk headers read back -----

  lemma {:induction false} CountDigitsOf(digits: string, rest: string)
    requires forall i :: 0 <= i < |digits| ==> IsDigit(digits[i])
    requires rest == "" || !IsDigit(rest[0])
    ensures CountDigits(digits + rest) == |digits|
  {
    if digits == "" {
      assert digits + rest == rest;
    } else {
      assert (digits + rest)[1..] == digits[1..] + rest;
      CountDigitsOf(digits[1..], rest);
    }
  }

  lemma TakeNumberOf(n: nat, rest: string)
    requires rest == "" || !IsDigit(rest[0])
    ensures TakeNumber(Decimal(n) + rest) == Some(Number(n, rest))
  {
    hide Decimal, DecimalValue;
    CountDigitsOf(Decimal(n), rest);
    DecimalRoundTrip(n);
    assert (Decimal(n) + rest)[..|Decimal(n)|] == Decimal(n);
    assert (Decimal(n) + rest)[|Decimal(n)|..] == rest;
  }

  lemma TakeRangeOf(start: nat, stop: nat, rest: string)
    requires start <= stop && rest != "" && rest[0] == ' '
    ensures TakeRange(RangeText(start, stop) + rest) ==
            Some((if start == stop then start else start + 1, Number(stop - start, rest)))
  {
    hide TakeNumber, Decimal;
    if stop == start + 1 {
      TakeNumberOf(start + 1, rest);
    } else {
      var first := if stop == start then start else start + 1;
      var tail := "," + Decimal(stop - start) + rest;
      TakeNumberOf(first, tail);
      TakeNumberOf(stop - start, rest);
      assert tail[1..] == Decimal(stop - start) + rest;
      assert RangeText(start, stop) + rest == Decimal(first) + tail;
    }
  }

  /** The start that a header names for a range of lines: the line before an empty one. */
  function Start(from: nat, to: nat): nat {
    if from == to then from else from + 1
  }

  lemma HunkLineParsed(i1: nat, i2: nat, j1: nat, j2: nat)
    requires i1 <= i2 && j1 <= j2
    ensures ParseHeader(HunkLine(i1, i2, j1, j2)) == Some(Header(Start(i1, i2), i2 - i1, Start(j1, j2), j2 - j1))
  {
    hide TakeRange, RangeText;
    var newRange := RangeText(j1, j2) + " @@\n";
    var oldRange := RangeText(i1, i2) + (" +" + newRange);
    TakeRangeOf(i1, i2, " +" + newRange);
    TakeRangeOf(j1, j2, " @@\n");
    assert HunkLine(i1, i2, j1, j2)[4..] == oldRange;
    assert (" +" + newRange)[2..] == newRange;
  }

  predicate NoBreaks(s: string) {
    forall i :: 0 <= i < |s| ==> !IsBreak(s[i])
  }

  lemma RangeTextNoBreaks(start: nat, stop: nat)
    requires start <= stop
    ensures NoBreaks(RangeText(start, stop))
  {
  }

  lemma HunkLineTerminated(i1: nat, i2: nat, j1: nat, j2: nat)
    requires i1 <= i2 && j1 <= j2
    ensures Terminated(HunkLine(i1, i2, j1, j2))
  {
    hide RangeText, Terminated;
    RangeTextNoBreaks(i1, i2);
    RangeTextNoBreaks(j1, j2);
    var body := "@@ -" + RangeText(i1, i2) + " +" + RangeText(j1, j2) + " @@";
    BreakFreeLine(body);
    assert HunkLine(i1, i2, j1, j2) == body + "\n";
  }

  // ----- the lines a printed diff splits into -----

  /** A content line that cannot be taken for a file header. */
  predicate GoodContent(e: string) {
    IsContent(e) && !IsFileHeader(e) && IsLine(e)
  }

  predicate GoodHeader(e: string) {
    e != "" && e[0] == '@' && Terminated(e) && ParseHeader(e).Some?
  }

  predicate AllGood(es: seq<string>) {
    forall k :: 0 <= k < |es| ==> GoodContent(es[k]) || GoodHeader(es[k])
  }

  /** The patch lines that one printed line gives when the patch is split again. */
  function Pieces(e: string): seq<string>
    requires e != ""
  {
    if !NeedsMarker(e) then [e]
    else if Terminated(e) then [e, "\n", MARKER + "\n"]
    else [e + "\n", MARKER + "\n"]
  }

  function PiecesAll(es: seq<string>): seq<string>
    requires AllGood(es)
  {
    if es == [] then [] else Pieces(es[0]) + PiecesAll(es[1..])
  }

  lemma {:induction false} PiecesAppend(x: seq<string>, y: seq<string>)
    requires AllGood(x) && AllGood(y)
    ensures AllGood(x + y) && PiecesAll(x + y) == PiecesAll(x) + PiecesAll(y)
  {
    hide Pieces, GoodContent, GoodHeader;
    if x == [] {
      assert x + y == y;
    } else {
      assert (x + y)[1..] == x[1..] + y;
      PiecesAppend(x[1..], y);
    }
  }

  /** A printed content line always starts with its mark, a hunk header with `@`. */
  lemma PiecesStart(es: seq<string>, rest: string)
    requires AllGood(es) && (rest == "" || rest[0] != '\n')
    ensures var text := Join(PiecesAll(es)) + rest; text == "" || text[0] != '\n'
  {
    if es != [] {
      assert PiecesAll(es)[0] != "" && PiecesAll(es)[0][0] == es[0][0];
    }
  }

  lemma UnterminatedNoBreaks(l: string)
    requires IsLine(l) && !Terminated(l)
    ensures NoBreaks(l)
  {
    forall i | 0 <= i < |l|
      ensures !IsBreak(l[i])
    {
      if IsBreak(l[i]) && i < |l| - 1 {
        LineInterior(l, i);
      }
    }
  }

  lemma ConcreteLinesTerminated()
    ensures Terminated("\n") && Terminated(MARKER + "\n")
  {
    BreakFreeLine("");
    assert "" + "\n" == "\n";
    BreakFreeLine(MARKER);
  }

  lemma PiecesClosed(e: string, rest: string)
    requires GoodContent(e) || GoodHeader(e)
    requires rest == "" || rest[0] != '\n'
    ensures Closed(Pieces(e), rest)
  {
    ConcreteLinesTerminated();
    var ls := Pieces(e);
    if !NeedsMarker(e) {
      assert Closed(ls[1..], rest);
      assert Join(ls[1..]) + rest == rest;
    } else if Terminated(e) {
      assert ls[1..][1..][1..] == [];
      assert ls[1..][1..] == [MARKER + "\n"];
      assert Join([]) + rest == rest;
      assert Closed(ls[1..][1..], rest);
      assert Closed(ls[1..], rest);
    } else {
      UnterminatedNoBreaks(e);
      BreakFreeLine(e);
      assert ls[1..][1..] == [];
      assert Join([]) + rest == rest;
      assert Closed(ls[1..], rest);
    }
  }

  lemma {:induction false} ClosedAppend(xs: seq<string>, ys: seq<string>, rest: string)
    requires Closed(xs, Join(ys) + rest) && Closed(ys, rest)
    ensures Closed(xs + ys, rest)
  {
    hide Terminated, Separate;
    if xs == [] {
      assert xs + ys == ys;
    } else {
      assert (xs + ys)[1..] == xs[1..] + ys;
      ClosedAppend(xs[1..], ys, rest);
      JoinAppend(xs[1..], ys);
      assert Join(xs[1..] + ys) + rest == Join(xs[1..]) + (Join(ys) + rest);
    }
  }

  lemma {:induction false} PiecesAllClosed(es: seq<string>, rest: string)
    requires AllGood(es) && (rest == "" || rest[0] != '\n')
    ensures Closed(PiecesAll(es), rest)
  {
    hide Pieces, IsLine, ParseHeader;
    if es != [] {
      PiecesAllClosed(es[1..], rest);
      PiecesStart(es[1..], rest);
      PiecesClosed(es[0], Join(PiecesAll(es[1..])) + rest);
      ClosedAppend(Pieces(es[0]), PiecesAll(es[1..]), rest);
    }
  }

  /** The pieces join to exactly the rendered text. */
  lemma {:induction false} RenderedPieces(es: seq<string>)
    requires AllGood(es)
    ensures Join(RenderedAll(es)) == Join(PiecesAll(es))
  {
    if es != [] {
      RenderedPieces(es[1..]);
      JoinAppend(Rendered(es[0]), RenderedAll(es[1..]));
      JoinAppend(Pieces(es[0]), PiecesAll(es[1..]));
      OneRenderedPieces(es[0]);
    }
  }

  lemma OneRenderedPieces(e: string)
    requires e != ""
    ensures Join(Rendered(e)) == Join(Pieces(e))
  {
    if NeedsMarker(e) {
      var m := MARKER + "\n";
      assert Rendered(e)[1..] == [m] && [m][1..] == [];
      if Terminated(e) {
        assert Pieces(e)[1..] == ["\n", m] && ["\n", m][1..] == [m];
        assert e + ("\n" + (m + "")) == (e + "\n") + (m + "");
      }
    }
  }

  // ----- the hunks a printed diff reads back as -----

  predicate AllContent(es: seq<string>) {
    forall k :: 0 <= k < |es| ==> GoodContent(es[k])
  }

  function OldSide(es: seq<string>): seq<string>
    requires forall k :: 0 <= k < |es| ==> es[k] != ""
  {
    if es == [] then [] else OldPart(es[0], es[0][1..]) + OldSide(es[1..])
  }

  function NewSide(es: seq<string>): seq<string>
    requires forall k :: 0 <= k < |es| ==> es[k] != ""
  {
    if es == [] then [] else NewPart(es[0], es[0][1..]) + NewSide(es[1..])
  }

  lemma ContentIsNoHeader(line: string)
    requires line == "" || line[0] != '@'
    ensures ParseHeader(line).None?
  {
    assert "@@ -"[0] == '@';
  }

  lemma NotContent(line: string)
    requires line == "\n" || line == MARKER + "\n"
    ensures !IsContent(line) && !IsFileHeader(line) && ParseHeader(line).None?
  {
    ContentIsNoHeader(line);
    assert "--- "[0] == '-' && "+++ "[0] == '+';
  }

  predicate NoMarkerFirst(lines: seq<string>) {
    lines == [] || !(MARKER <= lines[0])
  }

  /** One printed content line is read back as exactly its payload. */
  lemma BodyOfOne(e: string, rest: seq<string>)
    requires GoodContent(e) && NoMarkerFirst(rest)
    ensures Body(Pieces(e) + rest) == After(OldPart(e, e[1..]), NewPart(e, e[1..]), |Pieces(e)|, Body(rest))
  {
    hide Body, ParseHeader, IsFileHeader, IsLine, OldPart, NewPart;
    var m := MARKER + "\n";
    var lines := Pieces(e) + rest;
    NotContent("\n");
    NotContent(m);
    ContentIsNoHeader(lines[0]);
    FirstIsContent(e);
    assert lines[0][0] == e[0];
    BodyContent([], [], 0, lines);
    FromEmpty(Body(lines));
    assert lines[|Pieces(e)|..] == rest;
    assert [] + OldPart(e, e[1..]) == OldPart(e, e[1..]) && [] + NewPart(e, e[1..]) == NewPart(e, e[1..]);
    if !NeedsMarker(e) {
      assert Payload(lines) == (e[1..], 1);
      SamePart(lines[0], e, e[1..]);
    } else if Terminated(e) {
      assert Payload(lines) == (e[1..], 1);
      SamePart(lines[0], e, e[1..]);
      BodySkip(OldPart(e, e[1..]), NewPart(e, e[1..]), 1, lines[1..]);
      BodySkip(OldPart(e, e[1..]), NewPart(e, e[1..]), 2, lines[2..]);
      assert lines[2..][1..] == rest && lines[1..][1..] == lines[2..];
    } else {
      UnmarkedGivesBack(e);
      assert Payload(lines) == (e[1..], 2);
      SamePart(lines[0], e, e[1..]);
    }
  }

  lemma FirstIsContent(e: string)
    requires GoodContent(e)
    ensures IsContent(Pieces(e)[0]) && !IsFileHeader(Pieces(e)[0]) && Pieces(e)[0][0] == e[0]
  {
    assert "--- "[3] == ' ' && "+++ "[3] == ' ';
    if |e| >= 4 {
      assert (e + "\n")[..4] == e[..4];
    } else if |e| == 3 {
      assert (e + "\n")[3] == '\n';
    }
  }

  lemma SamePart(x: string, y: string, payload: string)
    requires x != "" && y != "" && x[0] == y[0]
    ensures OldPart(x, payload) == OldPart(y, payload) && NewPart(x, payload) == NewPart(y, payload)
  {
  }

  /** Taking the added line feed off again gives the unterminated line back. */
  lemma UnmarkedGivesBack(e: string)
    requires GoodContent(e) && NeedsMarker(e) && !Terminated(e)
    ensures Unmarked((e + "\n")[1..]) == e[1..]
  {
    var payload := (e + "\n")[1..];
    assert payload == e[1..] + "\n";
    UnterminatedNoBreaks(e);
    assert "\r\n"[0] == '\r';
    if |payload| >= 2 {
      assert payload[|payload| - 2..][0] == e[|e| - 1];
    }
  }

  lemma PiecesNoMarkerFirst(es: seq<string>, tail: seq<string>)
    requires AllContent(es) && NoMarkerFirst(tail)
    ensures NoMarkerFirst(PiecesAll(es) + tail)
  {
    hide IsLine, ParseHeader;
    if es != [] {
      FirstIsContent(es[0]);
      assert (PiecesAll(es) + tail)[0] == Pieces(es[0])[0];
      assert MARKER[0] == '\\';
    } else {
      assert PiecesAll(es) + tail == tail;
    }
  }

  lemma {:induction false} BodyOfPieces(es: seq<string>, tail: seq<string>)
    requires AllContent(es) && NoMarkerFirst(tail)
    ensures Body(PiecesAll(es) + tail) == After(OldSide(es), NewSide(es), |PiecesAll(es)|, Body(tail))
  {
    hide Body, Pieces, NoMarkerFirst, OldPart, NewPart, ParseHeader, IsLine, IsFileHeader;
    if es == [] {
      assert PiecesAll(es) + tail == tail;
      FromEmpty(Body(tail));
    } else {
      var e := es[0];
      var more := PiecesAll(es[1..]) + tail;
      assert PiecesAll(es) + tail == Pieces(e) + more;
      PiecesNoMarkerFirst(es[1..], tail);
      BodyOfPieces(es[1..], tail);
      BodyOfOne(e, more);
      AfterTwice(OldPart(e, e[1..]), NewPart(e, e[1..]), |Pieces(e)|,
                 OldSide(es[1..]), NewSide(es[1..]), |PiecesAll(es[1..])|, Body(tail));
    }
  }

  lemma AfterTwice(b1: seq<string>, a1: seq<string>, n1: nat, b2: seq<string>, a2: seq<string>, n2: nat, rest: BodyText)
    ensures After(b1, a1, n1, After(b2, a2, n2, rest)) == After(b1 + b2, a1 + a2, n1 + n2, rest)
  {
    assert b1 + (b2 + rest.before) == (b1 + b2) + rest.before;
    assert a1 + (a2 + rest.after) == (a1 + a2) + rest.after;
  }

  // ----- the sides of a group -----

  predicate NoFileHeader(es: seq<string>) {
    forall k :: 0 <= k < |es| ==> !IsFileHeader(es[k])
  }

  predicate AllLines(ls: seq<string>) {
    forall k :: 0 <= k < |ls| ==> IsLine(ls[k])
  }

  predicate AllMarked(es: seq<string>) {
    forall k :: 0 <= k < |es| ==> IsContent(es[k]) && IsLine(es[k])
  }

  lemma {:induction false} MarkedShape(mark: char, ls: seq<string>)
    requires mark in {' ', '+', '-'} && AllLines(ls)
    ensures AllMarked(Marked(mark, ls)) && |Marked(mark, ls)| == |ls|
    ensures OldSide(Marked(mark, ls)) == (if mark == '+' then [] else ls)
    ensures NewSide(Marked(mark, ls)) == (if mark == '-' then [] else ls)
  {
    if ls != [] {
      MarkedShape(mark, ls[1..]);
      PrefixedLine(mark, ls[0]);
      assert ([mark] + ls[0])[1..] == ls[0];
      assert [ls[0]] + ls[1..] == ls;
    }
  }

  /** Both sides of a list of printed lines, without asking that none looks like a header. */
  lemma {:induction false} MarkedAppend(x: seq<string>, y: seq<string>)
    requires AllMarked(x) && AllMarked(y)
    ensures AllMarked(x + y)
    ensures OldSide(x + y) == OldSide(x) + OldSide(y) && NewSide(x + y) == NewSide(x) + NewSide(y)
  {
    hide OldPart, NewPart, IsLine;
    if x == [] {
      assert x + y == y;
    } else {
      assert (x + y)[1..] == x[1..] + y;
      MarkedAppend(x[1..], y);
    }
  }

  lemma OpcodeSides(a: seq<string>, b: seq<string>, op: Opcode)
    requires AllLines(a) && AllLines(b) && ValidOpcode(a, b, op)
    ensures AllMarked(OpcodeLines(a, b, op))
    ensures OldSide(OpcodeLines(a, b, op)) == a[op.i1..op.i2] && NewSide(OpcodeLines(a, b, op)) == b[op.j1..op.j2]
  {
    hide Marked, OldSide, NewSide, AllMarked, IsLine;
    if op.tag.Equal? {
      MarkedShape(' ', a[op.i1..op.i2]);
    } else {
      MarkedShape('-', a[op.i1..op.i2]);
      MarkedShape('+', b[op.j1..op.j2]);
      MarkedAppend(Marked('-', a[op.i1..op.i2]), Marked('+', b[op.j1..op.j2]));
    }
  }

  /** Chained opcodes print exactly the original lines and the updated lines they span. */
  lemma {:induction false} GroupSides(a: seq<string>, b: seq<string>, g: Group, i: nat, j: nat)
    requires AllLines(a) && AllLines(b) && Chained(a, b, g, i, j) && i <= |a| && j <= |b|
    ensures AllMarked(GroupLines(a, b, g, i, j))
    ensures
      var i2 := if g == [] then i else Last(g).i2;
      var j2 := if g == [] then j else Last(g).j2;
      && i <= i2 <= |a| && j <= j2 <= |b|
      && OldSide(GroupLines(a, b, g, i, j)) == a[i..i2] && NewSide(GroupLines(a, b, g, i, j)) == b[j..j2]
  {
    hide OpcodeLines, OldSide, NewSide, AllMarked, AllLines;
    if g == [] {
      MarkedShape(' ', []);
      assert Marked(' ', []) == [];
    } else {
      var op := g[0];
      OpcodeSides(a, b, op);
      GroupSides(a, b, g[1..], op.i2, op.j2);
      MarkedAppend(OpcodeLines(a, b, op), GroupLines(a, b, g[1..], op.i2, op.j2));
      var i2 := if g[1..] == [] then op.i2 else Last(g[1..]).i2;
      var j2 := if g[1..] == [] then op.j2 else Last(g[1..]).j2;
      assert i2 == Last(g).i2 && j2 == Last(g).j2;
      assert a[i..i2] == a[i..op.i2] + a[op.i2..i2];
      assert b[j..j2] == b[j..op.j2] + b[op.j2..j2];
    }
  }

  // ----- whole diffs -----

  /** Where a header's new range is read to begin. */
  function PlaceOf(from: nat, to: nat): nat {
    if from == to && from > 0 then from - 1 else from
  }

  function GroupHunk(a: seq<string>, b: seq<string>, g: Group): Hunk
    requires g != [] && g[0].i1 <= Last(g).i2 <= |a| && g[0].j1 <= Last(g).j2 <= |b|
  {
    Hunk(g[0].i1, a[g[0].i1..Last(g).i2], b[g[0].j1..Last(g).j2], PlaceOf(g[0].j1, Last(g).j2))
  }

  /** The hunks that the groups stand for. */
  function GroupHunks(a: seq<string>, b: seq<string>, groups: seq<Group>, i: nat, j: nat): seq<Hunk>
    requires i <= |a| && j <= |b| && ValidGroups(a, b, groups, i, j)
    decreases |groups|
  {
    if groups == [] then []
    else
      var g := groups[0];
      [GroupHunk(a, b, g)]
      + GroupHunks(a, b, groups[1..], Last(g).i2, Last(g).j2)
  }

  /** The groups' hunks fit the original and turn it into the update. */
  lemma {:induction false} GroupHunksLand(a: seq<string>, b: seq<string>, groups: seq<Group>, i: nat, j: nat)
    requires i <= |a| && j <= |b| && ValidGroups(a, b, groups, i, j)
    ensures Land(a, i, Some(GroupHunks(a, b, groups, i, j))) == Some(b[j..])
  {
    hide Chained;
    if groups != [] {
      hide Land;
      var g := groups[0];
      var hunk := GroupHunk(a, b, g);
      var more := GroupHunks(a, b, groups[1..], Last(g).i2, Last(g).j2);
      GroupHunksLand(a, b, groups[1..], Last(g).i2, Last(g).j2);
      LandStep(a, i, hunk, Some(more));
      assert b[j..] == (b[j..g[0].j1] + b[g[0].j1..Last(g).j2]) + b[Last(g).j2..];
    }
  }

  function HeaderLine(g: Group): string
    requires g != [] && g[0].i1 <= Last(g).i2 && g[0].j1 <= Last(g).j2
  {
    HunkLine(g[0].i1, Last(g).i2, g[0].j1, Last(g).j2)
  }

  lemma HeaderLineGood(g: Group)
    requires g != [] && g[0].i1 <= Last(g).i2 && g[0].j1 <= Last(g).j2
    ensures GoodHeader(HeaderLine(g)) && !NeedsMarker(HeaderLine(g)) && !IsFileHeader(HeaderLine(g))
  {
    hide RangeText, Terminated, ParseHeader;
    HunkLineParsed(g[0].i1, Last(g).i2, g[0].j1, Last(g).j2);
    HunkLineTerminated(g[0].i1, Last(g).i2, g[0].j1, Last(g).j2);
  }

  lemma NoFileHeaderContent(es: seq<string>)
    requires AllMarked(es) && NoFileHeader(es)
    ensures AllContent(es) && AllGood(es)
  {
    hide IsLine, ParseHeader;
  }

  lemma HeaderIsNoMarker(lines: seq<string>)
    requires lines == [] || (lines[0] != "" && lines[0][0] != '\\')
    ensures NoMarkerFirst(lines)
  {
    assert MARKER[0] == '\\';
  }

  /** Printed content lines read back as their two sides, up to a hunk header or the end. */
  lemma BodyOfGroup(es: seq<string>, tail: seq<string>)
    requires AllContent(es)
    requires tail == [] || (tail[0] != "" && tail[0][0] == '@' && ParseHeader(tail[0]).Some?)
    ensures Body(PiecesAll(es) + tail) == BodyText(OldSide(es), NewSide(es), |PiecesAll(es)|)
  {
    hide ParseHeader, Body, PiecesAll, OldSide, NewSide, NoMarkerFirst, IsLine;
    HeaderIsNoMarker(tail);
    BodyOfPieces(es, tail);
    BodyEnd(OldSide(es), NewSide(es), |PiecesAll(es)|, tail);
  }

  lemma OneHunk(head: string, body: seq<string>, tail: seq<string>, header: Header, before: seq<string>,
                after: seq<string>)
    requires ParseHeader(head) == Some(header) && Body(body + tail) == BodyText(before, after, |body|)
    requires |before| == header.oldCount && |after| == header.newCount
    ensures Hunks([head] + body + tail) == Prefixed([Hunk(Target(header), before, after, Place(header))], Hunks(tail))
  {
    hide ParseHeader, Body, Prefixed;
    var lines := [head] + body + tail;
    assert lines[1..] == body + tail && lines[1 + |body|..] == tail;
  }

  /** A complete group reads back as its hunk, whatever hunk header comes next. */
  lemma GroupRead(a: seq<string>, b: seq<string>, g: Group, tail: seq<string>)
    requires g != [] && AllLines(a) && AllLines(b)
    requires g[0].i1 <= |a| && g[0].j1 <= |b| && Chained(a, b, g, g[0].i1, g[0].j1)
    requires g[0].i1 <= Last(g).i2 <= |a| && g[0].j1 <= Last(g).j2 <= |b|
    requires g[0].i1 == Last(g).i2 ==> g[0].i1 == 0
    requires AllContent(GroupLines(a, b, g, g[0].i1, g[0].j1))
    requires tail == [] || (tail[0] != "" && tail[0][0] == '@' && ParseHeader(tail[0]).Some?)
    ensures
      Hunks([HeaderLine(g)] + PiecesAll(GroupLines(a, b, g, g[0].i1, g[0].j1)) + tail) ==
        Prefixed([GroupHunk(a, b, g)], Hunks(tail))
  {
    hide ParseHeader, HunkLine, Body, PiecesAll, GroupLines, Chained, AllLines, OldSide, NewSide, Hunks;
    var es := GroupLines(a, b, g, g[0].i1, g[0].j1);
    HunkLineParsed(g[0].i1, Last(g).i2, g[0].j1, Last(g).j2);
    GroupSides(a, b, g, g[0].i1, g[0].j1);
    BodyOfGroup(es, tail);
    OneHunk(HeaderLine(g), PiecesAll(es), tail,
            Header(Start(g[0].i1, Last(g).i2), Last(g).i2 - g[0].i1, Start(g[0].j1, Last(g).j2), Last(g).j2 - g[0].j1),
            a[g[0].i1..Last(g).i2], b[g[0].j1..Last(g).j2]);
  }

  lemma DiffHead(a: seq<string>, b: seq<string>, groups: seq<Group>, i: nat, j: nat)
    requires i <= |a| && j <= |b| && groups != [] && ValidGroups(a, b, groups, i, j)
    ensures
      DiffLines(a, b, groups, i, j) ==
        [HeaderLine(groups[0])] + GroupLines(a, b, groups[0], groups[0][0].i1, groups[0][0].j1)
        + DiffLines(a, b, groups[1..], Last(groups[0]).i2, Last(groups[0]).j2)
  {
  }

  lemma {:induction false} DiffGood(a: seq<string>, b: seq<string>, groups: seq<Group>, i: nat, j: nat)
    requires AllLines(a) && AllLines(b) && i <= |a| && j <= |b| && ValidGroups(a, b, groups, i, j)
    requires NoFileHeader(DiffLines(a, b, groups, i, j))
    ensures AllGood(DiffLines(a, b, groups, i, j))
    ensures Hunks(PiecesAll(DiffLines(a, b, groups, i, j))) == Some(GroupHunks(a, b, groups, i, j))
    ensures groups != [] ==> PiecesAll(DiffLines(a, b, groups, i, j))[0] == HeaderLine(groups[0])
  {
    hide Chained, HunkLine, ParseHeader, IsFileHeader, IsLine, GroupLines, Pieces;
    if groups != [] {
      var g := groups[0];
      var es := GroupLines(a, b, g, g[0].i1, g[0].j1);
      var more := DiffLines(a, b, groups[1..], Last(g).i2, Last(g).j2);
      var all := DiffLines(a, b, groups, i, j);
      DiffHead(a, b, groups, i, j);
      HeaderLineGood(g);
      assert forall k :: 0 <= k < |es| ==> es[k] == all[1 + k];
      assert forall k :: 0 <= k < |more| ==> more[k] == all[1 + |es| + k];
      GroupSides(a, b, g, g[0].i1, g[0].j1);
      NoFileHeaderContent(es);
      DiffGood(a, b, groups[1..], Last(g).i2, Last(g).j2);
      HeaderPieces(g);
      PiecesAppend([HeaderLine(g)], es);
      PiecesAppend([HeaderLine(g)] + es, more);
      if groups[1..] != [] {
        HeaderLineGood(groups[1..][0]);
      }
      GroupRead(a, b, g, PiecesAll(more));
    }
  }

  lemma HeaderPieces(g: Group)
    requires g != [] && g[0].i1 <= Last(g).i2 && g[0].j1 <= Last(g).j2
    ensures AllGood([HeaderLine(g)]) && PiecesAll([HeaderLine(g)]) == [HeaderLine(g)]
  {
    hide HunkLine, ParseHeader;
    HeaderLineGood(g);
  }

  // ----- the parser on a printed diff -----

  /** The path check both file headers of a printed diff go through. */
  function HeaderName(path: string): HeaderPath {
    NormalizeHeaderPath("a/" + path)
  }

  lemma BeforeTabAfter(mark: char, path: string)
    requires mark != '\t'
    ensures BeforeTab([mark, '/'] + path) == [mark, '/'] + BeforeTab(path)
  {
    var s := [mark, '/'] + path;
    assert s[1..] == ['/'] + path && s[1..][1..] == path;
    assert [mark] + (['/'] + BeforeTab(path)) == [mark, '/'] + BeforeTab(path);
  }

  /** Both headers name the same path, and neither reads as `/dev/null`. */
  lemma HeaderNamesAgree(path: string)
    ensures NormalizeHeaderPath("b/" + path) == HeaderName(path) && !HeaderName(path).NoPath?
  {
    hide BeforeTab, SafePath;
    BeforeTabAfter('a', path);
    BeforeTabAfter('b', path);
    var rest := BeforeTab(path);
    assert "a/" == ['a', '/'] && "b/" == ['b', '/'] && "/dev/null"[0] == '/' && "\""[0] == '"';
    assert ("a/" + rest)[2..] == rest && ("b/" + rest)[2..] == rest;
    forall c: char
      ensures c in "a/" + rest <==> c == 'a' || c == '/' || c in rest
      ensures c in "b/" + rest <==> c == 'b' || c == '/' || c in rest
    {
    }
  }

  lemma NamesTerminated(path: string)
    requires NoBreaks(path)
    ensures Terminated(OldName(path)) && Terminated(NewName(path))
    ensures HeaderPathOf(OldName(path)) == HeaderName(path) && HeaderPathOf(NewName(path)) == HeaderName(path)
  {
    hide NormalizeHeaderPath, IsBreak, NoBreaks, Terminated, Chomp;
    HeaderNamesAgree(path);
    assert NoBreaks("a/" + path) && NoBreaks("b/" + path) && NoBreaks("--- ") && NoBreaks("+++ ") by {
      PlainNames(path);
    }
    NameText("--- ", "a/" + path);
    NameText("+++ ", "b/" + path);
    assert OldName(path) == "--- " + ("a/" + path) + "\n" && NewName(path) == "+++ " + ("b/" + path) + "\n";
  }

  lemma PlainNames(path: string)
    requires NoBreaks(path)
    ensures NoBreaks("a/" + path) && NoBreaks("b/" + path) && NoBreaks("--- ") && NoBreaks("+++ ")
  {
  }

  lemma NameText(mark: string, name: string)
    requires |mark| == 4 && NoBreaks(name) && NoBreaks(mark)
    ensures Chomp(mark + name + "\n") == mark + name && (mark + name)[4..] == name
    ensures Terminated(mark + name + "\n")
  {
    BreakFreeLine(mark + name);
    var line := mark + name + "\n";
    assert line[..|line| - 1] == mark + name;
    assert "\r\n"[0] == '\r';
    if |line| >= 2 {
      assert line[|line| - 2..][0] == (mark + name)[|line| - 2];
    }
  }

  /** A printed text splits into the two names, the pieces and whatever follows them. */
  lemma PatchSplits(path: string, es: seq<string>, rest: string)
    requires NoBreaks(path) && AllGood(es) && (rest == "" || rest[0] != '\n')
    ensures SplitLines(Join([OldName(path), NewName(path)] + PiecesAll(es)) + rest) ==
            [OldName(path), NewName(path)] + PiecesAll(es) + SplitLines(rest)
  {
    hide Terminated, IsBreak, PiecesAll, SplitLines, AllGood;
    var names := [OldName(path), NewName(path)];
    NamesTerminated(path);
    PiecesAllClosed(es, rest);
    PiecesStart(es, rest);
    assert names[1..] == [NewName(path)] && names[1..][1..] == [];
    var text := Join(PiecesAll(es)) + rest;
    assert Join(names[1..]) + text == NewName(path) + text;
    assert Join([]) + text == text;
    assert OldName(path)[|OldName(path)| - 1] == '\n' && NewName(path)[|NewName(path)| - 1] == '\n';
    assert Closed(names[1..][1..], text);
    assert Closed(names[1..], text);
    assert Closed(names, text);
    ClosedAppend(names, PiecesAll(es), rest);
    SplitAppend(names + PiecesAll(es), rest);
  }

  lemma {:induction false} PiecesAreNoFileHeaders(es: seq<string>)
    requires AllGood(es) && NoFileHeader(es)
    ensures NoFileHeader(PiecesAll(es))
    ensures forall k :: 0 <= k < |PiecesAll(es)| ==> !RefusedLine(PiecesAll(es)[k])
  {
    hide IsFileHeader, IsLine, ParseHeader, RefusedLine;
    if es != [] {
      PiecesAreNoFileHeaders(es[1..]);
      OnePieceNoFileHeader(es[0]);
    }
  }

  lemma OnePieceNoFileHeader(e: string)
    requires GoodContent(e) || GoodHeader(e)
    requires !IsFileHeader(e)
    ensures NoFileHeader(Pieces(e))
    ensures forall k :: 0 <= k < |Pieces(e)| ==> !RefusedLine(Pieces(e)[k])
  {
    hide ParseHeader, Terminated, IsLine, RefusedLine;
    NotContent("\n");
    NotContent(MARKER + "\n");
    if GoodContent(e) {
      FirstIsContent(e);
    }
    forall k | 0 <= k < |Pieces(e)|
      ensures !RefusedLine(Pieces(e)[k])
    {
      MarkNotRefused(Pieces(e)[k]);
    }
  }

  lemma MarkNotRefused(line: string)
    requires line != "" && line[0] in {' ', '+', '-', '@', '\\', '\n'}
    ensures !RefusedLine(line)
  {
    var text := Chomp(line);
    assert text == "" || text[0] == line[0];
    assert "rename from "[0] == 'r' && "rename to "[0] == 'r' && "copy from "[0] == 'c' && "copy to "[0] == 'c';
    assert "new file mode "[0] == 'n' && "deleted file mode "[0] == 'd';
    assert "old mode "[0] == 'o' && "new mode "[0] == 'n';
    assert "index "[0] == 'i' && "120000"[0] == '1' && "160000"[0] == '1';
  }

  lemma {:induction false} FilesOfNoHeaders(lines: seq<string>)
    requires NoFileHeader(lines)
    ensures Files(lines) == Some([])
  {
    hide IsNewHeader;
    if lines != [] {
      FilesOfNoHeaders(lines[1..]);
    }
  }

  /** The printed diff's own header pair is its first file entry. */
  lemma FilesOfPatch(path: string, rest: seq<string>)
    requires NoBreaks(path)
    ensures Files([OldName(path), NewName(path)] + rest) ==
            if HeaderName(path).Path? then Prefixed([PatchFile(HeaderName(path).value, Modify)], Files(rest)) else None
  {
    hide NormalizeHeaderPath, HeaderName;
    NamesTerminated(path);
    HeaderNamesAgree(path);
    var lines := [OldName(path), NewName(path)] + rest;
    assert lines[2..] == rest;
  }

  // ----- the round trip -----

  function Printed(path: string, es: seq<string>): string {
    Join(RenderedAll([OldName(path), NewName(path)] + es))
  }

  lemma PrintedParts(path: string, es: seq<string>, d: nat)
    requires d <= |es| && AllGood(es[..d])
    ensures Printed(path, es) ==
            Join([OldName(path), NewName(path)] + PiecesAll(es[..d])) + Join(RenderedAll(es[d..]))
  {
    hide AllGood, RenderedAll, PiecesAll, OldName, NewName, Join;
    var names := [OldName(path), NewName(path)];
    var rest := Join(RenderedAll(es[d..]));
    assert es == es[..d] + es[d..];
    RenderedAppend(names, es);
    RenderedAppend(es[..d], es[d..]);
    NamesRendered(path);
    RenderedPieces(es[..d]);
    JoinAppend(names, RenderedAll(es));
    JoinAppend(RenderedAll(es[..d]), RenderedAll(es[d..]));
    JoinAppend(names, PiecesAll(es[..d]));
    assert Join(names) + (Join(PiecesAll(es[..d])) + rest) == (Join(names) + Join(PiecesAll(es[..d]))) + rest;
  }

  /** A printed text is the two names, the pieces of a good front part, and the rest. */
  lemma PrintedSplits(path: string, es: seq<string>, d: nat)
    requires NoBreaks(path) && d <= |es| && AllGood(es[..d])
    requires d < |es| ==> IsFileHeader(es[d])
    ensures
      var rest := Join(RenderedAll(es[d..]));
      && SplitLines(Printed(path, es)) == [OldName(path), NewName(path)] + PiecesAll(es[..d]) + SplitLines(rest)
      && (d == |es| ==> rest == "")
      && (d < |es| ==> es[d] <= rest)
  {
    hide AllGood, SplitLines, NoBreaks, IsBreak, MARKER, Printed, OldName, NewName, PiecesAll;
    var rest := Join(RenderedAll(es[d..]));
    PrintedParts(path, es, d);
    if d < |es| {
      assert RenderedAll(es[d..])[0] == es[d];
      assert es[d] <= rest && (es[d][0] == '-' || es[d][0] == '+');
    } else {
      assert es[d..] == [];
    }
    PatchSplits(path, es[..d], rest);
  }

  lemma NamesRendered(path: string)
    ensures RenderedAll([OldName(path), NewName(path)]) == [OldName(path), NewName(path)]
  {
    var names := [OldName(path), NewName(path)];
    assert IsFileHeader(names[0]) && IsFileHeader(names[1]);
    assert names[1..] == [NewName(path)] && names[1..][1..] == [];
    hide IsFileHeader, OldName, NewName;
    assert Rendered(names[0]) == [names[0]] && Rendered(NewName(path)) == [NewName(path)];
    assert RenderedAll(names[1..]) == [NewName(path)] + [];
  }

  /** The two names are no hunks: the hunks of a printed text are those of its pieces. */
  lemma HunksAfterNames(path: string, lines: seq<string>)
    ensures Hunks([OldName(path), NewName(path)] + lines) == Hunks(lines)
  {
    var all := [OldName(path), NewName(path)] + lines;
    ContentIsNoHeader(all[0]);
    ContentIsNoHeader(all[1]);
    hide ParseHeader, Body;
    assert all[1..][1..] == lines;
  }

  lemma HeaderLineSeen(g: Group)
    requires g != [] && g[0].i1 <= Last(g).i2 && g[0].j1 <= Last(g).j2
    ensures IsHunkLine(HeaderLine(g)) && ParseHeader(HeaderLine(g)).Some?
  {
    HeaderLineGood(g);
    hide RangeText, ParseHeader, Terminated, IsLine, NeedsMarker, IsFileHeader;
    var line := HeaderLine(g);
    assert line[..3] == "@@ ";
    assert !IsBreak(line[2]);
  }

  lemma ReviewableFrom(patch: string, path: HeaderPath)
    requires var lines := SplitLines(patch);
             && !AnyRefused(lines) && AnyHunkLine(lines) && HasHunk(lines)
             && Files(lines) == if path.Path? then Some([PatchFile(path.value, Modify)]) else None
    ensures Reviewable(patch) <==> !IsBinary(patch) && path.Path?
  {
    hide SplitLines, IsBinary, AnyRefused, AnyHunkLine, HasHunk, Files;
  }

  lemma NamesNotRefused(path: string, pieces: seq<string>)
    requires forall k :: 0 <= k < |pieces| ==> !RefusedLine(pieces[k])
    ensures !AnyRefused([OldName(path), NewName(path)] + pieces)
  {
    hide RefusedLine;
    MarkNotRefused(OldName(path));
    MarkNotRefused(NewName(path));
  }

  /** Without file-header lookalikes and binary marks a printed diff is accepted as one file. */
  lemma PrintedReviewable(path: string, es: seq<string>, g: Group)
    requires NoBreaks(path) && AllGood(es) && NoFileHeader(es)
    requires g != [] && g[0].i1 <= Last(g).i2 && g[0].j1 <= Last(g).j2
    requires PiecesAll(es) != [] && PiecesAll(es)[0] == HeaderLine(g)
    requires SplitLines(Printed(path, es)) == [OldName(path), NewName(path)] + PiecesAll(es)
    ensures Reviewable(Printed(path, es)) <==> !IsBinary(Printed(path, es)) && HeaderName(path).Path?
  {
    hide SplitLines, NoBreaks, HeaderName, IsBinary, RefusedLine, IsHunkLine, ParseHeader, Printed, AllGood,
         PiecesAll, Files, AnyRefused, OldName, NewName;
    var pieces := PiecesAll(es);
    var lines := [OldName(path), NewName(path)] + pieces;
    PiecesAreNoFileHeaders(es);
    NamesNotRefused(path, pieces);
    FilesOfPatch(path, pieces);
    FilesOfNoHeaders(pieces);
    HeaderLineSeen(g);
    assert lines[2] == HeaderLine(g);
    if HeaderName(path).Path? {
      var file := PatchFile(HeaderName(path).value, Modify);
      assert [file] + [] == [file];
    }
    ReviewableFrom(Printed(path, es), HeaderName(path));
  }

  lemma DiffersHasGroup(original: string, updated: string, groups: seq<Group>)
    requires original != updated && ValidGroups(SplitLines(original), SplitLines(updated), groups, 0, 0)
    ensures groups != []
  {
    JoinSplit(original);
    JoinSplit(updated);
    assert SplitLines(original)[0..] == SplitLines(original);
    assert SplitLines(updated)[0..] == SplitLines(updated);
  }

  lemma SplitAllLines(s: string)
    ensures AllLines(SplitLines(s))
  {
    SplitShape(s);
  }

  /** What the parser reads of a printed diff without lookalikes. */
  lemma PrintedHunks(path: string, original: string, updated: string, groups: seq<Group>)
    requires NoBreaks(path) && original != updated
    requires ValidGroups(SplitLines(original), SplitLines(updated), groups, 0, 0)
    requires NoFileHeader(DiffLines(SplitLines(original), SplitLines(updated), groups, 0, 0))
    ensures
      var a, b := SplitLines(original), SplitLines(updated);
      var patch := Printed(path, DiffLines(a, b, groups, 0, 0));
      && Hunks(SplitLines(patch)) == Some(GroupHunks(a, b, groups, 0, 0))
      && (Reviewable(patch) <==> !IsBinary(patch) && HeaderName(path).Path?)
  {
    hide SplitLines, NoBreaks, HeaderName, IsBinary, PiecesAll, DiffLines, Printed, ValidGroups, AllGood, Land,
         AllLines, HunkLine, RenderedAll, Join, Reviewable;
    var a, b := SplitLines(original), SplitLines(updated);
    var es := DiffLines(a, b, groups, 0, 0);
    DiffersHasGroup(original, updated, groups);
    SplitAllLines(original);
    SplitAllLines(updated);
    DiffGood(a, b, groups, 0, 0);
    FirstGroup(a, b, groups);
    assert es[..|es|] == es;
    PrintedSplits(path, es, |es|);
    EmptySplits();
    assert PiecesAll(es) + [] == PiecesAll(es);
    assert [OldName(path), NewName(path)] + PiecesAll(es) + [] == [OldName(path), NewName(path)] + PiecesAll(es);
    PrintedReviewable(path, es, groups[0]);
    HunksAfterNames(path, PiecesAll(es));
  }

  /** The round trip on diffs in which no line looks like a file header. */
  lemma PlainRoundTrip(path: string, original: string, updated: string, groups: seq<Group>)
    requires NoBreaks(path) && original != updated
    requires ValidGroups(SplitLines(original), SplitLines(updated), groups, 0, 0)
    requires NoFileHeader(DiffLines(SplitLines(original), SplitLines(updated), groups, 0, 0))
    ensures
      var patch := Printed(path, DiffLines(SplitLines(original), SplitLines(updated), groups, 0, 0));
      Applied(original, patch) == if IsBinary(patch) || !HeaderName(path).Path? then None else Some(updated)
  {
    hide SplitLines, NoBreaks, HeaderName, IsBinary, DiffLines, Printed, ValidGroups, Land, Hunks, GroupHunks,
         NoFileHeader, Join, Reviewable;
    var b := SplitLines(updated);
    PrintedHunks(path, original, updated, groups);
    GroupHunksLand(SplitLines(original), b, groups, 0, 0);
    assert b[0..] == b;
    JoinSplit(updated);
  }

  lemma EmptySplits()
    ensures SplitLines("") == []
  {
  }

  lemma FirstGroup(a: seq<string>, b: seq<string>, groups: seq<Group>)
    requires groups != [] && ValidGroups(a, b, groups, 0, 0)
    ensures groups[0] != [] && groups[0][0].i1 <= Last(groups[0]).i2 && groups[0][0].j1 <= Last(groups[0]).j2
    ensures DiffLines(a, b, groups, 0, 0) != []
  {
  }

  // ----- lines that look like file headers -----

  /** Every printed line is a hunk header or a marked line of one of the two texts. */
  predicate DiffShaped(es: seq<string>) {
    forall k :: 0 <= k < |es| ==> GoodHeader(es[k]) || (IsContent(es[k]) && IsLine(es[k]))
  }

  lemma {:induction false} DiffShape(a: seq<string>, b: seq<string>, groups: seq<Group>, i: nat, j: nat)
    requires AllLines(a) && AllLines(b) && i <= |a| && j <= |b| && ValidGroups(a, b, groups, i, j)
    ensures DiffShaped(DiffLines(a, b, groups, i, j))
  {
    hide Chained, HunkLine, ParseHeader, IsLine, GroupLines, GoodHeader, IsContent, AllLines;
    if groups != [] {
      var g := groups[0];
      GroupSides(a, b, g, g[0].i1, g[0].j1);
      HeaderLineGood(g);
      DiffShape(a, b, groups[1..], Last(g).i2, Last(g).j2);
    }
  }

  lemma ShapedPrefixGood(es: seq<string>, d: nat)
    requires DiffShaped(es) && d <= |es| && NoFileHeader(es[..d])
    ensures AllGood(es[..d])
  {
    hide IsFileHeader, IsContent, IsLine, GoodHeader;
    assert forall k :: 0 <= k < d ==> es[..d][k] == es[k];
  }

  /** The lines that follow a header lookalike begin with it, however they are split. */
  lemma LookalikeFirst(e: string, rest: string)
    requires IsFileHeader(e) && e <= rest
    ensures SplitLines(rest) != []
    ensures IsOldHeader(e) ==> IsOldHeader(SplitLines(rest)[0])
    ensures IsNewHeader(e) ==> IsNewHeader(SplitLines(rest)[0])
  {
    hide SplitLines;
    assert SplitLines(rest) == [rest[..FirstLen(rest)]] + SplitLines(rest[FirstLen(rest)..]) by {
      SplitOnce(rest);
    }
    assert rest[..4] == e[..4];
    assert forall k :: 0 <= k < 4 ==> rest[k] == e[..4][k];
    FirstLenAtLeast(rest, 4);
    assert rest[..FirstLen(rest)][..4] == rest[..4];
  }

  lemma SplitOnce(s: string)
    requires s != ""
    ensures SplitLines(s) == [s[..FirstLen(s)]] + SplitLines(s[FirstLen(s)..])
  {
  }

  lemma {:induction false} FilesSeesHeader(lines: seq<string>, k: nat)
    requires k < |lines| && IsOldHeader(lines[k])
    ensures Files(lines).None? || Files(lines).value != []
  {
    hide IsOldHeader, IsNewHeader;
    if !IsOldHeader(lines[0]) {
      FilesSeesHeader(lines[1..], k - 1);
    }
  }

  /** A deleted line that looks like a file header makes the parser refuse or see two files. */
  lemma OldLookalikeRefused(path: string, patch: string, pieces: seq<string>, more: seq<string>)
    requires NoBreaks(path) && more != [] && IsOldHeader(more[0])
    requires SplitLines(patch) == [OldName(path), NewName(path)] + pieces + more
    ensures !Reviewable(patch)
  {
    hide SplitLines, IsOldHeader, IsBinary, AnyRefused, HeaderName, NoBreaks, OldName, NewName, Files;
    var rest := pieces + more;
    assert SplitLines(patch) == [OldName(path), NewName(path)] + rest;
    assert rest[|pieces|] == more[0];
    FilesOfPatch(path, rest);
    FilesSeesHeader(rest, |pieces|);
  }

  lemma {:induction false} NewSidePart(es: seq<string>, d: nat)
    requires AllMarked(es) && d < |es| && es[d][0] == '+'
    ensures |NewSide(es[..d])| < |NewSide(es)|
  {
    hide IsLine;
    MarkedAppend(es[..d], es[d..]);
    assert es == es[..d] + es[d..];
    assert es[d..] != [] && es[d..][0] == es[d];
  }

  /** A hunk cut short by an added line that looks like a file header misses its count. */
  lemma CutHunkRefused(g: Group, es: seq<string>, d: nat, more: seq<string>)
    requires g != [] && g[0].i1 <= Last(g).i2 && g[0].j1 <= Last(g).j2
    requires AllMarked(es) && d < |es| && es[d][0] == '+' && AllContent(es[..d])
    requires |NewSide(es)| == Last(g).j2 - g[0].j1
    requires more != [] && IsNewHeader(more[0])
    ensures Hunks([HeaderLine(g)] + PiecesAll(es[..d]) + more).None?
  {
    hide ParseHeader, HunkLine, Body, PiecesAll, OldSide, NewSide, IsLine, MARKER, Decimal;
    var lines := [HeaderLine(g)] + PiecesAll(es[..d]) + more;
    assert lines[0] == HeaderLine(g) && lines[1..] == PiecesAll(es[..d]) + more;
    HunkLineParsed(g[0].i1, Last(g).i2, g[0].j1, Last(g).j2);
    NewSidePart(es, d);
    assert more[0][0] == '+';
    HeaderIsNoMarker(more);
    BodyOfPieces(es[..d], more);
    BodyEnd(OldSide(es[..d]), NewSide(es[..d]), |PiecesAll(es[..d])|, more);
  }

  lemma {:induction false} NewLookalikeRefused(a: seq<string>, b: seq<string>, groups: seq<Group>, i: nat, j: nat,
                                               d: nat, more: seq<string>)
    requires AllLines(a) && AllLines(b) && i <= |a| && j <= |b| && ValidGroups(a, b, groups, i, j)
    requires var es := DiffLines(a, b, groups, i, j);
             d < |es| && IsNewHeader(es[d]) && NoFileHeader(es[..d]) && AllGood(es[..d])
    requires more != [] && IsNewHeader(more[0])
    ensures Hunks(PiecesAll(DiffLines(a, b, groups, i, j)[..d]) + more).None?
  {
    hide Chained, HunkLine, ParseHeader, IsLine, GroupLines, GoodHeader, GoodContent, AllLines, PiecesAll, OldSide,
         NewSide, Hunks, Pieces, IsOldHeader, ValidOpcode;
    var g := groups[0];
    var es := GroupLines(a, b, g, g[0].i1, g[0].j1);
    var rest := DiffLines(a, b, groups[1..], Last(g).i2, Last(g).j2);
    var all := DiffLines(a, b, groups, i, j);
    var n := 1 + |es|;
    DiffHead(a, b, groups, i, j);
    HeaderLineGood(g);
    HeaderPieces(g);
    GroupSides(a, b, g, g[0].i1, g[0].j1);
    assert all == [HeaderLine(g)] + es + rest;
    var cut := all[..d];
    if d < n {
      var part := es[..d - 1];
      assert cut == [HeaderLine(g)] + part;
      assert all[d] == es[d - 1];
      assert forall k :: 0 <= k < |part| ==> part[k] == cut[1 + k];
      NoFileHeaderContent(part);
      PiecesAppend([HeaderLine(g)], part);
      CutHunkRefused(g, es, d - 1, more);
    } else {
      var front := rest[..d - n];
      assert cut == ([HeaderLine(g)] + es) + front;
      assert all[d] == rest[d - n];
      assert forall k :: 0 <= k < |es| ==> es[k] == cut[1 + k];
      assert forall k :: 0 <= k < |front| ==> front[k] == cut[n + k];
      assert AllGood(front);
      var tail := PiecesAll(front) + more;
      NoFileHeaderContent(es);
      PiecesAppend([HeaderLine(g)], es);
      PiecesAppend([HeaderLine(g)] + es, front);
      RestStarts(a, b, groups, i, j, d - n);
      NewLookalikeRefused(a, b, groups[1..], Last(g).i2, Last(g).j2, d - n, more);
      assert tail[0] == PiecesAll(front)[0];
      GroupRead(a, b, g, tail);
      assert PiecesAll(cut) + more == [HeaderLine(g)] + PiecesAll(es) + tail;
    }
  }

  /** The printed lines after a group begin with the next group's header. */
  lemma RestStarts(a: seq<string>, b: seq<string>, groups: seq<Group>, i: nat, j: nat, d: nat)
    requires i <= |a| && j <= |b| && ValidGroups(a, b, groups, i, j) && groups != []
    requires var rest := DiffLines(a, b, groups[1..], Last(groups[0]).i2, Last(groups[0]).j2);
             d < |rest| && IsFileHeader(rest[d]) && AllGood(rest[..d])
    ensures
      var rest := DiffLines(a, b, groups[1..], Last(groups[0]).i2, Last(groups[0]).j2);
      && d > 0
      && PiecesAll(rest[..d]) != [] && PiecesAll(rest[..d])[0] != "" && PiecesAll(rest[..d])[0][0] == '@'
      && ParseHeader(PiecesAll(rest[..d])[0]).Some?
  {
    hide Chained, HunkLine, ParseHeader, IsLine, GroupLines;
    var g := groups[1..][0];
    DiffHead(a, b, groups[1..], Last(groups[0]).i2, Last(groups[0]).j2);
    HeaderLineGood(g);
  }

  /**
   The exact round trip. For every valid grouped edit script, applying the printed diff to
   the original gives the updated text, unless the parser refuses the patch as binary, the
   path is unsafe, or some deleted line begins with `-- ` or some added line with `++ `;
   then it is refused and never misapplied.
   */
  lemma RoundTrip(path: string, original: string, updated: string, groups: seq<Group>)
    requires NoBreaks(path) && original != updated
    requires ValidGroups(SplitLines(original), SplitLines(updated), groups, 0, 0)
    ensures Built(path, original, updated, groups).Some?
    ensures
      var patch := Built(path, original, updated, groups).value;
      var es := DiffLines(SplitLines(original), SplitLines(updated), groups, 0, 0);
      Applied(original, patch) ==
        if IsBinary(patch) || !HeaderName(path).Path? || !NoFileHeader(es) then None else Some(updated)
  {
    hide SplitLines, IsBinary, HeaderName, ValidGroups, DiffLines, Applied, Printed, NoBreaks;
    DiffersHasGroup(original, updated, groups);
    BuiltIsPrinted(path, original, updated, groups);
    if NoFileHeader(DiffLines(SplitLines(original), SplitLines(updated), groups, 0, 0)) {
      PlainRoundTrip(path, original, updated, groups);
    } else {
      LookalikeRefused(path, original, updated, groups);
    }
  }

  lemma BuiltIsPrinted(path: string, original: string, updated: string, groups: seq<Group>)
    requires original != updated && groups != []
    requires ValidGroups(SplitLines(original), SplitLines(updated), groups, 0, 0)
    ensures Built(path, original, updated, groups) ==
            Some(Printed(path, DiffLines(SplitLines(original), SplitLines(updated), groups, 0, 0)))
  {
    hide SplitLines, ValidGroups, DiffLines;
    var es := DiffLines(SplitLines(original), SplitLines(updated), groups, 0, 0);
    RenderedAppend([OldName(path), NewName(path)], es);
    NamesRendered(path);
    JoinAppend([OldName(path), NewName(path)], RenderedAll(es));
    assert OldName(path) != "";
  }

  /** The first printed line that looks like a file header: none looks so before it. */
  lemma {:induction false} FirstLookalike(es: seq<string>) returns (d: nat)
    requires !NoFileHeader(es)
    ensures d < |es| && IsFileHeader(es[d]) && NoFileHeader(es[..d])
  {
    hide IsFileHeader;
    if IsFileHeader(es[0]) {
      d := 0;
    } else {
      var k :| 0 <= k < |es| && IsFileHeader(es[k]);
      assert es[1..][k - 1] == es[k];
      var d' := FirstLookalike(es[1..]);
      d := d' + 1;
      assert forall n :: 0 < n < d ==> es[..d][n] == es[1..][..d'][n - 1];
    }
  }

  /** A printed diff with a lookalike is not accepted, or its hunks do not read. */
  lemma LookalikeUnread(path: string, original: string, updated: string, groups: seq<Group>)
    requires NoBreaks(path) && original != updated
    requires ValidGroups(SplitLines(original), SplitLines(updated), groups, 0, 0)
    requires !NoFileHeader(DiffLines(SplitLines(original), SplitLines(updated), groups, 0, 0))
    ensures
      var patch := Printed(path, DiffLines(SplitLines(original), SplitLines(updated), groups, 0, 0));
      !Reviewable(patch) || Hunks(SplitLines(patch)).None?
  {
    hide SplitLines, ValidGroups, DiffLines, Printed, NoBreaks, DiffShaped, AllGood, PiecesAll, Reviewable, Hunks,
         IsOldHeader, IsNewHeader, NoFileHeader, RenderedAll, Join, OldName, NewName, AllLines;
    var a, b := SplitLines(original), SplitLines(updated);
    var es := DiffLines(a, b, groups, 0, 0);
    SplitAllLines(original);
    SplitAllLines(updated);
    var d := FirstLookalike(es);
    DiffShape(a, b, groups, 0, 0);
    ShapedPrefixGood(es, d);
    PrintedSplits(path, es, d);
    var rest := Join(RenderedAll(es[d..]));
    var more := SplitLines(rest);
    LookalikeFirst(es[d], rest);
    if IsOldHeader(es[d]) {
      OldLookalikeRefused(path, Printed(path, es), PiecesAll(es[..d]), more);
    } else {
      DiffersHasGroup(original, updated, groups);
      NewLookalikeRefused(a, b, groups, 0, 0, d, more);
      HunksAfterNames(path, PiecesAll(es[..d]) + more);
      assert [OldName(path), NewName(path)] + PiecesAll(es[..d]) + more
          == [OldName(path), NewName(path)] + (PiecesAll(es[..d]) + more);
    }
  }

  lemma LookalikeRefused(path: string, original: string, updated: string, groups: seq<Group>)
    requires NoBreaks(path) && original != updated
    requires ValidGroups(SplitLines(original), SplitLines(updated), groups, 0, 0)
    requires !NoFileHeader(DiffLines(SplitLines(original), SplitLines(updated), groups, 0, 0))
    ensures Applied(original, Printed(path, DiffLines(SplitLines(original), SplitLines(updated), groups, 0, 0))) == None
  {
    hide SplitLines, ValidGroups, DiffLines, Printed, NoBreaks, Reviewable, Hunks, NoFileHeader;
    LookalikeUnread(path, original, updated, groups);
  }

  // ----- the patch read backwards -----

  /** An empty new side stands before the first line: away from there a group keeps lines of context. */
  predicate NewSidesStand(groups: seq<Group>) {
    forall k :: 0 <= k < |groups| && groups[k] != [] && groups[k][0].j1 == Last(groups[k]).j2 ==> groups[k][0].j1 == 0
  }

  /** The groups' hunks with marks and ranges swapped fit the update and turn it into the original. */
  lemma {:induction false} GroupHunksLandBack(a: seq<string>, b: seq<string>, groups: seq<Group>, i: nat, j: nat)
    requires i <= |a| && j <= |b| && ValidGroups(a, b, groups, i, j) && NewSidesStand(groups)
    ensures Land(b, j, Some(AllSwapped(GroupHunks(a, b, groups, i, j)))) == Some(a[i..])
  {
    hide Chained;
    if groups != [] {
      hide Land;
      var g := groups[0];
      var hunk := GroupHunk(a, b, g);
      var more := GroupHunks(a, b, groups[1..], Last(g).i2, Last(g).j2);
      GroupHunksLandBack(a, b, groups[1..], Last(g).i2, Last(g).j2);
      assert GroupHunks(a, b, groups, i, j) == [hunk] + more;
      assert AllSwapped([hunk] + more) == [Swapped(hunk)] + AllSwapped(more);
      assert hunk.place == g[0].j1;
      LandStep(b, j, Swapped(hunk), Some(AllSwapped(more)));
      assert a[i..] == (a[i..g[0].i1] + a[g[0].i1..Last(g).i2]) + a[Last(g).i2..];
    }
  }

  /**
   The exact round trip backwards. For every valid grouped edit script the built patch, read with marks
   and ranges swapped and applied to the update, gives the original under just the conditions under
   which it gives the update forwards.
   */
  lemma ReverseRoundTrip(path: string, original: string, updated: string, groups: seq<Group>)
    requires NoBreaks(path) && original != updated && NewSidesStand(groups)
    requires ValidGroups(SplitLines(original), SplitLines(updated), groups, 0, 0)
    ensures Built(path, original, updated, groups).Some?
    ensures
      var patch := Built(path, original, updated, groups).value;
      var es := DiffLines(SplitLines(original), SplitLines(updated), groups, 0, 0);
      AppliedBackwards(updated, patch) ==
        if IsBinary(patch) || !HeaderName(path).Path? || !NoFileHeader(es) then None else Some(original)
  {
    hide SplitLines, IsBinary, HeaderName, ValidGroups, DiffLines, Printed, NoBreaks, Hunks, Reviewable, Land,
         GroupHunks;
    var a, b := SplitLines(original), SplitLines(updated);
    DiffersHasGroup(original, updated, groups);
    BuiltIsPrinted(path, original, updated, groups);
    JoinSplit(original);
    assert a[0..] == a;
    if NoFileHeader(DiffLines(a, b, groups, 0, 0)) {
      PrintedHunks(path, original, updated, groups);
      GroupHunksLandBack(a, b, groups, 0, 0);
    } else {
      LookalikeUnread(path, original, updated, groups);
    }
  }

  // ----- when no line looks like a file header -----

  predicate NoneBegins(mark: string, ls: seq<string>) {
    forall k :: 0 <= k < |ls| ==> !(mark <= ls[k])
  }

  lemma {:induction false} MarkedPlain(mark: char, ls: seq<string>)
    requires mark in {' ', '+', '-'}
    requires mark == '-' ==> NoneBegins("-- ", ls)
    requires mark == '+' ==> NoneBegins("++ ", ls)
    ensures NoFileHeader(Marked(mark, ls))
  {
    if ls != [] {
      MarkedPlain(mark, ls[1..]);
      var e := [mark] + ls[0];
      assert "--- "[0] == '-' && "--- "[1..] == "-- " && "+++ "[0] == '+' && "+++ "[1..] == "++ ";
      assert e[1..] == ls[0];
      if |e| >= 4 {
        assert e[..4][1..] == ls[0][..3];
      }
    }
  }

  lemma {:induction false} GroupPlain(a: seq<string>, b: seq<string>, g: Group, i: nat, j: nat)
    requires Chained(a, b, g, i, j) && NoneBegins("-- ", a) && NoneBegins("++ ", b)
    ensures NoFileHeader(GroupLines(a, b, g, i, j))
  {
    hide IsFileHeader, Marked;
    if g != [] {
      var op := g[0];
      GroupPlain(a, b, g[1..], op.i2, op.j2);
      SlicePlain("-- ", a, op.i1, op.i2);
      SlicePlain("++ ", b, op.j1, op.j2);
      MarkedPlain('-', a[op.i1..op.i2]);
      MarkedPlain('+', b[op.j1..op.j2]);
      MarkedPlain(' ', a[op.i1..op.i2]);
    }
  }

  lemma SlicePlain(mark: string, ls: seq<string>, from: nat, to: nat)
    requires from <= to <= |ls| && NoneBegins(mark, ls)
    ensures NoneBegins(mark, ls[from..to])
  {
  }

  /** Texts without lines that begin with `-- ` and `++ ` never print a lookalike. */
  lemma {:induction false} PlainTexts(a: seq<string>, b: seq<string>, groups: seq<Group>, i: nat, j: nat)
    requires i <= |a| && j <= |b| && ValidGroups(a, b, groups, i, j)
    requires NoneBegins("-- ", a) && NoneBegins("++ ", b)
    ensures NoFileHeader(DiffLines(a, b, groups, i, j))
  {
    hide IsFileHeader, NoneBegins, GroupLines, HunkLine, Chained;
    if groups != [] {
      var g := groups[0];
      GroupPlain(a, b, g, g[0].i1, g[0].j1);
      HeaderLineGood(g);
      PlainTexts(a, b, groups[1..], Last(g).i2, Last(g).j2);
    }
  }
}
