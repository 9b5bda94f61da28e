/** Paths that hold a line break: the header of a printed diff then spans several lines. */
module PatchPaths {
  import opened Common
  import opened Lines
  import opened Patch
  import opened PatchBuild
  import opened PatchRoundTrip
  import opened PatchPlain

  // ----- paths that are always refused -----

  /** What a path puts on the lines after the one that names it, if anything. */
  function AfterFirstLine(path: string): string {
    var text := path + "\n";
    text[FirstLen(text)..]
  }

  lemma {:induction false} FirstLenAfter(front: string, s: string)
    requires NoBreaks(front) && s != ""
    ensures FirstLen(front + s) == |front| + FirstLen(s)
  {
    if front == "" {
      assert front + s == s;
    } else {
      assert (front + s)[1..] == front[1..] + s;
      FirstLenAfter(front[1..], s);
    }
  }

  /** A first line that is not the whole text ends in a break, and text behind the rest does not change it. */
  lemma {:induction false} FirstLenStays(s: string, rest: string)
    requires s != "" && FirstLen(s) < |s|
    ensures FirstLen(s + rest) == FirstLen(s)
  {
    assert (s + rest)[1..] == s[1..] + rest;
    if !IsBreak(s[0]) {
      FirstLenStays(s[1..], rest);
    }
  }

  /** Text after a line feed does not change how a text begins, if that is with `+++ `. */
  lemma HeaderBeforeLineFeed(tail: string, rest: string, n: nat)
    requires tail != "" && tail[|tail| - 1] == '\n' && n <= |tail + rest|
    requires IsNewHeader((tail + rest)[..n])
    ensures IsNewHeader(tail)
  {
    var text := tail + rest;
    assert text[|tail| - 1] == '\n';
    assert forall k :: 0 <= k < 4 ==> text[k] == "+++ "[k] != '\n';
    assert tail[..4] == "+++ ";
  }

  /** The second line of a text begins as the text behind its first line does. */
  lemma SecondLine(s: string, rest: string)
    requires s != "" && FirstLen(s) < |s| && s[|s| - 1] == '\n'
    ensures |SplitLines(s + rest)| >= 2 && SplitLines(s + rest)[0] == s[..FirstLen(s)]
    ensures IsNewHeader(SplitLines(s + rest)[1]) ==> IsNewHeader(s[FirstLen(s)..])
  {
    hide SplitLines, FirstLen, IsNewHeader;
    var n, tail := FirstLen(s), s[FirstLen(s)..];
    FirstLenStays(s, rest);
    assert (s + rest)[..n] == s[..n] && (s + rest)[n..] == tail + rest;
    SplitOnce(s + rest);
    SplitOnce(tail + rest);
    var m := FirstLen(tail + rest);
    assert SplitLines(s + rest)[1] == (tail + rest)[..m];
    if IsNewHeader((tail + rest)[..m]) {
      HeaderBeforeLineFeed(tail, rest, m);
    }
  }

  lemma OldHeaderAlone(lines: seq<string>)
    requires |lines| >= 2 && IsOldHeader(lines[0]) && !IsNewHeader(lines[1])
    ensures Files(lines) == None
  {
  }

  lemma NoFilesRefused(original: string, patch: string)
    requires Files(SplitLines(patch)) == None
    ensures Applied(original, patch) == None
  {
    hide SplitLines, IsBinary, AnyRefused, Files;
  }

  /**
   A path whose second line does not begin with `+++ ` is always refused: every break in a path, but for
   a final carriage return, begins one.
   */
  lemma BrokenPathRefused(path: string, original: string, updated: string, groups: seq<Group>)
    requires original != updated && ValidGroups(SplitLines(original), SplitLines(updated), groups, 0, 0)
    requires AfterFirstLine(path) != "" && !IsNewHeader(AfterFirstLine(path))
    ensures Built(path, original, updated, groups).Some?
    ensures Applied(original, Built(path, original, updated, groups).value) == None
  {
    hide SplitLines, ValidGroups, DiffLines, Applied, Printed, IsNewHeader, IsOldHeader, FirstLen;
    DiffersHasGroup(original, updated, groups);
    BuiltIsPrinted(path, original, updated, groups);
    var es := DiffLines(SplitLines(original), SplitLines(updated), groups, 0, 0);
    var patch, head, text := Printed(path, es), OldName(path), path + "\n";
    var rest := PrintedBegins(path, es);
    assert NoBreaks("--- a/");
    FirstLenAfter("--- a/", text);
    assert head == "--- a/" + text && head[FirstLen(head)..] == text[FirstLen(text)..];
    SecondLine(head, rest);
    FirstLineOld(head);
    OldHeaderAlone(SplitLines(patch));
    NoFilesRefused(original, patch);
  }

  lemma PrintedBegins(path: string, es: seq<string>) returns (rest: string)
    ensures Printed(path, es) == OldName(path) + rest
  {
    hide Rendered;
    var names := [OldName(path), NewName(path)];
    RenderedAppend(names, es);
    NamesRendered(path);
    rest := Join((names + RenderedAll(es))[1..]);
  }

  lemma FirstLineOld(head: string)
    requires "--- a/" <= head && FirstLen(head) >= 6
    ensures IsOldHeader(head[..FirstLen(head)])
  {
    assert "--- a/"[..4] == "--- ";
    assert head[..FirstLen(head)][..4] == head[..4] == "--- a/"[..4];
  }

  // ----- a path that prints hunks of its own -----

  function OneLineHunk(): string {
    HunkLine(0, 0, 0, 1)
  }

  /** After its first line this path holds a file header and a whole hunk. */
  function HunkPath(): string {
    "x\n+++ b/x\n" + OneLineHunk() + "+b"
  }

  /** The whole text is one added line. */
  function AddedLine(): seq<Group> {
    [[Opcode(Insert, 0, 0, 0, 1)]]
  }

  /** The lines of the patch that is printed for this path and that addition. */
  function HunkPathLines(): seq<string> {
    [OldName("x"), NewName("x")]
    + [OneLineHunk(), "+b\n", NewName("x"), NewName("x"), OneLineHunk(), "+b\n", OneLineHunk(), "+a\n"]
  }

  predicate Newlined(l: string) {
    Terminated(l) && l[|l| - 1] == '\n'
  }

  lemma {:induction false} NewlinedAreClosed(ls: seq<string>)
    requires forall k :: 0 <= k < |ls| ==> Newlined(ls[k])
    ensures Closed(ls, "")
  {
    hide Terminated;
    if ls != [] {
      NewlinedAreClosed(ls[1..]);
    }
  }

  lemma ShortLines()
    ensures Newlined("+a\n") && Newlined("+b\n") && Newlined("a\n")
    ensures Newlined(OneLineHunk()) && Newlined(OldName("x")) && Newlined(NewName("x"))
  {
    hide Terminated, RangeText;
    BreakFreeLine("+a");
    BreakFreeLine("+b");
    BreakFreeLine("a");
    assert "+a" + "\n" == "+a\n" && "+b" + "\n" == "+b\n" && "a" + "\n" == "a\n";
    HunkLineTerminated(0, 0, 0, 1);
    NamesTerminated("x");
  }

  lemma OneLineSplits(l: string)
    requires Newlined(l)
    ensures SplitLines("") == [] && SplitLines(l) == [l]
  {
    assert l[..|l|] == l && l[|l|..] == "";
  }

  lemma HunkPathSplits(patch: string)
    requires patch == Join(HunkPathLines())
    ensures SplitLines(patch) == HunkPathLines()
  {
    hide Closed, Newlined, OneLineHunk, OldName, NewName;
    ShortLines();
    NewlinedAreClosed(HunkPathLines());
    SplitAppend(HunkPathLines(), "");
    assert patch + "" == patch;
  }

  /** What ends a hunk's body. */
  predicate EndsBody(rest: seq<string>) {
    rest == [] || IsNewHeader(rest[0]) || rest[0] == OneLineHunk()
  }

  lemma NotMarker(rest: seq<string>)
    requires EndsBody(rest)
    ensures NoMarkerFirst(rest)
  {
    assert MARKER[0] == '\\' && "+++ "[0] == '+';
  }

  lemma NothingMore(rest: seq<string>)
    requires EndsBody(rest)
    ensures Body(rest) == BodyText([], [], 0) && NoMarkerFirst(rest)
  {
    HunkLineParsed(0, 0, 0, 1);
    NotMarker(rest);
    hide ParseHeader, HunkLine;
  }

  lemma AddedPayload(e: string, c: char, rest: seq<string>)
    requires e == ['+', c, '\n'] && NoMarkerFirst(rest)
    ensures Payload([e] + rest) == ([c, '\n'], 1)
    ensures IsContent(e) && !IsFileHeader(e) && ParseHeader(e).None?
  {
    ContentIsNoHeader(e);
    assert "--- "[0] == '-' && "+++ "[2] == '+';
  }

  lemma AddedBody(e: string, c: char, rest: seq<string>)
    requires e == ['+', c, '\n'] && EndsBody(rest)
    ensures Body([e] + rest) == BodyText([], [[c, '\n']], 1)
  {
    NothingMore(rest);
    AddedPayload(e, c, rest);
    hide ParseHeader, HunkLine, Payload, IsFileHeader, IsContent, EndsBody, NoMarkerFirst;
    assert ([e] + rest)[1..] == rest;
  }

  /** One hunk of one added line, and what follows it. */
  lemma OneHunkRead(e: string, c: char, rest: seq<string>)
    requires e == ['+', c, '\n'] && EndsBody(rest)
    ensures Hunks([OneLineHunk(), e] + rest) == Prefixed([Added(c)], Hunks(rest))
  {
    hide ParseHeader, HunkLine, Body, EndsBody;
    HunkLineParsed(0, 0, 0, 1);
    AddedBody(e, c, rest);
    var lines := [OneLineHunk(), e] + rest;
    assert lines[1..] == [e] + rest && lines[2..] == rest;
  }

  lemma NewNameSkipped(rest: seq<string>)
    ensures Hunks([NewName("x")] + rest) == Hunks(rest)
  {
    ContentIsNoHeader(NewName("x"));
    hide ParseHeader, Body;
    assert ([NewName("x")] + rest)[1..] == rest;
  }

  function Added(c: char): Hunk {
    Hunk(0, [], [[c, '\n']], 0)
  }

  /** The parser reads the path's hunk twice, and then the diff's own. */
  lemma HunkPathHunks()
    ensures Hunks(HunkPathLines()) == Some([Added('b'), Added('b'), Added('a')])
  {
    hide HunkLine, Hunks, NewName, OldName, IsNewHeader;
    var h, n := OneLineHunk(), NewName("x");
    var last := [h, "+a\n"];
    var third := [h, "+b\n"] + last;
    var second := [n] + ([n] + third);
    NewNameIsHeader();
    NoHunks();
    OneHunkRead("+a\n", 'a', []);
    assert last + [] == last;
    OneHunkRead("+b\n", 'b', last);
    NewNameSkipped(third);
    NewNameSkipped([n] + third);
    OneHunkRead("+b\n", 'b', second);
    assert [Added('b')] + ([Added('b')] + ([Added('a')] + [])) == [Added('b'), Added('b'), Added('a')];
    HunksAfterNames("x", [h, "+b\n"] + second);
    assert HunkPathLines() == [OldName("x"), n] + ([h, "+b\n"] + second);
  }

  lemma NoHunks()
    ensures Hunks([]) == Some([])
  {
  }

  lemma NewNameIsHeader()
    ensures IsNewHeader(NewName("x")) && !IsOldHeader(NewName("x")) && !IsOldHeader(OneLineHunk())
  {
    assert "+++ "[0] == '+' && "--- "[0] == '-' && OneLineHunk()[0] == '@';
  }

  lemma {:induction false} NoOldHeaders(lines: seq<string>)
    requires forall k :: 0 <= k < |lines| ==> !IsOldHeader(lines[k])
    ensures Files(lines) == Some([])
  {
    hide IsOldHeader;
    if lines != [] {
      NoOldHeaders(lines[1..]);
    }
  }

  lemma NoTab()
    ensures BeforeTab("a/x") == "a/x"
  {
    var raw := "a/x";
    assert raw[1..] == "/x" && raw[1..][1..] == "x" && raw[1..][1..][1..] == "";
    assert BeforeTab("x") == "x" && BeforeTab("/x") == "/x";
  }

  lemma SafeX()
    ensures SafePath("x") == Path("x")
  {
    assert "x"[1..] == "" && "" + ['x'] == "x";
    assert Parts("x", "") == Parts("", "x") == ["x"];
    assert JoinPath(["x"]) == "x";
  }

  lemma NameOfX()
    ensures HeaderName("x") == Path("x")
  {
    hide SafePath, BeforeTab;
    var raw := "a/x";
    assert "a/" + "x" == raw;
    NoTab();
    SafeX();
    assert "/dev/null"[0] == '/' && "\""[0] == '"' && raw[..2] == "a/" && raw[2..] == "x";
  }

  /** The parser takes the patch for one of the file `x`. */
  lemma HunkPathReviewable(patch: string)
    requires SplitLines(patch) == HunkPathLines() && !IsBinary(patch)
    ensures Reviewable(patch)
  {
    hide SplitLines, IsBinary, HunkLine, OldName, NewName, RefusedLine, IsHunkLine, ParseHeader, HeaderName,
         IsOldHeader, Files, Closed;
    var lines := HunkPathLines();
    var rest := lines[2..];
    assert lines == [OldName("x"), NewName("x")] + rest;
    NewNameIsHeader();
    AddedIsNoHeader();
    NoOldHeaders(rest);
    NameOfX();
    FilesOfPatch("x", rest);
    assert [PatchFile("x", Modify)] + [] == [PatchFile("x", Modify)];
    FirstCharacters();
    forall k | 0 <= k < |lines|
      ensures !RefusedLine(lines[k])
    {
      MarkNotRefused(lines[k]);
    }
    HeaderLineSeen(AddedLine()[0]);
    assert lines[2] == HeaderLine(AddedLine()[0]);
    ReviewableFrom(patch, Path("x"));
  }

  lemma AddedIsNoHeader()
    ensures !IsOldHeader("+b\n") && !IsOldHeader("+a\n")
  {
    assert "--- "[0] == '-';
  }

  lemma FirstCharacters()
    ensures OldName("x") != "" && OldName("x")[0] == '-' && NewName("x") != "" && NewName("x")[0] == '+'
    ensures OneLineHunk() != "" && OneLineHunk()[0] == '@'
  {
  }

  lemma JoinTwo(a: string, b: string)
    ensures Join([a, b]) == a + b
  {
    assert [a, b][1..] == [b] && [b][1..] == [];
    assert Join([b]) == b + Join([]) == b;
  }

  /** Five pairs of lines. */
  lemma JoinPairs(o: string, n: string, h: string, b: string, a: string)
    ensures Join([o, n] + [h, b, n, n, h, b, h, a]) == (o + n) + ((h + b) + ((n + n) + ((h + b) + (h + a))))
  {
    hide Join;
    JoinTwo(h, a);
    JoinTwo(h, b);
    JoinTwo(o, n);
    JoinTwo(n, n);
    var four := [h, b] + [h, a];
    JoinAppend([h, b], [h, a]);
    JoinAppend([n, n], four);
    JoinAppend([h, b], [n, n] + four);
    JoinAppend([o, n], [h, b] + ([n, n] + four));
    assert [o, n] + [h, b, n, n, h, b, h, a] == [o, n] + ([h, b] + ([n, n] + four));
  }

  lemma PairsRegrouped(o: string, n: string, k: string, last: string)
    ensures (o + (n + k)) + (n + (n + k)) + last == (o + n) + (k + ((n + n) + (k + last)))
  {
  }

  lemma NamesOfHunkPath()
    ensures
      var k := OneLineHunk() + "+b\n";
      && OldName(HunkPath()) == OldName("x") + (NewName("x") + k)
      && NewName(HunkPath()) == NewName("x") + (NewName("x") + k)
  {
    hide HunkLine;
  }

  lemma HunkPathPrinted()
    ensures Printed(HunkPath(), [OneLineHunk(), "+a\n"]) == Join(HunkPathLines())
  {
    hide HunkLine, OldName, NewName, HunkPath, OneLineHunk, Join;
    var path, h := HunkPath(), OneLineHunk();
    NamesOfHunkPath();
    NamesRendered(path);
    RenderedAppend([OldName(path), NewName(path)], [h, "+a\n"]);
    LinesRendered();
    JoinAppend([OldName(path), NewName(path)], [h, "+a\n"]);
    JoinTwo(OldName(path), NewName(path));
    JoinTwo(h, "+a\n");
    JoinPairs(OldName("x"), NewName("x"), h, "+b\n", "+a\n");
    PairsRegrouped(OldName("x"), NewName("x"), h + "+b\n", h + "+a\n");
  }

  lemma LinesRendered()
    ensures RenderedAll([OneLineHunk(), "+a\n"]) == [OneLineHunk(), "+a\n"]
  {
    var h := OneLineHunk();
    FirstCharacters();
    assert Rendered(h) == [h] && Rendered("+a\n") == ["+a\n"];
    assert [h, "+a\n"][1..] == ["+a\n"] && ["+a\n"][1..] == [];
  }

  lemma AddedLineIsValid()
    ensures ValidGroups([], ["a\n"], AddedLine(), 0, 0)
    ensures DiffLines([], ["a\n"], AddedLine(), 0, 0) == [OneLineHunk(), "+a\n"]
  {
    hide HunkLine;
    var g := AddedLine()[0];
    var b := ["a\n"];
    assert g[1..] == [] && AddedLine()[1..] == [] && b[0..1] == b && b[1..] == [] && b[..0] == [];
    assert Marked('+', b) == ["+a\n"] by {
      assert ['+'] + "a\n" == "+a\n";
    }
    assert OpcodeLines([], b, g[0]) == ["+a\n"];
    assert GroupLines([], b, g, 0, 0) == ["+a\n"];
  }

  lemma HunkPathIsPlain()
    ensures !IsBinary(HunkPath()) && NoneBinary([OneLineHunk(), "+a\n"])
  {
    hide HunkLine, IsBinary;
    HunkLinePlain(0, 0, 0, 1);
    UnmarkedIsPlain("+a\n");
    UnmarkedIsPlain("+b");
    BinaryAfter("x\n+++ b/x\n", OneLineHunk() + "+b");
    assert HunkPath() == "x\n+++ b/x\n" + (OneLineHunk() + "+b");
    BinaryJoined(OneLineHunk(), "+b");
  }

  lemma LastHunkIsGood()
    ensures AllGood([OneLineHunk(), "+a\n"]) && HeadersEnd([OneLineHunk(), "+a\n"])
  {
    hide HunkLine, ParseHeader, Terminated;
    HunkLineParsed(0, 0, 0, 1);
    HunkLineEnds(0, 0, 0, 1);
    ShortLines();
    FirstCharacters();
    assert "+++ "[1] == '+' && "--- "[0] == '-';
  }

  /**
   Not every other path is refused: for this one the patch that is built to add the line `a` to an empty
   text is accepted as a patch of the file `x`, and adds the path's own line twice besides.
   */
  lemma PathMayPrintHunks()
    ensures ValidGroups(SplitLines(""), SplitLines("a\n"), AddedLine(), 0, 0)
    ensures Built(HunkPath(), "", "a\n", AddedLine()).Some?
    ensures Applied("", Built(HunkPath(), "", "a\n", AddedLine()).value) == Some("b\nb\na\n")
  {
    hide SplitLines, ValidGroups, DiffLines, Printed, IsBinary, Reviewable, Hunks, HunkPath, OneLineHunk, AllGood,
         HeadersEnd, HunkPathLines, Newlined;
    ShortLines();
    OneLineSplits("a\n");
    AddedLineIsValid();
    var es := [OneLineHunk(), "+a\n"];
    BuiltIsPrinted(HunkPath(), "", "a\n", AddedLine());
    HunkPathPrinted();
    var patch := Printed(HunkPath(), es);
    HunkPathSplits(patch);
    HunkPathIsPlain();
    LastHunkIsGood();
    PrintedIsBinary(HunkPath(), es);
    HunkPathReviewable(patch);
    HunkPathHunks();
    ThreeLand();
    ThreeJoin();
  }

  lemma AddedFits(c: char, hunks: seq<Hunk>)
    requires Fits([], 0, hunks)
    ensures Fits([], 0, [Added(c)] + hunks)
    ensures Patched([], 0, [Added(c)] + hunks) == [[c, '\n']] + Patched([], 0, hunks)
  {
    assert ([Added(c)] + hunks)[1..] == hunks;
  }

  lemma ThreeLand()
    ensures Land([], 0, Some([Added('b'), Added('b'), Added('a')])) == Some(["b\n", "b\n", "a\n"])
  {
    var none: seq<Hunk> := [];
    assert Fits([], 0, none) && Patched([], 0, none) == [];
    AddedFits('a', none);
    AddedFits('b', [Added('a')] + none);
    AddedFits('b', [Added('b')] + ([Added('a')] + none));
    hide Fits, Patched;
    assert [Added('b')] + ([Added('b')] + ([Added('a')] + none)) == [Added('b'), Added('b'), Added('a')];
    assert [['b', '\n']] + ([['b', '\n']] + ([['a', '\n']] + [])) == ["b\n", "b\n", "a\n"];
  }

  lemma ThreeJoin()
    ensures Join(["b\n", "b\n", "a\n"]) == "b\nb\na\n"
  {
    hide Join;
    JoinTwo("b\n", "a\n");
    JoinAppend(["b\n"], ["b\n", "a\n"]);
    assert ["b\n"] + ["b\n", "a\n"] == ["b\n", "b\n", "a\n"];
    JoinLine("b\n");
  }

  lemma JoinLine(l: string)
    ensures Join([l]) == l
  {
    assert [l][1..] == [] && l + "" == l;
  }
}
