/**
 The unified-diff printer, parser and in-memory applier of `training/incidents/patch.py`.
 The reference reading of a patch has two phases: `Hunks` reads the patch alone, `Fits`
 and `Patched` then say what those hunks mean for a list of source lines. The applier
 itself works in one pass and is proved against that reading.
 */
module Patch {
  import opened Common
  import opened Lines

  const MARKER := "\\ No newline at end of file"

  // ----- hunk headers -----

  datatype Header = Header(oldStart: nat, oldCount: nat, newStart: nat, newCount: nat)

  datatype Number = Number(value: nat, rest: string)

  function CountDigits(s: string): (n: nat)
    ensures n <= |s|
    ensures forall i :: 0 <= i < n ==> IsDigit(s[i])
    ensures n < |s| ==> !IsDigit(s[n])
  {
    if s == "" || !IsDigit(s[0]) then 0 else 1 + CountDigits(s[1..])
  }

  function TakeNumber(s: string): Option<Number> {
    var n := CountDigits(s);
    if n == 0 then None else Some(Number(DecimalValue(s[..n]), s[n..]))
  }

  /** The optional `,count` group; a missing count reads as 1. */
  function TakeCount(s: string): Number {
    if s != "" && s[0] == ',' && TakeNumber(s[1..]).Some? then TakeNumber(s[1..]).value
    else Number(1, s)
  }

  function Following(prefix: string, s: string): Option<string> {
    if prefix <= s then Some(s[|prefix|..]) else None
  }

  /** One `start[,count]` range. */
  function TakeRange(s: string): Option<(nat, Number)> {
    match TakeNumber(s)
    case None => None
    case Some(start) => Some((start.value, TakeCount(start.rest)))
  }

  /** The hunk-header pattern `@@ -a[,b] +c[,d] @@` at the start of a line. */
  function ParseHeader(line: string): Option<Header> {
    match Following("@@ -", line)
    case None => None
    case Some(oldText) =>
      match TakeRange(oldText)
      case None => None
      case Some((oldStart, oldCount)) =>
        match Following(" +", oldCount.rest)
        case None => None
        case Some(newText) =>
          match TakeRange(newText)
          case None => None
          case Some((newStart, newCount)) =>
            if " @@" <= newCount.rest then Some(Header(oldStart, oldCount.value, newStart, newCount.value)) else None
  }

  // ----- the reference reading of a patch -----

  /**
   A hunk: where it starts in the source, the lines it expects and the lines it leaves, and where its
   header says that they start in the result, which the applier ignores and `git apply --reverse` needs.
   */
  datatype Hunk = Hunk(target: nat, before: seq<string>, after: seq<string>, place: nat)

  predicate IsFileHeader(line: string) {
    IsOldHeader(line) || IsNewHeader(line)
  }

  predicate IsContent(line: string) {
    line != "" && line[0] in {' ', '+', '-'}
  }

  /** The no-newline marker takes the break off the content line before it. */
  function Unmarked(payload: string): string {
    if |payload| >= 2 && payload[|payload| - 2..] == "\r\n" then payload[..|payload| - 2]
    else if payload != "" && payload[|payload| - 1] in {'\n', '\r'} then payload[..|payload| - 1]
    else payload
  }

  predicate MarkerNext(lines: seq<string>) {
    |lines| >= 2 && MARKER <= lines[1]
  }

  /** The payload of the first content line and the number of patch lines it takes. */
  function Payload(lines: seq<string>): (r: (string, nat))
    requires lines != [] && lines[0] != ""
    ensures 1 <= r.1 <= |lines|
  {
    if MarkerNext(lines) then (Unmarked(lines[0][1..]), 2) else (lines[0][1..], 1)
  }

  datatype BodyText = BodyText(before: seq<string>, after: seq<string>, used: nat)

  /** What a hunk's body says, up to the next hunk header, file header or the end. */
  function Body(lines: seq<string>): (b: BodyText)
    ensures b.used <= |lines|
    decreases |lines|
  {
    if lines == [] || ParseHeader(lines[0]).Some? || IsFileHeader(lines[0]) then BodyText([], [], 0)
    else if !IsContent(lines[0]) then
      var rest := Body(lines[1..]);
      rest.(used := rest.used + 1)
    else
      var (payload, n) := Payload(lines);
      var rest := Body(lines[n..]);
      BodyText((if lines[0][0] == '+' then [] else [payload]) + rest.before,
               (if lines[0][0] == '-' then [] else [payload]) + rest.after,
               n + rest.used)
  }

  function Target(h: Header): nat {
    if h.oldStart == 0 then 0 else h.oldStart - 1
  }

  function Place(h: Header): nat {
    if h.newStart == 0 then 0 else h.newStart - 1
  }

  /** All hunks of a patch, or none when a hunk does not hold the lines its header declares. */
  function Hunks(lines: seq<string>): Option<seq<Hunk>>
    decreases |lines|
  {
    if lines == [] then Some([])
    else if ParseHeader(lines[0]).None? then Hunks(lines[1..])
    else
      var header := ParseHeader(lines[0]).value;
      var body := Body(lines[1..]);
      if |body.before| != header.oldCount || |body.after| != header.newCount then None
      else
        Prefixed([Hunk(Target(header), body.before, body.after, Place(header))], Hunks(lines[1 + body.used..]))
  }

  predicate HasHunk(lines: seq<string>) {
    exists i :: 0 <= i < |lines| && ParseHeader(lines[i]).Some?
  }

  /** The hunks come in order, and each finds the lines it expects at its target. */
  predicate Fits(source: seq<string>, cursor: nat, hunks: seq<Hunk>)
    decreases |hunks|
  {
    hunks == [] || (
      && cursor <= hunks[0].target
      && hunks[0].target + |hunks[0].before| <= |source|
      && source[hunks[0].target..hunks[0].target + |hunks[0].before|] == hunks[0].before
      && Fits(source, hunks[0].target + |hunks[0].before|, hunks[1..]))
  }

  /** The source from `cursor` on with each hunk's old lines replaced by its new lines. */
  function Patched(source: seq<string>, cursor: nat, hunks: seq<Hunk>): seq<string>
    requires cursor <= |source| && Fits(source, cursor, hunks)
    decreases |hunks|
  {
    if hunks == [] then source[cursor..]
    else
      source[cursor..hunks[0].target] + hunks[0].after
      + Patched(source, hunks[0].target + |hunks[0].before|, hunks[1..])
  }

  /** What the hunks make of the source from `cursor` on: nothing when they do not fit. */
  function Land(source: seq<string>, cursor: nat, hunks: Option<seq<Hunk>>): Option<seq<string>>
    requires cursor <= |source|
  {
    if hunks.Some? && Fits(source, cursor, hunks.value) then Some(Patched(source, cursor, hunks.value)) else None
  }

  /** Applying the rest of a patch to the rest of a source: nothing when it is refused. */
  function Outcome(source: seq<string>, cursor: nat, lines: seq<string>): Option<seq<string>>
    requires cursor <= |source|
  {
    Land(source, cursor, Hunks(lines))
  }

  // ----- a patch read backwards -----

  /** The hunk with its marks and ranges swapped. */
  function Swapped(h: Hunk): Hunk {
    Hunk(h.place, h.after, h.before, h.target)
  }

  function AllSwapped(hunks: seq<Hunk>): seq<Hunk> {
    if hunks == [] then [] else [Swapped(hunks[0])] + AllSwapped(hunks[1..])
  }

  // ----- file headers -----

  datatype ChangeType = Create | Modify | Delete
  datatype PatchFile = PatchFile(path: string, change: ChangeType)
  datatype HeaderPath = NoPath | Path(value: string) | Unsafe

  function BeforeTab(s: string): string {
    if s == "" || s[0] == '\t' then "" else [s[0]] + BeforeTab(s[1..])
  }

  /** The path's components, with the empty and `.` ones dropped as PurePosixPath does. */
  function Parts(s: string, current: string): seq<string>
    decreases |s|
  {
    if s == "" then Component(current)
    else if s[0] == '/' then Component(current) + Parts(s[1..], "")
    else Parts(s[1..], current + [s[0]])
  }

  function Component(part: string): seq<string> {
    if part == "" || part == "." then [] else [part]
  }

  function JoinPath(parts: seq<string>): string {
    if parts == [] then "" else if |parts| == 1 then parts[0] else parts[0] + "/" + JoinPath(parts[1..])
  }

  function SafePath(value: string): (r: HeaderPath)
    ensures !r.NoPath?
  {
    var parts := Parts(value, "");
    if "/" <= value || parts == [] || ".." in parts then Unsafe
    else if JoinPath(parts) == ".cyan/config.toml" || parts[0] == ".git" then Unsafe
    else Path(JoinPath(parts))
  }

  /** `_normalize_header_path`. */
  function NormalizeHeaderPath(raw: string): HeaderPath {
    var value := BeforeTab(raw);
    if value == "/dev/null" then NoPath
    else if value == "" || "\"" <= value || '\\' in value then Unsafe
    else if "a/" <= value || "b/" <= value then SafePath(value[2..])
    else SafePath(value)
  }

  predicate Contains(s: string, part: string) {
    part <= s || (s != "" && Contains(s[1..], part))
  }

  predicate IsBinary(patch: string) {
    '\0' in patch || Contains(patch, "GIT binary patch") || Contains(patch, "Binary files ")
  }

  predicate IsRename(line: string) {
    "rename from " <= line || "rename to " <= line || "copy from " <= line || "copy to " <= line
  }

  function WithoutPrefix(prefix: string, s: string): string {
    if prefix <= s then s[|prefix|..] else s
  }

  function LastWord(s: string): string {
    if s == "" || s[|s| - 1] == ' ' then "" else LastWord(s[..|s| - 1]) + [s[|s| - 1]]
  }

  predicate IsUnsafeMode(line: string) {
    var modes := {"120000", "160000"};
    || WithoutPrefix("new file mode ", line) in modes
    || WithoutPrefix("deleted file mode ", line) in modes
    || WithoutPrefix("old mode ", line) in modes
    || WithoutPrefix("new mode ", line) in modes
    || ("index " <= line && LastWord(line) in modes)
  }

  predicate IsOldHeader(line: string) {
    "--- " <= line
  }

  predicate IsNewHeader(line: string) {
    "+++ " <= line
  }

  /** The path a file header names after its four-character mark. */
  function HeaderPathOf(line: string): HeaderPath
    requires IsFileHeader(line)
  {
    assert !IsBreak(line[3]);
    NormalizeHeaderPath(Chomp(line)[4..])
  }

  /** The file pairs in order; none when a header pair is malformed or unsafe. */
  function Files(lines: seq<string>): Option<seq<PatchFile>>
    decreases |lines|
  {
    if lines == [] then Some([])
    else if !IsOldHeader(lines[0]) then Files(lines[1..])
    else if |lines| < 2 || !IsNewHeader(lines[1]) then None
    else
      match FileEntry(HeaderPathOf(lines[0]), HeaderPathOf(lines[1]))
      case None => None
      case Some(file) =>
        Prefixed([file], Files(lines[2..]))
  }

  function FileEntry(oldPath: HeaderPath, newPath: HeaderPath): Option<PatchFile> {
    match (oldPath, newPath)
    case (NoPath, Path(p)) => Some(PatchFile(p, Create))
    case (Path(p), NoPath) => Some(PatchFile(p, Delete))
    case (Path(p), Path(q)) => if p == q then Some(PatchFile(p, Modify)) else None
    case _ => None
  }

  /** Renames, copies, symlinks and submodules are refused wherever they are announced. */
  predicate RefusedLine(line: string) {
    IsRename(Chomp(line)) || IsUnsafeMode(Chomp(line))
  }

  predicate AnyRefused(lines: seq<string>) {
    exists i :: 0 <= i < |lines| && RefusedLine(lines[i])
  }

  predicate IsHunkLine(line: string) {
    "@@ " <= Chomp(line)
  }

  predicate AnyHunkLine(lines: seq<string>) {
    exists i :: 0 <= i < |lines| && IsHunkLine(lines[i])
  }

  predicate Distinct(files: seq<PatchFile>) {
    forall i, j :: 0 <= i < j < |files| ==> files[i].path != files[j].path
  }

  /** `parse_unified_diff` on a patch. */
  function ParsedFiles(patch: string): Option<seq<PatchFile>> {
    var lines := SplitLines(patch);
    if IsBinary(patch) || AnyRefused(lines) then None
    else
      match Files(lines)
      case None => None
      case Some(files) =>
        if files == [] || !Distinct(files) || !AnyHunkLine(lines) then None else Some(files)
  }

  predicate Reviewable(patch: string) {
    && ParsedFiles(patch).Some?
    && |ParsedFiles(patch).value| == 1
    && ParsedFiles(patch).value[0].change == Modify
    && HasHunk(SplitLines(patch))
  }

  /** The meaning of applying a patch to a text; none stands for PatchError. */
  function Applied(original: string, patch: string): Option<string> {
    if !Reviewable(patch) then None
    else
      match Outcome(SplitLines(original), 0, SplitLines(patch))
      case None => None
      case Some(lines) => Some(Join(lines))
  }

  /** The same for the patch read backwards, as `git apply --reverse` reads it. */
  function AppliedBackwards(updated: string, patch: string): Option<string> {
    if !Reviewable(patch) || Hunks(SplitLines(patch)).None? then None
    else
      match Land(SplitLines(updated), 0, Some(AllSwapped(Hunks(SplitLines(patch)).value)))
      case None => None
      case Some(lines) => Some(Join(lines))
  }

  // ----- the one-pass parser and applier -----

  method DiffPayload(lines: seq<string>, index: nat) returns (payload: string, next: nat)
    requires index < |lines| && lines[index] != ""
    ensures (payload, next - index) == Payload(lines[index..])
    ensures index < next <= |lines|
  {
    payload := lines[index][1..];
    next := index + 1;
    if next < |lines| && MARKER <= lines[next] {
      if |payload| >= 2 && payload[|payload| - 2..] == "\r\n" {
        payload := payload[..|payload| - 2];
      } else if payload != "" && payload[|payload| - 1] in {'\n', '\r'} {
        payload := payload[..|payload| - 1];
      }
      next := next + 1;
    }
  }

  method HasRefusedLine(lines: seq<string>) returns (refused: bool)
    ensures refused == AnyRefused(lines)
  {
    for i := 0 to |lines|
      invariant forall k :: 0 <= k < i ==> !RefusedLine(lines[k])
    {
      if RefusedLine(lines[i]) {
        return true;
      }
    }
    refused := false;
  }

  method CollectFiles(lines: seq<string>) returns (r: Option<seq<PatchFile>>)
    ensures r == Files(lines)
  {
    var parsed: seq<PatchFile> := [];
    var index := 0;
    assert lines[index..] == lines;
    PrefixedByNothing(Files(lines));
    while index < |lines|
      invariant index <= |lines|
      invariant Files(lines) == Prefixed(parsed, Files(lines[index..]))
    {
      ghost var rest := lines[index..];
      if !IsOldHeader(lines[index]) {
        index := index + 1;
        assert rest[1..] == lines[index..];
        continue;
      }
      if index + 1 >= |lines| || !IsNewHeader(lines[index + 1]) {
        assert index + 1 < |lines| ==> rest[1] == lines[index + 1];
        return None;
      }
      var entry := FileEntry(HeaderPathOf(lines[index]), HeaderPathOf(lines[index + 1]));
      if entry.None? {
        return None;
      }
      index := index + 2;
      assert rest[2..] == lines[index..];
      PrefixedTwice(parsed, [entry.value], Files(lines[index..]));
      parsed := parsed + [entry.value];
    }
    assert lines[index..] == [];
    assert parsed + [] == parsed;
    r := Some(parsed);
  }

  method ParseUnifiedDiff(patch: string) returns (r: Option<seq<PatchFile>>)
    ensures r == ParsedFiles(patch)
  {
    var lines := SplitLines(patch);
    var refused := HasRefusedLine(lines);
    if IsBinary(patch) || refused {
      return None;
    }
    var parsed := CollectFiles(lines);
    if parsed.None? || parsed.value == [] || !Distinct(parsed.value) || !AnyHunkLine(lines) {
      return None;
    }
    r := parsed;
  }

  /** A patch whose first hunk expects a line the source does not hold there is refused. */
  lemma MismatchRefuses(source: seq<string>, cursor: nat, lines: seq<string>, header: Header, before: seq<string>,
                        k: nat)
    requires cursor <= |source| && lines != [] && ParseHeader(lines[0]) == Some(header)
    requires before == Body(lines[1..]).before && k < |before|
    requires Target(header) + k >= |source| || source[Target(header) + k] != before[k]
    ensures Outcome(source, cursor, lines).None?
  {
    hide ParseHeader, Body, Patched;
    var target := Target(header);
    if target + |before| <= |source| {
      assert source[target..target + |before|][k] == source[target + k];
    }
  }

  /** A hunk that fits lands, and the rest of the hunks land after it. */
  lemma LandStep(source: seq<string>, cursor: nat, hunk: Hunk, more: Option<seq<Hunk>>)
    requires cursor <= hunk.target && hunk.target + |hunk.before| <= |source|
    requires source[hunk.target..hunk.target + |hunk.before|] == hunk.before
    ensures Land(source, cursor, Prefixed([hunk], more)) ==
            Prefixed(source[cursor..hunk.target] + hunk.after, Land(source, hunk.target + |hunk.before|, more))
  {
    if more.Some? {
      assert ([hunk] + more.value)[1..] == more.value;
    }
  }

  /** A hunk that holds other numbers of lines than it declares is refused. */
  lemma CountsRefuse(source: seq<string>, cursor: nat, lines: seq<string>, header: Header, body: BodyText)
    requires cursor <= |source| && lines != [] && ParseHeader(lines[0]) == Some(header) && body == Body(lines[1..])
    requires |body.before| != header.oldCount || |body.after| != header.newCount
    ensures Outcome(source, cursor, lines).None?
  {
    hide ParseHeader, Body, Patched, Fits;
  }

  /** A hunk that matches the source lands, and the rest of the patch applies after it. */
  lemma HunkLands(source: seq<string>, cursor: nat, lines: seq<string>, header: Header, body: BodyText)
    requires cursor <= |source| && lines != [] && ParseHeader(lines[0]) == Some(header) && body == Body(lines[1..])
    requires |body.before| == header.oldCount && |body.after| == header.newCount
    requires cursor <= Target(header) && Target(header) + |body.before| <= |source|
    requires source[Target(header)..Target(header) + |body.before|] == body.before
    ensures Outcome(source, cursor, lines) ==
            Prefixed(source[cursor..Target(header)] + body.after,
                     Outcome(source, Target(header) + |body.before|, lines[1 + body.used..]))
  {
    hide ParseHeader, Body, Patched, Fits, Land;
    LandStep(source, cursor, Hunk(Target(header), body.before, body.after, Place(header)),
             Hunks(lines[1 + body.used..]));
  }

  /** A body read after `used` patch lines that already gave some lines on each side. */
  function After(before: seq<string>, after: seq<string>, used: nat, rest: BodyText): BodyText {
    BodyText(before + rest.before, after + rest.after, used + rest.used)
  }

  /** The source lines a content line with this payload stands for. */
  function OldPart(line: string, payload: string): seq<string>
    requires line != ""
  {
    if line[0] == '+' then [] else [payload]
  }

  function NewPart(line: string, payload: string): seq<string>
    requires line != ""
  {
    if line[0] == '-' then [] else [payload]
  }

  /** One more content line of the body read. */
  lemma BodyContent(before: seq<string>, after: seq<string>, used: nat, lines: seq<string>)
    requires lines != [] && ParseHeader(lines[0]).None? && !IsFileHeader(lines[0]) && IsContent(lines[0])
    ensures
      var (payload, n) := Payload(lines);
      After(before, after, used, Body(lines)) ==
        After(before + OldPart(lines[0], payload), after + NewPart(lines[0], payload), used + n, Body(lines[n..]))
  {
    hide ParseHeader, IsFileHeader, Payload;
    var (payload, n) := Payload(lines);
    var rest := Body(lines[n..]);
    var line := lines[0];
    assert Body(lines) == BodyText(OldPart(line, payload) + rest.before, NewPart(line, payload) + rest.after,
                                   n + rest.used);
    assert before + (OldPart(line, payload) + rest.before) == (before + OldPart(line, payload)) + rest.before;
    assert after + (NewPart(line, payload) + rest.after) == (after + NewPart(line, payload)) + rest.after;
  }

  /** One more line of the body that is no content. */
  lemma BodySkip(before: seq<string>, after: seq<string>, used: nat, lines: seq<string>)
    requires lines != [] && ParseHeader(lines[0]).None? && !IsFileHeader(lines[0]) && !IsContent(lines[0])
    ensures After(before, after, used, Body(lines)) == After(before, after, used + 1, Body(lines[1..]))
  {
    hide ParseHeader, IsFileHeader, IsContent;
  }

  lemma BodyEnd(before: seq<string>, after: seq<string>, used: nat, lines: seq<string>)
    requires lines == [] || ParseHeader(lines[0]).Some? || IsFileHeader(lines[0])
    ensures After(before, after, used, Body(lines)) == BodyText(before, after, used)
  {
    hide ParseHeader, IsFileHeader;
    assert before + [] == before && after + [] == after;
  }

  /**
   One hunk's body: the lines it leaves, or a refusal when it does not match the source or
   its counts.
   */
  method ApplyHunk(source: seq<string>, start: nat, lines: seq<string>, begin: nat, header: Header)
    returns (ok: bool, output: seq<string>, cursor: nat, index: nat)
    requires begin < |lines| && ParseHeader(lines[begin]) == Some(header)
    requires start <= Target(header) <= |source|
    ensures ok ==> begin < index <= |lines| && cursor <= |source|
    ensures ok ==> Outcome(source, start, lines[begin..]) ==
                   Prefixed(source[start..Target(header)] + output, Outcome(source, cursor, lines[index..]))
    ensures !ok ==> Outcome(source, start, lines[begin..]).None?
  {
    hide ParseHeader, IsFileHeader, Payload, Body, Outcome, Prefixed, Target, After;
    ghost var rest := lines[begin..];
    var target := Target(header);
    output := [];
    cursor := target;
    var consumed, produced := 0, 0;
    index := begin + 1;
    assert rest[1..] == lines[index..] && rest[0] == lines[begin];
    FromEmpty(Body(rest[1..]));
    assert source[target..cursor] == [];
    while index < |lines| && ParseHeader(lines[index]).None?
      invariant begin < index <= |lines| && target <= cursor <= |source|
      invariant Body(rest[1..]) == After(source[target..cursor], output, index - begin - 1, Body(lines[index..]))
      invariant cursor == target + consumed && |output| == produced
    {
      ghost var here := lines[index..];
      ghost var used := index - begin - 1;
      ghost var before := source[target..cursor];
      var line := lines[index];
      if IsFileHeader(line) {
        break;
      }
      if !IsContent(line) {
        BodySkip(before, output, used, here);
        index := index + 1;
        assert here[1..] == lines[index..];
        continue;
      }
      BodyContent(before, output, used, here);
      var payload, next := DiffPayload(lines, index);
      assert here[next - index..] == lines[next..];
      index := next;
      if line[0] != '+' {
        if cursor >= |source| || source[cursor] != payload {
          BeforeOf(before + [payload], output, index - begin - 1, NewPart(line, payload), Body(lines[index..]));
          MismatchInBody(source, start, rest, header, before, payload, Body(lines[index..]).before);
          return false, [], cursor, index;
        }
        assert source[target..cursor + 1] == before + [payload];
        cursor := cursor + 1;
        consumed := consumed + 1;
      } else {
        assert before + OldPart(line, payload) == before;
      }
      if line[0] != '-' {
        output := output + [payload];
        produced := produced + 1;
      } else {
        assert output + NewPart(line, payload) == output;
      }
    }
    ghost var body := BodyText(source[target..cursor], output, index - begin - 1);
    BodyEnd(body.before, body.after, body.used, lines[index..]);
    if consumed != header.oldCount || produced != header.newCount {
      CountsRefuse(source, start, rest, header, body);
      return false, [], cursor, index;
    }
    assert rest[index - begin..] == lines[index..];
    HunkLands(source, start, rest, header, body);
    ok := true;
  }

  lemma FromEmpty(b: BodyText)
    ensures After([], [], 0, b) == b
  {
    assert [] + b.before == b.before && [] + b.after == b.after;
  }

  lemma BeforeOf(before: seq<string>, after: seq<string>, used: nat, more: seq<string>, rest: BodyText)
    ensures After(before, after + more, used, rest).before == before + rest.before
  {
  }

  /** The same refusal, with the body split where the expected line differs from the source. */
  lemma MismatchInBody(source: seq<string>, cursor: nat, lines: seq<string>, header: Header, before: seq<string>,
                       payload: string, more: seq<string>)
    requires cursor <= |source| && lines != [] && ParseHeader(lines[0]) == Some(header)
    requires Body(lines[1..]).before == before + [payload] + more
    requires Target(header) + |before| >= |source| || source[Target(header) + |before|] != payload
    ensures Outcome(source, cursor, lines).None?
  {
    hide ParseHeader, Body, Outcome;
    MismatchRefuses(source, cursor, lines, header, before + [payload] + more, |before|);
  }

  method ApplyUnifiedDiffToText(original: string, patch: string) returns (r: Option<string>)
    ensures r == Applied(original, patch)
  {
    hide ParseHeader, Body, ParsedFiles;
    var parsed := ParseUnifiedDiff(patch);
    if parsed.None? || |parsed.value| != 1 || parsed.value[0].change != Modify {
      return None;
    }
    var source := SplitLines(original);
    var output: seq<string> := [];
    var cursor: nat := 0;
    var lines := SplitLines(patch);
    var index := 0;
    var sawHunk := false;
    assert lines[index..] == lines;
    PrefixedByNothing(Outcome(source, 0, lines));
    while index < |lines|
      invariant index <= |lines| && cursor <= |source|
      invariant sawHunk || forall i :: 0 <= i < index ==> ParseHeader(lines[i]).None?
      invariant sawHunk ==> HasHunk(lines)
      invariant Outcome(source, 0, lines) == Prefixed(output, Outcome(source, cursor, lines[index..]))
    {
      ghost var rest := lines[index..];
      var header := ParseHeader(lines[index]);
      if header.None? {
        index := index + 1;
        assert rest[1..] == lines[index..];
      } else {
        sawHunk := true;
        var target := Target(header.value);
        if target < cursor || target > |source| {
          return None;
        }
        var ok, lines', cursor', index' := ApplyHunk(source, cursor, lines, index, header.value);
        if !ok {
          return None;
        }
        PrefixedTwice(output, source[cursor..target] + lines', Outcome(source, cursor', lines[index'..]));
        output := output + (source[cursor..target] + lines');
        cursor, index := cursor', index';
      }
    }
    if !sawHunk {
      return None;
    }
    assert lines[index..] == [];
    r := Some(Join(output + source[cursor..]));
  }

  // ----- what an accepted patch does to a text -----

  /** The headers whose hunks `Hunks` reads, with their declared counts. */
  function Declared(lines: seq<string>): seq<Header>
    decreases |lines|
  {
    if lines == [] then []
    else if ParseHeader(lines[0]).None? then Declared(lines[1..])
    else [ParseHeader(lines[0]).value] + Declared(lines[1 + Body(lines[1..]).used..])
  }

  function DeclaredChange(headers: seq<Header>): int {
    if headers == [] then 0 else headers[0].newCount - headers[0].oldCount + DeclaredChange(headers[1..])
  }

  predicate AsDeclared(h: Hunk, header: Header) {
    && h.target == Target(header) && |h.before| == header.oldCount
    && h.place == Place(header) && |h.after| == header.newCount
  }

  /** Each hunk read replaces exactly the range its header declares. */
  lemma {:induction false} HunksAsDeclared(lines: seq<string>)
    requires Hunks(lines).Some?
    ensures
      var hunks, headers := Hunks(lines).value, Declared(lines);
      |hunks| == |headers| && forall k :: 0 <= k < |hunks| ==> AsDeclared(hunks[k], headers[k])
    decreases |lines|
  {
    hide ParseHeader, Body, AsDeclared;
    if lines != [] {
      if ParseHeader(lines[0]).None? {
        HunksAsDeclared(lines[1..]);
      } else {
        var rest := lines[1 + Body(lines[1..]).used..];
        HunksAsDeclared(rest);
        FirstAsDeclared(lines);
      }
    }
  }

  lemma FirstAsDeclared(lines: seq<string>)
    requires lines != [] && ParseHeader(lines[0]).Some? && Hunks(lines).Some?
    ensures
      var rest := lines[1 + Body(lines[1..]).used..];
      && Hunks(rest).Some? && |Hunks(lines).value| == 1 + |Hunks(rest).value|
      && Hunks(lines).value[1..] == Hunks(rest).value
      && AsDeclared(Hunks(lines).value[0], ParseHeader(lines[0]).value)
  {
    hide ParseHeader, Body;
  }

  /** The change in the number of lines is the sum of what the hunks add and take. */
  lemma {:induction false} PatchedLength(source: seq<string>, cursor: nat, hunks: seq<Hunk>, headers: seq<Header>)
    requires cursor <= |source| && Fits(source, cursor, hunks) && |hunks| == |headers|
    requires forall k :: 0 <= k < |hunks| ==> AsDeclared(hunks[k], headers[k])
    ensures |Patched(source, cursor, hunks)| == |source| - cursor + DeclaredChange(headers)
    decreases |hunks|
  {
    hide Fits, Patched, Target;
    if hunks == [] {
      PatchedNothing(source, cursor);
    } else {
      PatchedStep(source, cursor, hunks);
      assert AsDeclared(hunks[0], headers[0]);
      assert forall k :: 0 <= k < |hunks[1..]| ==> hunks[1..][k] == hunks[1 + k] && headers[1..][k] == headers[1 + k];
      PatchedLength(source, hunks[0].target + |hunks[0].before|, hunks[1..], headers[1..]);
    }
  }

  lemma PatchedNothing(source: seq<string>, cursor: nat)
    requires cursor <= |source|
    ensures Fits(source, cursor, []) && Patched(source, cursor, []) == source[cursor..]
  {
  }

  predicate Ordered(hunks: seq<Hunk>, cursor: nat)
    decreases |hunks|
  {
    hunks == [] || (cursor <= hunks[0].target && Ordered(hunks[1..], hunks[0].target + |hunks[0].before|))
  }

  lemma {:induction false} FitsOrdered(source: seq<string>, cursor: nat, hunks: seq<Hunk>)
    requires Fits(source, cursor, hunks)
    ensures Ordered(hunks, cursor)
    decreases |hunks|
  {
    if hunks != [] {
      FitsOrdered(source, hunks[0].target + |hunks[0].before|, hunks[1..]);
    }
  }

  /** The hunks read backwards: each takes out what it put in, where that now stands. */
  function Undone(hunks: seq<Hunk>, cursor: nat, at: nat): seq<Hunk>
    requires Ordered(hunks, cursor)
    decreases |hunks|
  {
    if hunks == [] then []
    else
      var here := at + (hunks[0].target - cursor);
      [Hunk(here, hunks[0].after, hunks[0].before, hunks[0].target)]
      + Undone(hunks[1..], hunks[0].target + |hunks[0].before|, here + |hunks[0].after|)
  }

  lemma PatchedStep(source: seq<string>, cursor: nat, hunks: seq<Hunk>)
    requires cursor <= |source| && Fits(source, cursor, hunks) && hunks != []
    ensures
      var h, next := hunks[0], hunks[0].target + |hunks[0].before|;
      && cursor <= h.target && next <= |source| && Fits(source, next, hunks[1..])
      && Patched(source, cursor, hunks) == source[cursor..h.target] + h.after + Patched(source, next, hunks[1..])
      && source[cursor..] == source[cursor..h.target] + h.before + source[next..]
  {
    assert source[cursor..] == source[cursor..hunks[0].target] + source[hunks[0].target..];
  }

  lemma UndoPlace(front: seq<string>, gap: seq<string>, after: seq<string>, tail: seq<string>)
    ensures
      var out, here := front + (gap + after + tail), |front| + |gap|;
      out == front + gap + after + tail && out[|front|..here] == gap && out[here..here + |after|] == after
  {
  }

  lemma NothingToUndo(source: seq<string>, cursor: nat, front: seq<string>)
    requires cursor <= |source|
    ensures Fits(source, cursor, [])
    ensures Land(front + Patched(source, cursor, []), |front|, Some([])) == Some(source[cursor..])
  {
    assert (front + source[cursor..])[|front|..] == source[cursor..];
  }

  /** Hunks that fit can be undone: the result still holds all that is needed to restore the source. */
  lemma {:induction false} UndoRestores(source: seq<string>, cursor: nat, hunks: seq<Hunk>, front: seq<string>)
    requires cursor <= |source| && Fits(source, cursor, hunks) && Ordered(hunks, cursor)
    ensures Land(front + Patched(source, cursor, hunks), |front|, Some(Undone(hunks, cursor, |front|))) ==
      Some(source[cursor..])
    decreases |hunks|
  {
    hide Land, Fits, Patched;
    if hunks == [] {
      NothingToUndo(source, cursor, front);
    } else {
      var h := hunks[0];
      PatchedStep(source, cursor, hunks);
      var next := h.target + |h.before|;
      var gap := source[cursor..h.target];
      var tail := Patched(source, next, hunks[1..]);
      var here := |front| + |gap|;
      var out := front + (gap + h.after + tail);
      var more := Undone(hunks[1..], next, here + |h.after|);
      UndoPlace(front, gap, h.after, tail);
      UndoRestores(source, next, hunks[1..], front + gap + h.after);
      LandStep(out, |front|, Hunk(here, h.after, h.before, h.target), Some(more));
      assert Undone(hunks, cursor, |front|) == [Hunk(here, h.after, h.before, h.target)] + more;
    }
  }

  /**
   An accepted patch: the result is the source with only the declared ranges replaced, every
   line taken out matched the source, the number of lines changes by the declared amount,
   and the same hunks undone give the source back.
   */
  lemma AcceptedPatch(original: string, patch: string)
    requires Applied(original, patch).Some?
    ensures
      var source, lines := SplitLines(original), SplitLines(patch);
      && Hunks(lines).Some? && Fits(source, 0, Hunks(lines).value)
      && var hunks, headers := Hunks(lines).value, Declared(lines);
      var result := Patched(source, 0, hunks);
      && Applied(original, patch) == Some(Join(result))
      && |hunks| == |headers|
      && (forall k :: 0 <= k < |hunks| ==>
            AsDeclared(hunks[k], headers[k]))
      && |result| == |source| + DeclaredChange(headers)
      && Ordered(hunks, 0) && Land(result, 0, Some(Undone(hunks, 0, 0))) == Some(source)
  {
    hide SplitLines, Reviewable, Hunks, Declared, Fits, Patched;
    var source, lines := SplitLines(original), SplitLines(patch);
    var hunks := Hunks(lines).value;
    HunksAsDeclared(lines);
    PatchedLength(source, 0, hunks, Declared(lines));
    FitsOrdered(source, 0, hunks);
    UndoRestores(source, 0, hunks, []);
    assert [] + Patched(source, 0, hunks) == Patched(source, 0, hunks);
    assert source[0..] == source;
  }
}
