/** Which files an accepted patch may name, and which names a built patch keeps. */
module PatchNames {
  import opened Common
  import opened Lines
  import opened Patch
  import opened PatchRoundTrip

  /** Normal components: not empty, not `.`, without a slash. */
  predicate Clean(parts: seq<string>) {
    forall i :: 0 <= i < |parts| ==> parts[i] != "" && parts[i] != "." && '/' !in parts[i]
  }

  /** The components of a text are normal, and hold no character that the text does not hold. */
  lemma {:induction false} PartsAreClean(s: string, current: string, c: char)
    requires '/' !in current
    ensures Clean(Parts(s, current))
    ensures c !in s && c !in current ==> forall i :: 0 <= i < |Parts(s, current)| ==> c !in Parts(s, current)[i]
    decreases |s|
  {
    if s != "" {
      if s[0] == '/' {
        PartsAreClean(s[1..], "", c);
      } else {
        PartsAreClean(s[1..], current + [s[0]], c);
      }
    }
  }

  /** A text without a slash goes into the current component. */
  lemma {:induction false} PartsOfName(name: string, rest: string, current: string)
    requires '/' !in name
    ensures Parts(name + rest, current) == Parts(rest, current + name)
    decreases |name|
  {
    if name == "" {
      assert name + rest == rest && current + name == current;
    } else {
      assert (name + rest)[1..] == name[1..] + rest;
      assert current + [name[0]] + name[1..] == current + name;
      PartsOfName(name[1..], rest, current + [name[0]]);
    }
  }

  /** Joining normal components and taking them apart again gives them back. */
  lemma {:induction false} PartsOfJoined(parts: seq<string>)
    requires Clean(parts)
    ensures Parts(JoinPath(parts), "") == parts
    decreases |parts|
  {
    if parts != [] {
      var rest := if |parts| == 1 then "" else "/" + JoinPath(parts[1..]);
      assert JoinPath(parts) == parts[0] + rest by {
        assert |parts| == 1 ==> parts[0] + "" == parts[0];
        assert |parts| > 1 ==> parts[0] + "/" + JoinPath(parts[1..]) == parts[0] + ("/" + JoinPath(parts[1..]));
      }
      PartsOfName(parts[0], rest, "");
      assert "" + parts[0] == parts[0];
      assert Component(parts[0]) == [parts[0]];
      if |parts| > 1 {
        assert rest[1..] == JoinPath(parts[1..]);
        PartsOfJoined(parts[1..]);
        assert parts == [parts[0]] + parts[1..];
      }
    }
  }

  lemma {:induction false} JoinedChars(parts: seq<string>, c: char)
    requires Clean(parts) && c != '/'
    ensures parts != [] ==> JoinPath(parts) != "" && JoinPath(parts)[0] != '/'
    ensures (forall i :: 0 <= i < |parts| ==> c !in parts[i]) ==> c !in JoinPath(parts)
    decreases |parts|
  {
    if |parts| > 1 {
      JoinedChars(parts[1..], c);
      assert forall i :: 0 <= i < |parts[1..]| ==> parts[1..][i] == parts[i + 1];
      assert JoinPath(parts)[0] == parts[0][0];
    } else if |parts| == 1 {
      assert parts[0][0] in parts[0];
    }
  }

  /** A relative path in normal form that stays in the workspace, outside `.git` and the verifier's configuration. */
  predicate SafeName(p: string) {
    && p != "" && p[0] != '/' && '\\' !in p
    && JoinPath(Parts(p, "")) == p && ".." !in Parts(p, "")
    && Parts(p, "") != [] && Parts(p, "")[0] != ".git" && p != ".cyan/config.toml"
  }

  lemma SafePathIsSafe(value: string)
    requires '\\' !in value && SafePath(value).Path?
    ensures SafeName(SafePath(value).value) && ('\t' !in value ==> '\t' !in SafePath(value).value)
  {
    var parts := Parts(value, "");
    PartsAreClean(value, "", '\\');
    PartsAreClean(value, "", '\t');
    PartsOfJoined(parts);
    JoinedChars(parts, '\\');
    JoinedChars(parts, '\t');
  }

  lemma NormalizedIsSafe(raw: string)
    requires NormalizeHeaderPath(raw).Path?
    ensures SafeName(NormalizeHeaderPath(raw).value) && '\t' !in NormalizeHeaderPath(raw).value
  {
    hide SafeName, SafePath;
    var value := BeforeTab(raw);
    TabLess(raw);
    if "a/" <= value || "b/" <= value {
      SafePathIsSafe(value[2..]);
    } else {
      SafePathIsSafe(value);
    }
  }

  lemma {:induction false} FilesAreSafe(lines: seq<string>)
    requires Files(lines).Some?
    ensures forall i :: 0 <= i < |Files(lines).value| ==> SafeName(Files(lines).value[i].path)
    decreases |lines|
  {
    hide SafeName, NormalizeHeaderPath, Chomp;
    if lines != [] {
      if !IsOldHeader(lines[0]) {
        FilesAreSafe(lines[1..]);
      } else {
        FilesAreSafe(lines[2..]);
        HeaderIsSafe(lines[0]);
        HeaderIsSafe(lines[1]);
      }
    }
  }

  lemma HeaderIsSafe(line: string)
    requires IsFileHeader(line)
    ensures HeaderPathOf(line).Path? ==> SafeName(HeaderPathOf(line).value)
  {
    hide SafeName, NormalizeHeaderPath;
    assert !IsBreak(line[3]);
    if HeaderPathOf(line).Path? {
      NormalizedIsSafe(Chomp(line)[4..]);
    }
  }

  /** Every file that an accepted patch names is safe, and none is named twice. */
  lemma AcceptedNamesAreSafe(patch: string)
    requires ParsedFiles(patch).Some?
    ensures
      var files := ParsedFiles(patch).value;
      && files != []
      && (forall i :: 0 <= i < |files| ==> SafeName(files[i].path))
      && (forall i, j :: 0 <= i < j < |files| ==> files[i].path != files[j].path)
  {
    hide SplitLines, IsBinary, SafeName, AnyRefused, AnyHunkLine;
    FilesAreSafe(SplitLines(patch));
  }

  lemma SafeNameIsKept(path: string)
    requires SafeName(path) && '\t' !in path
    ensures HeaderName(path) == Path(path)
  {
    var value := "a/" + path;
    TabLess(value);
    assert value[2..] == path && value[0] == 'a' && value[1] == '/';
    assert "a/" <= value && !("\"" <= value) && '\\' !in value;
    assert "/dev/null"[0] == '/';
  }

  /** A built patch names its file as it is exactly when that is a safe name without a tab. */
  lemma BuiltNameIsKept(path: string)
    ensures HeaderName(path) == Path(path) <==> SafeName(path) && '\t' !in path
  {
    hide SafeName, NormalizeHeaderPath;
    if HeaderName(path) == Path(path) {
      NormalizedIsSafe("a/" + path);
    }
    if SafeName(path) && '\t' !in path {
      SafeNameIsKept(path);
    }
  }

  lemma {:induction false} TabLess(s: string)
    ensures BeforeTab(s) == s <==> '\t' !in s
    ensures '\t' !in BeforeTab(s) && BeforeTab(s) <= s
  {
    if s != "" && s[0] != '\t' {
      TabLess(s[1..]);
      assert s == [s[0]] + s[1..];
    }
  }

  // ----- what is refused -----

  /** An old name is followed by a new one; both are safe or one is `/dev/null`, and two names are the same. */
  predicate PairedAt(lines: seq<string>, i: nat)
    requires i < |lines| && IsOldHeader(lines[i])
  {
    && i + 1 < |lines| && IsNewHeader(lines[i + 1])
    && var (before, after) := (HeaderPathOf(lines[i]), HeaderPathOf(lines[i + 1]));
       && !before.Unsafe? && !after.Unsafe? && (before.Path? || after.Path?)
       && (before.Path? && after.Path? ==> before == after)
  }

  /** The file sections are read exactly when every old name in the patch is paired so. */
  lemma {:induction false} SectionsArePaired(lines: seq<string>)
    ensures Files(lines).Some? <==> forall i :: 0 <= i < |lines| && IsOldHeader(lines[i]) ==> PairedAt(lines, i)
    decreases |lines|
  {
    hide HeaderPathOf, IsOldHeader, IsNewHeader;
    if lines != [] {
      var n := if !IsOldHeader(lines[0]) || |lines| < 2 then 1 else 2;
      var rest := lines[n..];
      SectionsArePaired(rest);
      assert forall i :: 0 <= i < |rest| ==> rest[i] == lines[i + n];
      assert forall i :: 0 <= i < |rest| && IsOldHeader(rest[i]) ==> (PairedAt(rest, i) <==> PairedAt(lines, i + n));
      if |lines| >= 2 && IsNewHeader(lines[1]) {
        NewIsNotOld(lines[1]);
      }
      assert forall i :: n <= i < |lines| ==> lines[i] == rest[i - n];
    }
  }

  lemma NewIsNotOld(line: string)
    ensures !(IsNewHeader(line) && IsOldHeader(line))
  {
    assert "--- "[0] == '-' && "+++ "[0] == '+';
  }

  /** An accepted patch holds no binary data, and no line that announces a rename, a copy, a link or a submodule. */
  lemma AcceptedIsPlain(patch: string, i: nat)
    requires ParsedFiles(patch).Some? && i < |SplitLines(patch)|
    ensures '\0' !in patch && !Contains(patch, "GIT binary patch") && !Contains(patch, "Binary files ")
    ensures
      var line := Chomp(SplitLines(patch)[i]);
      && !("rename from " <= line) && !("rename to " <= line) && !("copy from " <= line) && !("copy to " <= line)
      && forall mode :: mode in ["120000", "160000"] ==>
           && line != "new file mode " + mode && line != "deleted file mode " + mode
           && line != "old mode " + mode && line != "new mode " + mode
           && !("index " <= line && LastWord(line) == mode)
  {
    hide SplitLines, Contains, Files, AnyHunkLine;
    assert !RefusedLine(SplitLines(patch)[i]);
    var line := Chomp(SplitLines(patch)[i]);
    forall mode | mode in ["120000", "160000"]
      ensures
        && line != "new file mode " + mode && line != "deleted file mode " + mode
        && line != "old mode " + mode && line != "new mode " + mode
    {
      Stripped("new file mode ", mode);
      Stripped("deleted file mode ", mode);
      Stripped("old mode ", mode);
      Stripped("new mode ", mode);
    }
  }

  lemma Stripped(prefix: string, s: string)
    ensures WithoutPrefix(prefix, prefix + s) == s
  {
    assert (prefix + s)[|prefix|..] == s;
  }
}
