/**
 Python's `str.splitlines(keepends=True)` and the conditions under which joining a list
 of lines and splitting the text again gives the same list back.
 */
module Lines {

  /** The single characters at which `str.splitlines` ends a line. */
  predicate IsBreak(c: char) {
    c in {'\n', '\r', '\U{0B}', '\U{0C}', '\U{1C}', '\U{1D}', '\U{1E}', '\U{85}', '\U{2028}', '\U{2029}'}
  }

  /** Length of the first line of a nonempty text, its line break included. */
  function FirstLen(s: string): (k: nat)
    requires s != ""
    ensures 1 <= k <= |s|
  {
    if IsBreak(s[0]) then
      if s[0] == '\r' && |s| > 1 && s[1] == '\n' then 2 else 1
    else if |s| == 1 then 1
    else 1 + FirstLen(s[1..])
  }

  function SplitLines(s: string): (ls: seq<string>) {
    if s == "" then [] else [s[..FirstLen(s)]] + SplitLines(s[FirstLen(s)..])
  }

  function Join(ls: seq<string>): string {
    if ls == [] then "" else ls[0] + Join(ls[1..])
  }

  /** One line as `splitlines` yields it: no break before its end. */
  predicate IsLine(l: string) {
    l != "" && FirstLen(l) == |l|
  }

  /** A line that ends in a line break, so that text after it starts a new line. */
  predicate Terminated(l: string) {
    IsLine(l) && IsBreak(l[|l| - 1])
  }

  /** Text after a carriage return must not begin with the line feed that would join it. */
  predicate Separate(l: string, rest: string) {
    !(l != "" && l[|l| - 1] == '\r' && rest != "" && rest[0] == '\n')
  }

  /** Every line is terminated and none runs into the text that follows it. */
  predicate Closed(ls: seq<string>, rest: string) {
    ls == [] || (Terminated(ls[0]) && Separate(ls[0], Join(ls[1..]) + rest) && Closed(ls[1..], rest))
  }

  /** The line without its break, as `splitlines()` without keepends gives it. */
  function Chomp(l: string): (r: string)
    ensures |r| <= |l| && r == l[..|r|]
    ensures forall i :: |r| <= i < |l| ==> IsBreak(l[i])
  {
    if l == "" || !IsBreak(l[|l| - 1]) then l
    else if |l| >= 2 && l[|l| - 2..] == "\r\n" then l[..|l| - 2]
    else l[..|l| - 1]
  }

  lemma {:induction false} JoinSplit(s: string)
    ensures Join(SplitLines(s)) == s
  {
    if s != "" {
      var k := FirstLen(s);
      JoinSplit(s[k..]);
      assert SplitLines(s)[1..] == SplitLines(s[k..]);
      assert s == s[..k] + s[k..];
    }
  }

  lemma {:induction false} JoinAppend(ls: seq<string>, ms: seq<string>)
    ensures Join(ls + ms) == Join(ls) + Join(ms)
  {
    if ls == [] {
      assert ls + ms == ms;
    } else {
      assert (ls + ms)[1..] == ls[1..] + ms;
      JoinAppend(ls[1..], ms);
      assert Join(ls + ms) == ls[0] + (Join(ls[1..]) + Join(ms));
    }
  }

  lemma {:induction false} FirstLenPrefix(s: string)
    requires s != ""
    ensures IsLine(s[..FirstLen(s)])
  {
    if !IsBreak(s[0]) && |s| > 1 {
      FirstLenPrefix(s[1..]);
      var k := FirstLen(s);
      assert s[..k][1..] == s[1..][..k - 1];
    }
  }

  /** The first line of `l + rest` is `l` when `l` is terminated and stays separate. */
  lemma {:induction false} FirstLenAppend(l: string, rest: string)
    requires Terminated(l) && Separate(l, rest)
    ensures FirstLen(l + rest) == |l|
  {
    if !IsBreak(l[0]) {
      if |l| == 1 {
        assert false;
      }
      assert (l + rest)[1..] == l[1..] + rest;
      FirstLenAppend(l[1..], rest);
    }
  }

  /** A closed list of lines is recovered by splitting, whatever text follows. */
  lemma {:induction false} SplitAppend(ls: seq<string>, rest: string)
    requires Closed(ls, rest)
    ensures SplitLines(Join(ls) + rest) == ls + SplitLines(rest)
  {
    hide IsBreak, FirstLen, Terminated, Separate;
    if ls == [] {
      assert Join(ls) + rest == rest;
    } else {
      var l := ls[0];
      var more := Join(ls[1..]) + rest;
      assert Join(ls) + rest == l + more;
      FirstLenAppend(l, more);
      assert (l + more)[..|l|] == l;
      assert (l + more)[|l|..] == more;
      SplitAppend(ls[1..], rest);
      assert ls == [l] + ls[1..];
    }
  }

  /** What splitting gives: every line is one line, and all but the last are terminated. */
  lemma {:induction false} SplitShape(s: string)
    ensures forall i :: 0 <= i < |SplitLines(s)| ==> IsLine(SplitLines(s)[i])
    ensures forall i :: 0 <= i < |SplitLines(s)| - 1 ==> Terminated(SplitLines(s)[i])
  {
    if s != "" {
      var k := FirstLen(s);
      FirstLenPrefix(s);
      SplitShape(s[k..]);
      if k < |s| {
        FirstLenStops(s);
      }
    }
  }

  lemma {:induction false} FirstLenStops(s: string)
    requires s != "" && FirstLen(s) < |s|
    ensures IsBreak(s[FirstLen(s) - 1])
  {
    if !IsBreak(s[0]) {
      FirstLenStops(s[1..]);
    }
  }

  /** A line holds no break before its last character, except the CR of a final CR LF. */
  lemma {:induction false} LineInterior(l: string, i: nat)
    requires IsLine(l) && i < |l| - 1 && IsBreak(l[i])
    ensures i == |l| - 2 && l[i..] == "\r\n"
  {
    if IsBreak(l[0]) {
      assert l[0..] == l;
    } else {
      assert IsBreak(l[1..][i - 1]);
      LineInterior(l[1..], i - 1);
      assert l[i..] == l[1..][i - 1..];
    }
  }

  /** Putting a character that is no break in front of a line leaves it one line. */
  lemma PrefixedLine(c: char, l: string)
    requires !IsBreak(c) && IsLine(l)
    ensures IsLine([c] + l)
    ensures Terminated(l) <==> Terminated([c] + l)
  {
    assert ([c] + l)[1..] == l;
  }

  /** A text without breaks, closed by a line feed, is one terminated line. */
  lemma {:induction false} BreakFreeLine(body: string)
    requires forall i :: 0 <= i < |body| ==> !IsBreak(body[i])
    ensures Terminated(body + "\n")
  {
    if body == "" {
      assert body + "\n" == "\n";
    } else {
      BreakFreeLine(body[1..]);
      PrefixedLine(body[0], body[1..] + "\n");
      assert body + "\n" == [body[0]] + (body[1..] + "\n");
    }
  }

  /** The first line of a nonempty text begins as the text does. */
  lemma {:induction false} FirstLenAtLeast(s: string, n: nat)
    requires n <= |s| && s != "" && forall i :: 0 <= i < n ==> !IsBreak(s[i])
    ensures FirstLen(s) >= n
  {
    if n > 1 {
      FirstLenAtLeast(s[1..], n - 1);
    }
  }
}
