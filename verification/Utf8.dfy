/**
 Decoding with errors="replace": each maximal subpart of an ill-formed sequence becomes
 U+FFFD, as section 3.9 of the Unicode Standard recommends and Python does. Texts stand for
 their own UTF-8 encoding, so that their length is the encoded size.
 */
module Utf8 {

  type Byte = x: int | 0 <= x < 256

  /** U+FFFD in UTF-8. */
  const REPLACEMENT: seq<Byte> := [0xEF, 0xBF, 0xBD]

  /** How many bytes a sequence with this first byte has; 0 when none begins with it. */
  function Width(first: Byte): nat {
    if first < 0x80 then 1
    else if 0xC2 <= first <= 0xDF then 2
    else if 0xE0 <= first <= 0xEF then 3
    else if 0xF0 <= first <= 0xF4 then 4
    else 0
  }

  /** The second bytes that table 3-7 allows after a first byte. */
  predicate SecondFits(first: Byte, second: Byte) {
    if first == 0xE0 then 0xA0 <= second <= 0xBF
    else if first == 0xED then 0x80 <= second <= 0x9F
    else if first == 0xF0 then 0x90 <= second <= 0xBF
    else if first == 0xF4 then 0x80 <= second <= 0x8F
    else 0x80 <= second <= 0xBF
  }

  predicate Fits(bytes: seq<Byte>, i: nat)
    requires 0 < i < |bytes|
  {
    if i == 1 then SecondFits(bytes[0], bytes[1]) else 0x80 <= bytes[i] <= 0xBF
  }

  /** The longest beginning of a well-formed sequence, or the one byte that begins none. */
  function SubpartFrom(bytes: seq<Byte>, n: nat): (m: nat)
    requires 0 < n <= |bytes| && n <= Width(bytes[0])
    ensures n <= m <= |bytes| && m <= Width(bytes[0])
    decreases Width(bytes[0]) - n
  {
    if n < Width(bytes[0]) && n < |bytes| && Fits(bytes, n) then SubpartFrom(bytes, n + 1) else n
  }

  function Subpart(bytes: seq<Byte>): (m: nat)
    requires bytes != []
    ensures 0 < m <= |bytes| && m <= 4
  {
    if Width(bytes[0]) == 0 then 1 else SubpartFrom(bytes, 1)
  }

  /** The subpart is a whole well-formed sequence. */
  predicate BeginsWell(bytes: seq<Byte>)
    requires bytes != []
  {
    Subpart(bytes) == Width(bytes[0])
  }

  predicate WellFormed(bytes: seq<Byte>)
    decreases |bytes|
  {
    bytes == [] || (BeginsWell(bytes) && WellFormed(bytes[Subpart(bytes)..]))
  }

  /** `bytes.decode("utf-8", errors="replace")`, encoded again. */
  function Replaced(bytes: seq<Byte>): seq<Byte>
    decreases |bytes|
  {
    if bytes == [] then []
    else
      var n := Subpart(bytes);
      (if BeginsWell(bytes) then bytes[..n] else REPLACEMENT) + Replaced(bytes[n..])
  }

  /** An ill-formed subpart has at most three bytes, so replacing it never shrinks a text. */
  lemma {:induction false} ReplacingNeverShrinks(bytes: seq<Byte>)
    ensures |Replaced(bytes)| >= |bytes|
    decreases |bytes|
  {
    if bytes != [] {
      ReplacingNeverShrinks(bytes[Subpart(bytes)..]);
    }
  }

  /** Well-formed text is decoded as it is, and only well-formed text is. */
  lemma {:induction false} ReplacedUnchanged(bytes: seq<Byte>)
    ensures Replaced(bytes) == bytes <==> WellFormed(bytes)
    decreases |bytes|
  {
    if bytes != [] {
      var n := Subpart(bytes);
      var rest := bytes[n..];
      ReplacedUnchanged(rest);
      ReplacingNeverShrinks(rest);
      assert bytes == bytes[..n] + rest;
      if BeginsWell(bytes) {
        assert Replaced(bytes)[n..] == Replaced(rest);
      } else if n == 3 {
        IllFormedThree(bytes);
        assert Replaced(bytes)[..3] == REPLACEMENT;
      }
    }
  }

  /** Three ill-formed bytes begin a sequence of four, which U+FFFD does not. */
  lemma IllFormedThree(bytes: seq<Byte>)
    requires bytes != [] && !BeginsWell(bytes) && Subpart(bytes) == 3
    ensures bytes[0] >= 0xF0
  {
  }

  /** The first sequence of a text does not depend on what follows it. */
  lemma BeginsWellAlone(first: seq<Byte>, rest: seq<Byte>)
    requires first != [] && BeginsWell(first) && Subpart(first) == |first|
    ensures BeginsWell(first + rest) && Subpart(first + rest) == |first|
  {
    SubpartAlone(first, rest, 1);
  }

  lemma {:induction false} SubpartAlone(first: seq<Byte>, rest: seq<Byte>, n: nat)
    requires first != [] && 0 < n <= |first| && |first| == Width(first[0]) && SubpartFrom(first, n) == |first|
    ensures SubpartFrom(first + rest, n) == |first|
    decreases |first| - n
  {
    var all := first + rest;
    if n < |first| {
      assert Fits(first, n) == Fits(all, n);
      SubpartAlone(first, rest, n + 1);
    }
  }

  /** What has been decoded is well formed. */
  lemma {:induction false} ReplacedIsWellFormed(bytes: seq<Byte>)
    ensures WellFormed(Replaced(bytes))
    decreases |bytes|
  {
    if bytes != [] {
      var n := Subpart(bytes);
      var first := if BeginsWell(bytes) then bytes[..n] else REPLACEMENT;
      var rest := Replaced(bytes[n..]);
      ReplacedIsWellFormed(bytes[n..]);
      FirstAlone(bytes);
      BeginsWellAlone(first, rest);
      assert (first + rest)[|first|..] == rest;
    }
  }

  lemma FirstAlone(bytes: seq<Byte>)
    requires bytes != []
    ensures
      var first := if BeginsWell(bytes) then bytes[..Subpart(bytes)] else REPLACEMENT;
      first != [] && BeginsWell(first) && Subpart(first) == |first|
  {
    if BeginsWell(bytes) {
      PrefixSubpart(bytes, Subpart(bytes), 1);
    } else {
      assert Fits(REPLACEMENT, 1) && Fits(REPLACEMENT, 2);
      assert SubpartFrom(REPLACEMENT, 2) == 3;
    }
  }

  lemma {:induction false} PrefixSubpart(bytes: seq<Byte>, m: nat, n: nat)
    requires bytes != [] && 0 < n <= m <= |bytes| && m <= Width(bytes[0]) && SubpartFrom(bytes, n) >= m
    ensures SubpartFrom(bytes[..m], n) == m
    decreases m - n
  {
    if n < m {
      assert Fits(bytes, n) == Fits(bytes[..m], n);
      PrefixSubpart(bytes, m, n + 1);
    }
  }

  // ----- texts that keep their length -----

  predicate IsContinuation(b: Byte) {
    0x80 <= b <= 0xBF
  }

  /** A character of two bytes. */
  predicate TwoBytes(bytes: seq<Byte>) {
    |bytes| >= 2 && 0xC2 <= bytes[0] <= 0xDF && IsContinuation(bytes[1])
  }

  predicate KeepsLength(bytes: seq<Byte>) {
    |Replaced(bytes)| == |bytes|
  }

  /** Only whole characters, and three bytes of an unfinished one, take as much room as before. */
  lemma LengthIsKept(bytes: seq<Byte>)
    requires bytes != []
    ensures KeepsLength(bytes) <==> (BeginsWell(bytes) || Subpart(bytes) == 3) && KeepsLength(bytes[Subpart(bytes)..])
  {
    ReplacingNeverShrinks(bytes[Subpart(bytes)..]);
  }

  /** The first character of a text that keeps its length. */
  lemma FirstKept(bytes: seq<Byte>)
    requires bytes != [] && KeepsLength(bytes)
    ensures
      || bytes[0] < 0x80
      || (|bytes| >= 2 && IsContinuation(bytes[1])
          && (TwoBytes(bytes) || (|bytes| >= 3 && IsContinuation(bytes[2]))))
  {
    LengthIsKept(bytes);
    if bytes[0] >= 0x80 {
      SubpartContinues(bytes);
    }
  }

  lemma SubpartContinues(bytes: seq<Byte>)
    requires bytes != []
    ensures Subpart(bytes) >= 2 ==> IsContinuation(bytes[1])
    ensures Subpart(bytes) >= 3 ==> IsContinuation(bytes[2])
  {
    if Width(bytes[0]) > 1 && |bytes| > 1 && Fits(bytes, 1) {
      assert SubpartFrom(bytes, 1) == SubpartFrom(bytes, 2);
    }
  }

  /** A text that begins inside a character grows. */
  lemma ContinuationGrows(bytes: seq<Byte>)
    requires bytes != [] && IsContinuation(bytes[0])
    ensures !KeepsLength(bytes)
  {
    LengthIsKept(bytes);
  }

  lemma AsciiKept(bytes: seq<Byte>)
    requires bytes != [] && bytes[0] < 0x80
    ensures KeepsLength(bytes) <==> KeepsLength(bytes[1..])
  {
    LengthIsKept(bytes);
  }

  lemma TwoBytesKept(bytes: seq<Byte>)
    requires TwoBytes(bytes)
    ensures KeepsLength(bytes) <==> KeepsLength(bytes[2..])
  {
    LengthIsKept(bytes);
    assert Fits(bytes, 1) && SubpartFrom(bytes, 1) == SubpartFrom(bytes, 2) == 2;
  }

  // ----- what a cut does to the decoded length -----

  /** The first subpart of a prefix is that of the text, as far as the prefix goes. */
  lemma {:induction false} SubpartOfPrefix(bytes: seq<Byte>, k: nat, n: nat)
    requires bytes != [] && 0 < n <= k <= |bytes| && n <= Width(bytes[0])
    ensures SubpartFrom(bytes[..k], n) == if SubpartFrom(bytes, n) <= k then SubpartFrom(bytes, n) else k
    decreases k - n
  {
    if n < k {
      assert Fits(bytes, n) == Fits(bytes[..k], n);
      if n < Width(bytes[0]) && Fits(bytes, n) {
        SubpartOfPrefix(bytes, k, n + 1);
      }
    }
  }

  /** After its first byte a subpart holds continuation bytes only. */
  lemma {:induction false} SubpartRuns(bytes: seq<Byte>, n: nat)
    requires bytes != [] && 0 < n <= |bytes| && n <= Width(bytes[0])
    ensures forall i :: n <= i < SubpartFrom(bytes, n) ==> IsContinuation(bytes[i])
    decreases Width(bytes[0]) - n
  {
    if n < Width(bytes[0]) && n < |bytes| && Fits(bytes, n) {
      SubpartRuns(bytes, n + 1);
    }
  }

  /** Continuation bytes that follow no first byte are replaced one by one. */
  lemma {:induction false} StrayRun(bytes: seq<Byte>, n: nat)
    requires n <= |bytes| && forall i :: 0 <= i < n ==> IsContinuation(bytes[i])
    ensures |Replaced(bytes)| == 3 * n + |Replaced(bytes[n..])|
    decreases n
  {
    if n == 0 {
      assert bytes[0..] == bytes;
    } else {
      assert Subpart(bytes) == 1 && !BeginsWell(bytes);
      StrayRun(bytes[1..], n - 1);
      assert bytes[1..][n - 1..] == bytes[n..];
    }
  }

  /** The decoded length of a text by its first subpart. */
  lemma FirstLength(bytes: seq<Byte>)
    requires bytes != []
    ensures
      var n := Subpart(bytes);
      && |Replaced(bytes)| == (if BeginsWell(bytes) then n else 3) + |Replaced(bytes[n..])|
      && (!BeginsWell(bytes) ==> n <= 3)
    ensures forall i :: 0 < i < Subpart(bytes) ==> IsContinuation(bytes[i])
  {
    if Width(bytes[0]) > 0 {
      SubpartRuns(bytes, 1);
    }
  }

  /** A cut inside the first subpart. */
  lemma FirstCut(bytes: seq<Byte>, o: nat)
    requires bytes != [] && 0 < o < Subpart(bytes)
    ensures |Replaced(bytes)| <= |Replaced(bytes[o..])| + 3 * o
    ensures |Replaced(bytes[o..])| + o <= |Replaced(bytes)| + 6
  {
    hide Replaced, BeginsWell;
    var n := Subpart(bytes);
    FirstLength(bytes);
    assert forall i :: 0 <= i < n - o ==> bytes[o..][i] == bytes[o + i];
    StrayRun(bytes[o..], n - o);
    assert bytes[o..][n - o..] == bytes[n..];
  }

  /** Without its first `o` bytes a text is decoded to at most `3 * o` bytes less, and to at least `o - 6` less. */
  lemma {:induction false} FrontCut(bytes: seq<Byte>, o: nat)
    requires o <= |bytes|
    ensures |Replaced(bytes)| <= |Replaced(bytes[o..])| + 3 * o
    ensures |Replaced(bytes[o..])| + o <= |Replaced(bytes)| + 6
    decreases |bytes|
  {
    hide Replaced, BeginsWell, Subpart;
    if o == 0 {
      assert bytes[0..] == bytes;
    } else if o < Subpart(bytes) {
      FirstCut(bytes, o);
    } else {
      var n := Subpart(bytes);
      FirstLength(bytes);
      FrontCut(bytes[n..], o - n);
      assert bytes[n..][o - n..] == bytes[o..];
    }
  }

  /** The same without its last bytes. */
  lemma {:induction false} BackCut(bytes: seq<Byte>, k: nat)
    requires k <= |bytes|
    ensures |Replaced(bytes)| <= |Replaced(bytes[..k])| + 3 * (|bytes| - k)
    ensures |Replaced(bytes[..k])| + (|bytes| - k) <= |Replaced(bytes)| + 6
    decreases |bytes|
  {
    ReplacingNeverShrinks(bytes);
    if k == 0 {
      ReplacingAtMostTriples(bytes);
    } else {
      var n, front := Subpart(bytes), bytes[..k];
      FirstLength(bytes);
      FirstLength(front);
      if Width(bytes[0]) > 0 {
        SubpartOfPrefix(bytes, k, 1);
      }
      if k < n {
        assert Subpart(front) == k && front[k..] == [];
        ReplacingAtMostTriples(bytes[n..]);
      } else {
        BackCut(bytes[n..], k - n);
        assert front[n..] == bytes[n..][..k - n];
      }
    }
  }

  lemma {:induction false} ReplacingAtMostTriples(bytes: seq<Byte>)
    ensures |Replaced(bytes)| <= 3 * |bytes|
    decreases |bytes|
  {
    if bytes != [] {
      FirstLength(bytes);
      ReplacingAtMostTriples(bytes[Subpart(bytes)..]);
    }
  }
}
