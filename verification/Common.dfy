/** Option values, decimal numerals and small sequence helpers shared by the other modules. */
module Common {

  datatype Option<+T> = None | Some(value: T)

  // ----- decimal numerals -----

  predicate IsDigit(c: char) {
    '0' <= c <= '9'
  }

  function DigitOf(d: nat): (c: char)
    requires d < 10
    ensures IsDigit(c) && c as int - '0' as int == d
  {
    ('0' as int + d) as char
  }

  /** The shortest decimal numeral of `n`, as Python's `str(n)` prints it. */
  function Decimal(n: nat): (s: string)
    ensures |s| >= 1 && forall i :: 0 <= i < |s| ==> IsDigit(s[i])
  {
    if n < 10 then [DigitOf(n)] else Decimal(n / 10) + [DigitOf(n % 10)]
  }

  /** The value of a string of digits, as Python's `int(s)` reads it. */
  function DecimalValue(s: string): nat
    requires forall i :: 0 <= i < |s| ==> IsDigit(s[i])
  {
    if s == "" then 0
    else
      assert IsDigit(s[|s| - 1]);
      DecimalValue(s[..|s| - 1]) * 10 + (s[|s| - 1] as int - '0' as int)
  }

  lemma {:induction false} DecimalRoundTrip(n: nat)
    ensures DecimalValue(Decimal(n)) == n
  {
    if n < 10 {
      assert Decimal(n)[..0] == "";
    } else {
      DecimalRoundTrip(n / 10);
      assert Decimal(n)[..|Decimal(n)| - 1] == Decimal(n / 10);
    }
  }

  /** A larger number never has a shorter numeral. */
  lemma {:induction false} DecimalMonotone(m: nat, n: nat)
    requires m <= n
    ensures |Decimal(m)| <= |Decimal(n)|
  {
    if n >= 10 && m >= 10 {
      DecimalMonotone(m / 10, n / 10);
    }
  }

  /** The next number has at most one digit more. */
  lemma {:induction false} DecimalStep(n: nat)
    ensures |Decimal(n + 1)| <= |Decimal(n)| + 1
  {
    if n >= 10 && (n + 1) / 10 != n / 10 {
      DecimalStep(n / 10);
    }
  }

  /** After a number that has one digit more than its predecessor comes one that has not. */
  lemma DecimalStepsApart(n: nat)
    requires |Decimal(n + 1)| > |Decimal(n)|
    ensures |Decimal(n + 2)| == |Decimal(n + 1)| && n >= 9 && |Decimal(n - 1)| == |Decimal(n)|
  {
    hide Decimal;
    DecimalLength(n);
    DecimalLength(n + 1);
    DecimalLength(n + 2);
    if n >= 10 {
      assert (n + 1) / 10 != n / 10 && n % 10 == 9 && n - 1 >= 10;
      assert (n + 2) / 10 == (n + 1) / 10 && (n - 1) / 10 == n / 10;
    }
    assert n >= 9;
    DecimalLength(n - 1);
  }

  lemma DecimalLength(n: nat)
    ensures |Decimal(n)| == if n < 10 then 1 else |Decimal(n / 10)| + 1
  {
  }

  // ----- results built from the front -----

  /** Puts already known items in front of a result. */
  function Prefixed<T>(front: seq<T>, rest: Option<seq<T>>): Option<seq<T>> {
    match rest
    case None => None
    case Some(items) => Some(front + items)
  }

  lemma PrefixedByNothing<T>(rest: Option<seq<T>>)
    ensures Prefixed([], rest) == rest
  {
    match rest
    case None =>
    case Some(items) => assert [] + items == items;
  }

  lemma PrefixedTwice<T>(a: seq<T>, b: seq<T>, rest: Option<seq<T>>)
    ensures Prefixed(a, Prefixed(b, rest)) == Prefixed(a + b, rest)
  {
    match rest
    case None =>
    case Some(items) => assert a + (b + items) == (a + b) + items;
  }

  // ----- slices -----

  lemma SliceOfSlice<T>(s: seq<T>, from: nat, to: nat, a: nat, b: nat)
    requires from <= to <= |s| && a <= b <= to - from
    ensures s[from..to][a..b] == s[from + a..from + b]
  {
    var u, v := s[from..to][a..b], s[from + a..from + b];
    assert |u| == |v|;
    forall k | 0 <= k < |u|
      ensures u[k] == v[k]
    {
      assert u[k] == s[from..to][a + k];
    }
  }
}
