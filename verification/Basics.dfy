/** Shared vocabulary: optional values, failures and powers of two. */
module Basics {

  datatype Option<+T> = None | Some(value: T)

  /** A call either returns or raises; the source's exceptions become Failure. */
  datatype Result<+T, +E> = Success(value: T) | Failure(error: E)

  function Max(a: int, b: int): int {
    if a < b then b else a
  }

  function Min(a: int, b: int): int {
    if a < b then a else b
  }

  /** 2 to the k-th. */
  function Pow2(k: nat): (r: nat)
    ensures r >= 1
  {
    if k == 0 then 1 else 2 * Pow2(k - 1)
  }

  lemma {:induction false} Pow2Monotone(a: nat, b: nat)
    requires a <= b
    ensures Pow2(a) <= Pow2(b)
    decreases b - a
  {
    if a < b {
      Pow2Monotone(a, b - 1);
    }
  }

  lemma {:induction false} Pow2Add(a: nat, b: nat)
    ensures Pow2(a + b) == Pow2(a) * Pow2(b)
  {
    if b > 0 {
      Pow2Add(a, b - 1);
    }
  }

  lemma {:induction false} Pow2Grows(k: nat)
    ensures k < Pow2(k)
  {
    if k > 0 {
      Pow2Grows(k - 1);
    }
  }

  lemma Pow2Step(a: nat, b: nat)
    requires a < b
    ensures 2 * Pow2(a) <= Pow2(b)
  {
    Pow2Monotone(a + 1, b);
  }

  /** Two powers of two within a factor of two of each other are the same one. */
  lemma Pow2Unique(a: nat, b: nat)
    requires Pow2(a) < 2 * Pow2(b) && Pow2(b) < 2 * Pow2(a)
    ensures a == b
  {
    if a < b {
      Pow2Step(a, b);
    } else if b < a {
      Pow2Step(b, a);
    }
  }

  /** Bitwise and of two natural numbers. */
  function BitAnd(a: nat, b: nat): nat {
    if a == 0 || b == 0 then 0
    else 2 * BitAnd(a / 2, b / 2) + (if a % 2 == 1 && b % 2 == 1 then 1 else 0)
  }

  ghost predicate IsPow2(m: nat) {
    exists t: nat :: m == Pow2(t)
  }

  /** The bit trick tells powers of two from all other sizes. */
  lemma {:induction false} PowerOfTwoTest(m: nat)
    requires m >= 1
    ensures BitAnd(m, m - 1) == 0 <==> IsPow2(m)
  {
    if m == 1 {
      assert m == Pow2(0);
    } else if m % 2 == 1 {
      BitAndSame(m / 2);
      assert (m - 1) / 2 == m / 2;
      assert BitAnd(m, m - 1) == 2 * BitAnd(m / 2, m / 2);
      forall t: nat ensures m != Pow2(t) {
      }
    } else {
      PowerOfTwoTest(m / 2);
      assert (m - 1) / 2 == m / 2 - 1;
      if IsPow2(m) {
        var t: nat :| m == Pow2(t);
        assert m / 2 == Pow2(t - 1);
      }
      if IsPow2(m / 2) {
        var t: nat :| m / 2 == Pow2(t);
        assert m == Pow2(t + 1);
      }
    }
  }

  lemma {:induction false} BitAndSame(a: nat)
    ensures BitAnd(a, a) == a
  {
    if a > 0 {
      BitAndSame(a / 2);
    }
  }

  lemma NoneInCommon<T>(a: set<T>, b: set<T>)
    requires a * b == {}
    ensures forall x :: x in a ==> x !in b
  {
    forall x | x in a ensures x !in b {
      assert x in b ==> x in a * b;
    }
  }

  ghost predicate NoDuplicates<T>(s: seq<T>) {
    forall i, j :: 0 <= i < j < |s| ==> s[i] != s[j]
  }

  function Elements<T>(s: seq<T>): set<T> {
    set x | x in s
  }

  lemma {:induction false} DistinctSize<T>(s: seq<T>)
    requires NoDuplicates(s)
    ensures |s| == |Elements(s)|
  {
    if s != [] {
      var init, last := s[..|s| - 1], s[|s| - 1];
      DistinctSize(init);
      assert s == init + [last];
      assert Elements(s) == Elements(init) + {last};
      assert last !in init;
    }
  }

  lemma {:induction false} SubsetSize<T>(g: set<T>, f: set<T>)
    requires g <= f
    ensures |g| <= |f|
    decreases |g|
  {
    if g != {} {
      var x :| x in g;
      SubsetSize(g - {x}, f - {x});
    }
  }

  /** Sum of a measure over a set. */
  ghost function SumOver<T(!new)>(s: set<T>, measure: T -> int): int {
    if s == {} then 0
    else
      var x :| x in s;
      measure(x) + SumOver(s - {x}, measure)
  }

  lemma {:induction false} SumOverOf<T(!new)>(s: set<T>, measure: T -> int, x: T)
    requires x in s
    ensures SumOver(s, measure) == measure(x) + SumOver(s - {x}, measure)
    decreases s
  {
    var y :| y in s && SumOver(s, measure) == measure(y) + SumOver(s - {y}, measure);
    if y != x {
      SumOverOf(s - {y}, measure, x);
      SumOverOf(s - {x}, measure, y);
      assert s - {y} - {x} == s - {x} - {y};
    }
  }

  lemma {:induction false} SumOverUnion<T(!new)>(a: set<T>, b: set<T>, measure: T -> int)
    requires a !! b
    ensures SumOver(a + b, measure) == SumOver(a, measure) + SumOver(b, measure)
    decreases b
  {
    if b == {} {
      assert a + b == a;
    } else {
      var x :| x in b;
      SumOverUnion(a, b - {x}, measure);
      assert a + b - {x} == a + (b - {x});
      SumOverOf(a + b, measure, x);
      SumOverOf(b, measure, x);
    }
  }

  // Decimal text.

  function Digit(d: nat): char
    requires d < 10
  {
    "0123456789"[d]
  }

  function Digits(n: nat): string {
    if n < 10 then [Digit(n)] else Digits(n / 10) + [Digit(n % 10)]
  }
}
