/** Divisibility, congruence, Euclid's algorithm and Fermat's little theorem, as far as blind signatures need them. */
module NumberTheory {
  import opened Basics

  // ------------------------------------------------------------ divisibility

  ghost predicate Divides(n: int, x: int) {
    exists k: int :: x == Times(n, k)
  }

  function Times(a: int, b: int): int {
    a * b
  }

  lemma DividesBy(n: int, x: int, k: int)
    requires x == n * k
    ensures Divides(n, x)
  {
    assert x == Times(n, k);
  }

  lemma DividesSum(n: int, x: int, y: int)
    requires Divides(n, x) && Divides(n, y)
    ensures Divides(n, x + y) && Divides(n, x - y)
  {
    var j :| x == Times(n, j);
    var k :| y == Times(n, k);
    DividesBy(n, x + y, j + k);
    DividesBy(n, x - y, j - k);
  }

  lemma DividesProduct(n: int, x: int, y: int)
    requires Divides(n, x)
    ensures Divides(n, x * y) && Divides(n, y * x)
  {
    var k :| x == Times(n, k);
    assert x * y == n * (k * y);
    DividesBy(n, x * y, k * y);
  }

  lemma MultipleIsLarge(n: int, k: int)
    requires n > 0
    ensures k >= 1 ==> n * k >= n
    ensures k <= -1 ==> n * k <= -n
  {
  }

  lemma DividesSmall(n: int, x: int)
    requires n > 0 && Divides(n, x) && -n < x < n
    ensures x == 0
  {
    var k :| x == Times(n, k);
    MultipleIsLarge(n, k);
  }

  lemma DividesMod(n: nat, x: int)
    requires n > 0
    ensures Divides(n, x) <==> x % n == 0
    ensures Divides(n, x - x % n)
  {
    DividesBy(n, x - x % n, x / n);
    if Divides(n, x) {
      DividesSum(n, x, x - x % n);
      DividesSmall(n, x % n);
    }
  }

  // ------------------------------------------------------------ congruence

  ghost predicate Cong(n: int, a: int, b: int) {
    Divides(n, a - b)
  }

  lemma CongRefl(n: int, a: int)
    ensures Cong(n, a, a)
  {
    DividesBy(n, 0, 0);
  }

  lemma CongSym(n: int, a: int, b: int)
    requires Cong(n, a, b)
    ensures Cong(n, b, a)
  {
    DividesBy(n, 0, 0);
    DividesSum(n, 0, a - b);
  }

  lemma CongTrans(n: int, a: int, b: int, c: int)
    requires Cong(n, a, b) && Cong(n, b, c)
    ensures Cong(n, a, c)
  {
    DividesSum(n, a - b, b - c);
  }

  lemma CongMul(n: int, a: int, b: int, c: int, d: int)
    requires Cong(n, a, b) && Cong(n, c, d)
    ensures Cong(n, a * c, b * d)
  {
    DividesProduct(n, a - b, c);
    DividesProduct(n, c - d, b);
    assert (a - b) * c + b * (c - d) == a * c - b * d;
    DividesSum(n, (a - b) * c, b * (c - d));
  }

  lemma CongMod(n: nat, a: int)
    requires n > 0
    ensures Cong(n, a % n, a)
  {
    DividesMod(n, a);
    CongSym(n, a, a % n);
  }

  /** Congruent residues are equal. */
  lemma CongSmall(n: nat, a: int, b: int)
    requires n > 0 && Cong(n, a, b) && 0 <= a < n && 0 <= b < n
    ensures a == b
  {
    DividesSmall(n, a - b);
  }

  function Pow(x: int, k: nat): int {
    if k == 0 then 1 else x * Pow(x, k - 1)
  }

  lemma {:induction false} PowAdd(x: int, a: nat, b: nat)
    ensures Pow(x, a + b) == Pow(x, a) * Pow(x, b)
  {
    if a > 0 {
      PowAdd(x, a - 1, b);
      assert Pow(x, a + b) == x * (Pow(x, a - 1) * Pow(x, b)) == (x * Pow(x, a - 1)) * Pow(x, b);
    }
  }

  lemma {:induction false} PowTimes(x: int, a: nat, b: nat)
    ensures 0 <= a * b && Pow(x, a * b) == Pow(Pow(x, a), b)
  {
    if b == 0 {
      assert a * b == 0;
    } else {
      PowTimes(x, a, b - 1);
      assert a * b == a + a * (b - 1);
      PowAdd(x, a, a * (b - 1));
    }
  }

  lemma SwapInner(x: int, y: int, a: int, b: int)
    ensures (x * y) * (a * b) == (x * a) * (y * b)
  {
    assert (x * y) * (a * b) == x * (y * (a * b)) == x * (a * (y * b)) by {
      assert y * (a * b) == (y * a) * b == a * (y * b);
    }
  }

  lemma {:induction false} PowProduct(x: int, y: int, k: nat)
    ensures Pow(x * y, k) == Pow(x, k) * Pow(y, k)
  {
    if k > 0 {
      PowProduct(x, y, k - 1);
      SwapInner(x, y, Pow(x, k - 1), Pow(y, k - 1));
    }
  }

  lemma {:induction false} CongPow(n: int, a: int, b: int, k: nat)
    requires Cong(n, a, b)
    ensures Cong(n, Pow(a, k), Pow(b, k))
  {
    if k == 0 {
      CongRefl(n, 1);
    } else {
      CongPow(n, a, b, k - 1);
      CongMul(n, a, b, Pow(a, k - 1), Pow(b, k - 1));
    }
  }

  // ------------------------------------------------------------ Euclid

  function Gcd(a: nat, b: nat): (g: nat)
    ensures g == 0 <==> a == 0 && b == 0
    decreases b
  {
    if b == 0 then a else Gcd(b, a % b)
  }

  lemma {:induction false} GcdDivides(a: nat, b: nat)
    ensures Divides(Gcd(a, b), a) && Divides(Gcd(a, b), b)
    decreases b
  {
    var g := Gcd(a, b);
    if b == 0 {
      DividesBy(g, a, 1);
      DividesBy(g, b, 0);
    } else {
      GcdDivides(b, a % b);
      DividesProduct(g, b, a / b);
      DividesSum(g, b * (a / b), a % b);
      assert b * (a / b) + a % b == a;
    }
  }

  /** The coefficients the extended algorithm finds. */
  function Bezout(a: nat, b: nat): (uv: (int, int))
    decreases b
  {
    if b == 0 then (1, 0)
    else
      var (u, v) := Bezout(b, a % b);
      (v, u - v * (a / b))
  }

  lemma {:induction false} BezoutGcd(a: nat, b: nat)
    ensures Bezout(a, b).0 * a + Bezout(a, b).1 * b == Gcd(a, b)
    decreases b
  {
    if b > 0 {
      BezoutGcd(b, a % b);
      var (u, v) := Bezout(b, a % b);
      BezoutStep(a, b, a / b, a % b, u, v);
    }
  }

  lemma BezoutStep(a: int, b: int, q: int, r: int, u: int, v: int)
    requires a == b * q + r
    ensures v * a + (u - v * q) * b == u * b + v * r
  {
  }

  // ------------------------------------------------------------ primes

  ghost predicate Prime(p: nat) {
    p >= 2 && forall d: nat :: Divides(d, p) ==> d == 1 || d == p
  }

  lemma PrimePositive(p: nat)
    ensures Prime(p) ==> p >= 2
  {
  }

  lemma CoprimeToPrime(p: nat, a: nat)
    requires Prime(p) && !Divides(p, a)
    ensures Gcd(a, p) == 1
  {
    GcdDivides(a, p);
  }

  /** Euclid's lemma. */
  lemma PrimeDividesProduct(p: nat, a: nat, b: int)
    requires Prime(p) && Divides(p, a * b) && !Divides(p, a)
    ensures Divides(p, b)
  {
    CoprimeToPrime(p, a);
    BezoutGcd(a, p);
    var (u, v) := Bezout(a, p);
    assert u * a + v * p == 1;
    Spread(u, a, v, p, b);
    DividesProduct(p, a * b, u);
    DividesBy(p, p * (v * b), v * b);
    DividesSum(p, u * (a * b), p * (v * b));
  }

  lemma Spread(u: int, a: int, v: int, p: int, b: int)
    requires u * a + v * p == 1
    ensures u * (a * b) + p * (v * b) == b
  {
    assert (u * a + v * p) * b == b;
    assert (u * a) * b == u * (a * b) && (v * p) * b == p * (v * b);
  }

  /** Something coprime to a prime can be cancelled. */
  lemma CongCancel(p: nat, c: nat, a: int, b: int)
    requires Prime(p) && !Divides(p, c) && Cong(p, c * a, c * b)
    ensures Cong(p, a, b)
  {
    assert c * a - c * b == c * (a - b);
    PrimeDividesProduct(p, c, a - b);
  }

  // ------------------------------------------------------------ Fermat

  /** Product of a set of numbers. */
  ghost function Product(s: set<nat>): nat {
    if s == {} then 1
    else
      var x :| x in s;
      x * Product(s - {x})
  }

  lemma SwapOuter(x: int, y: int, z: int)
    ensures y * (x * z) == x * (y * z)
  {
  }

  lemma {:induction false} ProductOf(s: set<nat>, x: nat)
    requires x in s
    ensures Product(s) == x * Product(s - {x})
    decreases s
  {
    var y :| y in s && Product(s) == y * Product(s - {y});
    if y != x {
      ProductOf(s - {y}, x);
      ProductOf(s - {x}, y);
      assert s - {y} - {x} == s - {x} - {y};
      SwapOuter(x, y, Product(s - {x} - {y}));
    }
  }

  ghost function Multiples(a: nat, p: nat, s: set<nat>): set<nat>
    requires p > 0
  {
    set x | x in s :: (a * x) % p
  }

  ghost predicate Residues(p: nat, s: set<nat>) {
    forall x :: x in s ==> 1 <= x < p
  }

  /** Multiplying by something coprime keeps distinct residues apart. */
  lemma MultiplesApart(a: nat, p: nat, x: nat, y: nat)
    requires Prime(p) && !Divides(p, a) && 1 <= x < p && 1 <= y < p && (a * x) % p == (a * y) % p
    ensures x == y
  {
    CongMod(p, a * x);
    CongMod(p, a * y);
    CongSym(p, (a * x) % p, a * x);
    CongTrans(p, a * x, (a * y) % p, a * y);
    CongCancel(p, a, x, y);
    CongSmall(p, x, y);
  }

  lemma MultipleIsResidue(a: nat, p: nat, x: nat)
    requires Prime(p) && !Divides(p, a) && 1 <= x < p
    ensures 1 <= (a * x) % p < p
  {
    if (a * x) % p == 0 {
      DividesMod(p, a * x);
      PrimeDividesProduct(p, a, x);
      DividesSmall(p, x);
    }
  }

  /** One more factor on both sides. */
  lemma MultiplesGrow(a: nat, p: nat, rest: set<nat>, x: nat)
    requires Prime(p) && !Divides(p, a) && Residues(p, rest + {x}) && x !in rest
    ensures var y := (a * x) % p;
            && y !in Multiples(a, p, rest) && 1 <= y < p
            && Multiples(a, p, rest + {x}) == Multiples(a, p, rest) + {y}
  {
    hide Prime, Divides;
    var y := (a * x) % p;
    MultipleIsResidue(a, p, x);
    forall z | z in rest ensures (a * z) % p != y {
      if (a * z) % p == y {
        MultiplesApart(a, p, z, x);
      }
    }
  }

  lemma ProductGrows(s: set<nat>, x: nat)
    requires x !in s
    ensures Product(s + {x}) == x * Product(s)
  {
    ProductOf(s + {x}, x);
    assert s + {x} - {x} == s;
  }

  lemma {:induction false} MultiplesSize(a: nat, p: nat, s: set<nat>)
    requires Prime(p) && !Divides(p, a) && Residues(p, s)
    ensures |Multiples(a, p, s)| == |s| && Residues(p, Multiples(a, p, s))
    decreases s
  {
    hide Prime, Divides, Multiples;
    PrimePositive(p);
    if s == {} {
      NoMultiples(a, p);
    } else {
      var x :| x in s;
      MultiplesSize(a, p, s - {x});
      assert s == s - {x} + {x};
      MultiplesGrow(a, p, s - {x}, x);
    }
  }

  lemma {:induction false} ProductOfMultiples(a: nat, p: nat, s: set<nat>)
    requires Prime(p) && !Divides(p, a) && Residues(p, s)
    ensures Cong(p, Product(Multiples(a, p, s)), Pow(a, |s|) * Product(s))
    decreases s
  {
    hide Prime, Divides, Multiples, Cong, Product, Pow;
    PrimePositive(p);
    if s == {} {
      NoMultiples(a, p);
    } else {
      var x :| x in s;
      var rest := s - {x};
      ProductOfMultiples(a, p, rest);
      assert s == rest + {x};
      MultiplesGrow(a, p, rest, x);
      ProductStep(a, p, x, (a * x) % p, Product(Multiples(a, p, rest)), |rest|, Product(rest));
      ProductGrows(Multiples(a, p, rest), (a * x) % p);
      ProductGrows(rest, x);
    }
  }

  lemma NoMultiples(a: nat, p: nat)
    requires p > 0
    ensures Multiples(a, p, {}) == {} && Product({}) == 1 && Cong(p, Product({}), Pow(a, 0) * Product({}))
  {
    CongRefl(p, 1);
  }

  lemma ProductStep(a: nat, p: nat, x: nat, y: nat, image: nat, k: nat, product: nat)
    requires p > 0 && y == (a * x) % p && Cong(p, image, Pow(a, k) * product)
    ensures Cong(p, y * image, Pow(a, k + 1) * (x * product))
  {
    hide Cong;
    CongMod(p, a * x);
    CongMul(p, y, a * x, image, Pow(a, k) * product);
    SwapInner(a, x, Pow(a, k), product);
  }

  lemma {:induction false} ResiduesCoprime(p: nat, s: set<nat>)
    requires Prime(p) && Residues(p, s)
    ensures !Divides(p, Product(s))
    decreases s
  {
    if s == {} {
      if Divides(p, 1) {
        DividesSmall(p, 1);
      }
    } else {
      var x :| x in s;
      ProductOf(s, x);
      ResiduesCoprime(p, s - {x});
      if Divides(p, x) {
        DividesSmall(p, x);
      }
      if Divides(p, x * Product(s - {x})) {
        PrimeDividesProduct(p, x, Product(s - {x}));
      }
    }
  }

  /** The numbers 1 to p - 1. */
  ghost function Nonzero(p: nat): (s: set<nat>)
    ensures forall x :: x in s <==> 1 <= x < p
    ensures p >= 1 ==> |s| == p - 1
  {
    if p <= 1 then {} else Nonzero(p - 1) + {p - 1}
  }

  lemma {:induction false} SameSizeSubset(s: set<nat>, t: set<nat>)
    requires s <= t && |s| == |t|
    ensures s == t
  {
    if x :| x in t && x !in s {
      SubsetSize(s, t - {x});
    }
  }

  lemma CancelProduct(p: nat, c: nat, power: int)
    requires Prime(p) && !Divides(p, c) && Cong(p, c, power * c)
    ensures Cong(p, power, 1)
  {
    hide Prime, Divides, Cong;
    assert power * c == c * power && c == c * 1;
    CongSym(p, c, power * c);
    CongCancel(p, c, power, 1);
  }

  /** Fermat's little theorem. */
  lemma Fermat(p: nat, a: nat)
    requires Prime(p) && !Divides(p, a)
    ensures Cong(p, Pow(a, p - 1), 1)
  {
    hide Prime, Divides, Cong, Multiples;
    var s := Nonzero(p);
    PrimePositive(p);
    ProductOfMultiples(a, p, s);
    MultiplesSize(a, p, s);
    SameSizeSubset(Multiples(a, p, s), s);
    ResiduesCoprime(p, s);
    CancelProduct(p, Product(s), Pow(a, p - 1));
  }

  /** Raising to an exponent that is 1 modulo p - 1 changes nothing modulo p, whatever the base. */
  lemma FermatExponent(p: nat, x: nat, k: nat)
    requires Prime(p)
    ensures Cong(p, Pow(x, 1 + k * (p - 1)), x)
  {
    assert 0 <= k * (p - 1);
    if Divides(p, x) {
      DividesProduct(p, x, Pow(x, k * (p - 1)));
      DividesSum(p, Pow(x, 1 + k * (p - 1)), x);
    } else {
      Fermat(p, x);
      assert (p - 1) * k == k * (p - 1);
      PowTimes(x, p - 1, k);
      CongPow(p, Pow(x, p - 1), 1, k);
      PowOfOne(k);
      CongRefl(p, x);
      CongMul(p, x, x, Pow(x, k * (p - 1)), 1);
    }
  }

  lemma {:induction false} PowOfOne(k: nat)
    ensures Pow(1, k) == 1
  {
    if k > 0 {
      PowOfOne(k - 1);
    }
  }

  /** Congruence modulo two different primes is congruence modulo their product. */
  lemma ChineseRemainder(p: nat, q: nat, a: int, b: int)
    requires Prime(p) && Prime(q) && p != q && Cong(p, a, b) && Cong(q, a, b)
    ensures Cong(p * q, a, b)
  {
    var k :| a - b == Times(p, k);
    PrimeDividesProduct(q, p, k);
    var j :| k == Times(q, j);
    assert a - b == (p * q) * j;
    DividesBy(p * q, a - b, j);
  }

  // ------------------------------------------------------------ inverses

  /** The inverse of r modulo n, from the extended algorithm. */
  function Inverse(r: nat, n: nat): (inv: nat)
    requires n > 0 && Gcd(r, n) == 1
    ensures Cong(n, inv * r, 1)
  {
    InverseWorks(r, n);
    Bezout(r, n).0 % n
  }

  lemma InverseWorks(r: nat, n: nat)
    requires n > 0 && Gcd(r, n) == 1
    ensures Cong(n, (Bezout(r, n).0 % n) * r, 1)
  {
    BezoutGcd(r, n);
    var (u, v) := Bezout(r, n);
    CongMod(n, u);
    CongRefl(n, r);
    CongMul(n, u % n, u, r, r);
    assert u * r - 1 == n * (-v);
    DividesBy(n, u * r - 1, -v);
    CongTrans(n, (u % n) * r, u * r, 1);
  }
}
