/** Dyadic intervals and value encoding of blindrange/dyadic.py.

    A field's index is a binary tree over [0, 2^bits), cut off at level mlvl, where a leaf is
    2^(bits - mlvl) wide. A label (level, index) stands for one interval of the tree. */
module Dyadic {
  import opened Basics

  datatype Label = Label(level: nat, index: int)

  /** Number of binary digits of n. */
  function BitLength(n: nat): nat {
    if n == 0 then 0 else 1 + BitLength(n / 2)
  }

  /** Depth of a field's tree: its leaves are exactly leafWidth wide. Widths that are no power of two,
      and widths that leave no level to store, are refused. */
  method MaxLevel(bits: nat, leafWidth: int) returns (r: Result<nat, string>)
    ensures r.Success? <==> exists t: nat :: t < bits && leafWidth == Pow2(t)
    ensures r.Success? ==> 1 <= r.value <= bits && Pow2(bits - r.value) == leafWidth
  {
    if leafWidth >= 1 {
      PowerOfTwoTest(leafWidth);
    }
    if leafWidth < 1 || BitAnd(leafWidth, leafWidth - 1) != 0 {
      return Failure("leaf_width must be a power of two >= 1");
    }
    ghost var t: nat :| leafWidth == Pow2(t);
    BitLengthOfPower(t);
    var lvl := bits - (BitLength(leafWidth) - 1);
    if lvl < 1 {
      forall s: nat | leafWidth == Pow2(s) ensures s >= bits {
        Pow2Unique(s, t);
      }
      return Failure("leaf_width too large for domain");
    }
    return Success(lvl);
  }

  lemma {:induction false} BitLengthOfPower(t: nat)
    ensures BitLength(Pow2(t)) == t + 1
  {
    if t == 0 {
      assert BitLength(0) == 0;
    } else {
      BitLengthOfPower(t - 1);
    }
  }

  // ------------------------------------------------------------ intervals

  /** Labels below the tree's depth do not occur; giving them width 1 keeps the geometry total. */
  function Width(bits: nat, level: nat): nat {
    if level <= bits then Pow2(bits - level) else 1
  }

  function Lo(bits: nat, c: Label): int {
    c.index * Width(bits, c.level)
  }

  function Hi(bits: nat, c: Label): int {
    c.index * Width(bits, c.level) + Width(bits, c.level) - 1
  }

  predicate Contains(bits: nat, c: Label, v: int) {
    Lo(bits, c) <= v <= Hi(bits, c)
  }

  /** Labels the index stores: levels 1 to mlvl, inside the domain. */
  predicate Stored(bits: nat, mlvl: nat, c: Label) {
    1 <= c.level <= mlvl && 0 <= c.index < Pow2(c.level)
  }

  predicate InDomain(bits: nat, v: int) {
    0 <= v < Pow2(bits)
  }

  /** Index of the leaf a value falls in. */
  function LeafOf(bits: nat, mlvl: nat, v: int): int {
    v / Width(bits, mlvl)
  }

  /** The leaf hull of [a, b]: the value's leaf meets the range. */
  ghost predicate InHull(a: int, b: int, bits: nat, mlvl: nat, v: int) {
    var leaf := Label(mlvl, LeafOf(bits, mlvl, v));
    InDomain(bits, v) && Lo(bits, leaf) <= b && a <= Hi(bits, leaf)
  }

  lemma IndexOfValue(bits: nat, level: nat, v: int)
    ensures forall i :: Contains(bits, Label(level, i), v) <==> i == v / Width(bits, level)
  {
    var w := Width(bits, level);
    forall i: int
      ensures Contains(bits, Label(level, i), v) <==> i == v / w
    {
      DivisionUnique(v, w, i);
    }
  }

  lemma DivisionUnique(v: int, w: int, i: int)
    requires w >= 1
    ensures i * w <= v < i * w + w <==> i == v / w
  {
    var q, m := v / w, v % w;
    assert v == q * w + m && 0 <= m < w;
    if i < q {
      MulStep(i, q, w);
    } else if i > q {
      MulStep(q, i, w);
    }
  }

  lemma MulStep(i: int, j: int, w: int)
    requires i < j && w >= 1
    ensures i * w + w <= j * w
  {
    var d := j - i - 1;
    assert d * w >= 0;
    assert j * w == (i + 1 + d) * w == i * w + w + d * w;
  }

  lemma LoAtMostHi(bits: nat, c: Label)
    ensures Lo(bits, c) <= Hi(bits, c)
  {
  }

  lemma Halves(bits: nat, c: Label)
    requires c.level < bits
    ensures var l, r := Label(c.level + 1, 2 * c.index), Label(c.level + 1, 2 * c.index + 1);
            && Lo(bits, l) == Lo(bits, c) && Hi(bits, l) == (Lo(bits, c) + Hi(bits, c)) / 2
            && Lo(bits, r) == (Lo(bits, c) + Hi(bits, c)) / 2 + 1 && Hi(bits, r) == Hi(bits, c)
            && Lo(bits, c) <= Hi(bits, l) && Lo(bits, r) <= Hi(bits, c)
  {
    var w := Width(bits, c.level + 1);
    assert Width(bits, c.level) == 2 * w;
    assert c.index * (2 * w) == (2 * c.index) * w;
    assert (2 * c.index + 1) * w == (2 * c.index) * w + w;
    assert (2 * ((2 * c.index) * w) + 2 * w - 1) / 2 == (2 * c.index) * w + w - 1;
  }

  /** Every stored label holding v, one per level. */
  function LevelsFor(v: int, bits: nat, mlvl: nat): (labels: seq<Label>)
    requires mlvl <= bits
    ensures |labels| == mlvl
    ensures forall k :: 0 <= k < mlvl ==> labels[k] == Label(k + 1, v / Width(bits, k + 1))
  {
    seq(mlvl, k requires 0 <= k < mlvl => Label(k + 1, v / Width(bits, k + 1)))
  }

  lemma LevelsForContains(v: int, bits: nat, mlvl: nat, c: Label)
    requires mlvl <= bits
    ensures c in LevelsFor(v, bits, mlvl) <==> 1 <= c.level <= mlvl && Contains(bits, c, v)
  {
    if 1 <= c.level <= mlvl {
      IndexOfValue(bits, c.level, v);
      assert LevelsFor(v, bits, mlvl)[c.level - 1] == Label(c.level, v / Width(bits, c.level));
      assert c == Label(c.level, c.index);
    }
  }

  // ------------------------------------------------------------ the cover

  /** Intervals the recursive descent appends below one node of the tree. */
  function CoverBelow(a: int, b: int, bits: nat, mlvl: nat, c: Label): (out: seq<Label>)
    requires c.level <= mlvl <= bits
    ensures forall d :: d in out ==> d.level <= mlvl
    decreases mlvl - c.level
  {
    var lo, hi := Lo(bits, c), Hi(bits, c);
    if hi < a || lo > b then []
    else if (a <= lo && hi <= b && c.level >= 1) || c.level == mlvl then [c]
    else
      var left := CoverBelow(a, b, bits, mlvl, Label(c.level + 1, 2 * c.index));
      var right := CoverBelow(a, b, bits, mlvl, Label(c.level + 1, 2 * c.index + 1));
      left + right
  }

  function Cover(a: int, b: int, bits: nat, mlvl: nat): (out: seq<Label>)
    requires mlvl <= bits
    ensures forall d :: d in out ==> d.level <= mlvl
  {
    CoverBelow(a, b, bits, mlvl, Label(0, 0))
  }

  /** The descent as written: it carries lo and hi along and appends to one list. */
  method Descend(a: int, b: int, bits: nat, mlvl: nat, lo: int, hi: int, lvl: nat, idx: int, out: seq<Label>)
    returns (out': seq<Label>)
    requires lvl <= mlvl <= bits
    requires lo == Lo(bits, Label(lvl, idx)) && hi == Hi(bits, Label(lvl, idx))
    ensures out' == out + CoverBelow(a, b, bits, mlvl, Label(lvl, idx))
    decreases mlvl - lvl
  {
    hide Lo, Hi, Width, Pow2;
    if hi < a || lo > b {
      return out;
    }
    if (a <= lo && hi <= b && lvl >= 1) || lvl == mlvl {
      return out + [Label(lvl, idx)];
    }
    Halves(bits, Label(lvl, idx));
    var mid := (lo + hi) / 2;
    out' := Descend(a, b, bits, mlvl, lo, mid, lvl + 1, idx * 2, out);
    out' := Descend(a, b, bits, mlvl, mid + 1, hi, lvl + 1, idx * 2 + 1, out');
  }

  method DyadicCover(a: int, b: int, bits: nat, mlvl: nat) returns (out: seq<Label>)
    requires 1 <= mlvl <= bits
    ensures out == Cover(a, b, bits, mlvl)
  {
    out := Descend(a, b, bits, mlvl, 0, Pow2(bits) - 1, 0, 0, []);
  }

  ghost predicate Ascending(bits: nat, cs: seq<Label>) {
    forall i, j :: 0 <= i < j < |cs| ==> Hi(bits, cs[i]) < Lo(bits, cs[j])
  }

  /** Whether one label of a list holds v. */
  ghost predicate Covers(bits: nat, cs: seq<Label>, v: int) {
    exists k :: 0 <= k < |cs| && Contains(bits, cs[k], v)
  }

  /** Stored intervals inside [lo, hi] in ascending order. */
  ghost predicate Shaped(bits: nat, mlvl: nat, cs: seq<Label>, lo: int, hi: int) {
    && (forall k :: 0 <= k < |cs| ==>
          Stored(bits, mlvl, cs[k]) && lo <= Lo(bits, cs[k]) <= Hi(bits, cs[k]) <= hi)
    && Ascending(bits, cs)
  }

  lemma ShapedConcat(bits: nat, mlvl: nat, x: seq<Label>, y: seq<Label>, lo: int, mid: int, hi: int)
    requires Shaped(bits, mlvl, x, lo, mid) && Shaped(bits, mlvl, y, mid + 1, hi) && lo <= mid < hi
    ensures Shaped(bits, mlvl, x + y, lo, hi)
  {
    hide Lo, Hi, Stored;
  }

  lemma ShapedOne(bits: nat, mlvl: nat, c: Label)
    requires c.level <= mlvl && 0 <= c.index < Pow2(c.level)
    ensures Shaped(bits, mlvl, [], Lo(bits, c), Hi(bits, c)) && Lo(bits, c) <= Hi(bits, c)
    ensures c.level >= 1 ==> Shaped(bits, mlvl, [c], Lo(bits, c), Hi(bits, c))
  {
    LoAtMostHi(bits, c);
  }

  /** Every appended interval lies inside the node, is stored, and they come in ascending order. */
  lemma {:induction false} CoverShape(a: int, b: int, bits: nat, mlvl: nat, c: Label)
    requires c.level <= mlvl <= bits && mlvl >= 1 && 0 <= c.index < Pow2(c.level)
    ensures Shaped(bits, mlvl, CoverBelow(a, b, bits, mlvl, c), Lo(bits, c), Hi(bits, c))
    decreases mlvl - c.level
  {
    hide Lo, Hi, Width, Shaped, Stored;
    ShapedOne(bits, mlvl, c);
    var lo, hi := Lo(bits, c), Hi(bits, c);
    if !(hi < a || lo > b) && !((a <= lo && hi <= b && c.level >= 1) || c.level == mlvl) {
      Halves(bits, c);
      var l, r := Label(c.level + 1, 2 * c.index), Label(c.level + 1, 2 * c.index + 1);
      CoverShape(a, b, bits, mlvl, l);
      CoverShape(a, b, bits, mlvl, r);
      ShapedConcat(bits, mlvl, CoverBelow(a, b, bits, mlvl, l), CoverBelow(a, b, bits, mlvl, r), lo, Hi(bits, l), hi);
    }
  }

  lemma CoverStored(a: int, b: int, bits: nat, mlvl: nat)
    requires 1 <= mlvl <= bits
    ensures forall d :: d in Cover(a, b, bits, mlvl) ==>
              Stored(bits, mlvl, d) && 0 <= Lo(bits, d) <= Hi(bits, d) < Pow2(bits)
    ensures Ascending(bits, Cover(a, b, bits, mlvl))
  {
    CoverShape(a, b, bits, mlvl, Label(0, 0));
  }

  /** Below one node the cover holds exactly the values whose leaf meets [a, b]. */
  lemma {:induction false} CoverBelowExact(a: int, b: int, bits: nat, mlvl: nat, c: Label, v: int)
    requires 1 <= mlvl <= bits && c.level <= mlvl && 0 <= c.index < Pow2(c.level)
    requires Contains(bits, c, v) && InDomain(bits, v)
    ensures Covers(bits, CoverBelow(a, b, bits, mlvl, c), v) <==> InHull(a, b, bits, mlvl, v)
    decreases mlvl - c.level
  {
    hide Lo, Hi, Width, LeafOf, Shaped;
    var lo, hi := Lo(bits, c), Hi(bits, c);
    var leaf := Label(mlvl, LeafOf(bits, mlvl, v));
    LeafWithin(bits, mlvl, c, v);
    if hi < a || lo > b {
    } else if (a <= lo && hi <= b && c.level >= 1) || c.level == mlvl {
      assert CoverBelow(a, b, bits, mlvl, c)[0] == c;
      OnlyLeaf(bits, mlvl, c, v);
    } else {
      Halves(bits, c);
      var l, r := Label(c.level + 1, 2 * c.index), Label(c.level + 1, 2 * c.index + 1);
      var cl, cr := CoverBelow(a, b, bits, mlvl, l), CoverBelow(a, b, bits, mlvl, r);
      CoversConcat(bits, cl, cr, v);
      if v <= Hi(bits, l) {
        CoverBelowExact(a, b, bits, mlvl, l, v);
        CoverStays(a, b, bits, mlvl, r, v);
      } else {
        CoverBelowExact(a, b, bits, mlvl, r, v);
        CoverStays(a, b, bits, mlvl, l, v);
      }
    }
  }

  lemma CoverStays(a: int, b: int, bits: nat, mlvl: nat, c: Label, v: int)
    requires 1 <= mlvl <= bits && c.level <= mlvl && 0 <= c.index < Pow2(c.level) && !Contains(bits, c, v)
    ensures !Covers(bits, CoverBelow(a, b, bits, mlvl, c), v)
  {
    hide Lo, Hi, CoverBelow;
    CoverShape(a, b, bits, mlvl, c);
  }

  lemma OnlyLeaf(bits: nat, mlvl: nat, c: Label, v: int)
    requires Contains(bits, c, v)
    ensures c.level == mlvl ==> c == Label(mlvl, LeafOf(bits, mlvl, v))
  {
    if c.level == mlvl {
      IndexOfValue(bits, mlvl, v);
      assert c == Label(mlvl, c.index);
    }
  }

  lemma CoversConcat(bits: nat, x: seq<Label>, y: seq<Label>, v: int)
    ensures Covers(bits, x + y, v) <==> Covers(bits, x, v) || Covers(bits, y, v)
  {
    forall k | 0 <= k < |x| && Contains(bits, x[k], v) ensures Covers(bits, x + y, v) {
      assert (x + y)[k] == x[k];
    }
    forall k | 0 <= k < |y| && Contains(bits, y[k], v) ensures Covers(bits, x + y, v) {
      assert (x + y)[|x| + k] == y[k];
    }
  }

  /** The leaf of a value lies inside every tree node holding the value. */
  lemma {:induction false} LeafWithin(bits: nat, mlvl: nat, c: Label, v: int)
    requires c.level <= mlvl <= bits && Contains(bits, c, v)
    ensures var leaf := Label(mlvl, LeafOf(bits, mlvl, v));
            Contains(bits, leaf, v) && Lo(bits, c) <= Lo(bits, leaf) <= Hi(bits, leaf) <= Hi(bits, c)
    decreases mlvl - c.level
  {
    IndexOfValue(bits, mlvl, v);
    if c.level == mlvl {
      IndexOfValue(bits, c.level, v);
    } else {
      Halves(bits, c);
      var l, r := Label(c.level + 1, 2 * c.index), Label(c.level + 1, 2 * c.index + 1);
      LeafWithin(bits, mlvl, if v <= Hi(bits, l) then l else r, v);
    }
  }

  /** A value is held by the cover exactly when its leaf meets [a, b], whatever a and b are. */
  lemma CoverExact(a: int, b: int, bits: nat, mlvl: nat, v: int)
    requires 1 <= mlvl <= bits
    ensures Covers(bits, Cover(a, b, bits, mlvl), v) <==> InHull(a, b, bits, mlvl, v)
  {
    var top := Label(0, 0);
    if InDomain(bits, v) {
      CoverBelowExact(a, b, bits, mlvl, top, v);
    } else {
      CoverStored(a, b, bits, mlvl);
    }
  }

  /** The labels a value and a cover have in common. */
  ghost function Shared(v: int, a: int, b: int, bits: nat, mlvl: nat): set<Label>
    requires mlvl <= bits
  {
    set c | c in Cover(a, b, bits, mlvl) && c in LevelsFor(v, bits, mlvl)
  }

  /** An indexed value meets a query's cover in exactly one label, or in none. */
  lemma SharesOneLabel(v: int, a: int, b: int, bits: nat, mlvl: nat)
    requires 1 <= mlvl <= bits
    ensures |Shared(v, a, b, bits, mlvl)| == if InHull(a, b, bits, mlvl, v) then 1 else 0
  {
    hide Lo, Hi, Width, InHull, Cover, LevelsFor;
    var cs := Cover(a, b, bits, mlvl);
    var shared := Shared(v, a, b, bits, mlvl);
    CoverStored(a, b, bits, mlvl);
    CoverExact(a, b, bits, mlvl, v);
    forall c | c in cs
      ensures c in shared <==> Contains(bits, c, v)
    {
      LevelsForContains(v, bits, mlvl, c);
    }
    if InHull(a, b, bits, mlvl, v) {
      var k :| 0 <= k < |cs| && Contains(bits, cs[k], v);
      forall c | c in shared ensures c == cs[k] {
        var j :| 0 <= j < |cs| && cs[j] == c;
        assert Contains(bits, cs[j], v);
      }
      assert shared == {cs[k]};
    } else {
      forall c | c in cs ensures c !in shared {
        var j :| 0 <= j < |cs| && cs[j] == c;
        assert !Contains(bits, cs[j], v);
      }
      assert shared == {};
    }
  }

  // ------------------------------------------------------------ size

  /** A node cut on one side only, or not at all, needs one interval a level. */
  lemma {:induction false} OneSidedSize(a: int, b: int, bits: nat, mlvl: nat, c: Label)
    requires c.level <= mlvl <= bits
    requires a <= Lo(bits, c) || Hi(bits, c) <= b
    requires c.level >= 1
    ensures |CoverBelow(a, b, bits, mlvl, c)| <= mlvl - c.level + 1
    ensures a <= Lo(bits, c) && Hi(bits, c) <= b ==> |CoverBelow(a, b, bits, mlvl, c)| <= 1
    decreases mlvl - c.level
  {
    hide Lo, Hi, Width;
    if c.level < mlvl {
      Halves(bits, c);
      OneSidedSize(a, b, bits, mlvl, Label(c.level + 1, 2 * c.index));
      OneSidedSize(a, b, bits, mlvl, Label(c.level + 1, 2 * c.index + 1));
    }
  }

  lemma {:induction false} TwoSidedSize(a: int, b: int, bits: nat, mlvl: nat, c: Label)
    requires c.level < mlvl <= bits
    ensures |CoverBelow(a, b, bits, mlvl, c)| <= 2 * (mlvl - c.level)
    decreases mlvl - c.level
  {
    hide Lo, Hi, Width;
    Halves(bits, c);
    var l, r := Label(c.level + 1, 2 * c.index), Label(c.level + 1, 2 * c.index + 1);
    if Hi(bits, l) < a {
      if r.level < mlvl {
        TwoSidedSize(a, b, bits, mlvl, r);
      }
    } else if b < Lo(bits, r) {
      if l.level < mlvl {
        TwoSidedSize(a, b, bits, mlvl, l);
      }
    } else {
      OneSidedSize(a, b, bits, mlvl, l);
      OneSidedSize(a, b, bits, mlvl, r);
    }
  }

  /** At most two intervals a level. */
  lemma CoverSize(a: int, b: int, bits: nat, mlvl: nat)
    requires 1 <= mlvl <= bits
    ensures |Cover(a, b, bits, mlvl)| <= 2 * mlvl
  {
    TwoSidedSize(a, b, bits, mlvl, Label(0, 0));
  }

  // ------------------------------------------------------------ minimality

  function Parent(c: Label): Label
    requires c.level >= 1
  {
    Label(c.level - 1, c.index / 2)
  }

  ghost predicate SetCovers(bits: nat, f: set<Label>, v: int) {
    exists c :: c in f && Contains(bits, c, v)
  }

  /** A set of stored intervals with the same union as the cover. */
  ghost predicate Rival(f: set<Label>, a: int, b: int, bits: nat, mlvl: nat)
    requires mlvl <= bits
  {
    && (forall c :: c in f ==> Stored(bits, mlvl, c))
    && (forall v: int :: SetCovers(bits, f, v) <==> Covers(bits, Cover(a, b, bits, mlvl), v))
  }

  /** No family of stored intervals with the same union is smaller. */
  ghost predicate Minimal(a: int, b: int, bits: nat, mlvl: nat)
    requires mlvl <= bits
  {
    forall f: set<Label> :: Rival(f, a, b, bits, mlvl) ==> |Cover(a, b, bits, mlvl)| <= |f|
  }

  /** The range starts inside a left leaf and reaches the leaf beside it: both leaves are listed where
      their parent, which the descent refuses because it sticks out of [a, b], would do. */
  predicate SplitsLeftEdge(a: int, b: int, bits: nat, mlvl: nat) {
    && mlvl >= 2 && InDomain(bits, a) && a % Width(bits, mlvl) != 0
    && LeafOf(bits, mlvl, a) % 2 == 0 && LeafOf(bits, mlvl, a) < LeafOf(bits, mlvl, b)
  }

  /** The same at the other end: the range stops inside a right leaf. */
  predicate SplitsRightEdge(a: int, b: int, bits: nat, mlvl: nat) {
    && mlvl >= 2 && InDomain(bits, b) && (b + 1) % Width(bits, mlvl) != 0
    && LeafOf(bits, mlvl, b) % 2 == 1 && LeafOf(bits, mlvl, a) < LeafOf(bits, mlvl, b)
  }

  lemma ParentHolds(bits: nat, c: Label)
    requires 1 <= c.level <= bits
    ensures Lo(bits, Parent(c)) <= Lo(bits, c) && Hi(bits, c) <= Hi(bits, Parent(c))
    ensures c == Label(c.level, 2 * Parent(c).index) || c == Label(c.level, 2 * Parent(c).index + 1)
  {
    Halves(bits, Parent(c));
  }

  /** Of two intervals with a common value the higher one holds the other. */
  lemma Nested(bits: nat, outer: Label, inner: Label, v: int)
    requires outer.level <= inner.level <= bits && Contains(bits, outer, v) && Contains(bits, inner, v)
    ensures Lo(bits, outer) <= Lo(bits, inner) && Hi(bits, inner) <= Hi(bits, outer)
  {
    IndexOfValue(bits, inner.level, v);
    assert inner == Label(inner.level, inner.index);
    LeafWithin(bits, inner.level, outer, v);
  }

  /** Why an interval was appended: it fits, or it is a leaf; and its parent did not fit. */
  lemma {:induction false} CoverReason(a: int, b: int, bits: nat, mlvl: nat, c: Label, d: Label)
    requires c.level <= mlvl <= bits && d in CoverBelow(a, b, bits, mlvl, c)
    ensures d.level >= c.level && Lo(bits, d) <= b && a <= Hi(bits, d)
    ensures d.level == mlvl || (a <= Lo(bits, d) && Hi(bits, d) <= b)
    ensures d != c && d.level >= 2 ==> !(a <= Lo(bits, Parent(d)) && Hi(bits, Parent(d)) <= b)
    decreases mlvl - c.level
  {
    hide Lo, Hi, Width;
    var lo, hi := Lo(bits, c), Hi(bits, c);
    if !((a <= lo && hi <= b && c.level >= 1) || c.level == mlvl) {
      var l, r := Label(c.level + 1, 2 * c.index), Label(c.level + 1, 2 * c.index + 1);
      if d in CoverBelow(a, b, bits, mlvl, l) {
        CoverReason(a, b, bits, mlvl, l, d);
        assert d == l ==> Parent(d) == c;
      } else {
        CoverReason(a, b, bits, mlvl, r, d);
        assert d == r ==> Parent(d) == c;
      }
    }
  }

  /** Asking for one interval of the tree is answered with that interval. */
  lemma {:induction false} CoverOfNode(bits: nat, mlvl: nat, c: Label, d: Label, v: int)
    requires 1 <= d.level <= mlvl <= bits && c.level <= d.level && Contains(bits, c, v) && Contains(bits, d, v)
    ensures d in CoverBelow(Lo(bits, d), Hi(bits, d), bits, mlvl, c)
    decreases d.level - c.level
  {
    hide Pow2;
    Nested(bits, c, d, v);
    if c.level == d.level {
      IndexOfValue(bits, d.level, v);
      assert c == Label(c.level, c.index) && d == Label(d.level, d.index);
    } else {
      Pow2Step(bits - d.level, bits - c.level);
      Halves(bits, c);
      var l, r := Label(c.level + 1, 2 * c.index), Label(c.level + 1, 2 * c.index + 1);
      CoverOfNode(bits, mlvl, if v <= Hi(bits, l) then l else r, d, v);
    }
  }

  /** A node above leaf level spans whole leaves, from an even one to an odd one. */
  lemma LeavesOfNode(bits: nat, mlvl: nat, p: Label) returns (first: int, last: int)
    requires p.level < mlvl <= bits
    ensures first % 2 == 0 && last % 2 == 1
    ensures Lo(bits, p) == Lo(bits, Label(mlvl, first)) && Hi(bits, p) == Hi(bits, Label(mlvl, last))
    ensures Lo(bits, Label(mlvl, first + 1)) <= Lo(bits, Label(mlvl, last))
  {
    hide Pow2;
    var w := Width(bits, mlvl);
    var half := Pow2(mlvl - p.level - 1);
    first, last := 2 * (p.index * half), 2 * (p.index * half) + 2 * half - 1;
    WidthOfNode(bits, mlvl, p.level);
    MulSwap(p.index, w, half);
    MulSpread(first, 2 * half, w);
    if first + 1 < last {
      MulStep(first + 1, last, w);
    }
  }

  lemma WidthOfNode(bits: nat, mlvl: nat, level: nat)
    requires level < mlvl <= bits
    ensures Width(bits, level) == Width(bits, mlvl) * (2 * Pow2(mlvl - level - 1))
  {
    Pow2Add(bits - mlvl, mlvl - level);
  }

  /** Leaves stand side by side. */
  lemma LeafEnds(bits: nat, mlvl: nat, i: int)
    ensures Width(bits, mlvl) >= 1 && Hi(bits, Label(mlvl, i)) == Lo(bits, Label(mlvl, i)) + Width(bits, mlvl) - 1
    ensures Lo(bits, Label(mlvl, i + 1)) == Lo(bits, Label(mlvl, i)) + Width(bits, mlvl)
    ensures Lo(bits, Label(mlvl, i - 1)) == Lo(bits, Label(mlvl, i)) - Width(bits, mlvl)
  {
    hide Pow2;
    var w := Width(bits, mlvl);
    assert (i + 1) * w == i * w + w && (i - 1) * w == i * w - w;
  }

  /** Of a leaf's values only the first is a multiple of the leaf width. */
  lemma LeafAligned(bits: nat, mlvl: nat, i: int, x: int)
    requires Contains(bits, Label(mlvl, i), x)
    ensures x % Width(bits, mlvl) == 0 <==> x == Lo(bits, Label(mlvl, i))
  {
    hide Pow2;
    var w := Width(bits, mlvl);
    DivisionUnique(x, w, i);
    assert x == (x / w) * w + x % w;
  }

  lemma MulSpread(first: int, count: int, w: int)
    ensures (first + count - 1) * w + w == first * w + w * count
  {
  }

  lemma MulSwap(i: int, w: int, half: int)
    ensures i * (w * (2 * half)) == (2 * (i * half)) * w
  {
  }

  /** Whether a value of leaf i is in the hull, in terms of the leaf's ends. */
  lemma HullOfLeaf(a: int, b: int, bits: nat, mlvl: nat, i: int, v: int)
    requires 1 <= mlvl <= bits && Contains(bits, Label(mlvl, i), v)
    ensures LeafOf(bits, mlvl, v) == i
    ensures InHull(a, b, bits, mlvl, v) <==>
              InDomain(bits, v) && Lo(bits, Label(mlvl, i)) <= b && a <= Hi(bits, Label(mlvl, i))
  {
    IndexOfValue(bits, mlvl, v);
  }

  lemma OutsideLeft(a: int, b: int, bits: nat, mlvl: nat, p: Label) returns (v: int)
    requires 1 <= p.level < mlvl <= bits && 0 <= Lo(bits, p) && Hi(bits, p) < Pow2(bits)
    requires Lo(bits, p) < a <= Hi(bits, p) && Lo(bits, p) <= b
    requires !SplitsLeftEdge(a, b, bits, mlvl)
    ensures Contains(bits, p, v) && !InHull(a, b, bits, mlvl, v)
  {
    hide Lo, Hi, Width, Pow2, InHull, LeafOf;
    var first, last := LeavesOfNode(bits, mlvl, p);
    LeafEnds(bits, mlvl, first);
    LeafEnds(bits, mlvl, first + 1);
    LeafEnds(bits, mlvl, last);
    if a > Hi(bits, Label(mlvl, first)) {
      v := Lo(bits, Label(mlvl, first));
      HullOfLeaf(a, b, bits, mlvl, first, v);
    } else {
      v := Lo(bits, Label(mlvl, first + 1));
      HullOfLeaf(a, b, bits, mlvl, first, a);
      LeafAligned(bits, mlvl, first, a);
      LeafNotBelow(b, bits, mlvl, first + 1);
      HullOfLeaf(a, b, bits, mlvl, first + 1, v);
    }
  }

  lemma OutsideRight(a: int, b: int, bits: nat, mlvl: nat, p: Label) returns (v: int)
    requires 1 <= p.level < mlvl <= bits && 0 <= Lo(bits, p) && Hi(bits, p) < Pow2(bits)
    requires Lo(bits, p) <= b < Hi(bits, p) && a <= Hi(bits, p)
    requires !SplitsRightEdge(a, b, bits, mlvl)
    ensures Contains(bits, p, v) && !InHull(a, b, bits, mlvl, v)
  {
    hide Lo, Hi, Width, Pow2, InHull, LeafOf;
    var first, last := LeavesOfNode(bits, mlvl, p);
    LeafEnds(bits, mlvl, first);
    LeafEnds(bits, mlvl, last);
    LeafEnds(bits, mlvl, last - 1);
    if b < Lo(bits, Label(mlvl, last)) {
      v := Lo(bits, Label(mlvl, last));
      HullOfLeaf(a, b, bits, mlvl, last, v);
    } else {
      v := Hi(bits, Label(mlvl, last - 1));
      HullOfLeaf(a, b, bits, mlvl, last, b);
      LeafAligned(bits, mlvl, last, b + 1);
      LeafNotBelow(a, bits, mlvl, last);
      HullOfLeaf(a, b, bits, mlvl, last - 1, v);
    }
  }

  lemma LeafNotBelow(a: int, bits: nat, mlvl: nat, i: int)
    requires mlvl <= bits
    ensures LeafOf(bits, mlvl, a) >= i <==> a >= Lo(bits, Label(mlvl, i))
  {
    hide Pow2;
    var w := Width(bits, mlvl);
    var q := LeafOf(bits, mlvl, a);
    DivisionUnique(a, w, q);
    if q < i {
      MulStep(q, i, w);
    } else if q > i {
      MulStep(i, q, w);
    }
  }

  /** Unless an edge is split, the parent of an appended interval reaches outside the hull. */
  lemma ParentSticksOut(a: int, b: int, bits: nat, mlvl: nat, d: Label) returns (v: int)
    requires 1 <= mlvl <= bits && d in Cover(a, b, bits, mlvl) && d.level >= 2
    requires !SplitsLeftEdge(a, b, bits, mlvl) && !SplitsRightEdge(a, b, bits, mlvl)
    ensures Contains(bits, Parent(d), v) && !InHull(a, b, bits, mlvl, v)
  {
    hide Lo, Hi, Width;
    var p := Parent(d);
    CoverStored(a, b, bits, mlvl);
    CoverReason(a, b, bits, mlvl, Label(0, 0), d);
    ParentHolds(bits, d);
    LoAtMostHi(bits, d);
    NodeInDomain(bits, p);
    if Lo(bits, p) < a {
      v := OutsideLeft(a, b, bits, mlvl, p);
    } else {
      v := OutsideRight(a, b, bits, mlvl, p);
    }
  }

  lemma NodeInDomain(bits: nat, p: Label)
    requires p.level <= bits && 0 <= p.index < Pow2(p.level)
    ensures 0 <= Lo(bits, p) <= Hi(bits, p) < Pow2(bits)
  {
    var w := Width(bits, p.level);
    Pow2Add(p.level, bits - p.level);
    assert w == Pow2(bits - p.level);
    MulStep(p.index, Pow2(p.level), w);
    assert 0 <= p.index * w;
  }

  lemma RivalPicks(f: set<Label>, a: int, b: int, bits: nat, mlvl: nat, n: nat) returns (g: set<Label>)
    requires 1 <= mlvl <= bits && n <= |Cover(a, b, bits, mlvl)|
    requires Rival(f, a, b, bits, mlvl)
    requires !SplitsLeftEdge(a, b, bits, mlvl) && !SplitsRightEdge(a, b, bits, mlvl)
    ensures g <= f && |g| == n
    ensures forall c :: c in g ==>
              n > 0 && Stored(bits, mlvl, c) && Hi(bits, c) <= Hi(bits, Cover(a, b, bits, mlvl)[n - 1])
  {
    var cs := Cover(a, b, bits, mlvl);
    if n == 0 {
      g := {};
    } else {
      g := RivalPicks(f, a, b, bits, mlvl, n - 1);
      var c := RivalInside(f, a, b, bits, mlvl, cs[n - 1]);
      CoverStored(a, b, bits, mlvl);
      forall x | x in g ensures x != c && Hi(bits, x) <= Hi(bits, cs[n - 1]) {
        LoAtMostHi(bits, c);
        LoAtMostHi(bits, cs[n - 1]);
      }
      g := g + {c};
    }
  }

  predicate Inside(bits: nat, c: Label, d: Label) {
    Lo(bits, d) <= Lo(bits, c) && Hi(bits, c) <= Hi(bits, d)
  }

  /** Every interval of the cover holds a whole interval of any rival family. */
  lemma RivalInside(f: set<Label>, a: int, b: int, bits: nat, mlvl: nat, d: Label) returns (c: Label)
    requires 1 <= mlvl <= bits && d in Cover(a, b, bits, mlvl) && Rival(f, a, b, bits, mlvl)
    requires !SplitsLeftEdge(a, b, bits, mlvl) && !SplitsRightEdge(a, b, bits, mlvl)
    ensures c in f && Inside(bits, c, d)
  {
    hide Lo, Hi, Width;
    var cs := Cover(a, b, bits, mlvl);
    CoverStored(a, b, bits, mlvl);
    LoAtMostHi(bits, d);
    var k :| 0 <= k < |cs| && cs[k] == d;
    var v := Lo(bits, d);
    assert Contains(bits, cs[k], v) && Covers(bits, cs, v);
    c :| c in f && Contains(bits, c, v);
    if c.level < d.level {
      var u := ParentSticksOut(a, b, bits, mlvl, d);
      ParentHolds(bits, d);
      Nested(bits, c, Parent(d), v);
      assert c in f && Contains(bits, c, u);
      CoverExact(a, b, bits, mlvl, u);
      assert false;
    } else {
      Nested(bits, d, c, v);
    }
  }

  lemma UnsplitIsMinimal(a: int, b: int, bits: nat, mlvl: nat)
    requires 1 <= mlvl <= bits
    requires !SplitsLeftEdge(a, b, bits, mlvl) && !SplitsRightEdge(a, b, bits, mlvl)
    ensures Minimal(a, b, bits, mlvl)
  {
    forall f: set<Label> | Rival(f, a, b, bits, mlvl)
      ensures |Cover(a, b, bits, mlvl)| <= |f|
    {
      var n := |Cover(a, b, bits, mlvl)|;
      var g := RivalPicks(f, a, b, bits, mlvl, n);
      SubsetSize(g, f);
    }
  }

  /** Swapping two sibling leaves for their parent leaves the union as it is. */
  lemma MergedUnion(bits: nat, all: set<Label>, l: Label, r: Label, p: Label, v: int)
    requires l in all && r in all
    requires Contains(bits, p, v) <==> Contains(bits, l, v) || Contains(bits, r, v)
    ensures SetCovers(bits, all - {l, r} + {p}, v) <==> SetCovers(bits, all, v)
  {
    var f := all - {l, r} + {p};
    if c :| c in all && Contains(bits, c, v) {
      assert p in f;
      assert c in f || c == l || c == r;
    }
  }

  lemma SiblingUnion(bits: nat, mlvl: nat, i: int, v: int)
    requires 2 <= mlvl <= bits && i % 2 == 0
    ensures Contains(bits, Label(mlvl - 1, i / 2), v) <==>
              Contains(bits, Label(mlvl, i), v) || Contains(bits, Label(mlvl, i + 1), v)
  {
    Halves(bits, Label(mlvl - 1, i / 2));
  }

  lemma ParentStored(bits: nat, mlvl: nat, i: int)
    requires 2 <= mlvl <= bits && Stored(bits, mlvl, Label(mlvl, i))
    ensures Stored(bits, mlvl, Label(mlvl - 1, i / 2))
  {
  }

  lemma MergedSize(all: set<Label>, l: Label, r: Label, p: Label)
    requires l in all && r in all && l != r
    ensures |all - {l, r} + {p}| < |all|
  {
    assert all - {l, r} == all - {l} - {r};
  }

  /** Two sibling leaves in one cover: their parent alone makes a smaller family. */
  lemma SiblingsMerge(a: int, b: int, bits: nat, mlvl: nat, i: int)
    requires 2 <= mlvl <= bits && i % 2 == 0
    requires Label(mlvl, i) in Cover(a, b, bits, mlvl) && Label(mlvl, i + 1) in Cover(a, b, bits, mlvl)
    ensures !Minimal(a, b, bits, mlvl)
  {
    hide Contains, Cover, Covers, SetCovers, Stored;
    var cs := Cover(a, b, bits, mlvl);
    var l, r, p := Label(mlvl, i), Label(mlvl, i + 1), Label(mlvl - 1, i / 2);
    CoverStored(a, b, bits, mlvl);
    DistinctCardinality(bits, cs);
    var all := set c | c in cs;
    MergedSize(all, l, r, p);
    ParentStored(bits, mlvl, i);
    forall v: int
      ensures SetCovers(bits, all - {l, r} + {p}, v) <==> Covers(bits, cs, v)
    {
      SiblingUnion(bits, mlvl, i, v);
      MergedUnion(bits, all, l, r, p, v);
      CoversAsSet(bits, cs, v);
    }
    SmallerRival(all - {l, r} + {p}, a, b, bits, mlvl);
  }

  lemma SmallerRival(f: set<Label>, a: int, b: int, bits: nat, mlvl: nat)
    requires mlvl <= bits && |f| < |Cover(a, b, bits, mlvl)|
    requires forall c :: c in f ==> Stored(bits, mlvl, c)
    requires forall v: int :: SetCovers(bits, f, v) <==> Covers(bits, Cover(a, b, bits, mlvl), v)
    ensures !Minimal(a, b, bits, mlvl)
  {
    hide Contains, Cover, Covers, Stored, SetCovers;
    assert Rival(f, a, b, bits, mlvl);
  }

  lemma CoversAsSet(bits: nat, cs: seq<Label>, v: int)
    ensures Covers(bits, cs, v) <==> SetCovers(bits, (set x | x in cs), v)
  {
    var all := set x | x in cs;
    if c :| c in all && Contains(bits, c, v) {
      var k :| 0 <= k < |cs| && cs[k] == c;
    }
    if Covers(bits, cs, v) {
      var k :| 0 <= k < |cs| && Contains(bits, cs[k], v);
      assert cs[k] in all;
    }
  }

  lemma {:induction false} DistinctCardinality(bits: nat, cs: seq<Label>)
    requires Ascending(bits, cs)
    ensures |set c | c in cs| == |cs|
  {
    hide Lo, Hi;
    forall i, j | 0 <= i < j < |cs| ensures cs[i] != cs[j] {
      LoAtMostHi(bits, cs[i]);
    }
    DistinctSize(cs);
    assert Elements(cs) == set c | c in cs;
  }

  /** A leaf the hull reaches whose parent does not fit in [a, b] is listed itself. */
  lemma LeafListed(a: int, b: int, bits: nat, mlvl: nat, i: int, v: int)
    requires 1 <= mlvl <= bits && Contains(bits, Label(mlvl, i), v) && InHull(a, b, bits, mlvl, v)
    requires !(a <= Lo(bits, Parent(Label(mlvl, i))) && Hi(bits, Parent(Label(mlvl, i))) <= b)
    ensures Label(mlvl, i) in Cover(a, b, bits, mlvl)
  {
    hide Lo, Hi, Width;
    var cs := Cover(a, b, bits, mlvl);
    CoverExact(a, b, bits, mlvl, v);
    var k :| 0 <= k < |cs| && Contains(bits, cs[k], v);
    var c := cs[k];
    CoverReason(a, b, bits, mlvl, Label(0, 0), c);
    IndexOfValue(bits, mlvl, v);
    if c.level == mlvl {
      assert c == Label(mlvl, c.index);
    } else {
      Nested(bits, c, Label(mlvl, i), v);
      ParentHolds(bits, Label(mlvl, i));
      Nested(bits, c, Parent(Label(mlvl, i)), v);
      assert false;
    }
  }

  lemma SplitLeftIsNotMinimal(a: int, b: int, bits: nat, mlvl: nat)
    requires 1 <= mlvl <= bits && SplitsLeftEdge(a, b, bits, mlvl)
    ensures !Minimal(a, b, bits, mlvl)
  {
    hide Lo, Hi, Width, Pow2, InHull, LeafOf, Minimal, Cover;
    var i := LeafOf(bits, mlvl, a);
    var l, r := Label(mlvl, i), Label(mlvl, i + 1);
    InItsLeaf(bits, mlvl, a);
    LeafEnds(bits, mlvl, i);
    LeafEnds(bits, mlvl, i + 1);
    LeafAligned(bits, mlvl, i, a);
    LeafNotBelow(b, bits, mlvl, i + 1);
    Halves(bits, Parent(l));
    assert Parent(r) == Parent(l) == Label(mlvl - 1, i / 2) && Label(mlvl, 2 * (i / 2)) == l;
    HullOfLeaf(a, b, bits, mlvl, i, a);
    LeafListed(a, b, bits, mlvl, i, a);
    LeafInDomain(bits, mlvl, a);
    NodeInDomain(bits, r);
    HullOfLeaf(a, b, bits, mlvl, i + 1, Lo(bits, r));
    LeafListed(a, b, bits, mlvl, i + 1, Lo(bits, r));
    SiblingsMerge(a, b, bits, mlvl, i);
  }

  lemma InItsLeaf(bits: nat, mlvl: nat, v: int)
    ensures Contains(bits, Label(mlvl, LeafOf(bits, mlvl, v)), v)
  {
    IndexOfValue(bits, mlvl, v);
  }

  lemma LeafInDomain(bits: nat, mlvl: nat, a: int)
    requires 1 <= mlvl <= bits && InDomain(bits, a)
    ensures 0 <= LeafOf(bits, mlvl, a) < Pow2(mlvl)
    ensures LeafOf(bits, mlvl, a) % 2 == 0 ==> LeafOf(bits, mlvl, a) + 1 < Pow2(mlvl)
  {
    LeafNotBelow(a, bits, mlvl, 0);
    Pow2Add(mlvl, bits - mlvl);
    LeafNotBelow(a, bits, mlvl, Pow2(mlvl));
    assert Pow2(mlvl) == 2 * Pow2(mlvl - 1);
  }

  lemma SplitRightIsNotMinimal(a: int, b: int, bits: nat, mlvl: nat)
    requires 1 <= mlvl <= bits && SplitsRightEdge(a, b, bits, mlvl)
    ensures !Minimal(a, b, bits, mlvl)
  {
    hide Lo, Hi, Width, Pow2, InHull, LeafOf, Minimal, Cover;
    var i := LeafOf(bits, mlvl, b);
    var l, r := Label(mlvl, i - 1), Label(mlvl, i);
    InItsLeaf(bits, mlvl, b);
    LeafEnds(bits, mlvl, i);
    LeafEnds(bits, mlvl, i - 1);
    LeafNotBelow(a, bits, mlvl, i);
    assert b != Hi(bits, r) by {
      LeafEnds(bits, mlvl, i + 1);
      if b == Hi(bits, r) { LeafAligned(bits, mlvl, i + 1, b + 1); }
    }
    Halves(bits, Parent(r));
    assert Parent(l) == Parent(r) == Label(mlvl - 1, i / 2) && Label(mlvl, 2 * (i / 2) + 1) == r;
    HullOfLeaf(a, b, bits, mlvl, i, b);
    LeafListed(a, b, bits, mlvl, i, b);
    LeafInDomain(bits, mlvl, b);
    NodeInDomain(bits, l);
    HullOfLeaf(a, b, bits, mlvl, i - 1, Hi(bits, l));
    LeafListed(a, b, bits, mlvl, i - 1, Hi(bits, l));
    SiblingsMerge(a, b, bits, mlvl, i - 1);
  }

  /** Exactly when the cover is minimal: for every range that splits no pair of sibling leaves at an end,
      in particular for leaf-aligned ones. */
  lemma MinimalExactly(a: int, b: int, bits: nat, mlvl: nat)
    requires 1 <= mlvl <= bits
    ensures Minimal(a, b, bits, mlvl) <==> !SplitsLeftEdge(a, b, bits, mlvl) && !SplitsRightEdge(a, b, bits, mlvl)
  {
    if SplitsLeftEdge(a, b, bits, mlvl) {
      SplitLeftIsNotMinimal(a, b, bits, mlvl);
    } else if SplitsRightEdge(a, b, bits, mlvl) {
      SplitRightIsNotMinimal(a, b, bits, mlvl);
    } else {
      UnsplitIsMinimal(a, b, bits, mlvl);
    }
  }

  /** [1, 2] over leaves of width 2 in [0, 8): two leaves are listed where their parent would do. */
  lemma NotAlwaysMinimal()
    ensures !Minimal(1, 2, 3, 2)
  {
    assert Pow2(1) == 2 * Pow2(0) == 2;
    assert Pow2(3) == 2 * Pow2(2) && Pow2(2) == 2 * Pow2(1);
    assert Width(3, 2) == 2;
    MinimalExactly(1, 2, 3, 2);
  }

  // ------------------------------------------------------------ strings

  /** Five-bit code of a character: letters count from 1 whatever their case, everything else is 0. */
  function Char5(c: char): (code: nat)
    ensures code < 32
  {
    if 'a' <= c <= 'z' then (c - 'a') as nat + 1
    else if 'A' <= c <= 'Z' then (c - 'A') as nat + 1
    else 0
  }

  const LOWER: string := "abcdefghijklmnopqrstuvwxyz"
  const UPPER: string := "ABCDEFGHIJKLMNOPQRSTUVWXYZ"

  lemma LowerAt(i: nat)
    requires i < 26
    ensures |LOWER| == 26 && LOWER[i] == 'a' + i as char
  {
    assert forall k :: 0 <= k < 26 ==> LOWER[k] == 'a' + k as char;
  }

  lemma UpperAt(i: nat)
    requires i < 26
    ensures |UPPER| == 26 && UPPER[i] == 'A' + i as char
  {
    assert forall k :: 0 <= k < 26 ==> UPPER[k] == 'A' + k as char;
  }

  /** The letters of the alphabet have the codes 1 to 26 in their order, in both cases; everything else has 0. */
  lemma LettersFold(c: char, i: nat)
    ensures |LOWER| == |UPPER| == 26 && (i < 26 ==> Char5(LOWER[i]) == Char5(UPPER[i]) == i + 1)
    ensures c !in LOWER && c !in UPPER ==> Char5(c) == 0
  {
    hide LOWER, UPPER;
    LowerAt(0);
    UpperAt(0);
    if i < 26 {
      LowerAt(i);
      UpperAt(i);
    }
    if 'a' <= c <= 'z' {
      LowerAt((c - 'a') as int);
    } else if 'A' <= c <= 'Z' {
      UpperAt((c - 'A') as int);
    }
  }

  /** Code at position i, 0 past the end of the string. */
  function CodeAt(s: string, i: nat): (code: nat)
    ensures code < 32
  {
    if i < |s| then Char5(s[i]) else 0
  }

  /** The first n codes as digits in base 32. */
  function Encoded(s: string, n: nat): nat {
    if n == 0 then 0 else 32 * Encoded(s, n - 1) + CodeAt(s, n - 1)
  }

  method EncodeStr(s: string, chars: nat) returns (v: nat)
    ensures v == Encoded(s, chars)
  {
    v := 0;
    for i := 0 to chars
      invariant v == Encoded(s, i)
    {
      v := v * 32 + (if i < |s| then Char5(s[i]) else 0);
    }
  }

  /** The smallest and largest encodings of n characters that start with the prefix's codes. */
  function PrefixBounds(prefix: string, n: nat): (int, int) {
    if n == 0 then (0, 0)
    else
      var (lo, hi) := PrefixBounds(prefix, n - 1);
      if n - 1 < |prefix| then (32 * lo + Char5(prefix[n - 1]), 32 * hi + Char5(prefix[n - 1]))
      else (32 * lo, 32 * hi + 31)
  }

  method PrefixRange(prefix: string, chars: nat) returns (lo: int, hi: int)
    ensures (lo, hi) == PrefixBounds(prefix, chars)
  {
    lo, hi := 0, 0;
    for i := 0 to chars
      invariant (lo, hi) == PrefixBounds(prefix, i)
    {
      if i < |prefix| {
        lo := lo * 32 + Char5(prefix[i]);
        hi := hi * 32 + Char5(prefix[i]);
      } else {
        lo := lo * 32;
        hi := hi * 32 + 31;
      }
    }
  }

  /** Every stored character of the prefix has the same code in the string. */
  ghost predicate SharesPrefix(s: string, prefix: string, chars: nat) {
    forall i :: 0 <= i < Min(|prefix|, chars) ==> CodeAt(s, i) == Char5(prefix[i])
  }

  lemma {:induction false} PrefixPoint(prefix: string, n: nat)
    requires n <= |prefix|
    ensures PrefixBounds(prefix, n).0 == PrefixBounds(prefix, n).1
  {
    if n > 0 {
      PrefixPoint(prefix, n - 1);
    }
  }

  /** A string's encoding lies in a prefix's range exactly when it shares the prefix's codes. */
  lemma {:induction false} PrefixRangeExact(s: string, prefix: string, chars: nat)
    ensures var (lo, hi) := PrefixBounds(prefix, chars);
            lo <= Encoded(s, chars) <= hi <==> SharesPrefix(s, prefix, chars)
  {
    if chars > 0 {
      PrefixRangeExact(s, prefix, chars - 1);
      if chars <= |prefix| {
        PrefixPoint(prefix, chars - 1);
      }
    }
  }

  /** Encodings fit the field's 5 * chars bits. */
  lemma {:induction false} EncodedInDomain(s: string, chars: nat)
    ensures InDomain(5 * chars, Encoded(s, chars))
  {
    if chars > 0 {
      EncodedInDomain(s, chars - 1);
      FiveMoreBits(5 * (chars - 1));
    }
  }

  lemma FiveMoreBits(k: nat)
    ensures Pow2(k + 5) == 32 * Pow2(k)
  {
    assert Pow2(k + 5) == 2 * Pow2(k + 4) && Pow2(k + 4) == 2 * Pow2(k + 3) && Pow2(k + 3) == 2 * Pow2(k + 2);
    assert Pow2(k + 2) == 2 * Pow2(k + 1);
  }
}
