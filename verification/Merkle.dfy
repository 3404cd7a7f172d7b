/** The append-only log of blindrange/merkle.py.

    Digests are terms of a free algebra, so hashing is collision-free by construction; Raw stands for
    any 32 bytes that are not the output of a hash the log ever computed. */
module Merkle {
  import opened Basics

  type Entry = seq<bv8>

  datatype Digest =
    | EmptyHash
    | LeafHash(entry: Entry)
    | NodeHash(left: Digest, right: Digest)
    | Raw(bytes: seq<bv8>)

  // ------------------------------------------------------------ the tree

  /** Largest power of two strictly below n. */
  function SplitPoint(n: nat): (k: nat)
    requires n >= 2
    ensures 1 <= k < n <= 2 * k
  {
    if n == 2 then 1 else 2 * SplitPoint((n + 1) / 2)
  }

  lemma {:induction false} SplitIsPowerOfTwo(n: nat) returns (t: nat)
    requires n >= 2
    ensures SplitPoint(n) == Pow2(t)
  {
    if n == 2 {
      t := 0;
    } else {
      t := SplitIsPowerOfTwo((n + 1) / 2);
      t := t + 1;
    }
  }

  /** A power of two k with k < n <= 2k is the split point. */
  lemma SplitUnique(n: nat, t: nat)
    requires n >= 2 && Pow2(t) < n <= 2 * Pow2(t)
    ensures SplitPoint(n) == Pow2(t)
  {
    var s := SplitIsPowerOfTwo(n);
    Pow2Unique(s, t);
  }

  /** The doubling loop finds the split point; below 2 it leaves k at 1. */
  method Split(n: nat) returns (k: nat)
    ensures n >= 2 ==> k == SplitPoint(n)
    ensures n < 2 ==> k == 1
  {
    k := 1;
    ghost var t := 0;
    while 2 * k < n
      invariant k == Pow2(t)
      invariant n >= 2 ==> k < n
      invariant n < 2 ==> k == 1
      decreases n - k
    {
      k := 2 * k;
      t := t + 1;
    }
    if n >= 2 {
      SplitUnique(n, t);
    }
  }

  function Root(hashes: seq<Digest>): Digest {
    if |hashes| == 0 then EmptyHash
    else if |hashes| == 1 then hashes[0]
    else
      var k := SplitPoint(|hashes|);
      NodeHash(Root(hashes[..k]), Root(hashes[k..]))
  }

  lemma RootSplit(hashes: seq<Digest>)
    requires |hashes| >= 2
    ensures var k := SplitPoint(|hashes|); Root(hashes) == NodeHash(Root(hashes[..k]), Root(hashes[k..]))
  {
    hide SplitPoint;
  }

  /** Trees over equally many leaves have the same head only when the leaves are the same. */
  lemma {:induction false} RootInjective(a: seq<Digest>, b: seq<Digest>)
    requires |a| == |b| && Root(a) == Root(b)
    ensures a == b
    decreases |a|
  {
    if |a| >= 2 {
      var k := SplitPoint(|a|);
      RootInjective(a[..k], b[..k]);
      RootInjective(a[k..], b[k..]);
      assert a == a[..k] + a[k..] && b == b[..k] + b[k..];
    }
  }

  // ------------------------------------------------------------ paths

  /** Which child the running node is when it meets the next sibling. */
  datatype Side = Left | Right

  /** The sides met from leaf m to the head of an n-leaf tree, bottom first, read off the recursive split. */
  function TreePath(m: nat, n: nat): seq<Side>
    requires m < n
    decreases n
  {
    if n == 1 then []
    else
      var k := SplitPoint(n);
      if m < k then TreePath(m, k) + [Left] else TreePath(m - k, n - k) + [Right]
  }

  /** What one level adds to the path: nothing when the node is promoted as the last of an odd level. */
  function Emitted(index: nat, size: nat): seq<Side> {
    if index % 2 == 1 then [Right] else if index + 1 == size then [] else [Left]
  }

  /** The same sides read off the bits of the index and the level sizes. */
  function BitPath(index: nat, size: nat): seq<Side>
    requires index < size
    decreases size
  {
    if size == 1 then [] else Emitted(index, size) + BitPath(index / 2, (size + 1) / 2)
  }

  lemma {:induction false} BitPathEmpty(index: nat, size: nat)
    requires index < size
    ensures BitPath(index, size) == [] <==> size == 1
    decreases size
  {
    if size > 1 && index % 2 == 0 && index + 1 == size {
      BitPathEmpty(index / 2, (size + 1) / 2);
    }
  }

  /** A split point above 1 halves with its level. */
  lemma SplitHalves(size: nat)
    requires size > 2
    ensures var k, h := SplitPoint(size), SplitPoint((size + 1) / 2);
            k == 2 * h && (k + 1) / 2 == h && (size - k + 1) / 2 == (size + 1) / 2 - h
  {
  }

  lemma HalfBelow(index: nat, k: nat, h: nat)
    requires k == 2 * h
    ensures index < k <==> index / 2 < h
    ensures index >= k ==> (index - k) / 2 == index / 2 - h && (index - k) % 2 == index % 2
  {
  }

  /** Bits satisfy the recursion of the tree: the top of the path is decided by the split. */
  lemma {:induction false} BitPathLeft(index: nat, size: nat)
    requires size >= 2 && index < SplitPoint(size)
    ensures BitPath(index, size) == BitPath(index, SplitPoint(size)) + [Left]
    decreases size
  {
    var k := SplitPoint(size);
    if size == 2 {
      assert BitPath(0, 1) == [];
    } else {
      var half, h := (size + 1) / 2, SplitPoint((size + 1) / 2);
      SplitHalves(size);
      HalfBelow(index, k, h);
      BitPathLeft(index / 2, half);
      assert Emitted(index, size) == Emitted(index, k);
      assert BitPath(index, k) == Emitted(index, k) + BitPath(index / 2, h);
    }
  }

  lemma {:induction false} BitPathRight(index: nat, size: nat)
    requires size >= 2 && SplitPoint(size) <= index < size
    ensures BitPath(index, size) == BitPath(index - SplitPoint(size), size - SplitPoint(size)) + [Right]
    decreases size
  {
    hide BitPath, Emitted;
    var k := SplitPoint(size);
    BitPathStep(index, size);
    BitPathTop();
    if size == 2 {
      assert Emitted(1, 2) == [Right] by { EmittedRight(1, 2); }
    } else {
      var half, h := (size + 1) / 2, SplitPoint((size + 1) / 2);
      SplitHalves(size);
      HalfBelow(index, k, h);
      BitPathRight(index / 2, half);
      EmittedRight(index, size);
      if size - k == 1 {
        assert [] + [Right] == [Right];
      } else {
        BitPathStep(index - k, size - k);
        EmittedRight(index - k, size - k);
      }
    }
  }

  lemma BitPathStep(index: nat, size: nat)
    requires index < size && size > 1
    ensures BitPath(index, size) == Emitted(index, size) + BitPath(index / 2, (size + 1) / 2)
  {
  }

  lemma BitPathTop()
    ensures BitPath(0, 1) == []
  {
  }

  lemma EmittedRight(index: nat, size: nat)
    ensures Emitted(index, size) == if index % 2 == 1 then [Right] else if index + 1 == size then [] else [Left]
  {
  }

  /** The verifiers' bit arithmetic walks exactly the path of the recursive tree. */
  lemma {:induction false} PathsAgree(m: nat, n: nat)
    requires m < n
    ensures BitPath(m, n) == TreePath(m, n)
    decreases n
  {
    if n >= 2 {
      var k := SplitPoint(n);
      if m < k {
        BitPathLeft(m, n);
        PathsAgree(m, k);
      } else {
        BitPathRight(m, n);
        PathsAgree(m - k, n - k);
      }
    }
  }

  function Combine(side: Side, h: Digest, sibling: Digest): Digest {
    if side == Left then NodeHash(h, sibling) else NodeHash(sibling, h)
  }

  /** The head rebuilt from h and one sibling per side. */
  function Climb(h: Digest, sides: seq<Side>, siblings: seq<Digest>): Digest
    requires |sides| == |siblings|
    decreases |sides|
  {
    if |sides| == 0 then h
    else
      var last := |sides| - 1;
      Combine(sides[last], Climb(h, sides[..last], siblings[..last]), siblings[last])
  }

  lemma ClimbLast(h: Digest, sides: seq<Side>, side: Side, siblings: seq<Digest>, sibling: Digest)
    requires |sides| == |siblings|
    ensures Climb(h, sides + [side], siblings + [sibling]) == Combine(side, Climb(h, sides, siblings), sibling)
  {
    assert (sides + [side])[..|sides|] == sides;
    assert (siblings + [sibling])[..|siblings|] == siblings;
  }

  function Rights(j: nat): seq<Side> {
    seq(j, _ => Right)
  }

  // ------------------------------------------------------------ inclusion

  /** The audit path of leaf m, bottom sibling first. */
  function AuditPath(hashes: seq<Digest>, m: nat): (p: seq<Digest>)
    requires m < |hashes|
    ensures |p| == |TreePath(m, |hashes|)|
    decreases |hashes|
  {
    var n := |hashes|;
    if n == 1 then []
    else
      var k := SplitPoint(n);
      if m < k then AuditPath(hashes[..k], m) + [Root(hashes[k..])]
      else AuditPath(hashes[k..], m - k) + [Root(hashes[..k])]
  }

  function InclusionProof(hashes: seq<Digest>, m: int): Result<seq<Digest>, string> {
    if !(0 <= m < |hashes|) then Failure("leaf out of range") else Success(AuditPath(hashes, m))
  }

  /** The first j sides a verifier takes: the path, then right turns for siblings beyond it. */
  function SidesTaken(path: seq<Side>, j: nat): (sides: seq<Side>)
    ensures |sides| == j
  {
    if j <= |path| then path[..j] else path + Rights(j - |path|)
  }

  /** What the inclusion verifier accepts: at least a full path, siblings beyond it folded in on the left. */
  ghost predicate InclusionAccepted(leaf: Digest, m: int, n: int, proof: seq<Digest>, head: Digest) {
    && 0 <= m < n
    && |TreePath(m, n)| <= |proof|
    && Climb(leaf, SidesTaken(TreePath(m, n), |proof|), proof) == head
  }

  /** After j siblings the verifier's index and size still encode the rest of the path. */
  ghost predicate RestOfPath(index: int, size: int, path: seq<Side>, j: nat) {
    && 0 <= index < size
    && BitPath(index, size) == path[Min(j, |path|)..]
  }

  lemma PromotedKeepsRest(index: nat, size: nat, path: seq<Side>, j: nat)
    requires RestOfPath(index, size, path, j)
    requires size > 1 && index % 2 == 0 && index + 1 == size
    ensures RestOfPath(index / 2, (size + 1) / 2, path, j)
  {
    assert BitPath(index, size) == BitPath(index / 2, (size + 1) / 2);
  }

  /** A node that is not promoted settles the next side and leaves the rest to its parent. */
  lemma NextSide(index: nat, size: nat, path: seq<Side>, j: nat)
    requires RestOfPath(index, size, path, j)
    requires size > 1 && (index % 2 == 1 || index + 1 < size)
    ensures j < |path| && path[j] == if index % 2 == 1 then Right else Left
    ensures RestOfPath(index / 2, (size + 1) / 2, path, j + 1)
  {
    var rest := BitPath(index, size);
    assert rest == Emitted(index, size) + BitPath(index / 2, (size + 1) / 2);
    assert rest[1..] == BitPath(index / 2, (size + 1) / 2);
    assert rest[0] == path[j];
    assert path[j..][1..] == path[j + 1..];
  }

  /** At the head only surplus siblings remain. */
  lemma AtHead(index: nat, size: nat, path: seq<Side>, j: nat)
    requires RestOfPath(index, size, path, j)
    ensures size == 1 <==> j >= |path|
    ensures size == 1 ==> RestOfPath(index / 2, (size + 1) / 2, path, j + 1)
  {
    BitPathEmpty(index, size);
  }

  /** The running hash after j siblings. */
  ghost predicate Climbed(h: Digest, leaf: Digest, path: seq<Side>, proof: seq<Digest>, j: nat)
    requires j <= |proof|
  {
    h == Climb(leaf, SidesTaken(path, j), proof[..j])
  }

  lemma ClimbedAll(h: Digest, leaf: Digest, path: seq<Side>, proof: seq<Digest>)
    requires Climbed(h, leaf, path, proof, |proof|)
    ensures h == Climb(leaf, SidesTaken(path, |proof|), proof)
  {
    assert proof[..|proof|] == proof;
  }

  lemma TakeSide(h: Digest, leaf: Digest, path: seq<Side>, side: Side, proof: seq<Digest>, j: nat)
    requires j < |proof| && Climbed(h, leaf, path, proof, j)
    requires side == if j < |path| then path[j] else Right
    ensures Climbed(Combine(side, h, proof[j]), leaf, path, proof, j + 1)
  {
    assert SidesTaken(path, j + 1) == SidesTaken(path, j) + [side];
    assert proof[..j + 1] == proof[..j] + [proof[j]];
    ClimbLast(leaf, SidesTaken(path, j), side, proof[..j], proof[j]);
  }

  /** The last node of a level is a right child once it has climbed far enough, or is the head. */
  lemma {:induction false} LastIsRight(index: nat, size: nat, path: seq<Side>, j: nat)
    requires RestOfPath(index, size, path, j) && index + 1 == size
    ensures j < |path| ==> path[j] == Right
    decreases size
  {
    AtHead(index, size, path, j);
    if size > 1 {
      if index % 2 == 0 {
        PromotedKeepsRest(index, size, path, j);
        LastIsRight(index / 2, (size + 1) / 2, path, j);
      } else {
        NextSide(index, size, path, j);
      }
    }
  }

  lemma RightChild(index: nat, size: nat, path: seq<Side>, j: nat)
    requires RestOfPath(index, size, path, j) && (index % 2 == 1 || index + 1 == size)
    ensures j < |path| ==> path[j] == Right
  {
    if index + 1 == size {
      LastIsRight(index, size, path, j);
    } else {
      NextSide(index, size, path, j);
    }
  }

  lemma LevelUp(index: nat, size: nat, path: seq<Side>, j: nat)
    requires RestOfPath(index, size, path, j) && (size == 1 || index % 2 == 1 || index + 1 < size)
    ensures RestOfPath(index / 2, (size + 1) / 2, path, j + 1)
  {
    if size == 1 {
      AtHead(index, size, path, j);
    } else {
      NextSide(index, size, path, j);
    }
  }

  method VerifyInclusion(leaf: Digest, m: int, n: int, proof: seq<Digest>, expectRoot: Digest) returns (ok: bool)
    ensures ok <==> InclusionAccepted(leaf, m, n, proof, expectRoot)
  {
    if !(0 <= m < n) {
      return false;
    }
    ghost var path := TreePath(m, n);
    PathsAgree(m, n);
    var h, index, size := leaf, m, n;
    for j := 0 to |proof|
      invariant RestOfPath(index, size, path, j)
      invariant Climbed(h, leaf, path, proof, j)
    {
      var sibling := proof[j];
      if index % 2 == 1 || index + 1 == size {
        RightChild(index, size, path, j);
        if index % 2 == 0 {
          while index % 2 == 0 && size > 1
            invariant index + 1 == size && RestOfPath(index, size, path, j)
            decreases size
          {
            PromotedKeepsRest(index, size, path, j);
            index := index / 2;
            size := (size + 1) / 2;
          }
        }
        TakeSide(h, leaf, path, Right, proof, j);
        h := NodeHash(sibling, h);
      } else {
        NextSide(index, size, path, j);
        TakeSide(h, leaf, path, Left, proof, j);
        h := NodeHash(h, sibling);
      }
      LevelUp(index, size, path, j);
      index := index / 2;
      size := (size + 1) / 2;
    }
    AtHead(index, size, path, |proof|);
    ClimbedAll(h, leaf, path, proof);
    ok := h == expectRoot && size == 1;
  }

  lemma PathSplit(m: nat, n: nat)
    requires m < n && n >= 2
    ensures m < SplitPoint(n) ==> TreePath(m, n) == TreePath(m, SplitPoint(n)) + [Left]
    ensures m >= SplitPoint(n) ==> TreePath(m, n) == TreePath(m - SplitPoint(n), n - SplitPoint(n)) + [Right]
  {
    hide SplitPoint;
  }

  lemma AuditSplit(hashes: seq<Digest>, m: nat)
    requires m < |hashes| && |hashes| >= 2
    ensures var k := SplitPoint(|hashes|);
            && (m < k ==> AuditPath(hashes, m) == AuditPath(hashes[..k], m) + [Root(hashes[k..])])
            && (m >= k ==> AuditPath(hashes, m) == AuditPath(hashes[k..], m - k) + [Root(hashes[..k])])
  {
    hide SplitPoint, TreePath;
  }

  ghost predicate AuditClimbs(hashes: seq<Digest>, m: nat)
    requires m < |hashes|
  {
    Climb(hashes[m], TreePath(m, |hashes|), AuditPath(hashes, m)) == Root(hashes)
  }

  lemma ClimbedOn(h: Digest, sides: seq<Side>, side: Side, siblings: seq<Digest>, sibling: Digest, path: seq<Side>,
                  proof: seq<Digest>)
    requires |sides| == |siblings| && path == sides + [side] && proof == siblings + [sibling]
    ensures Climb(h, path, proof) == Combine(side, Climb(h, sides, siblings), sibling)
  {
    ClimbLast(h, sides, side, siblings, sibling);
  }

  lemma AuditFromLeft(hashes: seq<Digest>, m: nat)
    requires 2 <= |hashes| && m < SplitPoint(|hashes|) && AuditClimbs(hashes[..SplitPoint(|hashes|)], m)
    ensures AuditClimbs(hashes, m)
  {
    hide SplitPoint, Climb, Root, AuditPath, TreePath;
    var n, k := |hashes|, SplitPoint(|hashes|);
    RootSplit(hashes);
    PathSplit(m, n);
    AuditSplit(hashes, m);
    ClimbedOn(hashes[m], TreePath(m, k), Left, AuditPath(hashes[..k], m), Root(hashes[k..]), TreePath(m, n),
              AuditPath(hashes, m));
  }

  lemma AuditFromRight(hashes: seq<Digest>, m: nat)
    requires 2 <= |hashes| && SplitPoint(|hashes|) <= m < |hashes|
    requires AuditClimbs(hashes[SplitPoint(|hashes|)..], m - SplitPoint(|hashes|))
    ensures AuditClimbs(hashes, m)
  {
    hide SplitPoint, Climb, Root, AuditPath, TreePath;
    var n, k := |hashes|, SplitPoint(|hashes|);
    var right := hashes[k..];
    assert right[m - k] == hashes[m];
    RootSplit(hashes);
    PathSplit(m, n);
    AuditSplit(hashes, m);
    ClimbedOn(hashes[m], TreePath(m - k, n - k), Right, AuditPath(right, m - k), Root(hashes[..k]), TreePath(m, n),
              AuditPath(hashes, m));
  }

  /** Every audit path rebuilds the head. */
  lemma {:induction false} AuditPathClimbs(hashes: seq<Digest>, m: nat)
    requires m < |hashes|
    ensures AuditClimbs(hashes, m)
    decreases |hashes|
  {
    if |hashes| >= 2 {
      hide SplitPoint, AuditClimbs;
      var k := SplitPoint(|hashes|);
      if m < k {
        AuditPathClimbs(hashes[..k], m);
        AuditFromLeft(hashes, m);
      } else {
        AuditPathClimbs(hashes[k..], m - k);
        AuditFromRight(hashes, m);
      }
    }
  }

  lemma InclusionComplete(hashes: seq<Digest>, m: int)
    requires 0 <= m < |hashes|
    ensures InclusionAccepted(hashes[m], m, |hashes|, InclusionProof(hashes, m).value, Root(hashes))
  {
    AuditPathClimbs(hashes, m);
    var path := TreePath(m, |hashes|);
    assert path[..|path|] == path;
  }

  // Soundness: undo the climb. Sides are now read from the head downwards, last side first.

  /** The subterm reached from a head by undoing the given sides, if there is one. */
  function Descend(head: Digest, sides: seq<Side>): Option<Digest>
    decreases |sides|
  {
    if |sides| == 0 then Some(head)
    else
      var last := |sides| - 1;
      match head
      case NodeHash(l, r) => Descend(if sides[last] == Left then l else r, sides[..last])
      case _ => None
  }

  lemma {:induction false} ClimbDescend(h: Digest, sides: seq<Side>, siblings: seq<Digest>)
    requires |sides| == |siblings|
    ensures Descend(Climb(h, sides, siblings), sides) == Some(h)
    decreases |sides|
  {
    if |sides| > 0 {
      var last := |sides| - 1;
      ClimbDescend(h, sides[..last], siblings[..last]);
    }
  }

  lemma DescendLast(head: Digest, sides: seq<Side>, side: Side)
    ensures Descend(head, sides + [side]) ==
            if head.NodeHash? then Descend(if side == Left then head.left else head.right, sides) else None
  {
    assert (sides + [side])[..|sides|] == sides;
  }

  ghost predicate AllLeaves(hashes: seq<Digest>) {
    forall i :: 0 <= i < |hashes| ==> hashes[i].LeafHash?
  }

  lemma {:induction false} DescendFindsLeaf(hashes: seq<Digest>, m: nat)
    requires m < |hashes|
    ensures Descend(Root(hashes), TreePath(m, |hashes|)) == Some(hashes[m])
    decreases |hashes|
  {
    var n := |hashes|;
    if n >= 2 {
      hide SplitPoint, Descend, Pow2, Root, TreePath;
      var k := SplitPoint(n);
      RootSplit(hashes);
      PathSplit(m, n);
      if m < k {
        DescendFindsLeaf(hashes[..k], m);
        DescendLast(Root(hashes), TreePath(m, k), Left);
      } else {
        DescendFindsLeaf(hashes[k..], m - k);
        DescendLast(Root(hashes), TreePath(m - k, n - k), Right);
      }
    }
  }

  /** A tree of at most 2^t leaves has no path longer than t. */
  lemma {:induction false} DepthBound(hashes: seq<Digest>, t: nat, sides: seq<Side>)
    requires AllLeaves(hashes) && 1 <= |hashes| <= Pow2(t) && |sides| > t
    ensures Descend(Root(hashes), sides) == None
    decreases |hashes|
  {
    if |hashes| >= 2 {
      hide SplitPoint, Pow2;
      var k := SplitPoint(|hashes|);
      var s := SplitIsPowerOfTwo(|hashes|);
      var last := |sides| - 1;
      if s >= t {
        Pow2Monotone(t, s);
      }
      Pow2Monotone(s, t - 1);
      DepthBound(if sides[last] == Left then hashes[..k] else hashes[k..], t - 1, sides[..last]);
    }
  }

  lemma {:induction false} PerfectPathLength(m: nat, t: nat)
    requires m < Pow2(t)
    ensures |TreePath(m, Pow2(t))| == t
    decreases t
  {
    if t > 0 {
      SplitUnique(Pow2(t), t - 1);
      var k := Pow2(t - 1);
      PerfectPathLength(if m < k then m else m - k, t - 1);
    }
  }

  /** Below the right spine of a tree of at most 2^t leaves, no left child is t deep. */
  lemma {:induction false} SpineTooShallow(hashes: seq<Digest>, t: nat, below: seq<Side>, j: nat)
    requires AllLeaves(hashes) && 1 <= |hashes| <= Pow2(t) && |below| == t
    ensures Descend(Root(hashes), below + [Left] + Rights(j)) == None
    decreases j
  {
    var sides := below + [Left] + Rights(j);
    if j == 0 {
      assert sides == below + [Left];
      DepthBound(hashes, t, sides);
    } else {
      assert sides == below + [Left] + Rights(j - 1) + [Right];
      DescendLast(Root(hashes), below + [Left] + Rights(j - 1), Right);
      if |hashes| >= 2 {
        SpineTooShallow(hashes[SplitPoint(|hashes|)..], t, below, j - 1);
      }
    }
  }

  lemma DescendRight(head: Digest, path: seq<Side>, j: nat)
    requires j > 0
    ensures Descend(head, path + Rights(j)) ==
            if head.NodeHash? then Descend(head.right, path + Rights(j - 1)) else None
  {
    assert path + Rights(j) == path + Rights(j - 1) + [Right];
    DescendLast(head, path + Rights(j - 1), Right);
  }

  lemma RightMoves(path: seq<Side>, j: nat)
    requires j > 0
    ensures path + [Right] + Rights(j - 1) == path + Rights(j)
  {
    assert [Right] + Rights(j - 1) == Rights(j);
  }

  lemma SurplusBelowLeft(rest: seq<Digest>, m: nat, n: nat, j: nat)
    requires n > 1 && m < SplitPoint(n) && j > 0
    requires AllLeaves(rest) && |rest| == n - SplitPoint(n)
    ensures Descend(Root(rest), TreePath(m, n) + Rights(j - 1)) == None
  {
    var k := SplitPoint(n);
    var t := SplitIsPowerOfTwo(n);
    PerfectPathLength(m, t);
    SpineTooShallow(rest, t, TreePath(m, k), j - 1);
  }

  lemma SurplusBelowRight(path: seq<Side>, head: Digest, j: nat)
    requires j > 0 && head.NodeHash? && Descend(head.right, path + Rights(j)) == None
    ensures Descend(head, path + [Right] + Rights(j)) == None
  {
    hide Descend, Rights;
    DescendRight(head, path + [Right], j);
    RightMoves(path, j);
  }

  lemma SurplusOfOne(leaf: Digest, j: nat)
    requires leaf.LeafHash? && j > 0
    ensures Descend(leaf, Rights(j)) == None
  {
  }

  /** Surplus siblings never lead from a leaf to the head: the extra right turns leave the tree. */
  lemma {:induction false} SurplusLeavesTree(hashes: seq<Digest>, m: nat, j: nat)
    requires AllLeaves(hashes) && m < |hashes| && j > 0
    ensures Descend(Root(hashes), TreePath(m, |hashes|) + Rights(j)) == None
    decreases |hashes|
  {
    hide SplitPoint, Descend, Rights;
    var n := |hashes|;
    if n == 1 {
      assert [] + Rights(j) == Rights(j);
      SurplusOfOne(hashes[0], j);
    } else {
      hide Root, TreePath;
      var k := SplitPoint(n);
      RootSplit(hashes);
      PathSplit(m, n);
      if m < k {
        DescendRight(Root(hashes), TreePath(m, n), j);
        SurplusBelowLeft(hashes[k..], m, n, j);
      } else {
        SurplusLeavesTree(hashes[k..], m - k, j);
        SurplusBelowRight(TreePath(m - k, n - k), Root(hashes), j);
      }
    }
  }

  /** Whatever path is accepted for an entry against a log's head, the log holds that entry at that position. */
  lemma InclusionSound(hashes: seq<Digest>, entry: Entry, m: int, proof: seq<Digest>)
    requires AllLeaves(hashes)
    requires InclusionAccepted(LeafHash(entry), m, |hashes|, proof, Root(hashes))
    ensures 0 <= m < |hashes| && hashes[m] == LeafHash(entry)
    ensures |proof| == |TreePath(m, |hashes|)|
  {
    var path := TreePath(m, |hashes|);
    var j := |proof| - |path|;
    ClimbDescend(LeafHash(entry), SidesTaken(path, |proof|), proof);
    if j > 0 {
      SurplusLeavesTree(hashes, m, j);
    } else {
      assert path[..|path|] == path;
      DescendFindsLeaf(hashes, m);
    }
  }

  // ------------------------------------------------------------ consistency

  /** Sides met between the last complete subtree of the first m leaves and the head of n leaves. */
  function PrefixPath(m: nat, n: nat): seq<Side>
    requires 1 <= m <= n
    decreases n
  {
    if m == n then []
    else
      var k := SplitPoint(n);
      if m <= k then PrefixPath(m, k) + [Left] else PrefixPath(m - k, n - k) + [Right]
  }

  /** The bit form: drop the trailing ones of the last old index, then climb. */
  function StrippedBitPath(index: nat, size: nat): seq<Side>
    requires index < size
    decreases index
  {
    if index % 2 == 1 then StrippedBitPath(index / 2, (size + 1) / 2) else BitPath(index, size)
  }

  lemma {:induction false} StrippedLeft(index: nat, size: nat)
    requires size >= 2 && index < SplitPoint(size)
    ensures StrippedBitPath(index, size) == StrippedBitPath(index, SplitPoint(size)) + [Left]
    decreases index
  {
    var k := SplitPoint(size);
    if index % 2 == 0 {
      BitPathLeft(index, size);
    } else {
      var half, h := (size + 1) / 2, SplitPoint((size + 1) / 2);
      SplitHalves(size);
      HalfBelow(index, k, h);
      StrippedLeft(index / 2, half);
      assert StrippedBitPath(index, k) == StrippedBitPath(index / 2, h);
    }
  }

  lemma {:induction false} StrippedRight(index: nat, size: nat)
    requires size >= 2 && SplitPoint(size) <= index && index + 1 < size
    ensures StrippedBitPath(index, size) ==
            StrippedBitPath(index - SplitPoint(size), size - SplitPoint(size)) + [Right]
    decreases index
  {
    hide BitPath, StrippedBitPath;
    var k := SplitPoint(size);
    StrippedStep(index, size);
    StrippedStep(index - k, size - k);
    SplitHalves(size);
    if index % 2 == 0 {
      BitPathRight(index, size);
    } else {
      HalfBelow(index, k, SplitPoint((size + 1) / 2));
      StrippedRight(index / 2, (size + 1) / 2);
    }
  }

  lemma StrippedStep(index: nat, size: nat)
    requires index < size
    ensures index % 2 == 1 ==> StrippedBitPath(index, size) == StrippedBitPath(index / 2, (size + 1) / 2)
    ensures index % 2 == 0 ==> StrippedBitPath(index, size) == BitPath(index, size)
  {
    hide BitPath;
  }

  lemma {:induction false} WholeStripped(t: nat)
    ensures StrippedBitPath(Pow2(t) - 1, Pow2(t)) == []
  {
    if t > 0 {
      WholeStripped(t - 1);
      assert (Pow2(t) - 1) / 2 == Pow2(t - 1) - 1;
      assert (Pow2(t) + 1) / 2 == Pow2(t - 1);
    }
  }

  lemma {:induction false} PrefixPathsAgree(m: nat, n: nat)
    requires 1 <= m < n
    ensures StrippedBitPath(m - 1, n) == PrefixPath(m, n)
    decreases n
  {
    var k := SplitPoint(n);
    if m <= k {
      StrippedLeft(m - 1, n);
      if m == k {
        var t := SplitIsPowerOfTwo(n);
        WholeStripped(t);
      } else {
        PrefixPathsAgree(m, k);
      }
    } else {
      StrippedRight(m - 1, n);
      PrefixPathsAgree(m - k, n - k);
    }
  }

  /** The old head's climb: only siblings on the left belong to the old tree. */
  function ClimbOld(h: Digest, sides: seq<Side>, siblings: seq<Digest>): Digest
    requires |sides| == |siblings|
    decreases |sides|
  {
    if |sides| == 0 then h
    else
      var last := |sides| - 1;
      var rest := ClimbOld(h, sides[..last], siblings[..last]);
      if sides[last] == Left then rest else NodeHash(siblings[last], rest)
  }

  lemma ClimbOldLast(h: Digest, sides: seq<Side>, side: Side, siblings: seq<Digest>, sibling: Digest)
    requires |sides| == |siblings|
    ensures ClimbOld(h, sides + [side], siblings + [sibling]) ==
            if side == Left then ClimbOld(h, sides, siblings) else NodeHash(sibling, ClimbOld(h, sides, siblings))
  {
    assert (sides + [side])[..|sides|] == sides;
    assert (siblings + [sibling])[..|siblings|] == siblings;
  }

  function ConsistencyProof(hashes: seq<Digest>, m: int): (r: Result<seq<Digest>, string>)
    ensures r.Success? <==> 0 < m <= |hashes|
  {
    if !(0 < m <= |hashes|) then Failure("bad prior size") else Success(Subproof(hashes, m, true))
  }

  function Subproof(hashes: seq<Digest>, m: nat, atRoot: bool): seq<Digest>
    requires 0 < m <= |hashes|
    decreases |hashes|
  {
    var n := |hashes|;
    if m == n then (if atRoot then [] else [Root(hashes)])
    else
      var k := SplitPoint(n);
      if m <= k then Subproof(hashes[..k], m, atRoot) + [Root(hashes[k..])]
      else Subproof(hashes[k..], m - k, false) + [Root(hashes[..k])]
  }

  /** The siblings along the prefix path hang off one complete subtree, whose head both climbs start from. */
  ghost predicate Rebuilds(seed: Digest, m: nat, oldHead: Digest, n: nat, newHead: Digest, steps: seq<Digest>)
    requires 1 <= m <= n
  {
    && |steps| == |PrefixPath(m, n)|
    && ClimbOld(seed, PrefixPath(m, n), steps) == oldHead
    && Climb(seed, PrefixPath(m, n), steps) == newHead
  }

  /** What the consistency verifier accepts. */
  ghost predicate ConsistencyAccepted(m: int, oldRoot: Digest, n: int, newRoot: Digest, proof: seq<Digest>) {
    && 1 <= m <= n
    && if m == n then oldRoot == newRoot && proof == []
       else if IsPow2(m) then Rebuilds(oldRoot, m, oldRoot, n, newRoot, proof)
       else |proof| > 0 && Rebuilds(proof[0], m, oldRoot, n, newRoot, proof[1..])
  }

  /** Both running heads after j steps. */
  ghost predicate BothClimbed(fr: Digest, sr: Digest, seed: Digest, path: seq<Side>, steps: seq<Digest>, j: nat)
    requires j <= |path| && j <= |steps|
  {
    && fr == ClimbOld(seed, path[..j], steps[..j])
    && sr == Climb(seed, path[..j], steps[..j])
  }

  lemma BothClimbedAll(fr: Digest, sr: Digest, seed: Digest, path: seq<Side>, steps: seq<Digest>)
    requires |steps| <= |path| && BothClimbed(fr, sr, seed, path, steps, |steps|)
    ensures |steps| == |path| ==> fr == ClimbOld(seed, path, steps) && sr == Climb(seed, path, steps)
  {
    assert steps[..|steps|] == steps;
    assert |steps| == |path| ==> path[..|steps|] == path;
  }

  lemma BothStep(fr: Digest, sr: Digest, seed: Digest, path: seq<Side>, steps: seq<Digest>, j: nat)
    requires j < |path| && j < |steps| && BothClimbed(fr, sr, seed, path, steps, j)
    ensures path[j] == Right ==> BothClimbed(NodeHash(steps[j], fr), NodeHash(steps[j], sr), seed, path, steps, j + 1)
    ensures path[j] == Left ==> BothClimbed(fr, NodeHash(sr, steps[j]), seed, path, steps, j + 1)
  {
    assert path[..j + 1] == path[..j] + [path[j]] && steps[..j + 1] == steps[..j] + [steps[j]];
    ClimbLast(seed, path[..j], path[j], steps[..j], steps[j]);
    ClimbOldLast(seed, path[..j], path[j], steps[..j], steps[j]);
  }

  method VerifyConsistency(m: int, oldRoot: Digest, n: int, newRoot: Digest, proof: seq<Digest>) returns (ok: bool)
    ensures ok <==> ConsistencyAccepted(m, oldRoot, n, newRoot, proof)
  {
    if m < 1 || m > n {
      return false;
    }
    if m == n {
      return oldRoot == newRoot && proof == [];
    }
    PowerOfTwoTest(m);
    if proof == [] {
      assert |PrefixPath(m, n)| > 0;
      return false;
    }
    var items := proof;
    if BitAnd(m, m - 1) == 0 {
      items := [oldRoot] + proof;
      assert items[1..] == proof;
    }
    ok := VerifySteps(m, oldRoot, n, newRoot, items);
  }

  /** The consistency verifier keeps last indices (fn, sn) instead of an index and a size. */
  ghost predicate Ahead(fn: int, sn: int, path: seq<Side>, j: nat) {
    RestOfPath(fn, sn + 1, path, j)
  }

  lemma AheadPromoted(fn: nat, sn: nat, path: seq<Side>, j: nat)
    requires Ahead(fn, sn, path, j) && fn != 0 && fn % 2 == 0 && fn == sn
    ensures Ahead(fn / 2, sn / 2, path, j) && 0 < fn / 2 == sn / 2
  {
    PromotedKeepsRest(fn, sn + 1, path, j);
  }

  lemma AheadNext(fn: nat, sn: nat, path: seq<Side>, j: nat)
    requires Ahead(fn, sn, path, j) && sn != 0 && (fn % 2 == 1 || fn != sn)
    ensures j < |path| && path[j] == if fn % 2 == 1 then Right else Left
    ensures Ahead(fn / 2, sn / 2, path, j + 1)
  {
    NextSide(fn, sn + 1, path, j);
  }

  /** A last node of an odd level is a right child once it has climbed far enough. */
  lemma {:induction false} AheadAligned(fn: nat, sn: nat, path: seq<Side>, j: nat)
    requires Ahead(fn, sn, path, j) && fn == sn && fn != 0
    ensures j < |path| && path[j] == Right
    decreases fn
  {
    if fn % 2 == 0 {
      AheadPromoted(fn, sn, path, j);
      AheadAligned(fn / 2, sn / 2, path, j);
    } else {
      AheadNext(fn, sn, path, j);
    }
  }

  lemma AheadDone(fn: nat, sn: nat, path: seq<Side>, j: nat)
    requires Ahead(fn, sn, path, j)
    ensures sn == 0 <==> j >= |path|
  {
    AtHead(fn, sn + 1, path, j);
  }

  method StripOnes(m: nat, n: nat) returns (fn: nat, sn: nat)
    requires 1 <= m < n
    ensures Ahead(fn, sn, PrefixPath(m, n), 0)
  {
    PrefixPathsAgree(m, n);
    fn, sn := m - 1, n - 1;
    while fn % 2 == 1
      invariant fn < sn
      invariant StrippedBitPath(fn, sn + 1) == PrefixPath(m, n)
      decreases fn
    {
      fn := fn / 2;
      sn := sn / 2;
    }
  }

  /** The second half of the verifier: rebuild both heads from items[0] and the steps after it. */
  method VerifySteps(m: nat, oldRoot: Digest, n: nat, newRoot: Digest, items: seq<Digest>) returns (ok: bool)
    requires 1 <= m < n && items != []
    ensures ok <==> Rebuilds(items[0], m, oldRoot, n, newRoot, items[1..])
  {
    ghost var path := PrefixPath(m, n);
    ghost var steps := items[1..];
    var fn, sn := StripOnes(m, n);
    var fr, sr := items[0], items[0];
    for j := 0 to |items| - 1
      invariant Ahead(fn, sn, path, j)
      invariant j <= |path| && BothClimbed(fr, sr, items[0], path, steps, j)
    {
      var step := items[j + 1];
      AheadDone(fn, sn, path, j);
      if sn == 0 {
        return false;
      }
      BothStep(fr, sr, items[0], path, steps, j);
      if fn % 2 == 1 || fn == sn {
        if fn == sn {
          AheadAligned(fn, sn, path, j);
        }
        fr := NodeHash(step, fr);
        sr := NodeHash(step, sr);
        while fn != 0 && fn % 2 == 0
          invariant sn != 0 && (fn % 2 == 1 || fn == sn) && Ahead(fn, sn, path, j)
          decreases fn
        {
          AheadPromoted(fn, sn, path, j);
          fn := fn / 2;
          sn := sn / 2;
        }
      } else {
        sr := NodeHash(sr, step);
      }
      AheadNext(fn, sn, path, j);
      fn := fn / 2;
      sn := sn / 2;
    }
    AheadDone(fn, sn, path, |steps|);
    BothClimbedAll(fr, sr, items[0], path, steps);
    ok := sn == 0 && fr == oldRoot && sr == newRoot;
  }

  /** The head of the complete subtree the proof starts from. */
  ghost function Seed(hashes: seq<Digest>, m: nat): Digest
    requires 0 < m <= |hashes|
    decreases |hashes|
  {
    var n := |hashes|;
    if m == n then Root(hashes)
    else
      var k := SplitPoint(n);
      if m <= k then Seed(hashes[..k], m) else Seed(hashes[k..], m - k)
  }

  /** The siblings a consistency proof lists after its seed. */
  ghost function Siblings(hashes: seq<Digest>, m: nat): (s: seq<Digest>)
    requires 0 < m <= |hashes|
    ensures |s| == |PrefixPath(m, |hashes|)|
    decreases |hashes|
  {
    var n := |hashes|;
    if m == n then []
    else
      var k := SplitPoint(n);
      if m <= k then Siblings(hashes[..k], m) + [Root(hashes[k..])]
      else Siblings(hashes[k..], m - k) + [Root(hashes[..k])]
  }

  lemma SiblingsSplit(hashes: seq<Digest>, m: nat)
    requires 0 < m < |hashes|
    ensures var k := SplitPoint(|hashes|);
            && Seed(hashes, m) == (if m <= k then Seed(hashes[..k], m) else Seed(hashes[k..], m - k))
            && (m <= k ==> Siblings(hashes, m) == Siblings(hashes[..k], m) + [Root(hashes[k..])])
            && (m > k ==> Siblings(hashes, m) == Siblings(hashes[k..], m - k) + [Root(hashes[..k])])
  {
    hide SplitPoint, PrefixPath;
  }

  lemma {:induction false} SiblingsRebuild(hashes: seq<Digest>, m: nat)
    requires 0 < m <= |hashes|
    ensures SeedRebuilds(hashes, m)
    decreases |hashes|
  {
    if m == |hashes| {
      assert hashes[..m] == hashes;
    } else {
      hide SplitPoint, SeedRebuilds;
      var k := SplitPoint(|hashes|);
      if m <= k {
        SiblingsRebuild(hashes[..k], m);
        RebuildsFromLeft(hashes, m);
      } else {
        SiblingsRebuild(hashes[k..], m - k);
        RebuildsFromRight(hashes, m);
      }
    }
  }

  ghost predicate SeedRebuilds(hashes: seq<Digest>, m: nat)
    requires 0 < m <= |hashes|
  {
    Rebuilds(Seed(hashes, m), m, Root(hashes[..m]), |hashes|, Root(hashes), Siblings(hashes, m))
  }

  lemma RebuildsFromLeft(hashes: seq<Digest>, m: nat)
    requires 0 < m < |hashes| && m <= SplitPoint(|hashes|) && SeedRebuilds(hashes[..SplitPoint(|hashes|)], m)
    ensures SeedRebuilds(hashes, m)
  {
    hide SplitPoint, Rebuilds, Root, Seed, Siblings;
    var k := SplitPoint(|hashes|);
    RootSplit(hashes);
    SiblingsSplit(hashes, m);
    assert hashes[..k][..m] == hashes[..m];
    RebuildsLeft(Seed(hashes, m), m, Root(hashes[..m]), |hashes|, Root(hashes[..k]), Siblings(hashes[..k], m),
                 Root(hashes[k..]));
  }

  lemma RebuildsFromRight(hashes: seq<Digest>, m: nat)
    requires 2 <= |hashes| && SplitPoint(|hashes|) < m < |hashes|
    requires SeedRebuilds(hashes[SplitPoint(|hashes|)..], m - SplitPoint(|hashes|))
    ensures SeedRebuilds(hashes, m)
  {
    hide SplitPoint, Rebuilds, Root, Seed, Siblings;
    var k := SplitPoint(|hashes|);
    RootSplit(hashes);
    SiblingsSplit(hashes, m);
    PrefixRoot(hashes, m);
    RebuildsRight(Seed(hashes, m), m, Root(hashes[k..][..m - k]), |hashes|, Root(hashes[k..]),
                  Siblings(hashes[k..], m - k),
                  Root(hashes[..k]));
  }

  /** Past the split, the older tree splits where the newer one does. */
  lemma PrefixRoot(hashes: seq<Digest>, m: nat)
    requires 2 <= |hashes| && SplitPoint(|hashes|) < m <= |hashes|
    ensures var k := SplitPoint(|hashes|); Root(hashes[..m]) == NodeHash(Root(hashes[..k]), Root(hashes[k..][..m - k]))
  {
    hide SplitPoint, Pow2, Root;
    var k := SplitPoint(|hashes|);
    var t := SplitIsPowerOfTwo(|hashes|);
    SplitUnique(m, t);
    RootSplit(hashes[..m]);
    assert hashes[..m][..k] == hashes[..k] && hashes[..m][k..] == hashes[k..][..m - k];
  }

  lemma RebuildsLeft(seed: Digest, m: nat, oldHead: Digest, n: nat, newHead: Digest, steps: seq<Digest>, step: Digest)
    requires 1 <= m < n && m <= SplitPoint(n) && Rebuilds(seed, m, oldHead, SplitPoint(n), newHead, steps)
    ensures Rebuilds(seed, m, oldHead, n, NodeHash(newHead, step), steps + [step])
  {
    hide SplitPoint, Climb, ClimbOld;
    ClimbLast(seed, PrefixPath(m, SplitPoint(n)), Left, steps, step);
    ClimbOldLast(seed, PrefixPath(m, SplitPoint(n)), Left, steps, step);
  }

  lemma RebuildsRight(seed: Digest, m: nat, oldHead: Digest, n: nat, newHead: Digest, steps: seq<Digest>, step: Digest)
    requires 1 <= m < n && m > SplitPoint(n)
             && Rebuilds(seed, m - SplitPoint(n), oldHead, n - SplitPoint(n), newHead, steps)
    ensures Rebuilds(seed, m, NodeHash(step, oldHead), n, NodeHash(step, newHead), steps + [step])
  {
    hide SplitPoint, Climb, ClimbOld;
    ClimbLast(seed, PrefixPath(m - SplitPoint(n), n - SplitPoint(n)), Right, steps, step);
    ClimbOldLast(seed, PrefixPath(m - SplitPoint(n), n - SplitPoint(n)), Right, steps, step);
  }

  lemma {:induction false} SubproofInside(hashes: seq<Digest>, m: nat)
    requires 0 < m <= |hashes|
    ensures Subproof(hashes, m, false) == [Seed(hashes, m)] + Siblings(hashes, m)
    decreases |hashes|
  {
    var n := |hashes|;
    if m < n {
      var k := SplitPoint(n);
      if m <= k {
        SubproofInside(hashes[..k], m);
      } else {
        SubproofInside(hashes[k..], m - k);
      }
    }
  }

  lemma SplitIsPow2(n: nat)
    requires n >= 2
    ensures IsPow2(SplitPoint(n))
  {
    hide SplitPoint;
    var t := SplitIsPowerOfTwo(n);
  }

  lemma PastSplit(n: nat, m: nat)
    requires n >= 2 && SplitPoint(n) < m < n
    ensures !IsPow2(m)
  {
    hide SplitPoint;
    var t := SplitIsPowerOfTwo(n);
    if IsPow2(m) {
      var s: nat :| m == Pow2(s);
      Pow2Unique(s, t);
    }
  }

  /** At the root the seed is left out exactly when it is the old head, that is for powers of two. */
  lemma {:induction false} SubproofAtRoot(hashes: seq<Digest>, m: nat)
    requires 0 < m <= |hashes|
    requires m < |hashes| || IsPow2(m)
    ensures IsPow2(m) ==> Subproof(hashes, m, true) == Siblings(hashes, m) && Seed(hashes, m) == Root(hashes[..m])
    ensures !IsPow2(m) ==> Subproof(hashes, m, true) == [Seed(hashes, m)] + Siblings(hashes, m)
    decreases |hashes|
  {
    hide SplitPoint, IsPow2, Root;
    if m == |hashes| {
      assert hashes[..m] == hashes;
    } else {
      hide Seed, Siblings, Subproof;
      var k := SplitPoint(|hashes|);
      SiblingsSplit(hashes, m);
      SubproofSplit(hashes, m, true);
      if m <= k {
        SplitIsPow2(|hashes|);
        SubproofAtRoot(hashes[..k], m);
        assert hashes[..k][..m] == hashes[..m];
      } else {
        SubproofInside(hashes[k..], m - k);
        PastSplit(|hashes|, m);
      }
    }
  }

  lemma SubproofSplit(hashes: seq<Digest>, m: nat, atRoot: bool)
    requires 0 < m < |hashes|
    ensures var k := SplitPoint(|hashes|);
            && (m <= k ==> Subproof(hashes, m, atRoot) == Subproof(hashes[..k], m, atRoot) + [Root(hashes[k..])])
            && (m > k ==> Subproof(hashes, m, atRoot) == Subproof(hashes[k..], m - k, false) + [Root(hashes[..k])])
  {
    hide SplitPoint;
  }

  /** Every consistency proof the log hands out is accepted. */
  lemma ConsistencyComplete(hashes: seq<Digest>, m: int)
    requires 0 < m <= |hashes|
    ensures ConsistencyAccepted(m, Root(hashes[..m]), |hashes|, Root(hashes), ConsistencyProof(hashes, m).value)
  {
    if m == |hashes| {
      assert hashes[..m] == hashes;
    } else {
      SiblingsRebuild(hashes, m);
      SubproofAtRoot(hashes, m);
      if !IsPow2(m) {
        assert ConsistencyProof(hashes, m).value[1..] == Siblings(hashes, m);
      }
    }
  }

  /** The last step belongs to the top of the tree: it is the right child of the new head only ... */
  lemma RebuildLeft(seed: Digest, m: nat, oldHead: Digest, n: nat, newHead: Digest, steps: seq<Digest>, step: Digest)
    requires 1 <= m < n && m <= SplitPoint(n)
    requires Rebuilds(seed, m, oldHead, n, newHead, steps + [step])
    ensures newHead.NodeHash? && Rebuilds(seed, m, oldHead, SplitPoint(n), newHead.left, steps)
  {
    var path := PrefixPath(m, SplitPoint(n));
    assert PrefixPath(m, n) == path + [Left];
    ClimbLast(seed, path, Left, steps, step);
    ClimbOldLast(seed, path, Left, steps, step);
  }

  /** ... or the left child of both heads. */
  lemma RebuildRight(seed: Digest, m: nat, oldHead: Digest, n: nat, newHead: Digest, steps: seq<Digest>, step: Digest)
    requires 1 <= m < n && m > SplitPoint(n)
    requires Rebuilds(seed, m, oldHead, n, newHead, steps + [step])
    ensures oldHead.NodeHash? && newHead.NodeHash? && oldHead.left == step == newHead.left
    ensures Rebuilds(seed, m - SplitPoint(n), oldHead.right, n - SplitPoint(n), newHead.right, steps)
  {
    var path := PrefixPath(m - SplitPoint(n), n - SplitPoint(n));
    assert PrefixPath(m, n) == path + [Right];
    ClimbLast(seed, path, Right, steps, step);
    ClimbOldLast(seed, path, Right, steps, step);
  }

  lemma StepsLeft(seed: Digest, m: nat, oldHead: Digest, n: nat, newHead: Digest, steps: seq<Digest>)
    requires 1 <= m <= n && Rebuilds(seed, m, oldHead, n, newHead, steps)
    ensures m < n ==> steps != []
    ensures m == n ==> oldHead == newHead
  {
  }

  lemma {:induction false} RebuildForcesPrefix(old': seq<Digest>, new': seq<Digest>, seed: Digest, steps: seq<Digest>)
    requires 1 <= |old'| <= |new'|
    requires Rebuilds(seed, |old'|, Root(old'), |new'|, Root(new'), steps)
    ensures old' == new'[..|old'|]
    decreases |new'|
  {
    hide Rebuilds, SplitPoint, PrefixPath, Pow2;
    var m, n := |old'|, |new'|;
    StepsLeft(seed, m, Root(old'), n, Root(new'), steps);
    if m == n {
      RootInjective(old', new');
    } else {
      var k := SplitPoint(n);
      var last := |steps| - 1;
      assert steps == steps[..last] + [steps[last]];
      if m <= k {
        RebuildLeft(seed, m, Root(old'), n, Root(new'), steps[..last], steps[last]);
        RebuildForcesPrefix(old', new'[..k], seed, steps[..last]);
        assert new'[..k][..m] == new'[..m];
      } else {
        var t := SplitIsPowerOfTwo(n);
        SplitUnique(m, t);
        RebuildRight(seed, m, Root(old'), n, Root(new'), steps[..last], steps[last]);
        RootInjective(old'[..k], new'[..k]);
        RebuildForcesPrefix(old'[k..], new'[k..], seed, steps[..last]);
        assert old' == old'[..k] + old'[k..] && new'[..m] == new'[..k] + new'[k..][..m - k];
      }
    }
  }

  /** Whatever proof is accepted between two heads, the older log is a prefix of the newer one. */
  lemma ConsistencySound(old': seq<Digest>, new': seq<Digest>, proof: seq<Digest>)
    requires ConsistencyAccepted(|old'|, Root(old'), |new'|, Root(new'), proof)
    ensures 1 <= |old'| <= |new'| && old' == new'[..|old'|]
  {
    var m := |old'|;
    if m == |new'| {
      RootInjective(old', new');
      assert new'[..m] == new';
    } else if IsPow2(m) {
      RebuildForcesPrefix(old', new', Root(old'), proof);
    } else {
      RebuildForcesPrefix(old', new', proof[0], proof[1..]);
    }
  }

  // ------------------------------------------------------------ the log

  function LeafHashes(entries: seq<Entry>): (hashes: seq<Digest>)
    ensures |hashes| == |entries|
    ensures forall i :: 0 <= i < |entries| ==> hashes[i] == LeafHash(entries[i])
  {
    seq(|entries|, i requires 0 <= i < |entries| => LeafHash(entries[i]))
  }

  class Log {
    var entries: seq<Entry>
    var hashes: seq<Digest>

    ghost predicate Valid()
      reads this
    {
      hashes == LeafHashes(entries)
    }

    constructor (initial: seq<Entry>)
      ensures Valid() && entries == initial
    {
      entries := initial;
      hashes := LeafHashes(initial);
    }

    method Append(entry: Entry) returns (index: nat)
      requires Valid()
      modifies this
      ensures Valid()
      ensures entries == old(entries) + [entry] && index == |old(entries)|
    {
      entries := entries + [entry];
      hashes := hashes + [LeafHash(entry)];
      index := |entries| - 1;
    }

    /** The head a log publishes now is provably an extension of every head it published before. */
    method Consistency(m: int) returns (r: Result<seq<Digest>, string>)
      requires Valid()
      ensures r.Success? <==> 0 < m <= |entries|
      ensures r.Success? ==>
                ConsistencyAccepted(m, Root(LeafHashes(entries[..m])), |entries|, Root(LeafHashes(entries)), r.value)
    {
      r := ConsistencyProof(hashes, m);
      if r.Success? {
        ConsistencyComplete(hashes, m);
        assert hashes[..m] == LeafHashes(entries[..m]);
      }
    }

    method Inclusion(m: int) returns (r: Result<seq<Digest>, string>)
      requires Valid()
      ensures r.Success? <==> 0 <= m < |entries|
      ensures r.Success? ==>
                InclusionAccepted(LeafHash(entries[m]), m, |entries|, r.value, Root(LeafHashes(entries)))
    {
      r := InclusionProof(hashes, m);
      if r.Success? {
        InclusionComplete(hashes, m);
      }
    }
  }

  /** Two published heads joined by an accepted proof: the entries behind the older one were never revised. */
  lemma HistoryUnrevised(before: seq<Entry>, after: seq<Entry>, proof: seq<Digest>)
    requires ConsistencyAccepted(|before|, Root(LeafHashes(before)), |after|, Root(LeafHashes(after)), proof)
    ensures before <= after
  {
    ConsistencySound(LeafHashes(before), LeafHashes(after), proof);
    forall i | 0 <= i < |before|
      ensures before[i] == after[i]
    {
      assert LeafHashes(before)[i] == LeafHashes(after)[i];
    }
  }
}
