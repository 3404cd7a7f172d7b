/** Consistent hashing with group-diverse replica choice (blindrange/ring.py). Hashes and failure groups are given. */
module HashRing {
  import opened Basics

  type Node = nat
  type Group = string

  /** A virtual node: where on the ring, and whose. */
  datatype Point = Point(hash: nat, node: Node)

  const REORDER_WINDOW: nat := 3

  // ------------------------------------------------------------ the sorted ring

  predicate Before(a: Point, b: Point) {
    a.hash < b.hash || (a.hash == b.hash && a.node <= b.node)
  }

  ghost predicate Sorted(ring: seq<Point>) {
    forall i, j :: 0 <= i < j < |ring| ==> Before(ring[i], ring[j])
  }

  function Insert(ring: seq<Point>, p: Point): seq<Point> {
    if ring == [] then [p]
    else if Before(p, ring[0]) then [p] + ring
    else [ring[0]] + Insert(ring[1..], p)
  }

  lemma {:induction false} InsertHolds(ring: seq<Point>, p: Point, q: Point)
    ensures q in Insert(ring, p) <==> q == p || q in ring
  {
    if ring != [] && !Before(p, ring[0]) {
      InsertHolds(ring[1..], p, q);
      assert ring == [ring[0]] + ring[1..];
    }
  }

  lemma {:induction false} InsertSorted(ring: seq<Point>, p: Point)
    requires Sorted(ring)
    ensures Sorted(Insert(ring, p))
  {
    if ring != [] && !Before(p, ring[0]) {
      InsertSorted(ring[1..], p);
      forall q | q in Insert(ring[1..], p) ensures Before(ring[0], q) {
        InsertHolds(ring[1..], p, q);
      }
    }
  }

  /** Where each virtual node of a node lies; hashing is a parameter. */
  type Placing = (Node, nat) -> nat

  /** A node's virtual nodes put into the ring, one after another. */
  function Join(ring: seq<Point>, node: Node, vnodes: nat, place: Placing): seq<Point> {
    if vnodes == 0 then ring else Insert(Join(ring, node, vnodes - 1, place), Point(place(node, vnodes - 1), node))
  }

  function Build(addrs: seq<Node>, vnodes: nat, place: Placing): seq<Point> {
    if addrs == [] then [] else Join(Build(addrs[..|addrs| - 1], vnodes, place), addrs[|addrs| - 1], vnodes, place)
  }

  lemma {:induction false} JoinSorted(ring: seq<Point>, node: Node, vnodes: nat, place: Placing)
    requires Sorted(ring)
    ensures Sorted(Join(ring, node, vnodes, place))
  {
    if vnodes > 0 {
      JoinSorted(ring, node, vnodes - 1, place);
      InsertSorted(Join(ring, node, vnodes - 1, place), Point(place(node, vnodes - 1), node));
    }
  }

  lemma {:induction false} BuildSorted(addrs: seq<Node>, vnodes: nat, place: Placing)
    ensures Sorted(Build(addrs, vnodes, place))
  {
    if addrs != [] {
      BuildSorted(addrs[..|addrs| - 1], vnodes, place);
      JoinSorted(Build(addrs[..|addrs| - 1], vnodes, place), addrs[|addrs| - 1], vnodes, place);
    }
  }

  lemma {:induction false} JoinHolds(ring: seq<Point>, node: Node, vnodes: nat, place: Placing, a: Node)
    ensures OnRing(Join(ring, node, vnodes, place), a) <==> OnRing(ring, a) || (a == node && vnodes > 0)
  {
    if vnodes > 0 {
      JoinHolds(ring, node, vnodes - 1, place, a);
      var p, r := Point(place(node, vnodes - 1), node), Join(ring, node, vnodes - 1, place);
      forall q ensures q in Insert(r, p) <==> q == p || q in r {
        InsertHolds(r, p, q);
      }
      OnRingSplit(Insert(r, p), r, p, a);
    }
  }

  ghost predicate OnRing(ring: seq<Point>, a: Node) {
    exists p :: p in ring && p.node == a
  }

  lemma OnRingSplit(full: seq<Point>, ring: seq<Point>, p: Point, a: Node)
    requires forall q :: q in full <==> q == p || q in ring
    ensures OnRing(full, a) <==> OnRing(ring, a) || a == p.node
  {
    if a == p.node {
      assert p in full;
    }
  }

  lemma {:induction false} BuildHolds(addrs: seq<Node>, vnodes: nat, place: Placing, a: Node)
    requires vnodes > 0
    ensures OnRing(Build(addrs, vnodes, place), a) <==> a in addrs
  {
    if addrs != [] {
      var init, last := addrs[..|addrs| - 1], addrs[|addrs| - 1];
      BuildHolds(init, vnodes, place, a);
      JoinHolds(Build(init, vnodes, place), last, vnodes, place, a);
      assert addrs == init + [last];
    }
  }

  /** A point is one of a node's virtual nodes. */
  ghost predicate VirtualNode(p: Point, vnodes: nat, place: Placing) {
    exists v: nat :: v < vnodes && p.hash == place(p.node, v)
  }

  lemma {:induction false} JoinPoints(ring: seq<Point>, node: Node, vnodes: nat, place: Placing, p: Point)
    ensures p in Join(ring, node, vnodes, place) <==> p in ring || (p.node == node && VirtualNode(p, vnodes, place))
  {
    if vnodes > 0 {
      JoinPoints(ring, node, vnodes - 1, place, p);
      InsertHolds(Join(ring, node, vnodes - 1, place), Point(place(node, vnodes - 1), node), p);
      if p.node == node && VirtualNode(p, vnodes, place) {
        var v: nat :| v < vnodes && p.hash == place(node, v);
        assert v < vnodes - 1 || p == Point(place(node, vnodes - 1), node);
      }
    }
  }

  lemma {:induction false} BuildPoints(addrs: seq<Node>, vnodes: nat, place: Placing, p: Point)
    ensures p in Build(addrs, vnodes, place) <==> p.node in addrs && VirtualNode(p, vnodes, place)
  {
    hide VirtualNode;
    if addrs != [] {
      var init, last := addrs[..|addrs| - 1], addrs[|addrs| - 1];
      BuildPoints(init, vnodes, place, p);
      JoinPoints(Build(init, vnodes, place), last, vnodes, place, p);
      assert addrs == init + [last];
    }
  }

  // ------------------------------------------------------------ successors

  /** How many points lie at or before a hash (bisection from the right, on a sorted ring). */
  function Bisect(ring: seq<Point>, h: nat): (i: nat)
    ensures i <= |ring|
  {
    if ring == [] || ring[0].hash > h then 0 else 1 + Bisect(ring[1..], h)
  }

  /** The whole ring, clockwise from a hash. */
  function Walk(ring: seq<Point>, h: nat): seq<Point> {
    ring[Bisect(ring, h)..] + ring[..Bisect(ring, h)]
  }

  /** Nodes of a walk in the order they are first met. */
  function FirstMet(walk: seq<Point>): seq<Node> {
    if walk == [] then []
    else
      var before := FirstMet(walk[..|walk| - 1]);
      var a := walk[|walk| - 1].node;
      if a in before then before else before + [a]
  }

  /** Every node, in preference order for a key's hash. */
  function Successors(ring: seq<Point>, h: nat): seq<Node> {
    FirstMet(Walk(ring, h))
  }

  lemma {:induction false} FirstMetDistinct(walk: seq<Point>)
    ensures NoDuplicates(FirstMet(walk))
    ensures forall a :: a in FirstMet(walk) <==> OnRing(walk, a)
  {
    if walk != [] {
      var init, last := walk[..|walk| - 1], walk[|walk| - 1];
      FirstMetDistinct(init);
      assert walk == init + [last];
      forall a ensures OnRing(walk, a) <==> OnRing(init, a) || a == last.node {
        OnRingSplit(walk, init, last, a);
      }
    }
  }

  lemma {:induction false} FirstMetPrefix(walk: seq<Point>, j: nat)
    requires j <= |walk|
    ensures FirstMet(walk[..j]) <= FirstMet(walk)
    decreases |walk|
  {
    if j < |walk| {
      var init := walk[..|walk| - 1];
      FirstMetPrefix(init, j);
      assert init[..j] == walk[..j];
    } else {
      assert walk[..j] == walk;
    }
  }

  lemma WalkHolds(ring: seq<Point>, h: nat, a: Node)
    ensures OnRing(Walk(ring, h), a) <==> OnRing(ring, a)
  {
    var i := Bisect(ring, h);
    assert ring == ring[..i] + ring[i..];
    forall p ensures p in Walk(ring, h) <==> p in ring {
    }
  }

  lemma WrapAround(k: nat, n: nat)
    requires n > 0 && k < 2 * n
    ensures k % n == if k < n then k else k - n
  {
  }

  lemma WalkAt(ring: seq<Point>, h: nat, j: nat)
    requires j < |ring|
    ensures |Walk(ring, h)| == |ring| && Walk(ring, h)[j] == ring[(Bisect(ring, h) + j) % |ring|]
  {
    hide Bisect;
    WrapAround(Bisect(ring, h) + j, |ring|);
  }

  /** Every point before this place lies at or before the hash, and every point from it on beyond it. */
  ghost predicate StartsAt(ring: seq<Point>, h: nat, i: nat) {
    && i <= |ring|
    && (forall j :: 0 <= j < i ==> ring[j].hash <= h)
    && (forall j :: i <= j < |ring| ==> ring[j].hash > h)
  }

  lemma {:induction false} BisectStarts(ring: seq<Point>, h: nat)
    requires Sorted(ring)
    ensures StartsAt(ring, h, Bisect(ring, h))
  {
    if ring != [] {
      if ring[0].hash > h {
        forall j | 0 < j < |ring| ensures ring[j].hash > h {
          assert Before(ring[0], ring[j]);
        }
      } else {
        BisectStarts(ring[1..], h);
      }
    }
  }

  /** Along a walk, a is the first node that has not been met. */
  ghost predicate NextMet(walk: seq<Point>, met: seq<Node>, a: Node) {
    exists k :: 0 <= k < |walk| && walk[k].node == a && a !in met
                && forall l :: 0 <= l < k ==> walk[l].node in met
  }

  /** Nodes in the order they are met along a walk. */
  ghost predicate MetInOrder(walk: seq<Point>, nodes: seq<Node>) {
    forall s :: 0 <= s < |nodes| ==> NextMet(walk, nodes[..s], nodes[s])
  }

  /** Nodes in the order they are met clockwise from a place of the ring. */
  ghost predicate Clockwise(ring: seq<Point>, i: nat, nodes: seq<Node>) {
    i <= |ring| && MetInOrder(ring[i..] + ring[..i], nodes)
  }

  lemma {:induction false} FirstMetAt(walk: seq<Point>, s: nat) returns (k: nat)
    requires s < |FirstMet(walk)|
    ensures k < |walk| && walk[k].node == FirstMet(walk)[s] && walk[k].node !in FirstMet(walk)[..s]
    ensures forall l :: 0 <= l < k ==> walk[l].node in FirstMet(walk)[..s]
  {
    var init, last := walk[..|walk| - 1], walk[|walk| - 1];
    var before := FirstMet(init);
    FirstMetPrefix(walk, |walk| - 1);
    if s < |before| {
      k := FirstMetAt(init, s);
      assert before[..s] == FirstMet(walk)[..s];
    } else {
      k := |walk| - 1;
      FirstMetDistinct(init);
      assert FirstMet(walk)[..s] == before;
      forall l | 0 <= l < k ensures walk[l].node in before {
        assert init[l] in init;
        assert OnRing(init, walk[l].node);
      }
    }
  }

  /** The successors of a key are met one after another, clockwise from the first point beyond its hash. */
  lemma SuccessorsClockwise(ring: seq<Point>, h: nat)
    requires Sorted(ring)
    ensures StartsAt(ring, h, Bisect(ring, h)) && Clockwise(ring, Bisect(ring, h), Successors(ring, h))
  {
    hide Bisect, FirstMet, StartsAt;
    BisectStarts(ring, h);
    var nodes, walk := Successors(ring, h), Walk(ring, h);
    forall s | 0 <= s < |nodes| ensures NextMet(walk, nodes[..s], nodes[s]) {
      var k := FirstMetAt(walk, s);
    }
  }

  lemma ClockwisePrefix(ring: seq<Point>, i: nat, nodes: seq<Node>, n: nat)
    requires n <= |nodes| && Clockwise(ring, i, nodes)
    ensures Clockwise(ring, i, nodes[..n])
  {
    hide NextMet;
    forall s | 0 <= s < n ensures NextMet(ring[i..] + ring[..i], nodes[..n][..s], nodes[..n][s]) {
      assert nodes[..n][..s] == nodes[..s];
    }
  }

  /** The gathering loop of route: the first nodes met clockwise from the key. */
  method Gather(ring: seq<Point>, h: nat, gather: nat) returns (out: seq<Node>)
    ensures out == if gather <= |Successors(ring, h)| then Successors(ring, h)[..gather] else Successors(ring, h)
    ensures Sorted(ring) ==> exists i :: StartsAt(ring, h, i) && Clockwise(ring, i, out)
    ensures |out| < gather ==> forall p :: p in ring ==> p.node in out
  {
    var i, j := Bisect(ring, h), 0;
    ghost var walk := Walk(ring, h);
    out := [];
    while |out| < gather && j < |ring|
      invariant j <= |ring| == |walk| && out == FirstMet(walk[..j]) && |out| <= gather
    {
      WalkAt(ring, h, j);
      var addr := ring[(i + j) % |ring|].node;
      assert walk[..j + 1][..j] == walk[..j];
      if addr !in out {
        out := out + [addr];
      }
      j := j + 1;
    }
    FirstMetPrefix(walk, j);
    assert walk[..|walk|] == walk;
    if Sorted(ring) {
      SuccessorsClockwise(ring, h);
      ClockwisePrefix(ring, i, Successors(ring, h), |out|);
      assert Successors(ring, h)[..|out|] == out;
    }
    forall p | p in ring && |out| < gather ensures p.node in out {
      FirstMetDistinct(walk);
      assert OnRing(ring, p.node);
      WalkHolds(ring, h, p.node);
    }
  }

  // ------------------------------------------------------------ failure groups

  /** Where a node counts as being: its group, or a place of its own when it has none. */
  datatype Place = In(group: Group) | Alone(node: Node)

  function PlaceOf(groups: map<Node, Group>, a: Node): Place {
    if a in groups then In(groups[a]) else Alone(a)
  }

  function Places(groups: map<Node, Group>, nodes: seq<Node>): set<Place> {
    set a | a in nodes :: PlaceOf(groups, a)
  }

  /** Nodes that are the first of their place, and the others. */
  function Leaders(groups: map<Node, Group>, order: seq<Node>): seq<Node> {
    if order == [] then []
    else
      var init, a := order[..|order| - 1], order[|order| - 1];
      if PlaceOf(groups, a) in Places(groups, init) then Leaders(groups, init) else Leaders(groups, init) + [a]
  }

  function Followers(groups: map<Node, Group>, order: seq<Node>): seq<Node> {
    if order == [] then []
    else
      var init, a := order[..|order| - 1], order[|order| - 1];
      if PlaceOf(groups, a) in Places(groups, init) then Followers(groups, init) + [a] else Followers(groups, init)
  }

  /** Leaders first, completed with followers when there are not enough places. */
  function Diversified(groups: map<Node, Group>, order: seq<Node>, want: nat): seq<Node>
    requires want <= |order|
  {
    Sizes(groups, order);
    var l, f := Leaders(groups, order), Followers(groups, order);
    if want <= |l| then l[..want] else l + f[..want - |l|]
  }

  lemma {:induction false} Sizes(groups: map<Node, Group>, order: seq<Node>)
    ensures |Leaders(groups, order)| + |Followers(groups, order)| == |order|
  {
    if order != [] {
      Sizes(groups, order[..|order| - 1]);
    }
  }

  lemma PlacesSplit(groups: map<Node, Group>, init: seq<Node>, a: Node)
    ensures Places(groups, init + [a]) == Places(groups, init) + {PlaceOf(groups, a)}
  {
  }

  /** Leaders cover every place once. */
  lemma {:induction false} LeadersCover(groups: map<Node, Group>, order: seq<Node>)
    ensures Places(groups, Leaders(groups, order)) == Places(groups, order)
    ensures |Places(groups, order)| == |Leaders(groups, order)|
    ensures order != [] ==> Leaders(groups, order) != [] && Leaders(groups, order)[0] == order[0]
  {
    hide Places, PlaceOf;
    if order != [] {
      var init, a := order[..|order| - 1], order[|order| - 1];
      assert order == init + [a];
      LeadersCover(groups, init);
      PlacesSplit(groups, init, a);
      PlacesSplit(groups, Leaders(groups, init), a);
      if init == [] {
        NoPlaces(groups);
      }
    } else {
      NoPlaces(groups);
    }
  }

  lemma NoPlaces(groups: map<Node, Group>)
    ensures Places(groups, []) == {}
  {
  }

  /** Leaders and followers share out the nodes. */
  lemma {:induction false} LeadersFollowers(groups: map<Node, Group>, order: seq<Node>)
    requires NoDuplicates(order)
    ensures NoDuplicates(Leaders(groups, order)) && NoDuplicates(Followers(groups, order))
    ensures forall a :: a in Leaders(groups, order) ==> a !in Followers(groups, order)
    ensures forall a :: a in order <==> a in Leaders(groups, order) || a in Followers(groups, order)
  {
    hide Places, PlaceOf;
    if order != [] {
      var init, a := order[..|order| - 1], order[|order| - 1];
      assert order == init + [a];
      assert a !in init;
      LeadersFollowers(groups, init);
    }
  }

  lemma {:induction false} LeadersPrefix(groups: map<Node, Group>, order: seq<Node>, n: nat)
    requires n <= |order|
    ensures Leaders(groups, order[..n]) <= Leaders(groups, order)
            && Followers(groups, order[..n]) <= Followers(groups, order)
    ensures |Leaders(groups, order)| <= |Leaders(groups, order[..n])| + (|order| - n)
    decreases |order|
  {
    hide Places, PlaceOf;
    if n < |order| {
      var init := order[..|order| - 1];
      LeadersPrefix(groups, init, n);
      assert init[..n] == order[..n];
    } else {
      assert order[..n] == order;
    }
  }

  /** The replica set is drawn from the nodes it was given, each once. */
  lemma DiversifiedDistinct(groups: map<Node, Group>, order: seq<Node>, want: nat)
    requires want <= |order| && NoDuplicates(order)
    ensures |Diversified(groups, order, want)| == want && NoDuplicates(Diversified(groups, order, want))
    ensures forall a :: a in Diversified(groups, order, want) ==> a in order
    ensures want > 0 ==> Diversified(groups, order, want)[0] == order[0]
  {
    hide Leaders, Followers;
    Sizes(groups, order);
    LeadersFollowers(groups, order);
    if order != [] {
      LeadersCover(groups, order);
    }
    var l, f := Leaders(groups, order), Followers(groups, order);
    if want > |l| {
      var d := l + f[..want - |l|];
      forall i, j | 0 <= i < j < want ensures d[i] != d[j] {
        assert j >= |l| ==> f[j - |l|] in f;
        assert i < |l| ==> l[i] in l;
      }
    }
  }

  lemma SubsetPlaces(groups: map<Node, Group>, some: seq<Node>, all: seq<Node>)
    requires forall a :: a in some ==> a in all
    ensures Places(groups, some) <= Places(groups, all)
  {
  }

  lemma {:induction false} PlacesAtMost(groups: map<Node, Group>, some: seq<Node>)
    ensures |Places(groups, some)| <= |some|
  {
    hide Places, PlaceOf;
    if some == [] {
      NoPlaces(groups);
    } else {
      PlacesAtMost(groups, some[..|some| - 1]);
      PlacesSplit(groups, some[..|some| - 1], some[|some| - 1]);
      assert some == some[..|some| - 1] + [some[|some| - 1]];
    }
  }

  lemma {:induction false} LeadersApart(groups: map<Node, Group>, order: seq<Node>, n: nat)
    requires n <= |Leaders(groups, order)|
    ensures |Places(groups, Leaders(groups, order)[..n])| == n
    decreases |order|
  {
    hide Places, PlaceOf;
    var l := Leaders(groups, order);
    if order == [] {
      NoPlaces(groups);
    } else {
      var init, a := order[..|order| - 1], order[|order| - 1];
      if n <= |Leaders(groups, init)| {
        LeadersApart(groups, init, n);
        LeadersPrefix(groups, order, |order| - 1);
        assert Leaders(groups, init)[..n] == l[..n];
      } else {
        LeadersCover(groups, init);
        PlacesSplit(groups, Leaders(groups, init), a);
        assert l[..n] == Leaders(groups, init) + [a];
      }
    }
  }

  /** No choice of as many nodes from the same candidates spans more failure groups. */
  lemma DiversifiedBest(groups: map<Node, Group>, order: seq<Node>, want: nat, other: seq<Node>)
    requires want <= |order| && NoDuplicates(order)
    requires |other| == want && forall a :: a in other ==> a in order
    ensures |Places(groups, other)| <= |Places(groups, Diversified(groups, order, want))|
  {
    hide Leaders, Followers, Places, PlaceOf;
    var l, chosen := Leaders(groups, order), Diversified(groups, order, want);
    Sizes(groups, order);
    if want <= |l| {
      LeadersApart(groups, order, want);
      PlacesAtMost(groups, other);
    } else {
      LeadersCover(groups, order);
      SubsetPlaces(groups, other, order);
      SubsetPlaces(groups, l, chosen);
      SubsetSize(Places(groups, other), Places(groups, order));
      SubsetSize(Places(groups, l), Places(groups, chosen));
    }
  }

  /** A node that neither is among those picked nor shares its failure group with one of them. */
  ghost predicate NewPlace(groups: map<Node, Group>, picked: seq<Node>, a: Node) {
    forall b :: b in picked ==> b != a && !(a in groups && b in groups && groups[a] == groups[b])
  }

  lemma NewPlaceIs(groups: map<Node, Group>, picked: seq<Node>, a: Node)
    ensures NewPlace(groups, picked, a) <==> PlaceOf(groups, a) !in Places(groups, picked)
  {
  }

  /** The next pick: the first candidate in a new place or, when there is none, the first one not yet picked. */
  ghost predicate NextPick(groups: map<Node, Group>, order: seq<Node>, picked: seq<Node>, a: Node) {
    exists k :: 0 <= k < |order| && order[k] == a &&
      if exists b :: b in order && NewPlace(groups, picked, b)
        then NewPlace(groups, picked, a) && forall l :: 0 <= l < k ==> !NewPlace(groups, picked, order[l])
      else a !in picked && forall l :: 0 <= l < k ==> order[l] in picked
  }

  /** Picks made one after another, each as it should be. */
  ghost predicate PickedInTurn(groups: map<Node, Group>, order: seq<Node>, picks: seq<Node>) {
    forall s :: 0 <= s < |picks| ==> NextPick(groups, order, picks[..s], picks[s])
  }

  lemma {:induction false} LeaderAt(groups: map<Node, Group>, order: seq<Node>, s: nat) returns (k: nat)
    requires s < |Leaders(groups, order)|
    ensures var l := Leaders(groups, order);
            k < |order| && order[k] == l[s] && NewPlace(groups, l[..s], order[k])
            && forall j :: 0 <= j < k ==> !NewPlace(groups, l[..s], order[j])
  {
    hide Places, PlaceOf, NewPlace;
    var l, init := Leaders(groups, order), order[..|order| - 1];
    LeadersPrefix(groups, order, |order| - 1);
    var l' := Leaders(groups, init);
    if s < |l'| {
      k := LeaderAt(groups, init, s);
      assert l'[..s] == l[..s];
    } else {
      k := |order| - 1;
      assert l[..s] == l';
      LeadersCover(groups, init);
      NewPlaceIs(groups, l', order[k]);
      forall j | 0 <= j < k ensures !NewPlace(groups, l', order[j]) {
        PlaceAmong(groups, init, j);
        NewPlaceIs(groups, l', init[j]);
      }
    }
  }

  lemma PlaceAmong(groups: map<Node, Group>, order: seq<Node>, j: nat)
    requires j < |order|
    ensures PlaceOf(groups, order[j]) in Places(groups, order)
  {
  }

  lemma {:induction false} FollowerAt(groups: map<Node, Group>, order: seq<Node>, t: nat) returns (k: nat)
    requires t < |Followers(groups, order)| && NoDuplicates(order)
    ensures var l, f := Leaders(groups, order), Followers(groups, order);
            k < |order| && order[k] == f[t]
            && forall j :: 0 <= j < k ==> order[j] in l || order[j] in f[..t]
  {
    hide Places, PlaceOf;
    var l, f, init := Leaders(groups, order), Followers(groups, order), order[..|order| - 1];
    LeadersPrefix(groups, order, |order| - 1);
    var l', f' := Leaders(groups, init), Followers(groups, init);
    if t < |f'| {
      k := FollowerAt(groups, init, t);
      assert f'[..t] == f[..t];
      forall j | 0 <= j < k ensures order[j] in l || order[j] in f[..t] {
        assert init[j] == order[j];
      }
    } else {
      k := |order| - 1;
      assert f[..t] == f';
      LeadersFollowers(groups, init);
      forall j | 0 <= j < k ensures order[j] in l || order[j] in f' {
        assert init[j] in init;
      }
    }
  }

  /** The diversified order is picked in turn. */
  lemma DiversifiedInTurn(groups: map<Node, Group>, order: seq<Node>, want: nat)
    requires want <= |order| && NoDuplicates(order)
    ensures PickedInTurn(groups, order, Diversified(groups, order, want))
  {
    hide Leaders, Followers, Places, PlaceOf, NewPlace;
    Sizes(groups, order);
    LeadersCover(groups, order);
    LeadersFollowers(groups, order);
    var l, f, d := Leaders(groups, order), Followers(groups, order), Diversified(groups, order, want);
    forall s | 0 <= s < want ensures NextPick(groups, order, d[..s], d[s]) {
      if s < |l| {
        var k := LeaderAt(groups, order, s);
        assert d[..s] == l[..s] && order[k] in order;
      } else {
        var t := s - |l|;
        var k := FollowerAt(groups, order, t);
        assert d[..s] == l + f[..t];
        NoNewPlace(groups, order, l, d[..s]);
        assert d[s] !in f[..t];
      }
    }
  }

  lemma NoNewPlace(groups: map<Node, Group>, order: seq<Node>, l: seq<Node>, picked: seq<Node>)
    requires Places(groups, l) == Places(groups, order) && l <= picked
    ensures forall b :: b in order ==> !NewPlace(groups, picked, b)
  {
    forall b | b in order ensures !NewPlace(groups, picked, b) {
      assert PlaceOf(groups, b) in Places(groups, l);
      NewPlaceIs(groups, picked, b);
    }
  }

  /** Without groups, or with one pick to make, picking in turn takes the candidates as they come. */
  lemma PlainInTurn(groups: map<Node, Group>, order: seq<Node>, want: nat)
    requires want <= |order| && NoDuplicates(order) && (groups == map[] || want <= 1)
    ensures PickedInTurn(groups, order, order[..want])
  {
    forall s | 0 <= s < want ensures NextPick(groups, order, order[..want][..s], order[..want][s]) {
      assert order[..want][..s] == order[..s];
      assert NewPlace(groups, order[..s], order[s]) && order[s] in order;
      forall l | 0 <= l < s ensures !NewPlace(groups, order[..s], order[l]) {
        assert order[..s][l] == order[l] && order[l] in order[..s];
      }
    }
  }

  /** Asking for more nodes never drops one of those already chosen, when no more candidates are added than picks. */
  lemma DiversifiedGrows(groups: map<Node, Group>, order: seq<Node>, n: nat, want: nat, more: nat)
    requires want <= n <= |order| && want <= more <= |order| && |order| - n <= more - want
    ensures forall a :: a in Diversified(groups, order[..n], want) ==> a in Diversified(groups, order, more)
  {
    hide Leaders, Followers;
    Sizes(groups, order);
    Sizes(groups, order[..n]);
    LeadersPrefix(groups, order, n);
    var l, f := Leaders(groups, order[..n]), Followers(groups, order[..n]);
    var l', f' := Leaders(groups, order), Followers(groups, order);
    forall a | a in Diversified(groups, order[..n], want) ensures a in Diversified(groups, order, more) {
      if want <= |l| {
        var k :| 0 <= k < want && l[..want][k] == a;
        assert l'[k] == a;
      } else if a in l {
        var k :| 0 <= k < |l| && l[k] == a;
        assert l'[k] == a;
      } else {
        var k :| 0 <= k < want - |l| && f[..want - |l|][k] == a;
        assert f'[k] == a;
        assert f'[..more - |l'|][k] == a;
      }
    }
  }

  /** Whether the k-th candidate leads its place. */
  predicate Leads(groups: map<Node, Group>, order: seq<Node>, k: nat)
    requires k < |order|
  {
    PlaceOf(groups, order[k]) !in Places(groups, order[..k])
  }

  lemma LeaderStep(groups: map<Node, Group>, order: seq<Node>, k: nat)
    requires k < |order|
    ensures Leaders(groups, order[..k + 1]) == Leaders(groups, order[..k]) + if Leads(groups, order, k) then [order[k]]
            else []
    ensures Followers(groups, order[..k + 1]) == Followers(groups, order[..k]) + if Leads(groups, order, k) then []
            else [order[k]]
    ensures Places(groups, order[..k + 1]) == Places(groups, order[..k]) + {PlaceOf(groups, order[k])}
  {
    hide Places, PlaceOf;
    var next := order[..k + 1];
    assert next[..|next| - 1] == order[..k];
    assert next == order[..k] + [order[k]];
    PlacesSplit(groups, order[..k], order[k]);
  }

  /** A candidate without a group leads; one with a group leads when the group is new. */
  lemma LeadsWhen(groups: map<Node, Group>, order: seq<Node>, k: nat, seen: set<Group>)
    requires k < |order| && NoDuplicates(order)
    requires forall g :: g in seen <==> In(g) in Places(groups, order[..k])
    ensures Leads(groups, order, k) <==> !(order[k] in groups && groups[order[k]] in seen)
  {
    if order[k] !in groups {
      forall a | a in order[..k] ensures PlaceOf(groups, a) != Alone(order[k]) {
      }
    }
  }

  lemma FollowerStep(groups: map<Node, Group>, order: seq<Node>, k: nat)
    requires k < |order| && NoDuplicates(order)
    ensures order[k] in Leaders(groups, order) + Followers(groups, order[..k]) <==> Leads(groups, order, k)
  {
    hide Leaders, Followers, Places, PlaceOf, Leads;
    LeaderStep(groups, order, k);
    LeadersFollowers(groups, order);
    LeadersFollowers(groups, order[..k]);
    LeadersPrefix(groups, order, k + 1);
    var l, f := Leaders(groups, order[..k + 1]), Followers(groups, order[..k + 1]);
    if Leads(groups, order, k) {
      assert l[|l| - 1] == order[k];
      assert Leaders(groups, order)[|l| - 1] == order[k];
    } else {
      assert f[|f| - 1] == order[k];
      assert Followers(groups, order)[|f| - 1] == order[k];
      assert order[k] !in order[..k];
    }
  }

  /** The first loop of the reordering: one node per failure group. */
  method PickLeaders(groups: map<Node, Group>, order: seq<Node>, want: nat) returns (picked: seq<Node>)
    requires want <= |order| && NoDuplicates(order)
    ensures picked == if want <= |Leaders(groups, order)| then Leaders(groups, order)[..want]
            else Leaders(groups, order)
  {
    hide Leaders, Places, PlaceOf, Leads;
    var seen: set<Group> := {};
    var j := 0;
    picked := [];
    assert Leaders(groups, []) == [] by {
      Sizes(groups, []);
    }
    NoPlaces(groups);
    while j < |order| && |picked| < want
      invariant j <= |order| && picked == Leaders(groups, order[..j]) && |picked| <= want
      invariant forall g :: g in seen <==> In(g) in Places(groups, order[..j])
    {
      var node := order[j];
      LeaderStep(groups, order, j);
      LeadsWhen(groups, order, j, seen);
      SeenGrows(groups, order, j, seen);
      if !(node in groups && groups[node] in seen) {
        picked := picked + [node];
        if node in groups {
          seen := seen + {groups[node]};
        }
      }
      j := j + 1;
    }
    LeadersPrefix(groups, order, j);
    assert order[..|order|] == order;
  }

  lemma SeenGrows(groups: map<Node, Group>, order: seq<Node>, k: nat, seen: set<Group>)
    requires k < |order| && forall g :: g in seen <==> In(g) in Places(groups, order[..k])
    ensures forall g :: (g in seen || (order[k] in groups && g == groups[order[k]])) <==>
                          In(g) in Places(groups, order[..k]) + {PlaceOf(groups, order[k])}
  {
  }

  /** The second loop: complete the set in ring order. */
  method Complete(groups: map<Node, Group>, order: seq<Node>, want: nat, leaders: seq<Node>) returns (picked: seq<Node>)
    requires want <= |order| && NoDuplicates(order)
    requires leaders == if want <= |Leaders(groups, order)| then Leaders(groups, order)[..want]
             else Leaders(groups, order)
    ensures picked == Diversified(groups, order, want)
  {
    hide Leaders, Followers, Leads;
    Sizes(groups, order);
    picked := leaders;
    var k := 0;
    assert Followers(groups, []) == [] by {
      Sizes(groups, []);
    }
    while k < |order| && |picked| < want
      invariant k <= |order| && |leaders| <= |picked| <= want
      invariant |leaders| < want ==> picked == leaders + Followers(groups, order[..k])
      invariant |leaders| == want ==> picked == leaders
    {
      FollowerStep(groups, order, k);
      LeaderStep(groups, order, k);
      if order[k] !in picked {
        picked := picked + [order[k]];
      }
      k := k + 1;
    }
    LeadersPrefix(groups, order, k);
    assert order[..|order|] == order;
  }

  method Diversify(groups: map<Node, Group>, order: seq<Node>, want: nat) returns (picked: seq<Node>)
    requires want <= |order| <= want + REORDER_WINDOW && NoDuplicates(order)
    ensures picked == Diversified(groups, order, want)
  {
    hide Diversified;
    assert order[..|order|] == order;
    picked := PickLeaders(groups, order, want);
    picked := Complete(groups, order, want, picked);
  }

  // ------------------------------------------------------------ routing

  class Ring {
    const addrs: set<Node>
    const replicas: nat
    const groups: map<Node, Group>
    const ring: seq<Point>

    ghost predicate Valid() {
      && addrs != {} && 1 <= replicas <= |addrs|
      && Sorted(ring) && forall a :: OnRing(ring, a) <==> a in addrs
    }

    constructor (nodes: seq<Node>, vnodes: nat, wanted: nat, groups: map<Node, Group>, place: Placing)
      requires nodes != [] && vnodes > 0 && wanted > 0
      ensures Valid() && addrs == Elements(nodes) && ring == Build(nodes, vnodes, place) && this.groups == groups
      ensures replicas == Min(wanted, |addrs|)
      ensures forall p :: p in ring <==> p.node in nodes && exists v: nat :: v < vnodes && p.hash == place(p.node, v)
    {
      var all := Elements(nodes);
      addrs := all;
      replicas := if wanted < |all| then wanted else |all|;
      this.groups := groups;
      ring := Build(nodes, vnodes, place);
      BuildSorted(nodes, vnodes, place);
      forall a ensures OnRing(Build(nodes, vnodes, place), a) <==> a in nodes {
        BuildHolds(nodes, vnodes, place, a);
      }
      forall p ensures p in Build(nodes, vnodes, place) <==> p.node in nodes && VirtualNode(p, vnodes, place) {
        BuildPoints(nodes, vnodes, place, p);
      }
      assert nodes[0] in all;
    }

    /** The replica set for a key's hash. */
    ghost function Routed(h: nat, count: nat): seq<Node>
      requires Valid()
    {
      SuccessorsAll(ring, h, addrs);
      RoutedIn(ring, groups, |addrs|, h, if count == 0 then replicas else count)
    }

    /** Picked in turn from the nodes met first, clockwise from the first point beyond the hash. */
    ghost predicate PickedClockwise(h: nat, out: seq<Node>) {
      exists i, near :: StartsAt(ring, h, i) && Clockwise(ring, i, near)
                        && |near| == Min(|out| + REORDER_WINDOW, |addrs|) && PickedInTurn(groups, near, out)
    }

    /** The nodes a key belongs to, in preference order; as many as there are replicas, unless told otherwise. */
    method Route(h: nat, count: nat) returns (out: seq<Node>)
      requires Valid()
      ensures out == Routed(h, count)
      ensures |out| == Min(if count == 0 then replicas else count, |addrs|)
      ensures PickedClockwise(h, out)
    {
      hide Diversified, Clockwise, StartsAt, PickedInTurn, Successors;
      var asked := if count == 0 then replicas else count;
      var want := if asked < |addrs| then asked else |addrs|;
      var window := if groups == map[] then 0 else REORDER_WINDOW;
      var gather := if want + window < |addrs| then want + window else |addrs|;
      SuccessorsAll(ring, h, addrs);
      out := Gather(ring, h, gather);
      DistinctPrefix(Successors(ring, h), gather);
      ghost var i, near := SuccessorsWithin(ring, h, Min(want + REORDER_WINDOW, |addrs|));
      assert out[..want] == near[..want];
      if groups == map[] || want <= 1 {
        PlainInTurn(groups, near, want);
        return out[..want];
      }
      DiversifiedInTurn(groups, near, want);
      DiversifiedDistinct(groups, near, want);
      out := Diversify(groups, out, want);
    }
  }

  /** The first successors of a key, as they lie on the ring. */
  lemma SuccessorsWithin(ring: seq<Point>, h: nat, n: nat) returns (i: nat, near: seq<Node>)
    requires Sorted(ring) && n <= |Successors(ring, h)| && NoDuplicates(Successors(ring, h))
    ensures StartsAt(ring, h, i) && near == Successors(ring, h)[..n] && NoDuplicates(near)
    ensures Clockwise(ring, i, near)
  {
    hide Clockwise, StartsAt, Successors;
    SuccessorsClockwise(ring, h);
    i, near := Bisect(ring, h), Successors(ring, h)[..n];
    ClockwisePrefix(ring, i, Successors(ring, h), n);
    DistinctPrefix(Successors(ring, h), n);
  }

  lemma DistinctPrefix(s: seq<Node>, n: nat)
    requires n <= |s| && NoDuplicates(s)
    ensures NoDuplicates(s[..n])
  {
  }

  /** Successors are all the nodes, each once. */
  lemma SuccessorsAll(ring: seq<Point>, h: nat, addrs: set<Node>)
    requires forall a :: OnRing(ring, a) <==> a in addrs
    ensures |Successors(ring, h)| == |addrs| && NoDuplicates(Successors(ring, h))
    ensures forall a :: a in Successors(ring, h) <==> a in addrs
  {
    hide Walk;
    FirstMetDistinct(Walk(ring, h));
    forall a ensures a in Successors(ring, h) <==> a in addrs {
      WalkHolds(ring, h, a);
    }
    DistinctSize(Successors(ring, h));
    assert Elements(Successors(ring, h)) == addrs;
  }

  /** What route returns, by the successors of the key. */
  ghost function RoutedIn(ring: seq<Point>, groups: map<Node, Group>, n: nat, h: nat, count: nat): seq<Node>
    requires |Successors(ring, h)| == n
  {
    var order := Successors(ring, h);
    var want := Min(count, n);
    if groups == map[] || want <= 1 then order[..want]
    else Diversified(groups, order[..Min(want + REORDER_WINDOW, n)], want)
  }

  // ------------------------------------------------------------ what a route is

  /** A route is as many distinct nodes as there are, up to what was asked for, all within reach of a reader that
      probes three successors further; and failure groups never change which node comes first. */
  lemma RouteWithin(ring: seq<Point>, groups: map<Node, Group>, n: nat, h: nat, count: nat)
    requires n == |Successors(ring, h)| && NoDuplicates(Successors(ring, h))
    ensures var r := RoutedIn(ring, groups, n, h, count);
            && |r| == Min(count, n) && NoDuplicates(r)
            && (forall a :: a in r ==> a in Successors(ring, h)[..Min(count + REORDER_WINDOW, n)])
            && (r != [] ==> r[0] == Successors(ring, h)[0])
  {
    hide Successors, Leaders, Followers, Diversified;
    var order := Successors(ring, h);
    var want := Min(count, n);
    if groups != map[] && want > 1 {
      DiversifiedDistinct(groups, order[..Min(want + REORDER_WINDOW, n)], want);
    } else {
      forall a | a in order[..want] ensures a in order[..Min(count + REORDER_WINDOW, n)] {
        var k :| 0 <= k < want && order[..want][k] == a;
        assert order[..Min(count + REORDER_WINDOW, n)][k] == a;
      }
    }
  }

  lemma {:induction false} UngroupedPlaces(some: seq<Node>)
    requires NoDuplicates(some)
    ensures |Places(map[], some)| == |some|
  {
    if some == [] {
      NoPlaces(map[]);
    } else {
      var init, a := some[..|some| - 1], some[|some| - 1];
      UngroupedPlaces(init);
      PlacesSplit(map[], init, a);
      assert some == init + [a];
      assert a !in init;
    }
  }

  /** A route spans as many failure groups as any choice of that many nodes within the window. */
  lemma RouteBest(ring: seq<Point>, groups: map<Node, Group>, n: nat, h: nat, count: nat, other: seq<Node>)
    requires n == |Successors(ring, h)| && NoDuplicates(Successors(ring, h))
    requires |other| == Min(count, n) && forall a :: a in other ==>
               a in Successors(ring, h)[..Min(count + REORDER_WINDOW, n)]
    ensures |Places(groups, other)| <= |Places(groups, RoutedIn(ring, groups, n, h, count))|
  {
    hide Successors, Leaders, Followers, Diversified, Places, PlaceOf;
    var order := Successors(ring, h);
    var want := Min(count, n);
    PlacesAtMost(groups, other);
    if groups == map[] {
      UngroupedPlaces(order[..want]);
    } else if want == 1 {
      PlacesSplit(groups, [], order[0]);
      NoPlaces(groups);
      assert order[..1] == [] + [order[0]];
    } else if want > 1 {
      DiversifiedBest(groups, order[..Min(want + REORDER_WINDOW, n)], want, other);
    }
  }

  /** Everything a write may have been acknowledged by is probed by a read: the reordering of the larger request
      never drops a node of the smaller one. */
  lemma RouteNested(ring: seq<Point>, groups: map<Node, Group>, n: nat, h: nat, count: nat)
    requires n == |Successors(ring, h)| && NoDuplicates(Successors(ring, h)) && count >= 1
    ensures forall a :: a in RoutedIn(ring, groups, n, h, count) ==>
              a in RoutedIn(ring, groups, n, h, count + REORDER_WINDOW)
  {
    hide Successors, Leaders, Followers, Diversified;
    var order := Successors(ring, h);
    var want, more := Min(count, n), Min(count + REORDER_WINDOW, n);
    if groups == map[] {
      assert order[..want] == order[..more][..want];
    } else if want == 1 {
      RouteWithin(ring, groups, n, h, count);
      RouteWithin(ring, groups, n, h, count + REORDER_WINDOW);
      var r, r' := RoutedIn(ring, groups, n, h, count), RoutedIn(ring, groups, n, h, count + REORDER_WINDOW);
      assert r == [order[0]] && r'[0] == order[0];
    } else if want > 1 {
      var all, fewer := order[..Min(more + REORDER_WINDOW, n)], Min(want + REORDER_WINDOW, n);
      assert all[..fewer] == order[..fewer];
      DiversifiedGrows(groups, all, fewer, want, more);
    }
  }

  /** What a caller of route gets, for every ring: as many distinct nodes as asked for, as far as there are any, all
      among the first successors a reader probes, the plain first successor in front, and as many failure groups as
      any choice from those successors spans. */
  lemma RoutedBest(r: Ring, h: nat, count: nat, other: seq<Node>)
    requires r.Valid()
    ensures var want := Min(if count == 0 then r.replicas else count, |r.addrs|);
            var out, near := r.Routed(h, count), Successors(r.ring, h);
            && |out| == want >= 1 && NoDuplicates(out) && |near| == |r.addrs| && (forall a :: a in out ==> a in r.addrs)
            && out[0] == near[0]
            && (forall a :: a in out ==> a in near[..Min(want + REORDER_WINDOW, |near|)])
            && (|other| == want && (forall a :: a in other ==> a in near[..Min(want + REORDER_WINDOW, |near|)]) ==>
                  |Places(r.groups, other)| <= |Places(r.groups, out)|)
  {
    hide RoutedIn, Successors;
    var asked := if count == 0 then r.replicas else count;
    SuccessorsAll(r.ring, h, r.addrs);
    RouteWithin(r.ring, r.groups, |r.addrs|, h, asked);
    if |other| == Min(asked, |r.addrs|) && forall a :: a in other ==>
        a in Successors(r.ring, h)[..Min(asked + REORDER_WINDOW, |r.addrs|)] {
      RouteBest(r.ring, r.groups, |r.addrs|, h, asked, other);
    }
  }

  lemma RoutedNested(r: Ring, h: nat)
    requires r.Valid()
    ensures forall a :: a in r.Routed(h, r.replicas) ==> a in r.Routed(h, r.replicas + REORDER_WINDOW)
  {
    hide RoutedIn, Successors;
    SuccessorsAll(r.ring, h, r.addrs);
    RouteNested(r.ring, r.groups, |r.addrs|, h, r.replicas);
  }

  // ------------------------------------------------------------ joining the ring

  /** A ring without one node's points. */
  function Without(ring: seq<Point>, x: Node): seq<Point> {
    if ring == [] then []
    else if ring[0].node == x then Without(ring[1..], x)
    else [ring[0]] + Without(ring[1..], x)
  }

  function Drop(nodes: seq<Node>, x: Node): seq<Node> {
    if nodes == [] then []
    else if nodes[|nodes| - 1] == x then Drop(nodes[..|nodes| - 1], x)
    else Drop(nodes[..|nodes| - 1], x) + [nodes[|nodes| - 1]]
  }

  lemma {:induction false} WithoutInsertOwn(ring: seq<Point>, p: Point)
    ensures Without(Insert(ring, p), p.node) == Without(ring, p.node)
  {
    if ring != [] {
      if Before(p, ring[0]) {
        assert ([p] + ring)[1..] == ring;
      } else {
        WithoutInsertOwn(ring[1..], p);
        assert Insert(ring, p)[1..] == Insert(ring[1..], p);
      }
    }
  }

  lemma {:induction false} WithoutHolds(ring: seq<Point>, x: Node, q: Point)
    ensures q in Without(ring, x) ==> q in ring
  {
    if ring != [] {
      WithoutHolds(ring[1..], x, q);
    }
  }

  lemma FrontOfWithout(ring: seq<Point>, x: Node, p: Point)
    requires Sorted(ring) && ring != [] && Before(p, ring[0])
    ensures Insert(Without(ring, x), p) == [p] + Without(ring, x)
  {
    var rest := Without(ring, x);
    if rest != [] {
      WithoutHolds(ring, x, rest[0]);
    }
  }

  lemma {:induction false} WithoutInsertOther(ring: seq<Point>, p: Point, x: Node)
    requires Sorted(ring) && p.node != x
    ensures Without(Insert(ring, p), x) == Insert(Without(ring, x), p)
  {
    if ring != [] {
      if Before(p, ring[0]) {
        FrontOfWithout(ring, x, p);
        assert ([p] + ring)[1..] == ring;
      } else {
        WithoutInsertOther(ring[1..], p, x);
        assert Insert(ring, p)[1..] == Insert(ring[1..], p);
        if ring[0].node != x {
          assert ([ring[0]] + Without(ring[1..], x))[1..] == Without(ring[1..], x);
        }
      }
    }
  }

  lemma {:induction false} WithoutJoin(ring: seq<Point>, node: Node, vnodes: nat, place: Placing, x: Node)
    requires Sorted(ring)
    ensures node == x ==> Without(Join(ring, node, vnodes, place), x) == Without(ring, x)
    ensures node != x ==> Without(Join(ring, node, vnodes, place), x) == Join(Without(ring, x), node, vnodes, place)
  {
    hide Without, Insert, Sorted;
    if vnodes > 0 {
      var p, r := Point(place(node, vnodes - 1), node), Join(ring, node, vnodes - 1, place);
      WithoutJoin(ring, node, vnodes - 1, place, x);
      JoinSorted(ring, node, vnodes - 1, place);
      if node == x {
        WithoutInsertOwn(r, p);
      } else {
        WithoutInsertOther(r, p, x);
      }
    }
  }

  /** Building the ring without a node is building it with the node and taking its points out. */
  lemma {:induction false} BuildWithout(addrs: seq<Node>, vnodes: nat, place: Placing, x: Node)
    ensures Without(Build(addrs, vnodes, place), x) == Build(Drop(addrs, x), vnodes, place)
  {
    if addrs != [] {
      var init, last := addrs[..|addrs| - 1], addrs[|addrs| - 1];
      BuildWithout(init, vnodes, place, x);
      BuildSorted(init, vnodes, place);
      WithoutJoin(Build(init, vnodes, place), last, vnodes, place, x);
      if last != x {
        var d := Drop(init, x) + [last];
        assert d[..|d| - 1] == Drop(init, x);
      }
    }
  }

  lemma {:induction false} WithoutConcat(a: seq<Point>, b: seq<Point>, x: Node)
    ensures Without(a + b, x) == Without(a, x) + Without(b, x)
  {
    if a == [] {
      assert a + b == b;
    } else {
      WithoutConcat(a[1..], b, x);
      assert (a + b)[1..] == a[1..] + b;
    }
  }

  /** The walk from a hash is the same but for the node's points. */
  lemma {:induction false} BisectWithout(ring: seq<Point>, h: nat, x: Node)
    requires Sorted(ring)
    ensures Without(ring, x)[..Bisect(Without(ring, x), h)] == Without(ring[..Bisect(ring, h)], x)
    ensures Without(ring, x)[Bisect(Without(ring, x), h)..] == Without(ring[Bisect(ring, h)..], x)
  {
    if ring == [] {
    } else if ring[0].hash > h {
      BeyondAll(ring, h, x);
    } else {
      BisectWithout(ring[1..], h, x);
      var i := Bisect(ring, h);
      assert ring[..i] == [ring[0]] + ring[1..][..i - 1];
      assert ring[i..] == ring[1..][i - 1..];
      assert ring[..i][1..] == ring[1..][..i - 1];
      if ring[0].node != x {
        var w, w' := Without(ring, x), Without(ring[1..], x);
        assert w == [ring[0]] + w' && w[1..] == w';
        assert w[..Bisect(w, h)] == [ring[0]] + w'[..Bisect(w', h)];
      }
    }
  }

  lemma BeyondAll(ring: seq<Point>, h: nat, x: Node)
    requires Sorted(ring) && ring != [] && ring[0].hash > h
    ensures Bisect(Without(ring, x), h) == 0
  {
    var rest := Without(ring, x);
    if rest != [] {
      WithoutHolds(ring, x, rest[0]);
    }
  }

  lemma WithoutWalk(ring: seq<Point>, h: nat, x: Node)
    requires Sorted(ring)
    ensures Walk(Without(ring, x), h) == Without(Walk(ring, h), x)
  {
    var i := Bisect(ring, h);
    BisectWithout(ring, h, x);
    WithoutConcat(ring[i..], ring[..i], x);
  }

  lemma WithoutLast(walk: seq<Point>, x: Node)
    requires walk != []
    ensures var init, last := walk[..|walk| - 1], walk[|walk| - 1];
            Without(walk, x) == Without(init, x) + if last.node == x then [] else [last]
  {
    var init, last := walk[..|walk| - 1], walk[|walk| - 1];
    assert walk == init + [last];
    WithoutConcat(init, [last], x);
    assert [last][1..] == [];
  }

  lemma {:induction false} DropHolds(nodes: seq<Node>, x: Node, a: Node)
    ensures a in Drop(nodes, x) <==> a in nodes && a != x
  {
    if nodes != [] {
      DropHolds(nodes[..|nodes| - 1], x, a);
      assert nodes == nodes[..|nodes| - 1] + [nodes[|nodes| - 1]];
    }
  }

  lemma {:induction false} FirstMetWithout(walk: seq<Point>, x: Node)
    ensures FirstMet(Without(walk, x)) == Drop(FirstMet(walk), x)
  {
    if walk != [] {
      var init, last := walk[..|walk| - 1], walk[|walk| - 1];
      var a, before := last.node, FirstMet(init);
      FirstMetWithout(init, x);
      WithoutLast(walk, x);
      DropHolds(before, x, a);
      if a != x {
        var w := Without(init, x) + [last];
        assert w[..|w| - 1] == Without(init, x) && w[|w| - 1] == last;
      } else {
        assert Without(init, x) + [] == Without(init, x);
      }
      if a !in before {
        var grown := before + [a];
        assert grown[..|grown| - 1] == before;
      }
    }
  }

  /** A node that joins is only inserted: for every key, the successors of the ring with it, taken without it, are
      the successors of the ring without it. */
  lemma JoiningOnlyInserts(addrs: seq<Node>, vnodes: nat, place: Placing, x: Node, h: nat)
    ensures Drop(Successors(Build(addrs, vnodes, place), h), x) == Successors(Build(Drop(addrs, x), vnodes, place), h)
  {
    var ring := Build(addrs, vnodes, place);
    BuildSorted(addrs, vnodes, place);
    BuildWithout(addrs, vnodes, place, x);
    WithoutWalk(ring, h, x);
    FirstMetWithout(Walk(ring, h), x);
  }
}
