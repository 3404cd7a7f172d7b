/** Replicated writes and reads over the ring (Owner._put and Owner._mget_network in blindrange/client.py).

    Nodes are maps that are up or down for the length of a call. A read that hears nothing from a node that might
    hold a key reports the key unresolved instead of absent. */
module Replication {
  import opened Basics
  import opened Chains
  import HashRing

  type Node = HashRing.Node
  type Stores = map<Node, Net>

  /** The network as one client sees it: its ring, the nodes it has an address for, and where keys hash to. */
  datatype Cluster = Cluster(ring: HashRing.Ring, known: set<Node>, hash: Key -> nat, acks: nat)

  function Held(stores: Stores, a: Node): Net {
    if a in stores then stores[a] else map[]
  }

  function Reachable(known: set<Node>, nodes: seq<Node>): seq<Node> {
    if nodes == [] then []
    else Reachable(known, nodes[..|nodes| - 1]) + if nodes[|nodes| - 1] in known then [nodes[|nodes| - 1]] else []
  }

  lemma {:induction false} ReachableHolds(known: set<Node>, nodes: seq<Node>, a: Node)
    ensures a in Reachable(known, nodes) <==> a in nodes && a in known
  {
    if nodes != [] {
      ReachableHolds(known, nodes[..|nodes| - 1], a);
      assert nodes == nodes[..|nodes| - 1] + [nodes[|nodes| - 1]];
    }
  }

  /** Nodes a read of a key probes. */
  ghost function Probed(c: Cluster, k: Key): seq<Node>
    requires c.ring.Valid()
  {
    Reachable(c.known, c.ring.Routed(c.hash(k), c.ring.replicas + HashRing.REORDER_WINDOW))
  }

  /** What is claimed to be readable is held by a probed node. */
  ghost predicate Grounded(c: Cluster, stores: Stores, net: Net)
    requires c.ring.Valid()
  {
    forall k :: k in net ==> exists a :: a in Probed(c, k) && k in Held(stores, a) && Held(stores, a)[k] == net[k]
  }

  /** What a probed node holds is claimed to be readable, with the same value. */
  ghost predicate Covered(c: Cluster, stores: Stores, net: Net)
    requires c.ring.Valid()
  {
    forall k, a :: a in Probed(c, k) && k in Held(stores, a) ==> k in net && net[k] == Held(stores, a)[k]
  }

  /** What can be read at all: exactly the keys probed nodes hold, whose copies agree. */
  ghost predicate Visible(c: Cluster, stores: Stores, net: Net)
    requires c.ring.Valid()
  {
    Grounded(c, stores, net) && Covered(c, stores, net)
  }

  // ------------------------------------------------------------ reading

  /** Some of these nodes is up and holds the key with this value. */
  ghost predicate Source(stores: Stores, nodes: seq<Node>, up: set<Node>, k: Key, v: Item) {
    exists a :: a in nodes && a in up && k in Held(stores, a) && Held(stores, a)[k] == v
  }

  /** All of these nodes that are up have answered, and none holds the key. */
  ghost predicate Denied(stores: Stores, nodes: seq<Node>, up: set<Node>, replied: set<Node>, k: Key) {
    forall a :: a in nodes && a in up ==> a in replied && k !in Held(stores, a)
  }

  function Slice(nodes: seq<Node>, lo: nat, hi: nat): seq<Node> {
    var h := if hi < |nodes| then hi else |nodes|;
    if lo < h then nodes[lo..h] else []
  }

  /** What requests have brought in: values, the nodes that answered, and the keys still missing. */
  datatype Round = Round(out: Net, replied: set<Node>, missing: set<Key>)

  ghost predicate Brought(stores: Stores, route: map<Key, seq<Node>>, up: set<Node>, out: Net) {
    forall k :: k in out ==> k in route && Source(stores, route[k], up, k, out[k])
  }

  /** Part of a round: nodes of todo have not been heard yet. */
  ghost predicate FanAt(stores: Stores, route: map<Key, seq<Node>>, lo: nat, hi: nat, pending: set<Key>, up: set<Node>,
                        before: Round, todo: set<Node>, r: Round)
    requires pending <= route.Keys
  {
    && before.replied <= r.replied <= up && r.missing <= pending
    && before.out.Keys <= r.out.Keys && Brought(stores, route, up, r.out)
    && (forall k :: k in pending && k !in r.missing ==> k in r.out)
    && (forall k, a :: k in r.missing && a in Slice(route[k], lo, hi) && a in up && a !in todo ==>
        a in r.replied && k !in Held(stores, a))
  }

  function Answered(stores: Stores, route: map<Key, seq<Node>>, lo: nat, hi: nat, pending: set<Key>, a: Node): Net
    requires pending <= route.Keys
  {
    map k | k in pending && a in Slice(route[k], lo, hi) && k in Held(stores, a) :: Held(stores, a)[k]
  }

  lemma SliceHolds(nodes: seq<Node>, lo: nat, hi: nat, a: Node)
    ensures a in Slice(nodes, lo, hi) ==> a in nodes
  {
  }

  lemma FanStep(stores: Stores, route: map<Key, seq<Node>>, lo: nat, hi: nat, pending: set<Key>, up: set<Node>,
                before: Round, todo: set<Node>, r: Round, a: Node)
    requires pending <= route.Keys && FanAt(stores, route, lo, hi, pending, up, before, todo, r) && a in todo
    ensures a !in up ==> FanAt(stores, route, lo, hi, pending, up, before, todo - {a}, r)
    ensures a in up ==>
              var vals := Answered(stores, route, lo, hi, pending, a);
              FanAt(stores, route, lo, hi, pending, up, before, todo - {a},
                    Round(r.out + vals, r.replied + {a}, r.missing - vals.Keys))
  {
    hide Slice;
    if a in up {
      var vals := Answered(stores, route, lo, hi, pending, a);
      forall k | k in r.out + vals ensures k in route && Source(stores, route[k], up, k, (r.out + vals)[k]) {
        if k in vals {
          SliceHolds(route[k], lo, hi, a);
        }
      }
    }
  }

  /** One round of parallel requests to some nodes of each key's route. It ends as soon as nothing is missing. */
  method Fan(stores: Stores, route: map<Key, seq<Node>>, lo: nat, hi: nat, pending: set<Key>, up: set<Node>,
             before: Round)
    returns (r: Round)
    requires pending <= route.Keys && before.replied <= up && Brought(stores, route, up, before.out)
    ensures before.replied <= r.replied <= up && r.missing <= pending
    ensures before.out.Keys <= r.out.Keys && Brought(stores, route, up, r.out)
    ensures forall k :: k in pending && k !in r.missing ==> k in r.out
    ensures forall k :: k in r.missing ==> Denied(stores, Slice(route[k], lo, hi), up, r.replied, k)
  {
    hide Slice, Brought, Answered;
    r := Round(before.out, before.replied, pending);
    var todo := set k, a | k in pending && a in Slice(route[k], lo, hi) :: a;
    while todo != {} && r.missing != {}
      invariant FanAt(stores, route, lo, hi, pending, up, before, todo, r)
      decreases todo
    {
      var a :| a in todo;
      FanStep(stores, route, lo, hi, pending, up, before, todo, r, a);
      if a in up {
        var vals := Answered(stores, route, lo, hi, pending, a);
        r := Round(r.out + vals, r.replied + {a}, r.missing - vals.Keys);
      }
      todo := todo - {a};
    }
  }

  function Silent(nodes: seq<Node>, replied: set<Node>): nat {
    if nodes == [] then 0
    else Silent(nodes[..|nodes| - 1], replied) + if nodes[|nodes| - 1] in replied then 0 else 1
  }

  /** Keys that were not returned and of whose probed nodes one or more stayed silent: too many of the primaries,
      or any at all. */
  function Unresolved(keys: set<Key>, route: map<Key, seq<Node>>, replicas: nat, acks: nat, out: Net,
                      replied: set<Node>): set<Key>
    requires keys <= route.Keys
  {
    set k | k in keys && k !in out
            && (Silent(Slice(route[k], 0, replicas), replied) > (if acks > 0 then acks - 1 else 0)
                || exists a :: a in route[k] && a !in replied)
  }

  /** Every key is returned, or all its reachable probed nodes have denied it. */
  ghost predicate Settled(stores: Stores, keys: set<Key>, route: map<Key, seq<Node>>, up: set<Node>, out: Net,
                          replied: set<Node>)
    requires keys <= route.Keys
  {
    forall k :: k in keys && k !in out ==> Denied(stores, route[k], up, replied, k)
  }

  lemma SettledByTwo(stores: Stores, keys: set<Key>, route: map<Key, seq<Node>>, up: set<Node>, split: nat, most: nat,
                     r: Round, r': Round)
    requires keys <= route.Keys && (forall k :: k in keys ==> |route[k]| <= most) && split <= most
    requires forall k :: k in keys && k !in r.missing ==> k in r.out
    requires forall k :: k in r.missing ==> k in keys && Denied(stores, Slice(route[k], 0, split), up, r.replied, k)
    requires r.replied <= r'.replied && r.out.Keys <= r'.out.Keys
    requires forall k :: k in r.missing && k !in r'.missing ==> k in r'.out
    requires forall k :: k in r'.missing ==>
               k in keys && Denied(stores, Slice(route[k], split, most), up, r'.replied, k)
    ensures Settled(stores, keys, route, up, r'.out, r'.replied)
  {
    forall k | k in keys && k !in r'.out ensures Denied(stores, route[k], up, r'.replied, k) {
      forall a | a in route[k] && a in up ensures a in r'.replied && k !in Held(stores, a) {
        SliceParts(route[k], split, most, a);
      }
    }
  }

  lemma SliceParts(nodes: seq<Node>, split: nat, most: nat, a: Node)
    requires |nodes| <= most && split <= most && a in nodes
    ensures a in Slice(nodes, 0, split) || a in Slice(nodes, split, most)
  {
    var i :| 0 <= i < |nodes| && nodes[i] == a;
    if i < split {
      assert Slice(nodes, 0, split)[i] == a;
    } else {
      assert Slice(nodes, split, most)[i - split] == a;
    }
  }

  lemma SettledGrows(stores: Stores, keys: set<Key>, route: map<Key, seq<Node>>, up: set<Node>, r: Round, r': Round)
    requires keys <= route.Keys && Settled(stores, keys, route, up, r.out, r.replied)
    requires r.replied <= r'.replied && r.out.Keys <= r'.out.Keys
    ensures Settled(stores, keys, route, up, r'.out, r'.replied)
  {
  }

  /** Replica lookup: the primaries, then the further successors for what is missing, then, while something is
      unresolved, a few more tries. */
  method Lookup(stores: Stores, route: map<Key, seq<Node>>, keys: set<Key>, replicas: nat, acks: nat, up: set<Node>)
    returns (r: Round, unresolved: set<Key>)
    requires keys == route.Keys && forall k :: k in keys ==> |route[k]| <= replicas + HashRing.REORDER_WINDOW
    ensures r.replied <= up && Brought(stores, route, up, r.out) && r.out.Keys <= keys
    ensures Settled(stores, keys, route, up, r.out, r.replied)
    ensures unresolved == Unresolved(keys, route, replicas, acks, r.out, r.replied)
  {
    hide Slice, Denied, Source, Unresolved, Settled;
    r := Fan(stores, route, 0, replicas, keys, up, Round(map[], {}, {}));
    if r.missing != {} {
      ghost var first := r;
      r := Fan(stores, route, replicas, replicas + HashRing.REORDER_WINDOW, r.missing, up, r);
      SettledByTwo(stores, keys, route, up, replicas, replicas + HashRing.REORDER_WINDOW, first, r);
    } else {
      NothingMissing(stores, keys, route, up, r);
    }
    var tries := 0;
    unresolved := Unresolved(keys, route, replicas, acks, r.out, r.replied);
    while unresolved != {} && tries < 4
      invariant r.replied <= up && Brought(stores, route, up, r.out)
      invariant Settled(stores, keys, route, up, r.out, r.replied)
      invariant unresolved == Unresolved(keys, route, replicas, acks, r.out, r.replied)
      decreases 4 - tries
    {
      UnresolvedKeys(keys, route, replicas, acks, r.out, r.replied);
      ghost var before := r;
      r := Fan(stores, route, 0, replicas + HashRing.REORDER_WINDOW, unresolved, up, r);
      SettledGrows(stores, keys, route, up, before, r);
      unresolved := Unresolved(keys, route, replicas, acks, r.out, r.replied);
      tries := tries + 1;
    }
  }

  lemma UnresolvedKeys(keys: set<Key>, route: map<Key, seq<Node>>, replicas: nat, acks: nat, out: Net,
                       replied: set<Node>)
    requires keys <= route.Keys
    ensures Unresolved(keys, route, replicas, acks, out, replied) <= keys
  {
  }

  lemma NothingMissing(stores: Stores, keys: set<Key>, route: map<Key, seq<Node>>, up: set<Node>, r: Round)
    requires keys <= route.Keys && forall k :: k in keys ==> k in r.out
    ensures Settled(stores, keys, route, up, r.out, r.replied)
  {
  }

  // ------------------------------------------------------------ routes

  /** Probed nodes by key, computed. */
  method RouteAll(c: Cluster, keys: set<Key>) returns (route: map<Key, seq<Node>>)
    requires c.ring.Valid()
    ensures route.Keys == keys && forall k :: k in keys ==> route[k] == Probed(c, k)
  {
    hide HashRing.Ring.PickedClockwise, HashRing.Ring.Routed;
    route := map[];
    var todo := keys;
    while todo != {}
      invariant todo <= keys && route.Keys == keys - todo
      invariant forall k :: k in route ==> route[k] == Probed(c, k)
      decreases todo
    {
      var k :| k in todo;
      var nodes := c.ring.Route(c.hash(k), c.ring.replicas + HashRing.REORDER_WINDOW);
      route := route[k := Reachable(c.known, nodes)];
      todo := todo - {k};
    }
  }

  lemma {:induction false} ReachableSize(known: set<Node>, nodes: seq<Node>)
    ensures |Reachable(known, nodes)| <= |nodes|
  {
    if nodes != [] {
      ReachableSize(known, nodes[..|nodes| - 1]);
    }
  }

  lemma ProbedSize(c: Cluster, k: Key)
    requires c.ring.Valid()
    ensures |Probed(c, k)| <= c.ring.replicas + HashRing.REORDER_WINDOW
  {
    var most := c.ring.replicas + HashRing.REORDER_WINDOW;
    HashRing.SuccessorsAll(c.ring.ring, c.hash(k), c.ring.addrs);
    HashRing.RouteWithin(c.ring.ring, c.ring.groups, |c.ring.addrs|, c.hash(k), most);
    ReachableSize(c.known, c.ring.Routed(c.hash(k), most));
  }

  /** A settled lookup is an honest read of what is visible. */
  lemma SettledIsHonest(c: Cluster, stores: Stores, net: Net, keys: set<Key>, route: map<Key, seq<Node>>, up: set<Node>,
                        r: Round)
    requires c.ring.Valid() && Visible(c, stores, net)
    requires route.Keys == keys && forall k :: k in keys ==> route[k] == Probed(c, k)
    requires r.replied <= up && Brought(stores, route, up, r.out) && r.out.Keys <= keys
    requires Settled(stores, keys, route, up, r.out, r.replied)
    ensures HonestRead(net, keys, r.out, Unresolved(keys, route, c.ring.replicas, c.acks, r.out, r.replied))
  {
    hide Probed, Silent, Slice;
    var unresolved := Unresolved(keys, route, c.ring.replicas, c.acks, r.out, r.replied);
    forall k | k in keys && k in net && k !in r.out ensures k in unresolved {
      var a :| a in Probed(c, k) && k in Held(stores, a) && Held(stores, a)[k] == net[k];
      assert Denied(stores, route[k], up, r.replied, k);
      assert a !in r.replied;
    }
  }

  lemma AllUpResolves(keys: set<Key>, route: map<Key, seq<Node>>, replicas: nat, acks: nat, up: set<Node>,
                      stores: Stores, r: Round)
    requires keys == route.Keys && Settled(stores, keys, route, up, r.out, r.replied)
    requires forall k, a :: k in keys && a in route[k] ==> a in up
    ensures Unresolved(keys, route, replicas, acks, r.out, r.replied) == {}
  {
    forall k | k in keys && k !in r.out ensures k !in Unresolved(keys, route, replicas, acks, r.out, r.replied) {
      assert Denied(stores, route[k], up, r.replied, k);
      forall a | a in Slice(route[k], 0, replicas) ensures a in r.replied {
      }
      NoneSilent(Slice(route[k], 0, replicas), r.replied);
    }
  }

  lemma {:induction false} NoneSilent(nodes: seq<Node>, replied: set<Node>)
    requires forall a :: a in nodes ==> a in replied
    ensures Silent(nodes, replied) == 0
  {
    if nodes != [] {
      NoneSilent(nodes[..|nodes| - 1], replied);
    }
  }

  /** A primary that answered without a key that was found elsewhere is given it; such a write need not land. */
  method Repair(stores: Stores, route: map<Key, seq<Node>>, r: Round) returns (stores': Stores)
    requires r.out.Keys <= route.Keys
    ensures KeepsAll(stores, stores')
    ensures forall a, k :: k in Held(stores', a) && k !in Held(stores, a) ==>
              k in r.out && a in route[k] && a in r.replied && Held(stores', a)[k] == r.out[k]
  {
    stores' := stores;
    var todo := r.out.Keys;
    while todo != {}
      invariant todo <= r.out.Keys
      invariant forall a, k :: k in Held(stores, a) ==>
                  k in Held(stores', a) && Held(stores', a)[k] == Held(stores, a)[k]
      invariant forall a, k :: k in Held(stores', a) && k !in Held(stores, a) ==>
                  k in r.out && a in route[k] && a in r.replied && Held(stores', a)[k] == r.out[k]
      decreases todo
    {
      var k :| k in todo;
      todo := todo - {k};
      var lands: bool := *;
      if lands && route[k] != [] && route[k][0] in r.replied && k !in Held(stores', route[k][0]) {
        stores' := stores'[route[k][0] := Held(stores', route[k][0])[k := r.out[k]]];
      }
    }
  }

  ghost predicate KeepsAll(stores: Stores, stores': Stores) {
    forall a, k :: k in Held(stores, a) ==> k in Held(stores', a) && Held(stores', a)[k] == Held(stores, a)[k]
  }

  lemma GroundedKept(c: Cluster, stores: Stores, stores': Stores, net: Net)
    requires c.ring.Valid() && Grounded(c, stores, net) && KeepsAll(stores, stores')
    ensures Grounded(c, stores', net)
  {
    hide Probed;
    forall k | k in net
      ensures exists a :: a in Probed(c, k) && k in Held(stores', a) && Held(stores', a)[k] == net[k] {
      var a :| a in Probed(c, k) && k in Held(stores, a) && Held(stores, a)[k] == net[k];
      assert k in Held(stores', a);
    }
  }

  /** Repairs change nothing a read can see. */
  lemma RepairInvisible(c: Cluster, stores: Stores, stores': Stores, net: Net, route: map<Key, seq<Node>>,
                        up: set<Node>, r: Round)
    requires c.ring.Valid() && Visible(c, stores, net) && Brought(stores, route, up, r.out)
    requires forall k :: k in route ==> route[k] == Probed(c, k)
    requires KeepsAll(stores, stores')
    requires forall a, k :: k in Held(stores', a) && k !in Held(stores, a) ==>
               k in r.out && a in route[k] && a in r.replied && Held(stores', a)[k] == r.out[k]
    ensures Visible(c, stores', net)
  {
    hide Probed, Grounded;
    GroundedKept(c, stores, stores', net);
    forall k, a | a in Probed(c, k) && k in Held(stores', a) ensures k in net && net[k] == Held(stores', a)[k] {
      if k !in Held(stores, a) {
        assert Source(stores, route[k], up, k, r.out[k]);
      }
    }
  }

  /** Found are exactly the keys that a probed node which is up holds, with the value one of those holds. */
  lemma FoundExactly(stores: Stores, keys: set<Key>, route: map<Key, seq<Node>>, up: set<Node>, r: Round)
    requires keys == route.Keys && Settled(stores, keys, route, up, r.out, r.replied)
    requires Brought(stores, route, up, r.out) && r.out.Keys <= keys
    ensures forall k :: k in r.out <==> k in keys && exists a :: a in route[k] && a in up && k in Held(stores, a)
    ensures forall k :: k in r.out ==>
              exists a :: a in route[k] && a in up && k in Held(stores, a) && Held(stores, a)[k] == r.out[k]
  {
    hide Held;
    forall k | k in r.out
      ensures exists a :: a in route[k] && a in up && k in Held(stores, a) && Held(stores, a)[k] == r.out[k] {
      assert Source(stores, route[k], up, k, r.out[k]);
    }
    forall k | k in keys && k !in r.out
      ensures forall a :: a in route[k] && a in up ==> k !in Held(stores, a) {
      assert Denied(stores, route[k], up, r.replied, k);
    }
  }

  /** Unresolved are exactly the keys not found of whose probed nodes one is down. */
  lemma UnresolvedExactly(stores: Stores, keys: set<Key>, route: map<Key, seq<Node>>, replicas: nat, acks: nat,
                          up: set<Node>, r: Round)
    requires keys == route.Keys && Settled(stores, keys, route, up, r.out, r.replied) && r.replied <= up
    ensures forall k :: k in Unresolved(keys, route, replicas, acks, r.out, r.replied) <==>
              k in keys && k !in r.out && exists a :: a in route[k] && a !in up
  {
    hide Held, Slice;
    forall k | k in keys && k !in r.out
      ensures k in Unresolved(keys, route, replicas, acks, r.out, r.replied) <==>
                exists a :: a in route[k] && a !in up
    {
      assert Denied(stores, route[k], up, r.replied, k);
      if forall a :: a in route[k] ==> a in up {
        forall a | a in Slice(route[k], 0, replicas) ensures a in r.replied {
          SliceHolds(route[k], 0, replicas, a);
        }
        NoneSilent(Slice(route[k], 0, replicas), r.replied);
      }
    }
  }

  /** The whole lookup. Whatever is visible, a key is returned with its value, or reported unresolved, or truly absent;
      when every probed node is up nothing is unresolved; and read repair changes nothing a read can see. */
  method MGetNetwork(c: Cluster, stores: Stores, keys: set<Key>, up: set<Node>)
    returns (out: Net, unresolved: set<Key>, stores': Stores)
    requires c.ring.Valid()
    ensures unresolved <= keys
    ensures forall net :: Visible(c, stores, net) ==> HonestRead(net, keys, out, unresolved) && Visible(c, stores', net)
    ensures forall k :: k in out <==> k in keys && exists a :: a in Probed(c, k) && a in up && k in Held(stores, a)
    ensures forall k :: k in out ==>
              exists a :: a in Probed(c, k) && a in up && k in Held(stores, a) && Held(stores, a)[k] == out[k]
    ensures forall k :: k in unresolved <==> k in keys && k !in out && exists a :: a in Probed(c, k) && a !in up
    ensures (forall k, a :: k in keys && a in Probed(c, k) ==> a in up) ==> unresolved == {}
  {
    hide Probed, Visible, Settled, Brought, Unresolved, HonestRead;
    var route := RouteAll(c, keys);
    forall k | k in keys ensures |route[k]| <= c.ring.replicas + HashRing.REORDER_WINDOW {
      ProbedSize(c, k);
    }
    var r;
    r, unresolved := Lookup(stores, route, keys, c.ring.replicas, c.acks, up);
    UnresolvedKeys(keys, route, c.ring.replicas, c.acks, r.out, r.replied);
    FoundExactly(stores, keys, route, up, r);
    UnresolvedExactly(stores, keys, route, c.ring.replicas, c.acks, up, r);
    stores' := Repair(stores, route, r);
    forall net: Net | Visible(c, stores, net)
      ensures HonestRead(net, keys, r.out, unresolved) && Visible(c, stores', net) {
      SettledIsHonest(c, stores, net, keys, route, up, r);
      RepairInvisible(c, stores, stores', net, route, up, r);
    }
    if forall k, a :: k in keys && a in Probed(c, k) ==> a in up {
      AllUpResolves(keys, route, c.ring.replicas, c.acks, up, stores, r);
    }
    out := r.out;
  }

  // ------------------------------------------------------------ writing

  /** Nodes a write of a key goes to. */
  ghost function Primaries(c: Cluster, k: Key): seq<Node>
    requires c.ring.Valid()
  {
    Reachable(c.known, c.ring.Routed(c.hash(k), c.ring.replicas))
  }

  /** Every node a write may go to is one a read probes. */
  lemma PrimariesProbed(c: Cluster, k: Key, a: Node)
    requires c.ring.Valid() && a in Primaries(c, k)
    ensures a in Probed(c, k)
  {
    hide Reachable, HashRing.RoutedIn, HashRing.Successors;
    HashRing.RoutedNested(c.ring, c.hash(k));
    ReachableHolds(c.known, c.ring.Routed(c.hash(k), c.ring.replicas), a);
    ReachableHolds(c.known, c.ring.Routed(c.hash(k), c.ring.replicas + HashRing.REORDER_WINDOW), a);
  }

  /** Stores after one node has taken some entries. */
  function Stored(stores: Stores, a: Node, entries: Net): Stores {
    stores[a := Held(stores, a) + entries]
  }

  /** A copy on a node came with the write, or was there before. */
  ghost predicate NothingElse(stores: Stores, pairs: Net, landed: set<Key>, stores': Stores) {
    forall a, k :: k in Held(stores', a) ==>
      (k in landed && k in pairs && Held(stores', a)[k] == pairs[k])
      || (k in Held(stores, a) && Held(stores', a)[k] == Held(stores, a)[k])
  }

  /** A copy that was there before still is, unless the write replaced it. */
  ghost predicate NothingLost(stores: Stores, pairs: Net, landed: set<Key>, stores': Stores) {
    forall a, k :: k in Held(stores, a) ==>
      k in Held(stores', a)
      && (Held(stores', a)[k] == Held(stores, a)[k] || (k in landed && k in pairs && Held(stores', a)[k] == pairs[k]))
  }

  /** The keys that landed are held, with the written value, by a node readers probe. */
  ghost predicate LandedHeld(c: Cluster, pairs: Net, landed: set<Key>, stores': Stores)
    requires c.ring.Valid()
  {
    forall k :: k in landed && k in pairs ==>
        exists a :: a in Probed(c, k) && k in Held(stores', a) && Held(stores', a)[k] == pairs[k]
  }

  ghost predicate Written(c: Cluster, stores: Stores, pairs: Net, landed: set<Key>, stores': Stores)
    requires c.ring.Valid()
  {
    && landed <= pairs.Keys
    && NothingElse(stores, pairs, landed, stores') && NothingLost(stores, pairs, landed, stores')
    && LandedHeld(c, pairs, landed, stores')
  }

  lemma StoredLands(c: Cluster, pairs: Net, mid: Stores, landed: set<Key>, a: Node, entries: Net)
    requires c.ring.Valid() && LandedHeld(c, pairs, landed, mid)
    requires forall k :: k in entries ==> k in pairs && entries[k] == pairs[k] && a in Probed(c, k)
    ensures LandedHeld(c, pairs, landed + entries.Keys, Stored(mid, a, entries))
  {
    hide Probed;
    var stores' := Stored(mid, a, entries);
    forall k | k in landed + entries.Keys && k in pairs
      ensures exists b :: b in Probed(c, k) && k in Held(stores', b) && Held(stores', b)[k] == pairs[k]
    {
      if k in entries {
        assert k in Held(stores', a);
      } else {
        var b :| b in Probed(c, k) && k in Held(mid, b) && Held(mid, b)[k] == pairs[k];
        assert k in Held(stores', b);
      }
    }
  }

  lemma StoredAdds(stores: Stores, pairs: Net, mid: Stores, landed: set<Key>, a: Node, entries: Net)
    requires NothingElse(stores, pairs, landed, mid) && NothingLost(stores, pairs, landed, mid)
    requires forall k :: k in entries ==> k in pairs && entries[k] == pairs[k]
    ensures NothingElse(stores, pairs, landed + entries.Keys, Stored(mid, a, entries))
    ensures NothingLost(stores, pairs, landed + entries.Keys, Stored(mid, a, entries))
  {
    var stores' := Stored(mid, a, entries);
    forall b, k
      ensures k in Held(stores', b) <==> k in Held(mid, b) || (b == a && k in entries)
      ensures k in Held(stores', b) ==>
                Held(stores', b)[k] == if b == a && k in entries then entries[k] else Held(mid, b)[k]
    {
    }
  }

  lemma StoredWritten(c: Cluster, stores: Stores, pairs: Net, mid: Stores, landed: set<Key>, a: Node, entries: Net)
    requires c.ring.Valid() && Written(c, stores, pairs, landed, mid)
    requires forall k :: k in entries ==> k in pairs && entries[k] == pairs[k] && a in Probed(c, k)
    ensures Written(c, stores, pairs, landed + entries.Keys, Stored(mid, a, entries))
  {
    hide NothingElse, NothingLost, LandedHeld, Stored, Probed;
    StoredLands(c, pairs, mid, landed, a, entries);
    StoredAdds(stores, pairs, mid, landed, a, entries);
  }

  /** Routes of a write, computed. */
  method PrimariesAll(c: Cluster, keys: set<Key>) returns (route: map<Key, seq<Node>>)
    requires c.ring.Valid()
    ensures route.Keys == keys && forall k :: k in keys ==> route[k] == Primaries(c, k)
  {
    hide HashRing.Ring.PickedClockwise, HashRing.Ring.Routed;
    route := map[];
    var todo := keys;
    while todo != {}
      invariant todo <= keys && route.Keys == keys - todo
      invariant forall k :: k in route ==> route[k] == Primaries(c, k)
      decreases todo
    {
      var k :| k in todo;
      var nodes := c.ring.Route(c.hash(k), c.ring.replicas);
      route := route[k := Reachable(c.known, nodes)];
      todo := todo - {k};
    }
  }

  /** The entries one node is sent. */
  function Sent(pairs: Net, route: map<Key, seq<Node>>, a: Node): Net {
    map k | k in pairs && k in route && a in route[k] :: pairs[k]
  }

  /** A key nobody acknowledged is offered to the further successors, one at a time, until one takes it. */
  method Offer(c: Cluster, stores: Stores, k: Key, v: Item, up: set<Node>)
    returns (taken: bool, stores': Stores, at: Node)
    requires c.ring.Valid()
    ensures taken ==> at in Probed(c, k) && at in up && stores' == Stored(stores, at, map[k := v])
    ensures !taken ==> stores' == stores && forall a :: a in Probed(c, k) ==> a !in up
  {
    hide HashRing.RoutedIn, HashRing.Ring.PickedClockwise;
    var all := c.ring.Route(c.hash(k), c.ring.replicas + HashRing.REORDER_WINDOW);
    var nodes := Reachable(c.known, all);
    for i := 0 to |nodes|
      invariant forall j :: 0 <= j < i ==> nodes[j] !in up
    {
      if nodes[i] in up {
        return true, Stored(stores, nodes[i], map[k := v]), nodes[i];
      }
    }
    return false, stores, 0;
  }

  /** How many acknowledgements a write waits for: one at least, and no more than there are replicas. */
  function Wanted(c: Cluster): nat {
    if c.acks < 1 || c.ring.replicas < 1 then 1 else if c.acks < c.ring.replicas then c.acks else c.ring.replicas
  }

  /** Primaries that hold a key with this value. */
  ghost function Copies(c: Cluster, stores: Stores, k: Key, v: Item): set<Node>
    requires c.ring.Valid()
  {
    set a | a in Primaries(c, k) && k in Held(stores, a) && Held(stores, a)[k] == v
  }

  /** Primaries that are up. */
  ghost function Awake(c: Cluster, k: Key, up: set<Node>): set<Node>
    requires c.ring.Valid()
  {
    set a | a in Primaries(c, k) && a in up
  }

  /** Each key is on as many of its primaries as a write waits for, or on as many as are up. */
  ghost predicate Replicated(c: Cluster, pairs: Net, up: set<Node>, stores': Stores)
    requires c.ring.Valid()
  {
    forall k :: k in pairs ==>
      |Copies(c, stores', k, pairs[k])| >= Min(Max(1, Min(c.acks, c.ring.replicas)), |Awake(c, k, up)|)
  }

  /** Storing entries of the write takes no copy away. */
  lemma StoredKeeps(c: Cluster, pairs: Net, mid: Stores, a: Node, entries: Net, k: Key)
    requires c.ring.Valid() && k in pairs && forall x :: x in entries ==> x in pairs && entries[x] == pairs[x]
    ensures Copies(c, mid, k, pairs[k]) <= Copies(c, Stored(mid, a, entries), k, pairs[k])
    ensures k in entries && a in Primaries(c, k) ==> a in Copies(c, Stored(mid, a, entries), k, pairs[k])
  {
    hide Primaries;
    forall b | b in Copies(c, mid, k, pairs[k]) ensures b in Copies(c, Stored(mid, a, entries), k, pairs[k]) {
      assert Held(Stored(mid, a, entries), b) == if b == a then Held(mid, a) + entries else Held(mid, b);
    }
  }

  lemma StoredReplicated(c: Cluster, pairs: Net, up: set<Node>, mid: Stores, a: Node, k: Key)
    requires c.ring.Valid() && k in pairs && Replicated(c, pairs, up, mid)
    ensures Replicated(c, pairs, up, Stored(mid, a, map[k := pairs[k]]))
  {
    hide Copies, Awake, Stored;
    forall x | x in pairs
      ensures |Copies(c, Stored(mid, a, map[k := pairs[k]]), x, pairs[x])| >= |Copies(c, mid, x, pairs[x])| {
      StoredKeeps(c, pairs, mid, a, map[k := pairs[k]], x);
      SubsetSize(Copies(c, mid, x, pairs[x]), Copies(c, Stored(mid, a, map[k := pairs[k]]), x, pairs[x]));
    }
  }

  /** Primaries of a key that have been served. */
  ghost function Served(c: Cluster, served: set<Node>, k: Key): set<Node>
    requires c.ring.Valid()
  {
    set a | a in Primaries(c, k) && a in served
  }

  /** Half way through: acknowledgements count the primaries served, those hold the entries, and until there are
      enough for every key all primaries asked so far and up have been served. */
  ghost predicate SpreadAt(c: Cluster, pairs: Net, up: set<Node>, todo: set<Node>, served: set<Node>,
                           acks: map<Key, nat>, stores': Stores)
    requires c.ring.Valid()
  {
    && acks.Keys == pairs.Keys
    && (forall k :: k in pairs ==>
        acks[k] == |Served(c, served, k)| && Served(c, served, k) <= Copies(c, stores', k, pairs[k]))
    && ((forall k :: k in pairs ==> acks[k] >= Wanted(c))
        || (forall k :: k in pairs ==> Awake(c, k, up) - todo <= Served(c, served, k)))
  }

  lemma SpreadStart(c: Cluster, pairs: Net, up: set<Node>, todo: set<Node>, acks: map<Key, nat>, stores: Stores)
    requires c.ring.Valid() && acks.Keys == pairs.Keys && forall k :: k in pairs ==> acks[k] == 0
    requires forall k, a :: k in pairs && a in Primaries(c, k) ==> a in todo
    ensures SpreadAt(c, pairs, up, todo, {}, acks, stores)
  {
    hide Primaries;
    forall k | k in pairs ensures Served(c, {}, k) == {} {
    }
  }

  lemma SpreadSkip(c: Cluster, pairs: Net, up: set<Node>, todo: set<Node>, served: set<Node>, acks: map<Key, nat>,
                   mid: Stores, a: Node)
    requires c.ring.Valid() && SpreadAt(c, pairs, up, todo, served, acks, mid)
    requires a !in up || forall k :: k in pairs ==> acks[k] >= Wanted(c)
    ensures SpreadAt(c, pairs, up, todo - {a}, served, acks, mid)
  {
    hide Primaries, Copies;
    if a !in up {
      forall k | k in pairs ensures Awake(c, k, up) - (todo - {a}) == Awake(c, k, up) - todo {
      }
    }
  }

  lemma SpreadOne(c: Cluster, pairs: Net, route: map<Key, seq<Node>>, served: set<Node>, mid: Stores, a: Node, k: Key)
    requires c.ring.Valid() && k in pairs && a !in served && Served(c, served, k) <= Copies(c, mid, k, pairs[k])
    requires route.Keys == pairs.Keys && route[k] == Primaries(c, k)
    ensures var entries := Sent(pairs, route, a);
            && Served(c, served + {a}, k) == Served(c, served, k) + (if k in entries then {a} else {})
            && |Served(c, served + {a}, k)| == |Served(c, served, k)| + (if k in entries then 1 else 0)
            && Served(c, served + {a}, k) <= Copies(c, Stored(mid, a, entries), k, pairs[k])
            && (k !in entries ==> a !in Primaries(c, k))
  {
    hide Primaries, Copies, Stored;
    StoredKeeps(c, pairs, mid, a, Sent(pairs, route, a), k);
  }

  lemma SpreadSend(c: Cluster, pairs: Net, route: map<Key, seq<Node>>, up: set<Node>, todo: set<Node>,
                   served: set<Node>, acks: map<Key, nat>, mid: Stores, a: Node)
    requires c.ring.Valid() && SpreadAt(c, pairs, up, todo, served, acks, mid) && a !in served
    requires route.Keys == pairs.Keys && forall k :: k in route ==> route[k] == Primaries(c, k)
    ensures var entries := Sent(pairs, route, a);
            var acks' := map k | k in acks :: if k in entries then acks[k] + 1 else acks[k];
            SpreadAt(c, pairs, up, todo - {a}, served + {a}, acks', Stored(mid, a, entries))
  {
    hide Primaries, Copies, Stored, Served, Sent, Wanted;
    forall k | k in pairs
      ensures var entries := Sent(pairs, route, a);
              && |Served(c, served + {a}, k)| == |Served(c, served, k)| + (if k in entries then 1 else 0)
              && Served(c, served + {a}, k) <= Copies(c, Stored(mid, a, entries), k, pairs[k])
              && (Awake(c, k, up) - todo <= Served(c, served, k) ==>
                    Awake(c, k, up) - (todo - {a}) <= Served(c, served + {a}, k))
    {
      SpreadOne(c, pairs, route, served, mid, a, k);
    }
  }

  lemma SpreadDone(c: Cluster, pairs: Net, up: set<Node>, served: set<Node>, acks: map<Key, nat>, stores': Stores)
    requires c.ring.Valid() && SpreadAt(c, pairs, up, {}, served, acks, stores')
    ensures Replicated(c, pairs, up, stores')
  {
    hide Copies, Awake, Served;
    forall k | k in pairs
      ensures |Copies(c, stores', k, pairs[k])| >= Min(Max(1, Min(c.acks, c.ring.replicas)), |Awake(c, k, up)|) {
      SubsetSize(Served(c, served, k), Copies(c, stores', k, pairs[k]));
      if acks[k] < Wanted(c) {
        assert Awake(c, k, up) - {} == Awake(c, k, up);
        SubsetSize(Awake(c, k, up), Served(c, served, k));
      }
    }
  }

  /** Some node a read of the key probes is up. */
  ghost predicate Attended(c: Cluster, k: Key, up: set<Node>)
    requires c.ring.Valid()
  {
    exists a :: a in Probed(c, k) && a in up
  }

  /** What nodes that are down hold is as it was. */
  ghost predicate DownUntouched(stores: Stores, up: set<Node>, stores': Stores) {
    forall a :: a !in up ==> Held(stores', a) == Held(stores, a)
  }

  lemma StoredUp(stores: Stores, up: set<Node>, mid: Stores, a: Node, entries: Net)
    requires DownUntouched(stores, up, mid) && a in up
    ensures DownUntouched(stores, up, Stored(mid, a, entries))
  {
  }

  lemma AckedAttended(c: Cluster, pairs: Net, up: set<Node>, todo: set<Node>, served: set<Node>, acks: map<Key, nat>,
                      stores': Stores)
    requires c.ring.Valid() && SpreadAt(c, pairs, up, todo, served, acks, stores') && served <= up
    ensures forall k :: k in pairs && acks[k] > 0 ==> Attended(c, k, up)
  {
    hide Primaries, Probed, Copies;
    forall k | k in pairs && acks[k] > 0 ensures Attended(c, k, up) {
      var a :| a in Served(c, served, k);
      PrimariesProbed(c, k, a);
    }
  }

  /** First half of a write: every primary at once, until each key has enough acknowledgements; what is then still
      in flight may or may not land. */
  method Spread(c: Cluster, stores: Stores, pairs: Net, up: set<Node>)
    returns (weak: set<Key>, stores': Stores, ghost landed: set<Key>)
    requires c.ring.Valid()
    ensures Written(c, stores, pairs, landed, stores')
    ensures weak <= pairs.Keys <= weak + landed
    ensures Replicated(c, pairs, up, stores') && DownUntouched(stores, up, stores')
    ensures forall k :: k in pairs && k !in weak ==> Attended(c, k, up)
  {
    hide Written, Stored, Probed, Sent, Primaries, SpreadAt, Replicated, Attended, DownUntouched;
    var route := PrimariesAll(c, pairs.Keys);
    stores', landed := stores, {};
    NothingWritten(c, stores, pairs);
    var acks: map<Key, nat> := map k | k in pairs :: 0;
    var todo := set k, a | k in route && a in route[k] :: a;
    var want := Wanted(c);
    ghost var served: set<Node> := {};
    SpreadStart(c, pairs, up, todo, acks, stores);
    while todo != {}
      invariant Written(c, stores, pairs, landed, stores') && acks.Keys == pairs.Keys
      invariant SpreadAt(c, pairs, up, todo, served, acks, stores') && served !! todo
      invariant DownUntouched(stores, up, stores') && served <= up
      invariant forall k :: k in acks && acks[k] > 0 ==> k in landed
      decreases todo
    {
      var a :| a in todo;
      var enough := forall k :: k in acks ==> acks[k] >= want;
      var lost: bool := *;
      if a in up && !(enough && lost) {
        var entries := Sent(pairs, route, a);
        SpreadSend(c, pairs, route, up, todo, served, acks, stores', a);
        SentProbed(c, pairs, route, a);
        StoredWritten(c, stores, pairs, stores', landed, a, entries);
        StoredUp(stores, up, stores', a, entries);
        stores', landed := Stored(stores', a, entries), landed + entries.Keys;
        acks := map k | k in acks :: if k in entries then acks[k] + 1 else acks[k];
        served := served + {a};
      } else {
        SpreadSkip(c, pairs, up, todo, served, acks, stores', a);
      }
      todo := todo - {a};
    }
    SpreadDone(c, pairs, up, served, acks, stores');
    AckedAttended(c, pairs, up, todo, served, acks, stores');
    weak := set k | k in acks && acks[k] == 0;
  }

  /** A replicated write. Every key ends up on as many of its primaries as a write waits for, or on all that are up;
      keys no primary acknowledged are offered further, and it fails exactly when no probed node of a key is up. */
  method Put(c: Cluster, stores: Stores, pairs: Net, up: set<Node>)
    returns (ok: bool, stores': Stores, ghost landed: set<Key>)
    requires c.ring.Valid()
    ensures Written(c, stores, pairs, landed, stores') && DownUntouched(stores, up, stores')
    ensures ok ==> landed == pairs.Keys
    ensures ok <==> forall k :: k in pairs ==> Attended(c, k, up)
    ensures Replicated(c, pairs, up, stores')
  {
    hide Written, Stored, Probed, Replicated, Attended, DownUntouched;
    var weak;
    weak, stores', landed := Spread(c, stores, pairs, up);
    ok := true;
    while weak != {}
      invariant weak <= pairs.Keys && Written(c, stores, pairs, landed, stores') && Replicated(c, pairs, up, stores')
      invariant DownUntouched(stores, up, stores')
      invariant ok ==> pairs.Keys <= weak + landed
      invariant ok ==> forall k :: k in pairs && k !in weak ==> Attended(c, k, up)
      invariant !ok ==> exists k :: k in pairs && !Attended(c, k, up)
      decreases weak
    {
      var k :| k in weak;
      weak := weak - {k};
      var taken, next, at := Offer(c, stores', k, pairs[k], up);
      AttendedIff(c, k, up, taken, at);
      if taken {
        StoredWritten(c, stores, pairs, stores', landed, at, map[k := pairs[k]]);
        StoredReplicated(c, pairs, up, stores', at, k);
        StoredUp(stores, up, stores', at, map[k := pairs[k]]);
        landed := landed + map[k := pairs[k]].Keys;
      } else {
        ok := false;
      }
      stores' := next;
    }
    LandedWithin(c, stores, pairs, landed, stores');
  }

  lemma AttendedIff(c: Cluster, k: Key, up: set<Node>, taken: bool, at: Node)
    requires c.ring.Valid()
    requires if taken then at in Probed(c, k) && at in up else forall a :: a in Probed(c, k) ==> a !in up
    ensures taken <==> Attended(c, k, up)
  {
  }

  lemma LandedWithin(c: Cluster, stores: Stores, pairs: Net, landed: set<Key>, stores': Stores)
    requires c.ring.Valid() && Written(c, stores, pairs, landed, stores')
    ensures landed <= pairs.Keys
  {
  }

  lemma NothingWritten(c: Cluster, stores: Stores, pairs: Net)
    requires c.ring.Valid()
    ensures Written(c, stores, pairs, {}, stores) && forall up :: DownUntouched(stores, up, stores)
  {
  }

  lemma SentProbed(c: Cluster, pairs: Net, route: map<Key, seq<Node>>, a: Node)
    requires c.ring.Valid() && route.Keys == pairs.Keys && forall k :: k in route ==> route[k] == Primaries(c, k)
    ensures forall k :: k in Sent(pairs, route, a) ==>
              k in pairs && Sent(pairs, route, a)[k] == pairs[k] && a in Probed(c, k)
  {
    hide Primaries, Probed;
    forall k | k in Sent(pairs, route, a) ensures a in Probed(c, k) {
      PrimariesProbed(c, k, a);
    }
  }

  /** The readable network after part of a write has landed. */
  function Landed(net: Net, pairs: Net, landed: set<Key>): Net {
    net + map k | k in landed && k in pairs :: pairs[k]
  }

  lemma WriteGrounded(c: Cluster, stores: Stores, pairs: Net, landed: set<Key>, stores': Stores, net: Net)
    requires c.ring.Valid() && Grounded(c, stores, net) && LandedHeld(c, pairs, landed, stores')
             && NothingLost(stores, pairs, landed, stores')
    ensures Grounded(c, stores', Landed(net, pairs, landed))
  {
    hide Probed;
    var net' := Landed(net, pairs, landed);
    forall k | k in net'
      ensures exists a :: a in Probed(c, k) && k in Held(stores', a) && Held(stores', a)[k] == net'[k] {
      if !(k in landed && k in pairs) {
        var a :| a in Probed(c, k) && k in Held(stores, a) && Held(stores, a)[k] == net[k];
        assert k in Held(stores', a);
      }
    }
  }

  /** What landed is visible afterwards and nothing else changed; a write that succeeded landed whole, so from then on
      no read takes one of its keys for absent. Keys are written with one value only. */
  lemma WriteVisible(c: Cluster, stores: Stores, pairs: Net, landed: set<Key>, stores': Stores, net: Net)
    requires c.ring.Valid() && Visible(c, stores, net) && Written(c, stores, pairs, landed, stores')
    requires forall k :: k in pairs && k in net ==> net[k] == pairs[k]
    ensures Visible(c, stores', Landed(net, pairs, landed))
  {
    hide Probed, Grounded, NothingLost, LandedHeld;
    WriteGrounded(c, stores, pairs, landed, stores', net);
  }
}
