/** The top-down walk of one epoch's label trees (Owner._walk_epoch in blindrange/client.py).

    Empty intervals prune their subtrees; the walk still finds every entry, because a record is appended to
    all levels of a field at once. */
module EpochWalk {
  import opened Basics
  import opened Chains
  import opened Index
  import opened Query
  import opened Compaction
  import opened CompactionProof
  import Dyadic

  /** Nothing of an epoch is missing from the network. */
  ghost predicate Whole(w: World, ep: nat) {
    forall c: Chain, i: nat :: Link(c, i) in w.missing && c.Index? ==> c.epoch != ep
  }

  /** A whole epoch's chains are on the network as they were appended. */
  lemma ChainAsLogged(w: World, c: Chain)
    requires Rendered(w.net, w.log, w.missing) && c.Index? && Whole(w, c.epoch)
    ensures DenseTo(w.net, c, |w.Log(c)|) && Dense(w.net, c) && EndOf(w.net, c) == |w.Log(c)|
    ensures forall i: nat :: 1 <= i <= |w.Log(c)| ==> Link(c, i) in w.net && w.net[Link(c, i)] == Entry(w.Log(c)[i - 1])
  {
    assert DenseTo(w.net, c, |w.Log(c)|);
    DenseEnd(w.net, c, |w.Log(c)|);
  }

  function LevelChains(f: Field, nodes: set<Dyadic.Label>, ep: nat, ws: set<Writer>): set<Chain> {
    set d, u | d in nodes && u in ws :: Index(Of(f, d), ep, u)
  }

  function SlotsTo(ends: map<Chain, nat>): set<Key> {
    set c, i: nat | c in ends && 1 <= i <= ends[c] :: Link(c, i)
  }

  /** Every chain of a level, read from its first slot, stops where its log does. */
  lemma EndAsLogged(w: World, f: Field, nodes: set<Dyadic.Label>, ep: nat, ws: set<Writer>, ends: map<Chain, nat>,
                    d: Dyadic.Label, u: Writer)
    requires Rendered(w.net, w.log, w.missing) && Whole(w, ep) && d in nodes && u in ws
    requires ends.Keys == LevelChains(f, nodes, ep, ws)
    requires forall c :: c in ends ==> StopsAt(w.net, c, 0, ends[c])
    ensures Index(Of(f, d), ep, u) in ends && ends[Index(Of(f, d), ep, u)] == |w.Log(Index(Of(f, d), ep, u))|
  {
    hide Rendered, Whole, StopsAt;
    var c := Index(Of(f, d), ep, u);
    assert c in LevelChains(f, nodes, ep, ws);
    ChainAsLogged(w, c);
    StopOfDense(w.net, c, 0, |w.Log(c)|, ends[c]);
  }

  lemma ContentsAreRead(w: World, f: Field, d: Dyadic.Label, ep: nat, ws: set<Writer>, ends: map<Chain, nat>, got: Net,
                        r: Rid)
    requires Rendered(w.net, w.log, w.missing) && Whole(w, ep)
    requires forall u :: u in ws ==>
               Index(Of(f, d), ep, u) in ends && ends[Index(Of(f, d), ep, u)] == |w.Log(Index(Of(f, d), ep, u))|
    requires HonestRead(w.net, SlotsTo(ends), got, {})
    requires r in Contents(w.log, Of(f, d), ep, ws)
    ensures r in Rids(got, LevelChains(f, {d}, ep, ws), ends)
  {
    hide Rendered, Whole, Dense, DenseTo;
    var u :| u in ws && Index(Of(f, d), ep, u) in w.log && r in w.log[Index(Of(f, d), ep, u)];
    var c := Index(Of(f, d), ep, u);
    var j :| 0 <= j < |w.log[c]| && w.log[c][j] == r;
    ChainAsLogged(w, c);
    assert Link(c, j + 1) in SlotsTo(ends);
    assert got[Link(c, j + 1)] == Entry(r) && c in LevelChains(f, {d}, ep, ws);
  }

  lemma ReadIsContents(w: World, f: Field, d: Dyadic.Label, ep: nat, ws: set<Writer>, ends: map<Chain, nat>, got: Net,
                       r: Rid)
    requires Rendered(w.net, w.log, w.missing) && Whole(w, ep)
    requires forall u :: u in ws ==>
               Index(Of(f, d), ep, u) in ends && ends[Index(Of(f, d), ep, u)] == |w.Log(Index(Of(f, d), ep, u))|
    requires forall k :: k in got ==> k in w.net && got[k] == w.net[k]
    requires r in Rids(got, LevelChains(f, {d}, ep, ws), ends)
    ensures r in Contents(w.log, Of(f, d), ep, ws)
  {
    hide Rendered, Whole, Dense, DenseTo;
    var k :| k in got && k.Link? && k.chain in LevelChains(f, {d}, ep, ws) && 1 <= k.i <= ends[k.chain]
             && got[k].Entry? && got[k].rid == r;
    ChainAsLogged(w, k.chain);
    assert k == Link(k.chain, k.i) && w.net[k] == Entry(r) && w.Log(k.chain)[k.i - 1] == r;
    assert k.chain == Index(Of(f, d), ep, k.chain.writer) && r in w.log[k.chain];
  }

  /** Reading whole chains to their ends finds their contents. */
  lemma ReadContents(w: World, f: Field, nodes: set<Dyadic.Label>, ep: nat, ws: set<Writer>,
                     ends: map<Chain, nat>, got: Net, d: Dyadic.Label)
    requires Rendered(w.net, w.log, w.missing) && Whole(w, ep) && d in nodes
    requires ends.Keys == LevelChains(f, nodes, ep, ws)
    requires forall c :: c in ends ==> StopsAt(w.net, c, 0, ends[c])
    requires HonestRead(w.net, SlotsTo(ends), got, {})
    ensures Rids(got, LevelChains(f, {d}, ep, ws), ends) == Contents(w.log, Of(f, d), ep, ws)
  {
    hide Rendered, Whole, StopsAt, Rids, Contents, LevelChains;
    forall u | u in ws
      ensures Index(Of(f, d), ep, u) in ends && ends[Index(Of(f, d), ep, u)] == |w.Log(Index(Of(f, d), ep, u))|
    {
      EndAsLogged(w, f, nodes, ep, ws, ends, d, u);
    }
    forall r | r in Contents(w.log, Of(f, d), ep, ws) ensures r in Rids(got, LevelChains(f, {d}, ep, ws), ends) {
      ContentsAreRead(w, f, d, ep, ws, ends, got, r);
    }
    forall r | r in Rids(got, LevelChains(f, {d}, ep, ws), ends) ensures r in Contents(w.log, Of(f, d), ep, ws) {
      ReadIsContents(w, f, d, ep, ws, ends, got, r);
    }
  }

  /** What one level of the descent found: ids by interval, and the keys they came from. */
  datatype LevelRead = LevelRead(rids: map<Dyadic.Label, set<Rid>>, keys: set<Key>)

  ghost predicate KeysOf(net: Net, chains: set<Chain>, keys: set<Key>) {
    forall k :: k in keys <==> k.Link? && k.chain in chains && k in net
  }

  lemma SlotsAreKeys(w: World, f: Field, nodes: set<Dyadic.Label>, ep: nat, ws: set<Writer>, ends: map<Chain, nat>)
    requires Rendered(w.net, w.log, w.missing) && Whole(w, ep)
    requires ends.Keys == LevelChains(f, nodes, ep, ws)
    requires forall c :: c in ends ==> StopsAt(w.net, c, 0, ends[c])
    ensures KeysOf(w.net, ends.Keys, SlotsTo(ends))
  {
    hide Rendered, Whole, StopsAt, Dense;
    forall c | c in ends ensures DenseTo(w.net, c, ends[c]) {
      ChainAsLogged(w, c);
      EndAsLogged(w, f, nodes, ep, ws, ends, c.w.node, c.writer);
    }
    forall k: Key | k.Link? && k.chain in ends ensures k in SlotsTo(ends) <==> k in w.net {
      assert k == Link(k.chain, k.i);
    }
  }

  /** One level of the descent: every chain of the frontier, to its end. */
  method WalkLevel(net: Net, f: Field, frontier: set<Dyadic.Label>, ep: nat, ws: set<Writer>, silent: set<Key>,
                   ghost w: World)
    returns (r: Result<LevelRead, set<Key>>)
    requires net == w.net && Rendered(w.net, w.log, w.missing) && Whole(w, ep)
    ensures silent == {} ==> r.Success?
    ensures r.Success? ==> r.value.rids.Keys == frontier
    ensures r.Success? ==> forall d :: d in frontier ==> r.value.rids[d] == Contents(w.log, Of(f, d), ep, ws)
    ensures r.Success? ==> KeysOf(net, LevelChains(f, frontier, ep, ws), r.value.keys)
  {
    hide Rids, Contents, LevelChains, KeysOf, StopsAt, Rendered, Whole;
    var spec := map c | c in LevelChains(f, frontier, ep, ws) :: 0;
    var found, _ := DiscoverEnds(net, spec, silent);
    if found.Failure? {
      return Failure(found.error);
    }
    var ends := found.value;
    var got, bad := MGet(net, SlotsTo(ends), silent);
    if bad != {} {
      return Failure(bad);
    }
    SlotsAreKeys(w, f, frontier, ep, ws, ends);
    AllSlotsRead(net, ends, got);
    forall d | d in frontier
      ensures Rids(got, LevelChains(f, {d}, ep, ws), ends) == Contents(w.log, Of(f, d), ep, ws)
    {
      ReadContents(w, f, frontier, ep, ws, ends, got, d);
    }
    return Success(LevelRead(map d | d in frontier :: Rids(got, LevelChains(f, {d}, ep, ws), ends), got.Keys));
  }

  lemma AllSlotsRead(net: Net, ends: map<Chain, nat>, got: Net)
    requires KeysOf(net, ends.Keys, SlotsTo(ends)) && HonestRead(net, SlotsTo(ends), got, {})
    ensures got.Keys == SlotsTo(ends)
  {
  }

  /** Everything under an interval is also under the interval above it. */
  lemma ParentContents(schema: Schema, w: World, f: Field, d: Dyadic.Label, ep: nat, ws: set<Writer>)
    requires ValidSchema(schema) && Closed(schema, w.log, w.table) && LogTrue(schema, w.log, w.table)
    requires ReachedLabel(schema, Of(f, d)) && d.level >= 2
    ensures ReachedLabel(schema, Of(f, Dyadic.Parent(d)))
    ensures Contents(w.log, Of(f, d), ep, ws) <= Contents(w.log, Of(f, Dyadic.Parent(d)), ep, ws)
  {
    var s := schema[f];
    forall r | r in Contents(w.log, Of(f, d), ep, ws)
      ensures r in Contents(w.log, Of(f, Dyadic.Parent(d)), ep, ws)
    {
      var u :| u in ws && Index(Of(f, d), ep, u) in w.log && r in w.log[Index(Of(f, d), ep, u)];
      assert Holds(w.log, Of(f, d), ep, u, r);
      ParentFindable(schema, w.table.inserted[r], f, d);
      assert Holds(w.log, Of(f, Dyadic.Parent(d)), ep, u, r);
    }
  }

  lemma ParentFindable(schema: Schema, rec: Record, f: Field, d: Dyadic.Label)
    requires ValidSchema(schema) && ReachedLabel(schema, Of(f, d)) && d.level >= 2 && Labelled(schema, rec, Of(f, d))
    ensures Findable(schema, rec, Of(f, Dyadic.Parent(d)))
  {
    var s, v := schema[f], rec[f];
    Dyadic.LevelsForContains(v, s.bits, s.mlvl, d);
    Dyadic.ParentHolds(s.bits, d);
    Dyadic.LevelsForContains(v, s.bits, s.mlvl, Dyadic.Parent(d));
    Dyadic.NodeInDomain(s.bits, d);
  }

  /** What has been walked of a field once all levels below lvl are done. */
  ghost predicate WalkedTo(schema: Schema, w: World, f: Field, ep: nat, ws: set<Writer>, lvl: nat,
                           frontier: set<Dyadic.Label>,
                           found: map<Dyadic.Label, set<Rid>>)
    requires f in schema
  {
    && (forall d :: d in frontier ==> d.level == lvl && ReachedLabel(schema, Of(f, d)))
    && (forall d :: ReachedLabel(schema, Of(f, d)) && d.level < lvl ==>
          (if d in found then found[d] else {}) == Contents(w.log, Of(f, d), ep, ws))
    && (forall d :: ReachedLabel(schema, Of(f, d)) && d.level == lvl && d !in frontier ==>
        Contents(w.log, Of(f, d), ep, ws) == {})
    && (forall d :: d in found ==> ReachedLabel(schema, Of(f, d)) && d.level < lvl)
  }

  function Children(schema: Schema, f: Field, level: map<Dyadic.Label, set<Rid>>): set<Dyadic.Label>
    requires f in schema
  {
    var full := set d | d in level && level[d] != {} && d.level + 1 <= schema[f].mlvl;
    (set d | d in full :: Dyadic.Label(d.level + 1, 2 * d.index)) + (set d | d in full ::
                                                                     Dyadic.Label(d.level + 1, 2 * d.index + 1))
  }

  lemma InChildren(schema: Schema, f: Field, level: map<Dyadic.Label, set<Rid>>, c: Dyadic.Label)
    requires f in schema
    ensures c in Children(schema, f, level) <==>
              1 <= c.level <= schema[f].mlvl && Dyadic.Parent(c) in level && level[Dyadic.Parent(c)] != {}
  {
    if c.level >= 1 {
      var d := Dyadic.Parent(c);
      assert c == Dyadic.Label(d.level + 1, 2 * d.index) || c == Dyadic.Label(d.level + 1, 2 * d.index + 1);
    }
  }

  lemma ParentStored(bits: nat, mlvl: nat, c: Dyadic.Label)
    requires c.level >= 1 && Dyadic.Stored(bits, mlvl, Dyadic.Parent(c))
    ensures Dyadic.Stored(bits, mlvl, c) <==> c.level <= mlvl
  {
    assert Pow2(c.level) == 2 * Pow2(c.level - 1);
  }

  lemma ChildrenReached(schema: Schema, f: Field, level: map<Dyadic.Label, set<Rid>>, c: Dyadic.Label)
    requires ValidSchema(schema) && f in schema
    requires forall d :: d in level ==> ReachedLabel(schema, Of(f, d))
    ensures c in Children(schema, f, level) ==> ReachedLabel(schema, Of(f, c))
    ensures ReachedLabel(schema, Of(f, c)) && c.level >= 2 && Dyadic.Parent(c) in level && level[Dyadic.Parent(c)] != {}
            ==> c in Children(schema, f, level)
  {
    InChildren(schema, f, level, c);
    if c.level >= 1 && Dyadic.Parent(c) in level {
      assert ReachedLabel(schema, Of(f, Dyadic.Parent(c)));
      ParentStored(schema[f].bits, schema[f].mlvl, c);
    }
  }

  lemma NextLevel(schema: Schema, w: World, f: Field, ep: nat, ws: set<Writer>, lvl: nat, frontier: set<Dyadic.Label>,
                  found: map<Dyadic.Label, set<Rid>>, level: map<Dyadic.Label, set<Rid>>)
    requires ValidSchema(schema) && f in schema && lvl >= 1
    requires Closed(schema, w.log, w.table) && LogTrue(schema, w.log, w.table)
    requires WalkedTo(schema, w, f, ep, ws, lvl, frontier, found)
    requires level.Keys == frontier && forall d :: d in frontier ==> level[d] == Contents(w.log, Of(f, d), ep, ws)
    ensures WalkedTo(schema, w, f, ep, ws, lvl + 1, Children(schema, f, level), found + level)
  {
    hide ReachedLabel, Contents, Closed, LogTrue;
    forall d | d in Children(schema, f, level) ensures d.level == lvl + 1 && ReachedLabel(schema, Of(f, d)) {
      ChildrenReached(schema, f, level, d);
    }
    forall d | ReachedLabel(schema, Of(f, d)) && d.level == lvl + 1 && d !in Children(schema, f, level)
      ensures Contents(w.log, Of(f, d), ep, ws) == {}
    {
      ParentContents(schema, w, f, d, ep, ws);
      ChildrenReached(schema, f, level, d);
    }
  }

  /** A slot of one field's tree, above some level. */
  ghost predicate InTree(schema: Schema, f: Field, ep: nat, ws: set<Writer>, lvl: nat, k: Key) {
    && k.Link? && k.chain.Index? && k.chain.epoch == ep && k.chain.writer in ws
    && ReachedLabel(schema, k.chain.w) && k.chain.w.field == f && k.chain.w.node.level < lvl
  }

  ghost predicate KeysTo(schema: Schema, net: Net, f: Field, ep: nat, ws: set<Writer>, lvl: nat, keys: set<Key>) {
    forall k :: k in keys <==> InTree(schema, f, ep, ws, lvl, k) && k in net
  }

  /** A filled slot lists something. */
  lemma SlotLists(w: World, l: ChainLabel, ep: nat, ws: set<Writer>, u: Writer, i: nat)
    requires Rendered(w.net, w.log, w.missing) && u in ws && Link(Index(l, ep, u), i) in w.net
    ensures Contents(w.log, l, ep, ws) != {}
  {
    var r := w.log[Index(l, ep, u)][i - 1];
    assert r in w.log[Index(l, ep, u)];
    assert r in Contents(w.log, l, ep, ws);
  }

  lemma NextKeys(schema: Schema, w: World, f: Field, ep: nat, ws: set<Writer>, lvl: nat, frontier: set<Dyadic.Label>,
                 found: map<Dyadic.Label, set<Rid>>, keys: set<Key>, more: set<Key>)
    requires f in schema && Rendered(w.net, w.log, w.missing)
    requires WalkedTo(schema, w, f, ep, ws, lvl, frontier, found)
    requires KeysTo(schema, w.net, f, ep, ws, lvl, keys) && KeysOf(w.net, LevelChains(f, frontier, ep, ws), more)
    ensures KeysTo(schema, w.net, f, ep, ws, lvl + 1, keys + more)
  {
    hide ReachedLabel, Contents, Rendered;
    LabelsReached(schema);
    forall k: Key
      ensures k in keys + more <==> InTree(schema, f, ep, ws, lvl + 1, k) && k in w.net
    {
      if k.Link? && k.chain.Index? && k.chain.w.Of? {
        var l := k.chain.w;
        assert l == Of(l.field, l.node) && k == Link(Index(l, k.chain.epoch, k.chain.writer), k.i);
        if InTree(schema, f, ep, ws, lvl + 1, k) && k in w.net {
          SlotLists(w, l, ep, ws, k.chain.writer, k.i);
        }
      }
    }
  }

  lemma LabelsReached(schema: Schema)
    ensures forall l :: ReachedLabel(schema, l) ==> l.Of?
  {
  }

  /** Nothing lies below the walk once its frontier is empty. */
  lemma LastKeys(schema: Schema, w: World, f: Field, ep: nat, ws: set<Writer>, lvl: nat,
                 found: map<Dyadic.Label, set<Rid>>, keys: set<Key>)
    requires ValidSchema(schema) && f in schema && lvl >= 1 && Rendered(w.net, w.log, w.missing)
    requires Closed(schema, w.log, w.table) && LogTrue(schema, w.log, w.table)
    requires WalkedTo(schema, w, f, ep, ws, lvl, {}, found) && KeysTo(schema, w.net, f, ep, ws, lvl, keys)
    ensures forall k :: k in keys <==> InTree(schema, f, ep, ws, schema[f].mlvl + 1, k) && k in w.net
  {
    hide Contents, Rendered, Closed, LogTrue;
    forall k | InTree(schema, f, ep, ws, schema[f].mlvl + 1, k) && k in w.net
      ensures k.chain.w.node.level < lvl
    {
      var l := k.chain.w;
      assert l == Of(l.field, l.node) && k == Link(Index(l, k.chain.epoch, k.chain.writer), k.i);
      SlotLists(w, l, ep, ws, k.chain.writer, k.i);
      if l.node.level >= lvl {
        DeeperEmpty(schema, w, f, ep, ws, lvl, found, l.node);
      }
    }
  }

  /** Once the frontier is empty nothing lies deeper. */
  lemma {:induction false} DeeperEmpty(schema: Schema, w: World, f: Field, ep: nat, ws: set<Writer>, lvl: nat,
                                       found: map<Dyadic.Label, set<Rid>>, d: Dyadic.Label)
    requires ValidSchema(schema) && f in schema && lvl >= 1
    requires Closed(schema, w.log, w.table) && LogTrue(schema, w.log, w.table)
    requires WalkedTo(schema, w, f, ep, ws, lvl, {}, found) && ReachedLabel(schema, Of(f, d)) && d.level >= lvl
    ensures Contents(w.log, Of(f, d), ep, ws) == {}
    decreases d.level
  {
    hide ReachedLabel, Contents, Closed, LogTrue;
    if d.level > lvl {
      ParentContents(schema, w, f, d, ep, ws);
      DeeperEmpty(schema, w, f, ep, ws, lvl, found, Dyadic.Parent(d));
    }
  }

  /** The descent through one field's tree. */
  method WalkField(schema: Schema, net: Net, f: Field, ep: nat, ws: set<Writer>, silent: set<Key>, ghost w: World)
    returns (r: Result<LevelRead, set<Key>>)
    requires ValidSchema(schema) && f in schema
    requires net == w.net && Inv(schema, w) && Whole(w, ep)
    ensures silent == {} ==> r.Success?
    ensures r.Success? ==> forall d :: d in r.value.rids ==> ReachedLabel(schema, Of(f, d))
    ensures r.Success? ==> forall d :: ReachedLabel(schema, Of(f, d)) ==>
              (if d in r.value.rids then r.value.rids[d] else {}) == Contents(w.log, Of(f, d), ep, ws)
    ensures r.Success? ==> forall k :: k in r.value.keys <==>
              InTree(schema, f, ep, ws, schema[f].mlvl + 1, k) && k in net
  {
    hide Inv, ReachedLabel, Contents, Children, Built, LogTrue, Rendered, Closed, Whole, KeysTo, KeysOf, LevelChains,
         InTree;
    InvParts(schema, w);
    var frontier := {Dyadic.Label(1, 0), Dyadic.Label(1, 1)};
    var found: map<Dyadic.Label, set<Rid>> := map[];
    var keys: set<Key> := {};
    var lvl := 1;
    StartLevel(schema, w, f, ep, ws);
    while frontier != {}
      invariant 1 <= lvl <= schema[f].mlvl + 1
      invariant WalkedTo(schema, w, f, ep, ws, lvl, frontier, found) && KeysTo(schema, net, f, ep, ws, lvl, keys)
      decreases schema[f].mlvl + 1 - lvl
    {
      var level := WalkLevel(net, f, frontier, ep, ws, silent, w);
      if level.Failure? {
        return Failure(level.error);
      }
      NextLevel(schema, w, f, ep, ws, lvl, frontier, found, level.value.rids);
      NextKeys(schema, w, f, ep, ws, lvl, frontier, found, keys, level.value.keys);
      FrontierLevel(schema, f, frontier, lvl);
      found, keys := found + level.value.rids, keys + level.value.keys;
      frontier := Children(schema, f, level.value.rids);
      lvl := lvl + 1;
    }
    LastKeys(schema, w, f, ep, ws, lvl, found, keys);
    forall d | ReachedLabel(schema, Of(f, d))
      ensures (if d in found then found[d] else {}) == Contents(w.log, Of(f, d), ep, ws)
    {
      if d.level >= lvl {
        DeeperEmpty(schema, w, f, ep, ws, lvl, found, d);
      }
    }
    return Success(LevelRead(found, keys));
  }

  lemma FrontierLevel(schema: Schema, f: Field, frontier: set<Dyadic.Label>, lvl: nat)
    requires f in schema && frontier != {} && forall d :: d in frontier ==>
               d.level == lvl && ReachedLabel(schema, Of(f, d))
    ensures lvl <= schema[f].mlvl
  {
    var d :| d in frontier;
  }

  lemma InvParts(schema: Schema, w: World)
    requires Inv(schema, w)
    ensures Rendered(w.net, w.log, w.missing) && Closed(schema, w.log, w.table) && LogTrue(schema, w.log, w.table)
  {
  }

  lemma StartLevel(schema: Schema, w: World, f: Field, ep: nat, ws: set<Writer>)
    requires ValidSchema(schema) && f in schema
    ensures WalkedTo(schema, w, f, ep, ws, 1, {Dyadic.Label(1, 0), Dyadic.Label(1, 1)}, map[])
    ensures KeysTo(schema, w.net, f, ep, ws, 1, {})
  {
    assert Pow2(1) == 2;
    forall d: Dyadic.Label | ReachedLabel(schema, Of(f, d)) && d.level == 1
      ensures d in {Dyadic.Label(1, 0), Dyadic.Label(1, 1)}
    {
      assert d == Dyadic.Label(1, d.index);
    }
  }

  /** What a walk found: ids by label, and the index keys they came from. */
  datatype WalkRead = WalkRead(entries: map<ChainLabel, set<Rid>>, keys: set<Key>)

  /** A slot of an epoch under some field's tree. */
  ghost predicate InForest(schema: Schema, fields: set<Field>, ep: nat, ws: set<Writer>, k: Key) {
    && k.Link? && k.chain.Index? && k.chain.epoch == ep && k.chain.writer in ws
    && ReachedLabel(schema, k.chain.w) && k.chain.w.field in fields
  }

  lemma TreesAreForest(schema: Schema, net: Net, ep: nat, ws: set<Writer>, fields: set<Field>, f: Field, keys: set<Key>,
                       more: set<Key>)
    requires f in schema && f in fields
    requires forall k :: k in keys <==> InForest(schema, fields - {f}, ep, ws, k) && k in net
    requires forall k :: k in more <==> InTree(schema, f, ep, ws, schema[f].mlvl + 1, k) && k in net
    ensures forall k :: k in keys + more <==> InForest(schema, fields, ep, ws, k) && k in net
  {
  }

  /** The ids the walked labels hold. */
  ghost predicate Entries(schema: Schema, w: World, fields: set<Field>, ep: nat, ws: set<Writer>,
                          entries: map<ChainLabel, set<Rid>>) {
    && (forall l :: ReachedLabel(schema, l) && l.field in fields ==>
          (if l in entries then entries[l] else {}) == Contents(w.log, l, ep, ws))
    && (forall l :: l in entries ==>
        ReachedLabel(schema, l) && l.field in fields && entries[l] == Contents(w.log, l, ep, ws))
  }

  lemma EntriesGrow(schema: Schema, w: World, fields: set<Field>, f: Field, ep: nat, ws: set<Writer>,
                    entries: map<ChainLabel, set<Rid>>,
                    rids: map<Dyadic.Label, set<Rid>>, entries': map<ChainLabel, set<Rid>>)
    requires f in fields && Entries(schema, w, fields - {f}, ep, ws, entries)
    requires forall d :: d in rids ==> ReachedLabel(schema, Of(f, d))
    requires forall d :: ReachedLabel(schema, Of(f, d)) ==>
               (if d in rids then rids[d] else {}) == Contents(w.log, Of(f, d), ep, ws)
    requires entries' == entries + map l | l in (set d | d in rids :: Of(f, d)) && l.Of? && l.node in rids ::
               rids[l.node]
    ensures Entries(schema, w, fields, ep, ws, entries')
  {
    hide Contents, ReachedLabel;
    LabelsReached(schema);
    forall l | ReachedLabel(schema, l) && l.field in fields
      ensures (if l in entries' then entries'[l] else {}) == Contents(w.log, l, ep, ws)
    {
      assert l == Of(l.field, l.node);
    }
  }

  /** The whole walk of some fields' trees. It finds exactly what the epoch lists there, and exactly the keys. */
  method WalkEpoch(schema: Schema, net: Net, ep: nat, ws: set<Writer>, fields: set<Field>, silent: set<Key>,
                   ghost w: World)
    returns (r: Result<WalkRead, set<Key>>)
    requires ValidSchema(schema) && net == w.net && Inv(schema, w) && Whole(w, ep) && fields <= schema.Keys
    ensures silent == {} ==> r.Success?
    ensures r.Success? ==> Entries(schema, w, fields, ep, ws, r.value.entries)
    ensures r.Success? ==> forall k :: k in r.value.keys <==> InForest(schema, fields, ep, ws, k) && k in net
  {
    hide Inv, Contents, Whole, ValidSchema, ReachedLabel, InForest, InTree, Entries;
    NothingWalked(schema, w, ep, ws);
    var entries: map<ChainLabel, set<Rid>> := map[];
    var keys: set<Key> := {};
    var todo, done := fields, {};
    while todo != {}
      invariant todo + done == fields && todo !! done
      invariant Entries(schema, w, done, ep, ws, entries)
      invariant forall k :: k in keys <==> InForest(schema, done, ep, ws, k) && k in net
      decreases todo
    {
      var f :| f in todo;
      var found := WalkField(schema, net, f, ep, ws, silent, w);
      if found.Failure? {
        return Failure(found.error);
      }
      var more := map l | l in (set d | d in found.value.rids :: Of(f, d)) && l.Of? && l.node in found.value.rids ::
          found.value.rids[l.node];
      assert done + {f} - {f} == done;
      EntriesGrow(schema, w, done + {f}, f, ep, ws, entries, found.value.rids, entries + more);
      TreesAreForest(schema, net, ep, ws, done + {f}, f, keys, found.value.keys);
      entries, keys := entries + more, keys + found.value.keys;
      todo, done := todo - {f}, done + {f};
    }
    return Success(WalkRead(entries, keys));
  }

  lemma NothingWalked(schema: Schema, w: World, ep: nat, ws: set<Writer>)
    ensures Entries(schema, w, {}, ep, ws, map[]) && forall k :: !InForest(schema, {}, ep, ws, k)
  {
  }

  /** A walk by the compactor of a drained epoch is a legal drain step. */
  lemma WalkIsDrain(schema: Schema, w: World, entries: map<ChainLabel, set<Rid>>)
    requires w.phase.Draining? && w.epoch > 0
    requires Entries(schema, w, schema.Keys, w.epoch - 1, w.walkers, entries)
    ensures Compaction.Walk(schema, w,
                            w.(phase := Walked(entries), drained := w.drained + Drain(w.log, w.epoch - 1, w.walkers)),
                                entries)
  {
  }
}
