/** Counts, histograms and approximate sums from chain lengths alone (Owner.count, histogram and approx_sum in
    blindrange/client.py, and their sharded forms in blindrange/sharded.py). */
module Aggregates {
  import opened Basics
  import opened Chains
  import opened Index
  import opened Query
  import opened Compaction
  import opened EpochWalk
  import opened CompactionProof
  import Dyadic

  // ------------------------------------------------------------ chain lengths

  /** How many entries each interval holds in one epoch, by all writers together. */
  ghost predicate Counted(w: World, f: Field, ep: nat, ws: set<Writer>, lengths: map<Dyadic.Label, nat>) {
    forall d :: d in lengths ==> lengths[d] == |Contents(w.log, Of(f, d), ep, ws)|
  }

  function NodeChains(f: Field, nodes: set<Dyadic.Label>, eps: set<nat>, ws: set<Writer>): set<Chain> {
    set d, ep, u | d in nodes && ep in eps && u in ws :: Index(Of(f, d), ep, u)
  }

  function WritersIn(f: Field, d: Dyadic.Label, ep: nat, ws: set<Writer>, chains: set<Chain>): set<Writer> {
    set u | u in ws && Index(Of(f, d), ep, u) in chains
  }

  ghost predicate CountedIn(w: World, f: Field, ep: nat, ws: set<Writer>, chains: set<Chain>,
                            lengths: map<Dyadic.Label, nat>) {
    forall d :: d in lengths ==> lengths[d] == |Contents(w.log, Of(f, d), ep, WritersIn(f, d, ep, ws, chains))|
  }

  /** One more writer's chain adds its length: nobody lists an id twice, and no two writers list the same one. */
  lemma OneMoreWriter(w: World, l: ChainLabel, ep: nat, ws: set<Writer>, u: Writer)
    requires Once(w.log) && OneHome(w.log) && l.Of? && u !in ws
    ensures |Contents(w.log, l, ep, ws + {u})| == |Contents(w.log, l, ep, ws)| + |w.Log(Index(l, ep, u))|
  {
    var c := Index(l, ep, u);
    var before, more := Contents(w.log, l, ep, ws), Elements(w.Log(c));
    assert NoDuplicates(w.Log(c));
    DistinctSize(w.Log(c));
    forall r | r in before ensures r !in more {
      var x :| x in ws && Index(l, ep, x) in w.log && r in w.log[Index(l, ep, x)];
      assert Holds(w.log, l, ep, x, r);
      assert r in more ==> Holds(w.log, l, ep, u, r);
    }
    assert Contents(w.log, l, ep, ws + {u}) == before + more by {
      ContentsGrow(w, l, ep, ws, u);
    }
  }

  lemma ContentsGrow(w: World, l: ChainLabel, ep: nat, ws: set<Writer>, u: Writer)
    ensures Contents(w.log, l, ep, ws + {u}) == Contents(w.log, l, ep, ws) + Elements(w.Log(Index(l, ep, u)))
  {
  }

  lemma CountStep(w: World, f: Field, ep: nat, ws: set<Writer>, nodes: set<Dyadic.Label>, done: set<Chain>, c: Chain,
                  lengths: map<Dyadic.Label, nat>)
    requires Once(w.log) && OneHome(w.log) && CountedIn(w, f, ep, ws, done, lengths) && lengths.Keys == nodes
    requires c in NodeChains(f, nodes, {ep}, ws) && c !in done
    ensures CountedIn(w, f, ep, ws, done + {c}, lengths[c.w.node := lengths[c.w.node] + |w.Log(c)|])
  {
    hide Contents, Once, OneHome;
    var lengths' := lengths[c.w.node := lengths[c.w.node] + |w.Log(c)|];
    forall d | d in lengths'
      ensures lengths'[d] == |Contents(w.log, Of(f, d), ep, WritersIn(f, d, ep, ws, done + {c}))|
    {
      if d == c.w.node {
        assert WritersIn(f, d, ep, ws, done + {c}) == WritersIn(f, d, ep, ws, done) + {c.writer};
        OneMoreWriter(w, Of(f, d), ep, WritersIn(f, d, ep, ws, done), c.writer);
      } else {
        assert WritersIn(f, d, ep, ws, done + {c}) == WritersIn(f, d, ep, ws, done);
      }
    }
  }

  /** Lengths of the chains of some intervals, added up per interval. On one epoch that is the number of ids listed. */
  method ChainLengths(net: Net, f: Field, nodes: set<Dyadic.Label>, eps: set<nat>, ws: set<Writer>, silent: set<Key>,
                      ghost w: World, ghost ep: nat)
    returns (r: Result<map<Dyadic.Label, nat>, set<Key>>)
    requires net == w.net && Rendered(w.net, w.log, w.missing) && Once(w.log) && OneHome(w.log)
    requires forall e :: e in eps ==> Whole(w, e)
    ensures silent == {} ==> r.Success?
    ensures r.Success? ==> r.value.Keys == nodes
    ensures r.Success? && eps == {ep} ==> Counted(w, f, ep, ws, r.value)
  {
    hide Rendered, Whole, StopsAt, Once, OneHome, Contents, DenseTo, Counted;
    var found, _ := DiscoverEnds(net, map c | c in NodeChains(f, nodes, eps, ws) :: 0, silent);
    if found.Failure? {
      return Failure(found.error);
    }
    forall c | c in found.value ensures found.value[c] == |w.Log(c)| {
      ChainAsLogged(w, c);
      StopOfDense(net, c, 0, |w.Log(c)|, found.value[c]);
    }
    var out := SumByNode(f, nodes, eps, ws, found.value, w, ep);
    return Success(out);
  }

  /** The loop that adds the ends up. */
  method SumByNode(f: Field, nodes: set<Dyadic.Label>, eps: set<nat>, ws: set<Writer>, ends: map<Chain, nat>,
                   ghost w: World, ghost ep: nat)
    returns (out: map<Dyadic.Label, nat>)
    requires ends.Keys == NodeChains(f, nodes, eps, ws) && forall c :: c in ends ==> ends[c] == |w.Log(c)|
    requires Once(w.log) && OneHome(w.log)
    ensures out.Keys == nodes
    ensures eps == {ep} ==> Counted(w, f, ep, ws, out)
  {
    hide Once, OneHome, Contents, CountedIn, Counted;
    out := map d | d in nodes :: 0;
    var todo := ends.Keys;
    ghost var done: set<Chain> := {};
    NothingCounted(w, f, ep, ws, nodes);
    while todo != {}
      invariant todo + done == ends.Keys && todo !! done && out.Keys == nodes
      invariant eps == {ep} ==> CountedIn(w, f, ep, ws, done, out)
      decreases todo
    {
      var c :| c in todo;
      if eps == {ep} {
        CountStep(w, f, ep, ws, nodes, done, c, out);
      }
      out := out[c.w.node := out[c.w.node] + ends[c]];
      todo, done := todo - {c}, done + {c};
    }
    if eps == {ep} {
      assert done == NodeChains(f, nodes, {ep}, ws);
      AllCounted(w, f, ep, ws, nodes, out);
    }
  }

  lemma NothingCounted(w: World, f: Field, ep: nat, ws: set<Writer>, nodes: set<Dyadic.Label>)
    ensures CountedIn(w, f, ep, ws, {}, map d | d in nodes :: 0)
  {
    forall d: Dyadic.Label ensures Contents(w.log, Of(f, d), ep, WritersIn(f, d, ep, ws, {})) == {} {
    }
  }

  lemma AllCounted(w: World, f: Field, ep: nat, ws: set<Writer>, nodes: set<Dyadic.Label>,
                   lengths: map<Dyadic.Label, nat>)
    requires lengths.Keys == nodes && CountedIn(w, f, ep, ws, NodeChains(f, nodes, {ep}, ws), lengths)
    ensures Counted(w, f, ep, ws, lengths)
  {
    hide Contents;
    forall d | d in lengths ensures WritersIn(f, d, ep, ws, NodeChains(f, nodes, {ep}, ws)) == ws {
    }
  }

  // ------------------------------------------------------------ counting

  /** Ids an epoch lists for a field whose value's leaf meets the range. */
  ghost function InRange(schema: Schema, w: World, f: Field, ep: nat, ws: set<Writer>, a: int, b: int): set<Rid>
    requires f in schema
  {
    set r | r in w.table.inserted && Meets(schema, w, f, ep, ws, a, b, r)
  }

  ghost predicate Meets(schema: Schema, w: World, f: Field, ep: nat, ws: set<Writer>, a: int, b: int, r: Rid)
    requires f in schema && r in w.table.inserted
  {
    && f in w.table.inserted[r] && Dyadic.InHull(a, b, schema[f].bits, schema[f].mlvl, w.table.inserted[r][f])
    && exists l, u :: u in ws && ReachedLabel(schema, l) && l.field == f && Holds(w.log, l, ep, u, r)
  }

  function Total(lengths: map<Dyadic.Label, nat>, nodes: seq<Dyadic.Label>): nat
    requires forall d :: d in nodes ==> d in lengths
  {
    if nodes == [] then 0 else Total(lengths, nodes[..|nodes| - 1]) + lengths[nodes[|nodes| - 1]]
  }

  /** Ids listed under some intervals. */
  function Under(w: World, f: Field, ep: nat, ws: set<Writer>, nodes: seq<Dyadic.Label>): set<Rid> {
    if nodes == [] then {}
    else Under(w, f, ep, ws, nodes[..|nodes| - 1]) + Contents(w.log, Of(f, nodes[|nodes| - 1]), ep, ws)
  }

  lemma {:induction false} UnderHolds(w: World, f: Field, ep: nat, ws: set<Writer>, nodes: seq<Dyadic.Label>, r: Rid)
    ensures r in Under(w, f, ep, ws, nodes) <==> exists d :: d in nodes && r in Contents(w.log, Of(f, d), ep, ws)
  {
    if nodes != [] {
      UnderHolds(w, f, ep, ws, nodes[..|nodes| - 1], r);
      assert nodes == nodes[..|nodes| - 1] + [nodes[|nodes| - 1]];
    }
  }

  /** No value lies in two of the intervals. */
  ghost predicate Disjoint(bits: nat, nodes: seq<Dyadic.Label>) {
    forall i, j, v :: 0 <= i < j < |nodes| && Dyadic.Contains(bits, nodes[i], v) ==> !Dyadic.Contains(bits, nodes[j], v)
  }

  /** An id under an interval is of a record whose value lies there. */
  lemma ListedValue(schema: Schema, w: World, f: Field, ep: nat, ws: set<Writer>, d: Dyadic.Label, r: Rid)
    requires ValidSchema(schema) && LogTrue(schema, w.log, w.table) && r in Contents(w.log, Of(f, d), ep, ws)
    ensures f in schema && r in w.table.inserted && f in w.table.inserted[r]
    ensures Dyadic.Contains(schema[f].bits, d, w.table.inserted[r][f]) && 1 <= d.level <= schema[f].mlvl
    ensures exists u :: u in ws && Holds(w.log, Of(f, d), ep, u, r)
  {
    var u :| u in ws && Index(Of(f, d), ep, u) in w.log && r in w.log[Index(Of(f, d), ep, u)];
    assert Holds(w.log, Of(f, d), ep, u, r);
    Dyadic.LevelsForContains(w.table.inserted[r][f], schema[f].bits, schema[f].mlvl, d);
  }

  /** Ids under the last of some disjoint intervals are under none of the others. */
  lemma ApartFromRest(schema: Schema, w: World, f: Field, ep: nat, ws: set<Writer>, nodes: seq<Dyadic.Label>)
    requires ValidSchema(schema) && LogTrue(schema, w.log, w.table) && f in schema && nodes != []
             && Disjoint(schema[f].bits, nodes)
    ensures Under(w, f, ep, ws, nodes[..|nodes| - 1]) !! Contents(w.log, Of(f, nodes[|nodes| - 1]), ep, ws)
  {
    hide Contents, LogTrue, Dyadic.Contains;
    var init, d := nodes[..|nodes| - 1], nodes[|nodes| - 1];
    forall r | r in Under(w, f, ep, ws, init) ensures r !in Contents(w.log, Of(f, d), ep, ws) {
      UnderHolds(w, f, ep, ws, init, r);
      var x :| x in init && r in Contents(w.log, Of(f, x), ep, ws);
      var i :| 0 <= i < |init| && init[i] == x;
      ListedValue(schema, w, f, ep, ws, x, r);
      assert Dyadic.Contains(schema[f].bits, nodes[i], w.table.inserted[r][f]);
      if r in Contents(w.log, Of(f, d), ep, ws) {
        ListedValue(schema, w, f, ep, ws, d, r);
      }
    }
  }

  /** Adding up lengths of disjoint intervals counts the ids listed under them. */
  lemma {:induction false} TotalIsUnder(schema: Schema, w: World, f: Field, ep: nat, ws: set<Writer>,
                                        lengths: map<Dyadic.Label, nat>, nodes: seq<Dyadic.Label>)
    requires ValidSchema(schema) && LogTrue(schema, w.log, w.table) && f in schema
    requires Counted(w, f, ep, ws, lengths) && (forall d :: d in nodes ==>
                                                d in lengths) && Disjoint(schema[f].bits, nodes)
    ensures Total(lengths, nodes) == |Under(w, f, ep, ws, nodes)|
  {
    hide Contents, LogTrue, Dyadic.Contains;
    if nodes != [] {
      TotalIsUnder(schema, w, f, ep, ws, lengths, nodes[..|nodes| - 1]);
      ApartFromRest(schema, w, f, ep, ws, nodes);
    }
  }

  lemma AscendingDisjoint(bits: nat, nodes: seq<Dyadic.Label>)
    requires Dyadic.Ascending(bits, nodes)
    ensures Disjoint(bits, nodes)
  {
  }

  /** Intervals holding exactly the values whose leaves meet the range. */
  ghost predicate Exactly(schema: Schema, f: Field, nodes: seq<Dyadic.Label>, a: int, b: int)
    requires f in schema
  {
    && (forall d :: d in nodes ==> ReachedLabel(schema, Of(f, d)))
    && (forall v :: Dyadic.Covers(schema[f].bits, nodes, v) <==> Dyadic.InHull(a, b, schema[f].bits, schema[f].mlvl, v))
  }

  lemma UnderIsInRange(schema: Schema, w: World, f: Field, ep: nat, ws: set<Writer>, nodes: seq<Dyadic.Label>, a: int,
                       b: int, r: Rid)
    requires ValidSchema(schema) && LogTrue(schema, w.log, w.table) && Closed(schema, w.log, w.table) && f in schema
    requires Exactly(schema, f, nodes, a, b)
    ensures r in Under(w, f, ep, ws, nodes) <==> r in InRange(schema, w, f, ep, ws, a, b)
  {
    hide LogTrue, Closed, Dyadic.InHull, Dyadic.Contains, ReachedLabel, Contents, Findable;
    LabelsReached(schema);
    UnderHolds(w, f, ep, ws, nodes, r);
    if r in Under(w, f, ep, ws, nodes) {
      var d :| d in nodes && r in Contents(w.log, Of(f, d), ep, ws);
      ListedValue(schema, w, f, ep, ws, d, r);
      var i :| 0 <= i < |nodes| && nodes[i] == d;
      assert Dyadic.Covers(schema[f].bits, nodes, w.table.inserted[r][f]);
    }
    if r in InRange(schema, w, f, ep, ws, a, b) {
      var v := w.table.inserted[r][f];
      var l, u :| u in ws && ReachedLabel(schema, l) && l.field == f && Holds(w.log, l, ep, u, r);
      assert Dyadic.Covers(schema[f].bits, nodes, v);
      var i :| 0 <= i < |nodes| && Dyadic.Contains(schema[f].bits, nodes[i], v);
      assert nodes[i] in nodes;
      HeldEverywhere(schema, w, f, ep, l, nodes[i], u, r);
      InContents(w, Of(f, nodes[i]), ep, ws, u, r);
    }
  }

  lemma InContents(w: World, l: ChainLabel, ep: nat, ws: set<Writer>, u: Writer, r: Rid)
    requires u in ws && Holds(w.log, l, ep, u, r)
    ensures r in Contents(w.log, l, ep, ws)
  {
  }

  /** A record listed for a field is listed under every interval of its tree that holds its value. */
  lemma HeldEverywhere(schema: Schema, w: World, f: Field, ep: nat, l: ChainLabel, d: Dyadic.Label, u: Writer, r: Rid)
    requires ValidSchema(schema) && Closed(schema, w.log, w.table) && f in schema
    requires r in w.table.inserted && f in w.table.inserted[r] && ReachedLabel(schema, Of(f, d))
    requires Holds(w.log, l, ep, u, r) && Dyadic.Contains(schema[f].bits, d, w.table.inserted[r][f])
    ensures Holds(w.log, Of(f, d), ep, u, r)
  {
    hide Holds;
    var s, v := schema[f], w.table.inserted[r][f];
    Dyadic.LevelsForContains(v, s.bits, s.mlvl, d);
    Dyadic.NodeInDomain(s.bits, d);
    assert Findable(schema, w.table.inserted[r], Of(f, d));
  }

  lemma CoverIsExactly(schema: Schema, f: Field, a: int, b: int)
    requires ValidSchema(schema) && f in schema
    ensures var s := schema[f]; var cover := Dyadic.Cover(a, b, s.bits, s.mlvl);
            Exactly(schema, f, cover, a, b) && Disjoint(s.bits, cover)
  {
    hide Dyadic.Cover, Dyadic.InHull, Dyadic.Covers;
    var s := schema[f];
    Dyadic.CoverStored(a, b, s.bits, s.mlvl);
    AscendingDisjoint(s.bits, Dyadic.Cover(a, b, s.bits, s.mlvl));
    forall v: int ensures Dyadic.Covers(s.bits, Dyadic.Cover(a, b, s.bits, s.mlvl), v) <==>
        Dyadic.InHull(a, b, s.bits, s.mlvl, v) {
      Dyadic.CoverExact(a, b, s.bits, s.mlvl, v);
    }
  }

  /** Ids under exact, disjoint intervals are counted by their lengths. */
  lemma TotalIsInRange(schema: Schema, w: World, f: Field, ep: nat, ws: set<Writer>, lengths: map<Dyadic.Label, nat>,
                       nodes: seq<Dyadic.Label>, a: int, b: int)
    requires ValidSchema(schema) && LogTrue(schema, w.log, w.table) && Closed(schema, w.log, w.table) && f in schema
    requires Counted(w, f, ep, ws, lengths) && (forall d :: d in nodes ==> d in lengths)
    requires Exactly(schema, f, nodes, a, b) && Disjoint(schema[f].bits, nodes)
    ensures Under(w, f, ep, ws, nodes) == InRange(schema, w, f, ep, ws, a, b)
    ensures Total(lengths, nodes) == |InRange(schema, w, f, ep, ws, a, b)|
  {
    hide LogTrue, Closed, Counted, Exactly, Disjoint, Under, InRange, Total;
    TotalIsUnder(schema, w, f, ep, ws, lengths, nodes);
    forall r ensures r in Under(w, f, ep, ws, nodes) <==> r in InRange(schema, w, f, ep, ws, a, b) {
      UnderIsInRange(schema, w, f, ep, ws, nodes, a, b, r);
    }
  }

  /** How many index entries lie in a range, from chain lengths alone: on one readable epoch, exactly the entries
      whose leaf meets the range, whatever has been deleted since. */
  method Count(schema: Schema, net: Net, f: Field, a: int, b: int, eps: set<nat>, ws: set<Writer>, silent: set<Key>,
               ghost w: World, ghost ep: nat)
    returns (r: Result<nat, set<Key>>)
    requires ValidSchema(schema) && f in schema && net == w.net && Inv(schema, w) && forall e :: e in eps ==>
               Whole(w, e)
    ensures silent == {} ==> r.Success?
    ensures r.Success? && eps == {ep} ==> r.value == |InRange(schema, w, f, ep, ws, a, b)|
  {
    hide Inv, Built, Rendered, LogTrue, Closed, Once, OneHome, Whole, Exactly, Disjoint, InRange, Counted;
    InvForCounts(schema, w);
    var cover := Dyadic.Cover(a, b, schema[f].bits, schema[f].mlvl);
    var lengths := ChainLengths(net, f, Elements(cover), eps, ws, silent, w, ep);
    if lengths.Failure? {
      return Failure(lengths.error);
    }
    var total := AddUp(lengths.value, cover);
    if eps == {ep} {
      CoverIsExactly(schema, f, a, b);
      TotalIsInRange(schema, w, f, ep, ws, lengths.value, cover, a, b);
    }
    return Success(total);
  }

  lemma InvForCounts(schema: Schema, w: World)
    requires Inv(schema, w)
    ensures Rendered(w.net, w.log, w.missing) && Once(w.log) && OneHome(w.log)
    ensures LogTrue(schema, w.log, w.table) && Closed(schema, w.log, w.table)
  {
  }

  method AddUp(lengths: map<Dyadic.Label, nat>, nodes: seq<Dyadic.Label>) returns (total: nat)
    requires forall d :: d in nodes ==> d in lengths
    ensures total == Total(lengths, nodes)
  {
    total := 0;
    for i := 0 to |nodes|
      invariant total == Total(lengths, nodes[..i])
    {
      assert nodes[..i + 1][..i] == nodes[..i];
      total := total + lengths[nodes[i]];
    }
    assert nodes[..|nodes|] == nodes;
  }

  // ------------------------------------------------------------ histograms

  datatype Bar = Bar(lo: int, hi: int, count: nat)

  /** The leaves from the one a falls in to the one b falls in. */
  function Leaves(mlvl: nat, first: int, last: int): (leaves: seq<Dyadic.Label>)
    ensures forall i :: 0 <= i < |leaves| ==> leaves[i] == Dyadic.Label(mlvl, first + i)
    ensures |leaves| == if first <= last then last - first + 1 else 0
  {
    if first <= last then seq(last - first + 1, i => Dyadic.Label(mlvl, first + i)) else []
  }

  function BarsOf(width: nat, lengths: map<Dyadic.Label, nat>, leaves: seq<Dyadic.Label>): (bars: seq<Bar>)
    ensures |bars| == |leaves|
  {
    seq(|leaves|, i requires 0 <= i < |leaves| =>
      Bar(leaves[i].index * width, leaves[i].index * width + width - 1, if leaves[i] in lengths then lengths[leaves[i]]
          else 0))
  }

  function Sum(bars: seq<Bar>): nat {
    if bars == [] then 0 else Sum(bars[..|bars| - 1]) + bars[|bars| - 1].count
  }

  lemma {:induction false} SumConcat(x: seq<Bar>, y: seq<Bar>)
    ensures Sum(x + y) == Sum(x) + Sum(y)
  {
    if y == [] {
      assert x + y == x;
    } else {
      SumConcat(x, y[..|y| - 1]);
      assert (x + y)[..|x + y| - 1] == x + y[..|y| - 1];
    }
  }

  lemma {:induction false} SumOfBars(width: nat, lengths: map<Dyadic.Label, nat>, leaves: seq<Dyadic.Label>)
    requires forall d :: d in leaves ==> d in lengths
    ensures Sum(BarsOf(width, lengths, leaves)) == Total(lengths, leaves)
  {
    if leaves != [] {
      SumOfBars(width, lengths, leaves[..|leaves| - 1]);
      var bars := BarsOf(width, lengths, leaves);
      assert bars[..|bars| - 1] == BarsOf(width, lengths, leaves[..|leaves| - 1]);
    }
  }

  /** Bars side by side, each as wide as its ends say. */
  ghost predicate Contiguous(bars: seq<Bar>) {
    && (forall i :: 0 <= i < |bars| ==> bars[i].lo <= bars[i].hi)
    && forall i, j :: 0 <= i && j == i + 1 && j < |bars| ==> bars[j].lo == bars[i].hi + 1
  }

  /** Adjacent bars merged into groups of at most step. */
  function Merged(bars: seq<Bar>, step: nat): (merged: seq<Bar>)
    requires step >= 1
    decreases |bars|
  {
    if bars == [] then []
    else
      var n := if step < |bars| then step else |bars|;
      [Bar(bars[0].lo, bars[n - 1].hi, Sum(bars[..n]))] + Merged(bars[n..], step)
  }

  lemma SumOne(bar: Bar)
    ensures Sum([bar]) == bar.count
  {
    assert [bar][..0] == [];
  }

  /** Merging keeps the total. */
  lemma {:induction false} MergedSum(bars: seq<Bar>, step: nat)
    requires step >= 1
    ensures Sum(Merged(bars, step)) == Sum(bars)
    decreases |bars|
  {
    hide Sum, Merged;
    if bars != [] {
      MergedStep(bars, step);
      var n := if step < |bars| then step else |bars|;
      var head := Bar(bars[0].lo, bars[n - 1].hi, Sum(bars[..n]));
      MergedSum(bars[n..], step);
      SumConcat([head], Merged(bars[n..], step));
      SumConcat(bars[..n], bars[n..]);
      assert bars == bars[..n] + bars[n..];
      SumOne(head);
    } else {
      NothingMerged(step);
      assert Merged(bars, step) == bars;
    }
  }

  ghost predicate SameSpan(bars: seq<Bar>, bars': seq<Bar>) {
    if bars == [] then bars' == []
    else bars' != [] && bars'[0].lo == bars[0].lo && bars'[|bars'| - 1].hi == bars[|bars| - 1].hi
  }

  /** Merging keeps the span, and bars side by side stay so. */
  lemma {:induction false} MergedSpan(bars: seq<Bar>, step: nat)
    requires step >= 1
    ensures SameSpan(bars, Merged(bars, step))
    ensures Contiguous(bars) ==> Contiguous(Merged(bars, step))
    decreases |bars|
  {
    hide Sum;
    if bars != [] {
      var n := if step < |bars| then step else |bars|;
      var rest := Merged(bars[n..], step);
      MergedSpan(bars[n..], step);
      if Contiguous(bars) {
        SpanGrows(bars, n - 1);
        TailContiguous(bars, n);
        PutInFront(Bar(bars[0].lo, bars[n - 1].hi, Sum(bars[..n])), rest);
      }
    }
  }

  lemma PutInFront(bar: Bar, rest: seq<Bar>)
    requires Contiguous(rest) && bar.lo <= bar.hi && (rest != [] ==> rest[0].lo == bar.hi + 1)
    ensures Contiguous([bar] + rest)
  {
    forall i, j | 0 <= i && j == i + 1 && j < |[bar] + rest| ensures ([bar] + rest)[j].lo == ([bar] + rest)[i].hi + 1 {
      if i > 0 {
        assert rest[j - 1].lo == rest[i - 1].hi + 1;
      }
    }
  }

  lemma {:induction false} SpanGrows(bars: seq<Bar>, i: nat)
    requires Contiguous(bars) && i < |bars|
    ensures bars[0].lo <= bars[i].hi
  {
    if i > 0 {
      SpanGrows(bars, i - 1);
      assert bars[i].lo == bars[i - 1].hi + 1;
    }
  }

  lemma TailContiguous(bars: seq<Bar>, n: nat)
    requires Contiguous(bars) && n <= |bars|
    ensures Contiguous(bars[n..])
  {
    forall i, j | 0 <= i && j == i + 1 && j < |bars[n..]| ensures bars[n..][j].lo == bars[n..][i].hi + 1 {
      assert bars[n + j].lo == bars[n + i].hi + 1;
    }
  }

  /** A bar for the bars from i up to j. */
  ghost predicate Groups(bars: seq<Bar>, i: nat, j: nat, bar: Bar) {
    i < j <= |bars| && bar == Bar(bars[i].lo, bars[j - 1].hi, Sum(bars[i..j]))
  }

  lemma {:induction false} MergedGroups(bars: seq<Bar>, step: nat, bar: Bar) returns (i: nat, j: nat)
    requires step >= 1 && bar in Merged(bars, step)
    ensures Groups(bars, i, j, bar)
    decreases |bars|
  {
    hide Sum, Merged;
    if bars == [] {
      NothingMerged(step);
    } else {
      MergedStep(bars, step);
      var n := if step < |bars| then step else |bars|;
      if bar in Merged(bars[n..], step) {
        i, j := MergedGroups(bars[n..], step, bar);
        assert bars[n..][i..j] == bars[i + n..j + n];
        i, j := i + n, j + n;
      } else {
        i, j := 0, n;
      }
    }
  }

  /** How many the bars between lo and hi count. */
  function Within(bars: seq<Bar>, lo: int, hi: int): nat {
    if bars == [] then 0
    else
      var bar := bars[|bars| - 1];
      Within(bars[..|bars| - 1], lo, hi) + if lo <= bar.lo && bar.hi <= hi then bar.count else 0
  }

  lemma {:induction false} WithinConcat(x: seq<Bar>, y: seq<Bar>, lo: int, hi: int)
    ensures Within(x + y, lo, hi) == Within(x, lo, hi) + Within(y, lo, hi)
  {
    if y == [] {
      assert x + y == x;
    } else {
      WithinConcat(x, y[..|y| - 1], lo, hi);
      assert (x + y)[..|x + y| - 1] == x + y[..|y| - 1];
    }
  }

  lemma {:induction false} AllWithin(bars: seq<Bar>, lo: int, hi: int)
    requires forall k :: 0 <= k < |bars| ==> lo <= bars[k].lo && bars[k].hi <= hi
    ensures Within(bars, lo, hi) == Sum(bars)
  {
    if bars != [] {
      AllWithin(bars[..|bars| - 1], lo, hi);
    }
  }

  lemma {:induction false} NoneWithin(bars: seq<Bar>, lo: int, hi: int)
    requires forall k :: 0 <= k < |bars| ==> bars[k].lo < lo || bars[k].hi > hi
    ensures Within(bars, lo, hi) == 0
  {
    if bars != [] {
      NoneWithin(bars[..|bars| - 1], lo, hi);
    }
  }

  lemma {:induction false} Ordered(bars: seq<Bar>, k: nat, l: nat)
    requires Contiguous(bars) && k < l < |bars|
    ensures bars[k].hi < bars[l].lo
  {
    assert bars[l].lo == bars[l - 1].hi + 1;
    if k < l - 1 {
      Ordered(bars, k, l - 1);
      assert bars[l - 1].lo <= bars[l - 1].hi;
    }
  }

  lemma WithinParts(bars: seq<Bar>, i: nat, j: nat, lo: int, hi: int)
    requires i <= j <= |bars|
    ensures Within(bars, lo, hi) == Within(bars[..i], lo, hi) + Within(bars[i..j], lo, hi) + Within(bars[j..], lo, hi)
  {
    hide Within;
    WithinConcat(bars[..j], bars[j..], lo, hi);
    WithinConcat(bars[..i], bars[i..j], lo, hi);
    assert bars[..j] + bars[j..] == bars && bars[..i] + bars[i..j] == bars[..j];
  }

  /** Where a bar lies that stands before, among or after those from i up to j. */
  lemma Placed(bars: seq<Bar>, i: nat, j: nat, k: nat)
    requires Contiguous(bars) && i < j <= |bars| && k < |bars|
    ensures bars[i].lo <= bars[k].lo && bars[k].hi <= bars[j - 1].hi <==> i <= k < j
  {
    assert bars[k].lo <= bars[k].hi && bars[i].lo <= bars[i].hi && bars[j - 1].lo <= bars[j - 1].hi;
    if k < i {
      Ordered(bars, k, i);
    } else if k >= j {
      Ordered(bars, j - 1, k);
    }
    if i < k {
      Ordered(bars, i, k);
    }
    if k < j - 1 {
      Ordered(bars, k, j - 1);
    }
  }

  /** Of bars side by side, a group counts what all those between its ends count. */
  lemma GroupWithin(bars: seq<Bar>, i: nat, j: nat, bar: Bar)
    requires Contiguous(bars) && Groups(bars, i, j, bar)
    ensures bar.count == Within(bars, bar.lo, bar.hi)
  {
    hide Sum, Within, Contiguous;
    forall k | 0 <= k < |bars|
      ensures bars[i].lo <= bars[k].lo && bars[k].hi <= bars[j - 1].hi <==> i <= k < j {
      Placed(bars, i, j, k);
    }
    WithinParts(bars, i, j, bar.lo, bar.hi);
    NoneWithin(bars[..i], bar.lo, bar.hi);
    AllWithin(bars[i..j], bar.lo, bar.hi);
    NoneWithin(bars[j..], bar.lo, bar.hi);
  }

  lemma FactorPositive(a: nat, b: nat)
    requires a * b >= 1
    ensures a >= 1 && b >= 1
  {
  }

  lemma {:induction false} MergedFew(bars: seq<Bar>, step: nat, most: nat)
    requires step >= 1 && |bars| <= most * step
    ensures |Merged(bars, step)| <= most
    decreases |bars|
  {
    if bars != [] {
      var n := if step < |bars| then step else |bars|;
      FactorPositive(most, step);
      assert (most - 1) * step == most * step - step;
      MergedFew(bars[n..], step, most - 1);
    }
  }

  lemma MergedStep(bars: seq<Bar>, step: nat)
    requires step >= 1 && bars != []
    ensures var n := if step < |bars| then step else |bars|;
            Merged(bars, step) == [Bar(bars[0].lo, bars[n - 1].hi, Sum(bars[..n]))] + Merged(bars[n..], step)
  {
  }

  lemma NothingMerged(step: nat)
    requires step >= 1
    ensures Merged([], step) == []
  {
  }

  method MergeBars(bars: seq<Bar>, step: nat) returns (r: seq<Bar>)
    requires step >= 1
    ensures r == Merged(bars, step)
  {
    hide Sum, Merged;
    r := [];
    var i := 0;
    assert bars[0..] == bars;
    while i < |bars|
      invariant i <= |bars| && r + Merged(bars[i..], step) == Merged(bars, step)
      decreases |bars| - i
    {
      var n := if i + step < |bars| then i + step else |bars|;
      var grp := bars[i..n];
      MergedStep(bars[i..], step);
      assert bars[i..][..n - i] == grp && bars[i..][n - i..] == bars[n..];
      r := r + [Bar(grp[0].lo, grp[|grp| - 1].hi, Sum(grp))];
      i := n;
    }
    NothingMerged(step);
    assert bars[i..] == [] && r + [] == r;
  }

  /** At most so many bars: adjacent ones are merged when there are more. */
  method Reduce(bars: seq<Bar>, buckets: nat) returns (r: seq<Bar>)
    ensures Sum(r) == Sum(bars) && (Contiguous(bars) ==> Contiguous(r)) && SameSpan(bars, r)
    ensures if buckets > 0 then |r| <= buckets else r == bars
    ensures forall bar :: bar in r ==> exists i, j :: Groups(bars, i, j, bar)
    ensures Contiguous(bars) ==> forall bar :: bar in r ==> bar.count == Within(bars, bar.lo, bar.hi)
  {
    hide Sum, Merged, Contiguous, Within, Groups;
    if buckets == 0 || |bars| <= buckets {
      forall bar | bar in bars
        ensures exists i, j :: Groups(bars, i, j, bar)
        ensures Contiguous(bars) ==> bar.count == Within(bars, bar.lo, bar.hi)
      {
        var i :| 0 <= i < |bars| && bars[i] == bar;
        OneGroup(bars, i);
        if Contiguous(bars) {
          GroupWithin(bars, i, i + 1, bar);
        }
      }
      return bars;
    }
    var step := (|bars| + buckets - 1) / buckets;
    CeilingCovers(|bars|, buckets);
    MergedSum(bars, step);
    MergedSpan(bars, step);
    MergedFew(bars, step, buckets);
    r := MergeBars(bars, step);
    forall bar | bar in r
      ensures exists i, j :: Groups(bars, i, j, bar)
      ensures Contiguous(bars) ==> bar.count == Within(bars, bar.lo, bar.hi)
    {
      var i, j := MergedGroups(bars, step, bar);
      if Contiguous(bars) {
        GroupWithin(bars, i, j, bar);
      }
    }
  }

  lemma OneGroup(bars: seq<Bar>, i: nat)
    requires i < |bars|
    ensures Groups(bars, i, i + 1, bars[i])
  {
    SumOne(bars[i]);
    assert bars[i..i + 1] == [bars[i]];
  }

  lemma CeilingCovers(n: nat, d: nat)
    requires n >= 1 && d >= 1
    ensures var step := (n + d - 1) / d; step >= 1 && n <= d * step
  {
    assert n + d - 1 == d * ((n + d - 1) / d) + (n + d - 1) % d;
    FactorPositive(d, (n + d - 1) / d);
  }

  /** Leaves of a range inside the domain hold exactly the values whose leaves meet it, and are side by side. */
  lemma LeavesAreExactly(schema: Schema, f: Field, a: int, b: int)
    requires ValidSchema(schema) && f in schema
    requires Dyadic.InDomain(schema[f].bits, a) && Dyadic.InDomain(schema[f].bits, b)
    ensures var s := schema[f];
            var leaves := Leaves(s.mlvl, Dyadic.LeafOf(s.bits, s.mlvl, a), Dyadic.LeafOf(s.bits, s.mlvl, b));
            Exactly(schema, f, leaves, a, b) && Disjoint(s.bits, leaves)
  {
    var s := schema[f];
    var first, last := Dyadic.LeafOf(s.bits, s.mlvl, a), Dyadic.LeafOf(s.bits, s.mlvl, b);
    var leaves := Leaves(s.mlvl, first, last);
    Dyadic.LeafInDomain(s.bits, s.mlvl, a);
    Dyadic.LeafInDomain(s.bits, s.mlvl, b);
    forall d | d in leaves ensures ReachedLabel(schema, Of(f, d)) {
    }
    forall v: int ensures Dyadic.Covers(s.bits, leaves, v) <==> Dyadic.InHull(a, b, s.bits, s.mlvl, v) {
      LeafMeets(s.bits, s.mlvl, a, b, v);
      if Dyadic.Covers(s.bits, leaves, v) {
        var k :| 0 <= k < |leaves| && Dyadic.Contains(s.bits, leaves[k], v);
        Dyadic.IndexOfValue(s.bits, s.mlvl, v);
        Dyadic.NodeInDomain(s.bits, leaves[k]);
      }
      if first <= Dyadic.LeafOf(s.bits, s.mlvl, v) <= last {
        Dyadic.IndexOfValue(s.bits, s.mlvl, v);
        assert leaves[Dyadic.LeafOf(s.bits, s.mlvl, v) - first] == Dyadic.Label(s.mlvl,
               Dyadic.LeafOf(s.bits, s.mlvl, v));
      }
    }
    forall i, j, v | 0 <= i < j < |leaves| && Dyadic.Contains(s.bits, leaves[i], v)
      ensures !Dyadic.Contains(s.bits, leaves[j], v) {
      Dyadic.IndexOfValue(s.bits, s.mlvl, v);
    }
  }

  /** A bar, merged or not, counts exactly the entries with a value between its ends. */
  lemma BarCounts(schema: Schema, w: World, f: Field, ep: nat, ws: set<Writer>, lengths: map<Dyadic.Label, nat>,
                  a: int, b: int, i: nat, j: nat, bar: Bar)
    requires ValidSchema(schema) && LogTrue(schema, w.log, w.table) && Closed(schema, w.log, w.table) && f in schema
    requires Dyadic.InDomain(schema[f].bits, a) && Dyadic.InDomain(schema[f].bits, b)
    requires var s := schema[f];
             var leaves := Leaves(s.mlvl, Dyadic.LeafOf(s.bits, s.mlvl, a), Dyadic.LeafOf(s.bits, s.mlvl, b));
             && lengths.Keys == Elements(leaves) && Counted(w, f, ep, ws, lengths)
             && Groups(BarsOf(Dyadic.Width(s.bits, s.mlvl), lengths, leaves), i, j, bar)
    ensures bar.count == |InRange(schema, w, f, ep, ws, bar.lo, bar.hi)|
  {
    hide LogTrue, Closed, Counted, Exactly, Disjoint, InRange, Total, Dyadic.Width, Dyadic.LeafOf, Under, Leaves,
      BarsOf, Groups, Dyadic.InDomain;
    var s := schema[f];
    var first, last := Dyadic.LeafOf(s.bits, s.mlvl, a), Dyadic.LeafOf(s.bits, s.mlvl, b);
    var some := BarLeaves(Dyadic.Width(s.bits, s.mlvl), s.mlvl, lengths, first, last, i, j, bar);
    LeafEnds(s.bits, s.mlvl, a, b, first + i, first + j - 1);
    LeavesAreExactly(schema, f, bar.lo, bar.hi);
    TotalIsInRange(schema, w, f, ep, ws, lengths, some, bar.lo, bar.hi);
  }

  /** The leaves a bar stands for. */
  lemma BarLeaves(width: nat, mlvl: nat, lengths: map<Dyadic.Label, nat>, first: int, last: int, i: nat, j: nat,
                  bar: Bar)
    returns (some: seq<Dyadic.Label>)
    requires var leaves := Leaves(mlvl, first, last);
             lengths.Keys == Elements(leaves) && Groups(BarsOf(width, lengths, leaves), i, j, bar)
    ensures i < j && first + j - 1 <= last && some == Leaves(mlvl, first + i, first + j - 1)
    ensures bar.lo == (first + i) * width && bar.hi == (first + j - 1) * width + width - 1
    ensures (forall d :: d in some ==> d in lengths) && bar.count == Total(lengths, some)
  {
    hide Sum, Total, BarsOf, Leaves;
    var leaves := Leaves(mlvl, first, last);
    some := leaves[i..j];
    forall d | d in some ensures d in lengths {
      assert d in leaves;
    }
    BarsSlice(width, lengths, leaves, i, j);
    LeavesSlice(mlvl, first, last, i, j);
    SumOfBars(width, lengths, some);
  }

  lemma BarsSlice(width: nat, lengths: map<Dyadic.Label, nat>, leaves: seq<Dyadic.Label>, i: nat, j: nat)
    requires i < j <= |leaves|
    ensures var bars := BarsOf(width, lengths, leaves);
            && bars[i..j] == BarsOf(width, lengths, leaves[i..j])
            && bars[i].lo == leaves[i].index * width && bars[j - 1].hi == leaves[j - 1].index * width + width - 1
  {
  }

  lemma LeavesSlice(mlvl: nat, first: int, last: int, i: nat, j: nat)
    requires i < j <= |Leaves(mlvl, first, last)|
    ensures Leaves(mlvl, first, last)[i..j] == Leaves(mlvl, first + i, first + j - 1)
  {
  }

  lemma LeafEnds(bits: nat, mlvl: nat, a: int, b: int, i: int, j: int)
    requires 1 <= mlvl <= bits && Dyadic.InDomain(bits, a) && Dyadic.InDomain(bits, b)
    requires Dyadic.LeafOf(bits, mlvl, a) <= i <= j <= Dyadic.LeafOf(bits, mlvl, b)
    ensures var width := Dyadic.Width(bits, mlvl);
            && Dyadic.InDomain(bits, i * width) && Dyadic.InDomain(bits, j * width + width - 1)
            && Dyadic.LeafOf(bits, mlvl, i * width) == i && Dyadic.LeafOf(bits, mlvl, j * width + width - 1) == j
  {
    hide Dyadic.Width;
    var width := Dyadic.Width(bits, mlvl);
    Dyadic.LeafInDomain(bits, mlvl, a);
    Dyadic.LeafInDomain(bits, mlvl, b);
    Dyadic.NodeInDomain(bits, Dyadic.Label(mlvl, i));
    Dyadic.NodeInDomain(bits, Dyadic.Label(mlvl, j));
    Dyadic.DivisionUnique(i * width, width, i);
    Dyadic.DivisionUnique(j * width + width - 1, width, j);
  }

  /** A value's leaf meets the range exactly when it lies between the leaves of the range's ends. */
  lemma LeafMeets(bits: nat, mlvl: nat, a: int, b: int, v: int)
    requires 1 <= mlvl <= bits
    ensures Dyadic.InHull(a, b, bits, mlvl, v) <==>
              Dyadic.InDomain(bits, v)
              && Dyadic.LeafOf(bits, mlvl, a) <= Dyadic.LeafOf(bits, mlvl, v) <= Dyadic.LeafOf(bits, mlvl, b)
  {
    var i := Dyadic.LeafOf(bits, mlvl, v);
    var width := Dyadic.Width(bits, mlvl);
    Dyadic.LeafNotBelow(b, bits, mlvl, i);
    Dyadic.LeafNotBelow(a, bits, mlvl, i + 1);
    assert (i + 1) * width == i * width + width;
  }

  /** The distribution over a range, one bar a leaf. Inside the domain its bars are side by side and add up to the
      count, before and after merging. */
  method Histogram(schema: Schema, net: Net, f: Field, a: int, b: int, buckets: nat, eps: set<nat>, ws: set<Writer>,
                   silent: set<Key>,
                   ghost w: World, ghost ep: nat)
    returns (r: Result<seq<Bar>, set<Key>>, ghost counted: map<Dyadic.Label, nat>)
    requires ValidSchema(schema) && f in schema && net == w.net && Inv(schema, w) && forall e :: e in eps ==>
               Whole(w, e)
    ensures silent == {} ==> r.Success?
    ensures r.Success? ==> Contiguous(r.value) && (buckets > 0 ==> |r.value| <= buckets)
    ensures r.Success? && buckets == 0 ==>
              var s := schema[f];
              var leaves := Leaves(s.mlvl, Dyadic.LeafOf(s.bits, s.mlvl, a), Dyadic.LeafOf(s.bits, s.mlvl, b));
              && counted.Keys == Elements(leaves) && (eps == {ep} ==> Counted(w, f, ep, ws, counted))
              && r.value == BarsOf(Dyadic.Width(s.bits, s.mlvl), counted, leaves)
    ensures r.Success? && eps == {ep} && Dyadic.InDomain(schema[f].bits, a) && Dyadic.InDomain(schema[f].bits, b) ==>
              Sum(r.value) == |InRange(schema, w, f, ep, ws, a, b)|
    ensures r.Success? && eps == {ep} && Dyadic.InDomain(schema[f].bits, a) && Dyadic.InDomain(schema[f].bits, b) ==>
              forall bar :: bar in r.value ==> bar.count == |InRange(schema, w, f, ep, ws, bar.lo, bar.hi)|
  {
    hide Inv, Built, Rendered, LogTrue, Closed, Once, OneHome, Whole, Exactly, Disjoint, InRange, Counted, Contiguous,
      Groups, Within;
    InvForCounts(schema, w);
    var s := schema[f];
    var width := Dyadic.Width(s.bits, s.mlvl);
    var leaves := Leaves(s.mlvl, Dyadic.LeafOf(s.bits, s.mlvl, a), Dyadic.LeafOf(s.bits, s.mlvl, b));
    var lengths := ChainLengths(net, f, Elements(leaves), eps, ws, silent, w, ep);
    if lengths.Failure? {
      return Failure(lengths.error), map[];
    }
    var bars := BarsOf(width, lengths.value, leaves);
    BarsContiguous(s.bits, s.mlvl, lengths.value, leaves);
    SumOfBars(width, lengths.value, leaves);
    if eps == {ep} && Dyadic.InDomain(s.bits, a) && Dyadic.InDomain(s.bits, b) {
      LeavesAreExactly(schema, f, a, b);
      TotalIsInRange(schema, w, f, ep, ws, lengths.value, leaves, a, b);
    }
    var reduced := Reduce(bars, buckets);
    if eps == {ep} && Dyadic.InDomain(s.bits, a) && Dyadic.InDomain(s.bits, b) {
      forall bar | bar in reduced ensures bar.count == |InRange(schema, w, f, ep, ws, bar.lo, bar.hi)| {
        var i, j :| Groups(bars, i, j, bar);
        BarCounts(schema, w, f, ep, ws, lengths.value, a, b, i, j, bar);
      }
    }
    return Success(reduced), lengths.value;
  }

  lemma BarsContiguous(bits: nat, mlvl: nat, lengths: map<Dyadic.Label, nat>, leaves: seq<Dyadic.Label>)
    requires forall i, j :: 0 <= i && j == i + 1 && j < |leaves| ==> leaves[j].index == leaves[i].index + 1
    ensures Contiguous(BarsOf(Dyadic.Width(bits, mlvl), lengths, leaves))
  {
    var width := Dyadic.Width(bits, mlvl);
    var bars := BarsOf(width, lengths, leaves);
    forall i, j | 0 <= i && j == i + 1 && j < |bars| ensures bars[j].lo == bars[i].hi + 1 {
      assert (leaves[i].index + 1) * width == leaves[i].index * width + width;
    }
  }

  // ------------------------------------------------------------ approximate sums

  /** The indexed value of a listed record. */
  ghost function ValueIn(w: World, f: Field): Rid -> int {
    r => if r in w.table.inserted && f in w.table.inserted[r] then w.table.inserted[r][f] else 0
  }

  /** Sum of the values of some records. */
  ghost function ValueSum(w: World, f: Field, rids: set<Rid>): int {
    SumOver(rids, ValueIn(w, f))
  }

  /** Twice the estimate: each bar contributes its count times both of its ends. */
  function TwiceEstimate(bars: seq<Bar>): int {
    if bars == [] then 0
    else TwiceEstimate(bars[..|bars| - 1]) + bars[|bars| - 1].count * (bars[|bars| - 1].lo + bars[|bars| - 1].hi)
  }

  /** Values between lo and hi are each within half the width of the midpoint. */
  lemma {:induction false} MidpointError(w: World, f: Field, rids: set<Rid>, lo: int, hi: int)
    requires lo <= hi && forall r :: r in rids ==> lo <= ValueIn(w, f)(r) <= hi
    ensures -(|rids| * (hi - lo)) <= 2 * ValueSum(w, f, rids) - |rids| * (lo + hi) <= |rids| * (hi - lo)
    decreases rids
  {
    if rids != {} {
      var r :| r in rids;
      MidpointError(w, f, rids - {r}, lo, hi);
      SumOverOf(rids, ValueIn(w, f), r);
      OneMoreFactor(|rids| - 1, hi - lo);
      OneMoreFactor(|rids| - 1, lo + hi);
    }
  }

  lemma OneMoreFactor(n: int, x: int)
    ensures (n + 1) * x == n * x + x
  {
  }

  lemma LeafError(schema: Schema, w: World, f: Field, ep: nat, ws: set<Writer>, d: Dyadic.Label)
    requires ValidSchema(schema) && LogTrue(schema, w.log, w.table) && f in schema && d.level == schema[f].mlvl
    ensures var here, width := Contents(w.log, Of(f, d), ep, ws), Dyadic.Width(schema[f].bits, schema[f].mlvl);
            -(|here| * (width - 1)) <= 2 * ValueSum(w, f,
                                                    here) - |here| * (d.index * width + (d.index * width + width - 1))
                                                        <= |here| * (width - 1)
  {
    hide LogTrue, Contents;
    var here, width := Contents(w.log, Of(f, d), ep, ws), Dyadic.Width(schema[f].bits, schema[f].mlvl);
    forall r | r in here ensures d.index * width <= ValueIn(w, f)(r) <= d.index * width + width - 1 {
      ListedValue(schema, w, f, ep, ws, d, r);
    }
    MidpointError(w, f, here, d.index * width, d.index * width + width - 1);
  }

  /** The estimate over leaves is within half a leaf of the true sum, per entry. */
  lemma {:induction false} EstimateError(schema: Schema, w: World, f: Field, ep: nat, ws: set<Writer>,
                                         lengths: map<Dyadic.Label, nat>, leaves: seq<Dyadic.Label>)
    requires ValidSchema(schema) && LogTrue(schema, w.log, w.table) && f in schema
    requires Counted(w, f, ep, ws, lengths) && Disjoint(schema[f].bits, leaves)
    requires forall d :: d in leaves ==> d in lengths && d.level == schema[f].mlvl
    ensures var width := Dyadic.Width(schema[f].bits, schema[f].mlvl);
            -(Total(lengths, leaves) * (width - 1))
              <= 2 * ValueSum(w, f, Under(w, f, ep, ws, leaves)) - TwiceEstimate(BarsOf(width, lengths, leaves))
              <= Total(lengths, leaves) * (width - 1)
  {
    hide Contents, LogTrue, Dyadic.Contains, Dyadic.Width;
    var width := Dyadic.Width(schema[f].bits, schema[f].mlvl);
    WidthPositive(schema[f].bits, schema[f].mlvl);
    if leaves != [] {
      var init, d := leaves[..|leaves| - 1], leaves[|leaves| - 1];
      EstimateError(schema, w, f, ep, ws, lengths, init);
      LeafError(schema, w, f, ep, ws, d);
      ApartFromRest(schema, w, f, ep, ws, leaves);
      SumOverUnion(Under(w, f, ep, ws, init), Contents(w.log, Of(f, d), ep, ws), ValueIn(w, f));
      var bars := BarsOf(width, lengths, leaves);
      assert bars[..|bars| - 1] == BarsOf(width, lengths, init);
      Distribute(Total(lengths, init), lengths[d], width - 1);
    }
  }

  lemma WidthPositive(bits: nat, level: nat)
    ensures Dyadic.Width(bits, level) >= 1
  {
  }

  lemma Distribute(a: int, b: int, c: int)
    ensures (a + b) * c == a * c + b * c
  {
  }

  /** Estimate the sum over a range without reading a record: the estimate, its worst-case error, and the count. */
  method ApproxSum(schema: Schema, net: Net, f: Field, a: int, b: int, eps: set<nat>, ws: set<Writer>, silent: set<Key>,
                   ghost w: World, ghost ep: nat)
    returns (r: Result<(real, real, nat), set<Key>>)
    requires ValidSchema(schema) && f in schema && net == w.net && Inv(schema, w) && forall e :: e in eps ==>
               Whole(w, e)
    ensures silent == {} ==> r.Success?
    ensures r.Success? ==> r.value.1 == r.value.2 as real * (Dyadic.Width(schema[f].bits, schema[f].mlvl) as real / 2.0)
    ensures r.Success? && eps == {ep} && Dyadic.InDomain(schema[f].bits, a) && Dyadic.InDomain(schema[f].bits, b) ==>
              var there := InRange(schema, w, f, ep, ws, a, b);
              r.value.2 == |there| && -r.value.1 <= r.value.0 - ValueSum(w, f, there) as real <= r.value.1
  {
    hide Inv, Built, Rendered, LogTrue, Closed, Once, OneHome, Whole, Exactly, Disjoint, InRange, Counted, Contiguous,
         Under, ValueSum, Dyadic.Width, Leaves, BarsOf, Dyadic.InDomain, Sum, TwiceEstimate;
    var bars, counted := Histogram(schema, net, f, a, b, 0, eps, ws, silent, w, ep);
    if bars.Failure? {
      return Failure(bars.error);
    }
    var n, est := 0, 0.0;
    NoBars();
    for i := 0 to |bars.value|
      invariant n == Sum(bars.value[..i]) && est == TwiceEstimate(bars.value[..i]) as real / 2.0
    {
      var bar := bars.value[i];
      OneBar(bars.value, i, n, est);
      n := n + bar.count;
      est := est + bar.count as real * ((bar.lo + bar.hi) as real / 2.0);
    }
    assert bars.value[..|bars.value|] == bars.value;
    var width := Dyadic.Width(schema[f].bits, schema[f].mlvl);
    if eps == {ep} && Dyadic.InDomain(schema[f].bits, a) && Dyadic.InDomain(schema[f].bits, b) {
      EstimateWithin(schema, w, f, ep, ws, counted, a, b, bars.value);
    }
    return Success((est, n as real * (width as real / 2.0), n));
  }

  lemma NoBars()
    ensures Sum([]) == 0 && TwiceEstimate([]) == 0
  {
  }

  lemma OneBar(bars: seq<Bar>, i: nat, n: nat, est: real)
    requires i < |bars| && n == Sum(bars[..i]) && est == TwiceEstimate(bars[..i]) as real / 2.0
    ensures n + bars[i].count == Sum(bars[..i + 1])
    ensures est + bars[i].count as real * ((bars[i].lo + bars[i].hi) as real / 2.0) ==
              TwiceEstimate(bars[..i + 1]) as real / 2.0
  {
    assert bars[..i + 1][..i] == bars[..i];
    HalfOf(bars[i].count, bars[i].lo + bars[i].hi);
  }

  lemma HalfOf(count: nat, both: int)
    ensures (count * both) as real / 2.0 == count as real * (both as real / 2.0)
  {
  }

  lemma EstimateWithin(schema: Schema, w: World, f: Field, ep: nat, ws: set<Writer>, counted: map<Dyadic.Label, nat>,
                       a: int, b: int, bars: seq<Bar>)
    requires ValidSchema(schema) && f in schema && Inv(schema, w)
    requires Dyadic.InDomain(schema[f].bits, a) && Dyadic.InDomain(schema[f].bits, b)
    requires var s := schema[f];
             var leaves := Leaves(s.mlvl, Dyadic.LeafOf(s.bits, s.mlvl, a), Dyadic.LeafOf(s.bits, s.mlvl, b));
             && counted.Keys == Elements(leaves) && Counted(w, f, ep, ws, counted)
             && bars == BarsOf(Dyadic.Width(s.bits, s.mlvl), counted, leaves)
    ensures var there, width := InRange(schema, w, f, ep, ws, a, b), Dyadic.Width(schema[f].bits, schema[f].mlvl);
            && Sum(bars) == |there|
            && -(|there| as real * (width as real / 2.0)) <=
               TwiceEstimate(bars) as real / 2.0 - ValueSum(w, f, there) as real <=
               |there| as real * (width as real / 2.0)
  {
    hide Inv, LogTrue, Closed, InRange, Counted, Under, ValueSum, Disjoint, Exactly, Dyadic.Width, Dyadic.InDomain,
         Dyadic.LeafOf, TwiceEstimate, Total, BarsOf, Sum, ReachedLabel, ValidSchema;
    var s := schema[f];
    var leaves := Leaves(s.mlvl, Dyadic.LeafOf(s.bits, s.mlvl, a), Dyadic.LeafOf(s.bits, s.mlvl, b));
    InvForCounts(schema, w);
    LeavesAreExactly(schema, f, a, b);
    TotalIsInRange(schema, w, f, ep, ws, counted, leaves, a, b);
    SumOfBars(Dyadic.Width(s.bits, s.mlvl), counted, leaves);
    forall d | d in leaves ensures d in counted && d.level == s.mlvl {
    }
    EstimateError(schema, w, f, ep, ws, counted, leaves);
    WidthPositive(s.bits, s.mlvl);
    HalfError(TwiceEstimate(bars), ValueSum(w, f, InRange(schema, w, f, ep, ws, a, b)), Total(counted, leaves),
              Dyadic.Width(s.bits, s.mlvl));
  }

  lemma HalfError(twice: int, sum: int, n: nat, width: nat)
    requires width >= 1 && -(n * (width - 1)) <= 2 * sum - twice <= n * (width - 1)
    ensures -(n as real * (width as real / 2.0)) <= twice as real / 2.0 - sum as real <= n as real *
            (width as real / 2.0)
  {
    HalfOf(n, width);
    Distribute(width - 1, 1, n);
    assert n * (width - 1) <= n * width;
  }
}
