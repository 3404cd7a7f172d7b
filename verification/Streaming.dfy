/** Streamed queries: walking one predicate's intervals batch by batch (Owner.query_stream, _units and _unit_entries
    in blindrange/client.py). */
module Streaming {
  import opened Basics
  import opened Chains
  import opened Index
  import opened Query
  import opened Aggregates
  import opened Compaction
  import opened CompactionProof
  import opened Readers
  import opened EpochWalk
  import opened Mirroring
  import Dyadic

  // ------------------------------------------------------------ what a stream is

  datatype Cursor = Cursor(unit: nat, n: nat)

  datatype Row = Row(rid: Rid, rec: Record, cursor: Cursor)

  /** How rows are to be ordered: not at all, or by a field, upwards or downwards. */
  datatype Order = Unordered | By(field: Field, desc: bool)

  /** A stream to produce: its table, predicates, driving field, order, intervals in walking order, and batch size. */
  datatype Plan = Plan(schema: Schema, table: Table, preds: seq<Predicate>, driver: Field, order: Order,
                       units: seq<Dyadic.Label>, batch: nat) {
    ghost predicate Valid() {
      && ValidSchema(schema) && KnownFields(schema, preds) && driver in schema && batch >= 1
      && (order.By? ==> order.field == driver)
    }
  }

  function Chunk(units: seq<Dyadic.Label>, base: nat, batch: nat): seq<Dyadic.Label> {
    if base >= |units| then [] else if base + batch <= |units| then units[base..base + batch] else units[base..]
  }

  /** The records a batch yields: live, with a driving value in one of its intervals, and inside every other range
      whose field they carry. */
  ghost predicate Matches(p: Plan, chunk: seq<Dyadic.Label>, r: Rid)
    requires p.Valid()
  {
    && p.table.Live(r) && p.driver in p.table.inserted[r]
    && Dyadic.Covers(p.schema[p.driver].bits, chunk, p.table.inserted[r][p.driver])
    && PassesFilter(p.schema, p.table.inserted[r], p.preds)
  }

  ghost function Matching(p: Plan, chunk: seq<Dyadic.Label>): set<Rid>
    requires p.Valid()
  {
    set r | r in p.table.inserted && Matches(p, chunk, r)
  }

  /** What rows are sorted by, before their ids. */
  function SortKey(p: Plan, r: Rid): int {
    if p.order.By? && r in p.table.inserted && p.order.field in p.table.inserted[r]
      then p.table.inserted[r][p.order.field] else 0
  }

  predicate Below(p: Plan, r: Rid, s: Rid) {
    SortKey(p, r) < SortKey(p, s) || (SortKey(p, r) == SortKey(p, s) && r < s)
  }

  ghost predicate IsLeast(p: Plan, ids: set<Rid>, r: Rid) {
    r in ids && forall s :: s in ids && s != r ==> Below(p, r, s)
  }

  lemma LeastOfMore(p: Plan, ids: set<Rid>, x: Rid, y: Rid)
    requires x in ids && IsLeast(p, ids - {x}, y)
    ensures IsLeast(p, ids, if Below(p, x, y) then x else y)
  {
    forall s | s in ids && s != x ensures Below(p, x, y) ==> Below(p, x, s) {
      assert s in ids - {x};
    }
    forall s | s in ids && s != y && s != x ensures Below(p, y, s) {
      assert s in ids - {x};
    }
  }

  /** The first of some ids. */
  ghost function Least(p: Plan, ids: set<Rid>): (r: Rid)
    requires ids != {}
    ensures IsLeast(p, ids, r)
  {
    var x :| x in ids;
    if ids - {x} == {} then
      assert ids == {x};
      x
    else
      var y := Least(p, ids - {x});
      LeastOfMore(p, ids, x, y);
      if Below(p, x, y) then x else y
  }

  ghost predicate IsAscending(p: Plan, s: seq<Rid>) {
    forall i, j :: 0 <= i < j < |s| ==> Below(p, s[i], s[j])
  }

  /** Ids in ascending order. */
  ghost function Ascend(p: Plan, ids: set<Rid>): (s: seq<Rid>)
    ensures Elements(s) == ids && |s| == |ids| && IsAscending(p, s)
  {
    if ids == {} then []
    else
      var r := Least(p, ids);
      var rest := Ascend(p, ids - {r});
      FirstThenRest(p, r, rest, ids);
      [r] + rest
  }

  lemma FirstThenRest(p: Plan, r: Rid, rest: seq<Rid>, ids: set<Rid>)
    requires r in ids && Elements(rest) == ids - {r} && forall s :: s in ids && s != r ==> Below(p, r, s)
    ensures Elements([r] + rest) == ids
    ensures forall k :: 0 <= k < |rest| ==> Below(p, r, rest[k])
  {
    forall k | 0 <= k < |rest| ensures Below(p, r, rest[k]) {
      assert rest[k] in Elements(rest);
    }
    forall s ensures s in Elements([r] + rest) <==> s in ids {
      assert s in Elements(rest) <==> s in ids && s != r;
    }
  }

  function Reversed<T>(s: seq<T>): (t: seq<T>)
    ensures |t| == |s| && forall i :: 0 <= i < |s| ==> t[i] == s[|s| - 1 - i]
  {
    if s == [] then [] else [s[|s| - 1]] + Reversed(s[..|s| - 1])
  }

  ghost function Sorted(p: Plan, ids: set<Rid>): (s: seq<Rid>)
    ensures |s| == |ids|
  {
    if p.order.By? && p.order.desc then Reversed(Ascend(p, ids)) else Ascend(p, ids)
  }

  /** The rows of the batch that starts at one unit. */
  ghost function BatchRows(p: Plan, base: nat): (rows: seq<Row>)
    requires p.Valid()
    ensures |rows| == |Matching(p, Chunk(p.units, base, p.batch))|
  {
    RowsFor(p, base, Matching(p, Chunk(p.units, base, p.batch)))
  }

  /** Some ids as rows of that batch. */
  ghost function RowsFor(p: Plan, base: nat, rids: set<Rid>): (rows: seq<Row>)
    ensures |rows| == |rids|
  {
    var ids := Sorted(p, rids);
    seq(|ids|, n requires 0 <= n < |ids| =>
      Row(ids[n], if ids[n] in p.table.inserted then p.table.inserted[ids[n]] else map[], Cursor(base, n + 1)))
  }

  /** The whole stream from a unit on. */
  ghost function Spec(p: Plan, base: nat): seq<Row>
    requires p.Valid()
    decreases |p.units| - base
  {
    if base >= |p.units| then [] else BatchRows(p, base) + Spec(p, base + p.batch)
  }

  // ------------------------------------------------------------ paging

  /** Picking up at the cursor of any row continues right after it, so pages of any sizes concatenate to the stream. */
  lemma {:induction false} CursorResumes(p: Plan, base: nat, k: nat)
    requires p.Valid() && k < |Spec(p, base)|
    ensures var at := Spec(p, base)[k].cursor;
            && at.unit >= base && at.n <= |BatchRows(p, at.unit)| && at.n <= |Spec(p, at.unit)|
            && Spec(p, at.unit)[at.n..] == Spec(p, base)[k + 1..]
    decreases |p.units| - base
  {
    hide BatchRows, Spec;
    var rows, rest := BatchRows(p, base), Spec(p, base + p.batch);
    SpecStep(p, base);
    if k < |rows| {
      CursorOf(p, base, k);
    } else {
      CursorResumes(p, base + p.batch, k - |rows|);
      assert (rows + rest)[k + 1..] == rest[k - |rows| + 1..];
    }
  }

  lemma SpecStep(p: Plan, base: nat)
    requires p.Valid()
    ensures base >= |p.units| ==> Spec(p, base) == []
    ensures base < |p.units| ==> Spec(p, base) == BatchRows(p, base) + Spec(p, base + p.batch)
  {
    hide BatchRows;
  }

  lemma CursorOf(p: Plan, base: nat, k: nat)
    requires p.Valid() && k < |BatchRows(p, base)|
    ensures BatchRows(p, base)[k].cursor == Cursor(base, k + 1)
  {
  }

  // ------------------------------------------------------------ each record once

  lemma ReversedElements<T>(s: seq<T>)
    ensures Elements(Reversed(s)) == Elements(s)
  {
    forall x | x in s ensures x in Reversed(s) {
      var i :| 0 <= i < |s| && s[i] == x;
      assert Reversed(s)[|s| - 1 - i] == x;
    }
    forall x | x in Reversed(s) ensures x in s {
      var i :| 0 <= i < |s| && Reversed(s)[i] == x;
      assert s[|s| - 1 - i] == x;
    }
  }

  lemma SortedElements(p: Plan, ids: set<Rid>)
    ensures Elements(Sorted(p, ids)) == ids
  {
    ReversedElements(Ascend(p, ids));
  }

  ghost function Rids(rows: seq<Row>): set<Rid> {
    set k | 0 <= k < |rows| :: rows[k].rid
  }

  lemma BatchRow(p: Plan, base: nat, k: nat)
    requires p.Valid() && k < |BatchRows(p, base)|
    ensures var row := BatchRows(p, base)[k];
            && row.rid == Sorted(p, Matching(p, Chunk(p.units, base, p.batch)))[k]
            && row.rid in Matching(p, Chunk(p.units, base, p.batch))
            && row.rid in p.table.inserted && row.rec == p.table.inserted[row.rid]
  {
    hide Matching, Sorted, Chunk;
    var chunk := Chunk(p.units, base, p.batch);
    var ids := Sorted(p, Matching(p, chunk));
    SortedElements(p, Matching(p, chunk));
    MatchingLive(p, chunk);
    assert ids[k] in Elements(ids);
  }

  lemma BatchRids(p: Plan, base: nat)
    requires p.Valid()
    ensures Rids(BatchRows(p, base)) == Matching(p, Chunk(p.units, base, p.batch))
  {
    hide Matching, Sorted, Chunk, BatchRows;
    var chunk := Chunk(p.units, base, p.batch);
    var ids, rows := Sorted(p, Matching(p, chunk)), BatchRows(p, base);
    SortedElements(p, Matching(p, chunk));
    forall k | 0 <= k < |rows| ensures rows[k].rid in Matching(p, chunk) {
      BatchRow(p, base, k);
    }
    forall r | r in Matching(p, chunk) ensures r in Rids(rows) {
      assert r in Elements(ids);
      var k :| 0 <= k < |ids| && ids[k] == r;
      BatchRow(p, base, k);
      assert rows[k].rid == r;
    }
  }

  lemma MatchingLive(p: Plan, chunk: seq<Dyadic.Label>)
    requires p.Valid()
    ensures forall r :: r in Matching(p, chunk) ==> r in p.table.inserted
  {
  }

  lemma {:induction false} RidsConcat(x: seq<Row>, y: seq<Row>)
    ensures Rids(x + y) == Rids(x) + Rids(y)
  {
    forall r | r in Rids(x) + Rids(y) ensures r in Rids(x + y) {
      if r in Rids(x) {
        var k :| 0 <= k < |x| && x[k].rid == r;
        assert (x + y)[k].rid == r;
      } else {
        var k :| 0 <= k < |y| && y[k].rid == r;
        assert (x + y)[|x| + k].rid == r;
      }
    }
  }

  /** A record matches a list of intervals exactly when it matches one of two parts of it. */
  lemma MatchingSplit(p: Plan, x: seq<Dyadic.Label>, y: seq<Dyadic.Label>)
    requires p.Valid()
    ensures Matching(p, x + y) == Matching(p, x) + Matching(p, y)
  {
    hide PassesFilter;
    forall r | r in p.table.inserted && p.driver in p.table.inserted[r]
      ensures Dyadic.Covers(p.schema[p.driver].bits, x + y, p.table.inserted[r][p.driver]) <==>
                Dyadic.Covers(p.schema[p.driver].bits, x, p.table.inserted[r][p.driver])
                || Dyadic.Covers(p.schema[p.driver].bits, y, p.table.inserted[r][p.driver])
    {
      Dyadic.CoversConcat(p.schema[p.driver].bits, x, y, p.table.inserted[r][p.driver]);
    }
  }

  lemma MatchingApart(p: Plan, x: seq<Dyadic.Label>, y: seq<Dyadic.Label>)
    requires p.Valid() && Disjoint(p.schema[p.driver].bits, x + y)
    ensures Matching(p, x) !! Matching(p, y)
  {
    forall r | r in Matching(p, x) ensures r !in Matching(p, y) {
      var v := p.table.inserted[r][p.driver];
      var i :| 0 <= i < |x| && Dyadic.Contains(p.schema[p.driver].bits, x[i], v);
      forall j | 0 <= j < |y| ensures !Dyadic.Contains(p.schema[p.driver].bits, y[j], v) {
        assert (x + y)[i] == x[i] && (x + y)[|x| + j] == y[j];
      }
    }
  }

  lemma ChunkThenRest(p: Plan, base: nat)
    requires p.Valid() && base < |p.units|
    ensures p.units[base..] == Chunk(p.units, base, p.batch) + (if base + p.batch < |p.units|
                                                                then p.units[base + p.batch..] else [])
  {
  }

  lemma DisjointTail(bits: nat, nodes: seq<Dyadic.Label>, n: nat)
    requires Disjoint(bits, nodes) && n <= |nodes|
    ensures Disjoint(bits, nodes[n..])
  {
    forall i, j, v | 0 <= i < j < |nodes[n..]| && Dyadic.Contains(bits, nodes[n..][i], v)
      ensures !Dyadic.Contains(bits, nodes[n..][j], v) {
      assert nodes[n..][i] == nodes[n + i] && nodes[n..][j] == nodes[n + j];
    }
  }

  /** A stream yields exactly the matching records, and as many rows as there are such records: each once. */
  lemma {:induction false} StreamOnce(p: Plan, base: nat)
    requires p.Valid() && base <= |p.units| && Disjoint(p.schema[p.driver].bits, p.units)
    ensures Rids(Spec(p, base)) == Matching(p, p.units[base..]) && |Spec(p, base)| == |Matching(p, p.units[base..])|
    decreases |p.units| - base
  {
    hide BatchRows, Matching, Chunk, Rids, Disjoint;
    if base == |p.units| {
      NothingMatches(p);
    } else {
      var chunk := Chunk(p.units, base, p.batch);
      var next := if base + p.batch < |p.units| then base + p.batch else |p.units|;
      StreamOnce(p, next);
      SpecEnd(p, base + p.batch, next);
      ChunkThenRest(p, base);
      assert p.units[base..] == chunk + p.units[next..];
      DisjointTail(p.schema[p.driver].bits, p.units, base);
      MatchingSplit(p, chunk, p.units[next..]);
      MatchingApart(p, chunk, p.units[next..]);
      BatchRids(p, base);
      RidsConcat(BatchRows(p, base), Spec(p, base + p.batch));
    }
  }

  lemma NothingMatches(p: Plan)
    requires p.Valid()
    ensures Matching(p, p.units[|p.units|..]) == {} && Rids([]) == {}
  {
  }

  /** Past the last unit there is nothing, however far past. */
  lemma SpecEnd(p: Plan, at: nat, next: nat)
    requires p.Valid() && next == (if at < |p.units| then at else |p.units|)
    ensures Spec(p, at) == Spec(p, next)
  {
  }

  /** For a predicate on the driving field, streamed over exactly its intervals, the rows are the live records that
      carry the field, inside its domain, and lie in every range whose field they carry. */
  lemma StreamAnswers(p: Plan, a: int, b: int, r: Rid)
    requires p.Valid() && Disjoint(p.schema[p.driver].bits, p.units) && Exactly(p.schema, p.driver, p.units, a, b)
    requires exists q :: q in p.preds && q.field == p.driver && BoundsOf(p.schema, q) == (a, b)
    ensures r in Rids(Spec(p, 0)) <==>
              && p.table.Live(r) && p.driver in p.table.inserted[r]
              && Dyadic.InDomain(p.schema[p.driver].bits, p.table.inserted[r][p.driver])
              && PassesFilter(p.schema, p.table.inserted[r], p.preds)
  {
    StreamOnce(p, 0);
    assert p.units[0..] == p.units;
    if p.table.Live(r) && p.driver in p.table.inserted[r] && PassesFilter(p.schema, p.table.inserted[r], p.preds) {
      var v := p.table.inserted[r][p.driver];
      var q :| q in p.preds && q.field == p.driver && BoundsOf(p.schema, q) == (a, b);
      Dyadic.IndexOfValue(p.schema[p.driver].bits, p.schema[p.driver].mlvl, v);
      assert a <= v <= b;
    }
  }

  /** Where a stream and an intersecting query differ: the stream also yields records that lack a field another
      predicate asks about. They agree on a record exactly when it carries every field asked about, inside its domain,
      or does not pass. */
  lemma StreamVersusQuery(schema: Schema, rec: Record, preds: seq<Predicate>)
    requires ValidSchema(schema) && KnownFields(schema, preds)
    ensures (forall p :: p in preds ==> Satisfies(schema, rec, p)) <==>
              PassesFilter(schema, rec, preds) && forall p :: p in preds ==>
                  p.field in rec && Dyadic.InDomain(schema[p.field].bits, rec[p.field])
  {
  }

  /** For instance: a record without field "b" passes a stream that asks about it, and no query returns it. */
  lemma LackingFieldPasses()
    ensures var schema: Schema := map["a" := FieldSpec(4, 4, 0), "b" := FieldSpec(4, 4, 0)];
            var preds := [Between("a", 0, 7), Between("b", 3, 5)];
            && ValidSchema(schema) && KnownFields(schema, preds)
            && PassesFilter(schema, map["a" := 1], preds) && !Satisfies(schema, map["a" := 1], preds[1])
  {
    var schema: Schema := map["a" := FieldSpec(4, 4, 0), "b" := FieldSpec(4, 4, 0)];
    var preds := [Between("a", 0, 7), Between("b", 3, 5)];
    assert "a" != "b" by {
      assert "a"[0] != "b"[0];
    }
  }

  // ------------------------------------------------------------ order

  /** Intervals in the direction the rows are wanted. */
  ghost predicate InOrder(p: Plan)
    requires p.Valid()
  {
    p.order.By? && forall i, j :: 0 <= i < j < |p.units| ==>
      if p.order.desc
        then Dyadic.Hi(p.schema[p.driver].bits, p.units[j]) < Dyadic.Lo(p.schema[p.driver].bits, p.units[i])
      else Dyadic.Hi(p.schema[p.driver].bits, p.units[i]) < Dyadic.Lo(p.schema[p.driver].bits, p.units[j])
  }

  /** Row order: by value and then id, upwards or downwards. */
  predicate Comes(p: Plan, r: Rid, s: Rid) {
    if p.order.By? && p.order.desc then Below(p, s, r) else Below(p, r, s)
  }

  lemma SortedComes(p: Plan, ids: set<Rid>, i: nat, j: nat)
    requires i < j < |Sorted(p, ids)|
    ensures Comes(p, Sorted(p, ids)[i], Sorted(p, ids)[j])
  {
  }

  lemma ValueOfMatch(p: Plan, units: seq<Dyadic.Label>, r: Rid) returns (i: nat)
    requires p.Valid() && p.order.By? && r in Matching(p, units)
    ensures i < |units| && Dyadic.Contains(p.schema[p.driver].bits, units[i], SortKey(p, r))
  {
    i :| 0 <= i < |units| && Dyadic.Contains(p.schema[p.driver].bits, units[i], p.table.inserted[r][p.driver]);
  }

  lemma EarlierUnits(p: Plan, base: nat, r: Rid, s: Rid)
    requires p.Valid() && InOrder(p) && base < |p.units|
    requires r in Matching(p, Chunk(p.units, base, p.batch)) && base + p.batch <= |p.units|
             && s in Matching(p, p.units[base + p.batch..])
    ensures Comes(p, r, s)
  {
    hide Matching;
    var i := ValueOfMatch(p, Chunk(p.units, base, p.batch), r);
    var j := ValueOfMatch(p, p.units[base + p.batch..], s);
    assert Chunk(p.units, base, p.batch)[i] == p.units[base + i];
    assert p.units[base + p.batch..][j] == p.units[base + p.batch + j];
  }

  /** An ordered stream is sorted as a whole. */
  lemma {:induction false} StreamSorted(p: Plan, base: nat, i: nat, j: nat)
    requires p.Valid() && InOrder(p) && Disjoint(p.schema[p.driver].bits, p.units)
    requires i < j < |Spec(p, base)|
    ensures Comes(p, Spec(p, base)[i].rid, Spec(p, base)[j].rid)
    decreases |p.units| - base
  {
    hide BatchRows, Matching, Comes, InOrder, Disjoint, Chunk;
    var rows := BatchRows(p, base);
    if i >= |rows| {
      StreamSorted(p, base + p.batch, i - |rows|, j - |rows|);
    } else if j < |rows| {
      BatchRow(p, base, i);
      BatchRow(p, base, j);
      SortedComes(p, Matching(p, Chunk(p.units, base, p.batch)), i, j);
    } else {
      BatchRow(p, base, i);
      assert base + p.batch < |p.units|;
      StreamOnce(p, base + p.batch);
      var s := Spec(p, base + p.batch)[j - |rows|].rid;
      assert s in Rids(Spec(p, base + p.batch));
      EarlierUnits(p, base, rows[i].rid, s);
    }
  }

  /** In terms of the rows themselves: by the value asked for, upwards or downwards, and equal values by id. */
  lemma StreamByValue(p: Plan, i: nat, j: nat)
    requires p.Valid() && InOrder(p) && Disjoint(p.schema[p.driver].bits, p.units)
    requires i < j < |Spec(p, 0)|
    ensures var a, b := Spec(p, 0)[i], Spec(p, 0)[j];
            && p.driver in a.rec && p.driver in b.rec
            && if p.order.desc then
                 a.rec[p.driver] > b.rec[p.driver] || (a.rec[p.driver] == b.rec[p.driver] && a.rid > b.rid)
               else a.rec[p.driver] < b.rec[p.driver] || (a.rec[p.driver] == b.rec[p.driver] && a.rid < b.rid)
  {
    hide Spec, Disjoint;
    StreamSorted(p, 0, i, j);
    RowMatches(p, i);
    RowMatches(p, j);
  }

  lemma RowMatches(p: Plan, k: nat)
    requires p.Valid() && Disjoint(p.schema[p.driver].bits, p.units) && k < |Spec(p, 0)|
    ensures var row := Spec(p, 0)[k];
            row.rid in p.table.inserted && row.rec == p.table.inserted[row.rid] && p.driver in row.rec
  {
    hide Spec, Disjoint, Dyadic.Covers, PassesFilter;
    SpecRow(p, 0, k);
    StreamOnce(p, 0);
    assert Spec(p, 0)[k].rid in Rids(Spec(p, 0));
  }

  /** Every row carries its record. */
  lemma {:induction false} SpecRow(p: Plan, base: nat, k: nat)
    requires p.Valid() && k < |Spec(p, base)|
    ensures var row := Spec(p, base)[k]; row.rid in p.table.inserted && row.rec == p.table.inserted[row.rid]
    decreases |p.units| - base
  {
    hide BatchRows, Matching, Chunk, Sorted;
    var rows := BatchRows(p, base);
    if k >= |rows| {
      SpecRow(p, base + p.batch, k - |rows|);
    } else {
      BatchRow(p, base, k);
    }
  }

  /** The intervals to walk: the cover, which is in value order; or every leaf the range touches, from the bottom or
      from the top. */
  function Units(schema: Schema, f: Field, a: int, b: int, order: Order): seq<Dyadic.Label>
    requires ValidSchema(schema) && f in schema
  {
    var s := schema[f];
    if order.Unordered? then Dyadic.Cover(a, b, s.bits, s.mlvl)
    else
      var leaves := Leaves(s.mlvl, Dyadic.LeafOf(s.bits, s.mlvl, a), Dyadic.LeafOf(s.bits, s.mlvl, b));
      if order.desc then Reversed(leaves) else leaves
  }

  lemma ReversedExactly(schema: Schema, f: Field, nodes: seq<Dyadic.Label>, a: int, b: int)
    requires f in schema && Exactly(schema, f, nodes, a, b) && Disjoint(schema[f].bits, nodes)
    ensures Exactly(schema, f, Reversed(nodes), a, b) && Disjoint(schema[f].bits, Reversed(nodes))
  {
    hide ReachedLabel, Dyadic.InHull, Dyadic.Contains;
    var back, bits := Reversed(nodes), schema[f].bits;
    forall d | d in back ensures ReachedLabel(schema, Of(f, d)) {
      var i :| 0 <= i < |back| && back[i] == d;
      assert nodes[|nodes| - 1 - i] in nodes;
    }
    forall v: int ensures Dyadic.Covers(bits, back, v) <==> Dyadic.Covers(bits, nodes, v) {
      if k :| 0 <= k < |nodes| && Dyadic.Contains(bits, nodes[k], v) {
        assert Dyadic.Contains(bits, back[|nodes| - 1 - k], v);
      }
      if k :| 0 <= k < |back| && Dyadic.Contains(bits, back[k], v) {
        assert Dyadic.Contains(bits, nodes[|nodes| - 1 - k], v);
      }
    }
    forall i, j, v | 0 <= i < j < |back| && Dyadic.Contains(bits, back[i], v)
      ensures !Dyadic.Contains(bits, back[j], v) {
      assert back[i] == nodes[|nodes| - 1 - i] && back[j] == nodes[|nodes| - 1 - j];
    }
  }

  /** The intervals walked hold exactly the values in the range's leaves, no value twice, and come in order. */
  lemma UnitsExactly(schema: Schema, f: Field, a: int, b: int, order: Order)
    requires ValidSchema(schema) && f in schema
    requires order.By? ==> Dyadic.InDomain(schema[f].bits, a) && Dyadic.InDomain(schema[f].bits, b)
    ensures Exactly(schema, f, Units(schema, f, a, b, order), a, b)
            && Disjoint(schema[f].bits, Units(schema, f, a, b, order))
  {
    hide Exactly, Disjoint, Dyadic.InDomain, Leaves;
    if order.Unordered? {
      CoverIsExactly(schema, f, a, b);
    } else {
      LeavesAreExactly(schema, f, a, b);
      var s := schema[f];
      ReversedExactly(schema, f, Leaves(s.mlvl, Dyadic.LeafOf(s.bits, s.mlvl, a), Dyadic.LeafOf(s.bits, s.mlvl, b)), a,
                      b);
    }
  }

  lemma UnitsInOrder(p: Plan, a: int, b: int)
    requires p.Valid() && p.order.By? && p.units == Units(p.schema, p.driver, a, b, p.order)
    ensures InOrder(p)
  {
    var s := p.schema[p.driver];
    var width := Dyadic.Width(s.bits, s.mlvl);
    forall i, j | 0 <= i < j < |p.units|
      ensures if p.order.desc then Dyadic.Hi(s.bits, p.units[j]) < Dyadic.Lo(s.bits, p.units[i])
              else Dyadic.Hi(s.bits, p.units[i]) < Dyadic.Lo(s.bits, p.units[j])
    {
      if p.order.desc {
        Dyadic.MulStep(p.units[j].index, p.units[i].index, width);
      } else {
        Dyadic.MulStep(p.units[i].index, p.units[j].index, width);
      }
    }
  }

  // ------------------------------------------------------------ sorting a batch

  lemma LeastUnique(p: Plan, ids: set<Rid>, x: Rid, y: Rid)
    requires IsLeast(p, ids, x) && IsLeast(p, ids, y)
    ensures x == y
  {
  }

  lemma AscendStep(p: Plan, ids: set<Rid>, x: Rid)
    requires IsLeast(p, ids, x)
    ensures Ascend(p, ids) == [x] + Ascend(p, ids - {x})
  {
    hide IsLeast;
    assert ids != {} by {
      LeastIn(p, ids, x);
    }
    LeastUnique(p, ids, x, Least(p, ids));
  }

  lemma SortStep(p: Plan, all: set<Rid>, todo: set<Rid>, s: seq<Rid>, first: Rid)
    requires s + Ascend(p, todo) == Ascend(p, all) && IsLeast(p, todo, first)
    ensures (s + [first]) + Ascend(p, todo - {first}) == Ascend(p, all)
  {
    hide Ascend, IsLeast, IsAscending, Elements;
    AscendStep(p, todo, first);
    assert s + ([first] + Ascend(p, todo - {first})) == (s + [first]) + Ascend(p, todo - {first});
  }

  lemma LeastIn(p: Plan, ids: set<Rid>, x: Rid)
    requires IsLeast(p, ids, x)
    ensures x in ids
  {
  }

  method PickLeast(recs: map<Rid, Record>, order: Order, ids: set<Rid>, ghost p: Plan) returns (first: Rid)
    requires order == p.order && ids != {} && ids <= recs.Keys
    requires forall r :: r in recs ==> r in p.table.inserted && recs[r] == p.table.inserted[r]
    ensures IsLeast(p, ids, first)
  {
    first :| first in ids;
    var rest := ids - {first};
    ghost var seen := {first};
    while rest != {}
      invariant rest <= ids && seen + rest == ids && IsLeast(p, seen, first)
      decreases rest
    {
      var r :| r in rest;
      if KeyOf(recs, order, r) < KeyOf(recs, order, first)
          || (KeyOf(recs, order, r) == KeyOf(recs, order, first) && r < first) {
        first := r;
      }
      rest, seen := rest - {r}, seen + {r};
    }
    assert seen == ids;
  }

  /** Decrypted rows by id are sorted by what they are ordered by, then by id. */
  method SortIds(recs: map<Rid, Record>, order: Order, ghost p: Plan) returns (s: seq<Rid>)
    requires order == p.order
    requires forall r :: r in recs ==> r in p.table.inserted && recs[r] == p.table.inserted[r]
    ensures s == Sorted(p, recs.Keys)
  {
    hide Ascend, IsLeast, IsAscending, Elements;
    s := [];
    var todo := recs.Keys;
    assert [] + Ascend(p, recs.Keys) == Ascend(p, recs.Keys);
    while todo != {}
      invariant todo <= recs.Keys && s + Ascend(p, todo) == Ascend(p, recs.Keys)
      decreases todo
    {
      var first := PickLeast(recs, order, todo, p);
      LeastIn(p, todo, first);
      SortStep(p, recs.Keys, todo, s, first);
      s := s + [first];
      todo := todo - {first};
    }
    NoneAscend(p);
    assert s + [] == s;
    if order.By? && order.desc {
      s := Reversed(s);
    }
  }

  lemma NoneAscend(p: Plan)
    ensures Ascend(p, {}) == []
  {
  }

  function KeyOf(recs: map<Rid, Record>, order: Order, r: Rid): int {
    if order.By? && r in recs && order.field in recs[r] then recs[r][order.field] else 0
  }

  // ------------------------------------------------------------ reading one batch

  /** What reading the chains of some intervals brought: entries, and where each chain stops. */
  datatype UnitRead = UnitRead(got: Net, ends: map<Chain, nat>)

  /** What one round of reading brings back. */
  lemma RoundRead(net: Net, keys: set<Key>, got: Net, bad: set<Key>)
    requires HonestRead(net, keys, got, bad) && got.Keys !! bad
    ensures Truthful(net, got) && got.Keys <= keys
    ensures forall k :: k in keys && k in net ==> (k in got <==> k !in bad)
  {
  }

  /** Where a chain is taken to stop: where the cache had it, unless somebody told of its next slot. */
  ghost predicate EndWhereHeard(net: Net, c: Chain, known: nat, end: nat, unheard: set<Key>) {
    if Link(c, known + 1) in net && Link(c, known + 1) !in unheard then StopsAt(net, c, known + 1, end)
    else end == known
  }

  /** What a batch reads whatever goes unanswered: of the slots up to where its chains are taken to stop, all that were
      heard of. */
  ghost predicate ReadWhereHeard(net: Net, known: map<Chain, nat>, u: UnitRead, unheard: set<Key>) {
    && u.ends.Keys == known.Keys && Truthful(net, u.got)
    && (forall c :: c in known ==> EndWhereHeard(net, c, known[c], u.ends[c], unheard))
    && forall c, i: nat :: c in known && 1 <= i <= u.ends[c] && Link(c, i) in net ==>
         (Link(c, i) in u.got <==> Link(c, i) !in unheard)
  }

  lemma UnitsRead(net: Net, known: map<Chain, nat>, grown: set<Chain>, ends: map<Chain, nat>, got: Net, bad: set<Key>,
                  rest: Net, unread: set<Key>)
    requires ends.Keys == known.Keys && grown == Grown(known, got)
    requires var asked := EnumKeys(known.Keys, known) + ProbeKeys(known);
             got.Keys <= asked && bad <= asked && forall k :: k in asked && k in net ==> (k in got <==> k !in bad)
    requires var asked := DeltaKeys(grown, known, ends);
             rest.Keys <= asked && unread <= asked && forall k :: k in asked && k in net ==>
                 (k in rest <==> k !in unread)
    requires Truthful(net, got) && Truthful(net, rest)
    requires forall c :: c in known ==>
               if c in grown then StopsAt(net, c, known[c] + 1, ends[c]) else ends[c] == known[c]
    ensures ReadWhereHeard(net, known, UnitRead(got + rest, ends), bad + unread)
  {
    hide StopsAt;
    forall c | c in known ensures EndWhereHeard(net, c, known[c], ends[c], bad + unread) {
      assert Link(c, known[c] + 1) in ProbeKeys(known) && Link(c, known[c] + 1) !in DeltaKeys(grown, known, ends);
    }
    forall c, i: nat | c in known && 1 <= i <= ends[c] && Link(c, i) in net
      ensures Link(c, i) in got + rest <==> Link(c, i) !in bad + unread
    {
      SlotAsked(known.Keys, known, grown, ends, c, i);
    }
  }

  /** Where nothing that is there went unheard, the reading is complete. */
  lemma HeardIsRead(net: Net, known: map<Chain, nat>, u: UnitRead, unheard: set<Key>)
    requires ReadWhereHeard(net, known, u, unheard) && forall k: Key :: k.Link? && k in unheard ==> k !in net
    ensures ReadOf(net, known, u)
  {
    hide StopsAt;
    forall c | c in known ensures EndWhereHeard(net, c, known[c], u.ends[c], unheard) {
    }
  }

  lemma SlotAsked(labels: set<Chain>, known: map<Chain, nat>, grown: set<Chain>, ends: map<Chain, nat>, c: Chain,
                  i: nat)
    requires labels == known.Keys && ends.Keys == known.Keys && c in labels && 1 <= i <= ends[c]
    requires c !in grown ==> ends[c] == known[c]
    ensures (Link(c, i) in EnumKeys(labels, known) + ProbeKeys(known)) != (Link(c, i) in DeltaKeys(grown, known, ends))
  {
    if i <= known[c] {
      assert Link(c, i) in EnumKeys(labels, known);
    } else if i == known[c] + 1 {
      assert Link(c, known[c] + 1) in ProbeKeys(known);
    }
  }

  /** One batch of intervals: entries the counters prove and one probe a chain in one round, then the chains that
      grew. Unlike a query, an entry that does not come back is not refused but left out. */
  method UnitEntries(net: Net, known: map<Chain, nat>, silent: set<Key>)
    returns (r: Result<UnitRead, set<Key>>, ghost unheard: set<Key>)
    ensures silent == {} || (forall c :: c in known ==> Link(c, known[c] + 1) !in net) ==> r.Success?
    ensures unheard <= silent && forall k :: k in unheard ==> k.Link?
    ensures r.Success? ==> ReadWhereHeard(net, known, r.value, unheard)
  {
    hide EnumKeys, ProbeKeys, DeltaKeys, StopsAt, Grown, ReadWhereHeard;
    var asked := EnumKeys(known.Keys, known) + ProbeKeys(known);
    var got, bad := MGet(net, asked, silent);
    unheard := bad;
    var grown := Grown(known, got);
    AskedAreLinks(known, grown, known);
    GrownKnown(known, got);
    RoundRead(net, asked, got, bad);
    NoneGrown(net, known, got);
    if grown == {} {
      NoDelta(known);
      UnitsRead(net, known, grown, known, got, bad, map[], {});
      assert got + map[] == got && bad + {} == bad;
      return Success(UnitRead(got, known)), unheard;
    }
    var found, _ := DiscoverEnds(net, map c | c in grown :: known[c] + 1, silent);
    if found.Failure? {
      return Failure(found.error), unheard;
    }
    var ends := known + found.value;
    var rest, unread := MGet(net, DeltaKeys(grown, known, ends), silent);
    unheard := bad + unread;
    AskedAreLinks(known, grown, ends);
    RoundRead(net, DeltaKeys(grown, known, ends), rest, unread);
    UnitsRead(net, known, grown, ends, got, bad, rest, unread);
    return Success(UnitRead(got + rest, ends)), unheard;
  }

  lemma NoneGrown(net: Net, known: map<Chain, nat>, got: Net)
    requires Truthful(net, got)
    ensures (forall c :: c in known ==> Link(c, known[c] + 1) !in net) ==> Grown(known, got) == {}
  {
  }

  lemma GrownKnown(known: map<Chain, nat>, got: Net)
    ensures Grown(known, got) <= known.Keys
  {
  }

  lemma NoDelta(known: map<Chain, nat>)
    ensures DeltaKeys({}, known, known) == {}
  {
  }

  lemma AskedAreLinks(known: map<Chain, nat>, grown: set<Chain>, ends: map<Chain, nat>)
    ensures forall k :: k in EnumKeys(known.Keys, known) + ProbeKeys(known) ==> k.Link?
    ensures forall k :: k in DeltaKeys(grown, known, ends) ==> k.Link?
  {
  }

  // ------------------------------------------------------------ one batch is exact

  /** The network and the caches a stream runs against: warm, with the epochs and writers known, and with the
      tombstones of every deleted record that is still shown taken in. */
  ghost predicate Ready(schema: Schema, w: World, st: State, me: Writer) {
    && ValidSchema(schema) && Inv(schema, w) && Warm(w, st, me) && ShownSeen(schema, w, st)
    && st.Epochs() == w.Epochs() && Elements(st.writers) == w.writers
  }

  ghost predicate ShownSeen(schema: Schema, w: World, st: State) {
    forall r :: Shown(schema, w.net, w.Standing(), w.Epochs(), w.writers, r) ==> r in st.tombRids
  }

  /** What was read of the chains of some intervals. */
  ghost predicate ReadOf(net: Net, known: map<Chain, nat>, u: UnitRead) {
    && u.ends.Keys == known.Keys && Truthful(net, u.got)
    && ReadUpTo(net, u.got, known.Keys, u.ends) && Stops(net, known.Keys, known, u.ends)
  }

  function ChunkChains(f: Field, chunk: seq<Dyadic.Label>, st: State): set<Chain> {
    NodeChains(f, Elements(chunk), st.Epochs(), Elements(st.writers))
  }

  lemma ChainsAreLabels(f: Field, chunk: seq<Dyadic.Label>, st: State)
    ensures forall c :: c in ChunkChains(f, chunk, st) ==> c.Index? && c.w != Tomb
  {
  }

  /** An id found is of a record whose value lies in one of the intervals; a deleted one is still shown there. */
  lemma FoundMatches(schema: Schema, w: World, st: State, me: Writer, f: Field, chunk: seq<Dyadic.Label>, u: UnitRead,
                     r: Rid)
    requires Ready(schema, w, st, me) && f in schema && (forall d :: d in chunk ==> ReachedLabel(schema, Of(f, d)))
    requires Truthful(w.net, u.got)
    requires r in Index.Rids(u.got, ChunkChains(f, chunk, st), u.ends)
    ensures r in w.Standing().inserted && f in w.Standing().inserted[r]
    ensures Dyadic.Covers(schema[f].bits, chunk, w.Standing().inserted[r][f])
    ensures r in w.Standing().deleted && Rec(r) in w.net ==> r in st.tombRids
  {
    hide Inv, Warm, Shown, Findable, ReachedLabel;
    EntriesOnWalk(schema, w, w.Epochs());
    var k :| k in u.got && k.Link? && k.chain in ChunkChains(f, chunk, st) && u.got[k].Entry? && u.got[k].rid == r;
    var c := k.chain;
    assert k == Link(c, k.i) && Link(c, k.i) in w.net && EntryTrue(schema, w.Standing(), c.w, r);
    var d := c.w.node;
    assert d in Elements(chunk);
    Dyadic.LevelsForContains(w.Standing().inserted[r][f], schema[f].bits, schema[f].mlvl, d);
    var i :| 0 <= i < |chunk| && chunk[i] == d;
    if r in w.Standing().deleted && Rec(r) in w.net {
      FindableUnder(schema, w.Standing().inserted[r], f, d);
      IsShown(schema, w, c, k.i, r);
    }
  }

  lemma IsShown(schema: Schema, w: World, c: Chain, i: nat, r: Rid)
    requires Link(c, i) in w.net && w.net[Link(c, i)] == Entry(r) && OnWalk(c, w.Epochs(), w.writers)
    requires r in w.Standing().deleted && r in w.Standing().inserted && Rec(r) in w.net
             && Findable(schema, w.Standing().inserted[r], c.w)
    ensures Shown(schema, w.net, w.Standing(), w.Epochs(), w.writers, r)
  {
    hide Findable;
    assert Names(w.net, w.Epochs(), w.writers, c, i, r);
  }

  lemma InChunk(f: Field, chunk: seq<Dyadic.Label>, st: State, d: Dyadic.Label, ep: nat, u: Writer)
    requires d in chunk && ep in st.Epochs() && u in st.writers
    ensures Index(Of(f, d), ep, u) in ChunkChains(f, chunk, st)
  {
    assert d in Elements(chunk) && u in Elements(st.writers);
  }

  /** What being ready says about records. */
  lemma ReadyRecords(schema: Schema, w: World, st: State, me: Writer, r: Rid)
    requires Ready(schema, w, st, me) && w.Standing().Live(r)
    ensures Rec(r) in w.net && w.net[Rec(r)] == Blob(w.Standing().inserted[r]) && r !in st.tombRids
    ensures forall u :: u in w.writers <==> u in st.writers
  {
    hide Built, SystemTrue, Rendered, LogTrue, Owned, MissingWhere, Complete, DeadBuried, Carried, WalkedRight, MarksOf,
         NamesOf, ShownSeen, Dense, CountedWithin;
    forall u ensures u in w.writers <==> u in st.writers {
      assert u in Elements(st.writers) <==> u in st.writers;
    }
  }

  /** A live record whose value lies in one of the intervals is found, and its ciphertext is there. */
  lemma MatchFound(schema: Schema, w: World, st: State, me: Writer, f: Field, chunk: seq<Dyadic.Label>, u: UnitRead,
                   r: Rid)
    requires Ready(schema, w, st, me) && f in schema && (forall d :: d in chunk ==> ReachedLabel(schema, Of(f, d)))
    requires ReadOf(w.net, KnownCounts(st, me, ChunkChains(f, chunk, st)), u)
    requires w.Standing().Live(r) && f in w.Standing().inserted[r]
             && Dyadic.Covers(schema[f].bits, chunk, w.Standing().inserted[r][f])
    ensures r in Index.Rids(u.got, ChunkChains(f, chunk, st), u.ends) && Rec(r) in w.net && r !in st.tombRids
  {
    hide Ready, Dense, DenseTo, StopsAt, Dyadic.Contains, ChunkChains, Index.Rids, ReadUpTo, Findable, ReachedLabel;
    var v := w.Standing().inserted[r][f];
    ReadyValid(schema, w, st, me);
    var i :| 0 <= i < |chunk| && Dyadic.Contains(schema[f].bits, chunk[i], v);
    var d := chunk[i];
    FindableUnder(schema, w.Standing().inserted[r], f, d);
    var c, at := ListedInLog(schema, w, st, me, Of(f, d), r);
    ReadyRecords(schema, w, st, me, r);
    InChunk(f, chunk, st, d, c.epoch, c.writer);
    assert c == Index(Of(f, d), c.epoch, c.writer);
    var known := KnownCounts(st, me, ChunkChains(f, chunk, st));
    assert known.Keys == ChunkChains(f, chunk, st);
    StopsAtEnds(w.net, known.Keys, known, u.ends, c);
    ListedFound(w.net, u.got, ChunkChains(f, chunk, st), known, u.ends, c, at, r, 0);
  }

  lemma ReadyValid(schema: Schema, w: World, st: State, me: Writer)
    requires Ready(schema, w, st, me)
    ensures ValidSchema(schema)
  {
  }

  lemma FindableUnder(schema: Schema, rec: Record, f: Field, d: Dyadic.Label)
    requires ValidSchema(schema) && f in schema && f in rec && ReachedLabel(schema, Of(f, d))
             && Dyadic.Contains(schema[f].bits, d, rec[f])
    ensures Findable(schema, rec, Of(f, d))
  {
    Dyadic.LevelsForContains(rec[f], schema[f].bits, schema[f].mlvl, d);
    Dyadic.NodeInDomain(schema[f].bits, d);
  }

  /** A live findable record is listed by a registered writer in an epoch that is read, with no gap before it. */
  lemma ListedInLog(schema: Schema, w: World, st: State, me: Writer, l: ChainLabel, r: Rid) returns (c: Chain, i: nat)
    requires Ready(schema, w, st, me) && w.Standing().Live(r) && Findable(schema, w.Standing().inserted[r], l)
    ensures c.Index? && c.w == l && c.epoch in st.Epochs() && c.writer in w.writers
    ensures i >= 1 && Link(c, i) in w.net && w.net[Link(c, i)] == Entry(r) && Unbroken(w.net, c, 0, i)
  {
    hide Inv, Warm, ShownSeen, Findable;
    assert LiveFindable(schema, w.Standing(), l, r);
    c, i := LiveIn(schema, w, l, r);
    EntriesOnWalk(schema, w, w.Epochs());
  }

  /** Rows of a batch before sorting: ids found, less the tombstones, whose ciphertext came back and passes. */
  function RowsFound(schema: Schema, preds: seq<Predicate>, found: set<Rid>, tombs: set<Rid>,
                     blobs: Net): map<Rid, Record>
    requires KnownFields(schema, preds)
  {
    map r | r in found && r !in tombs && Rec(r) in blobs && blobs[Rec(r)].Blob?
    && PassesFilter(schema, blobs[Rec(r)].rec, preds)
      :: blobs[Rec(r)].rec
  }

  /** A record named by a slot the counters prove that came back. */
  ghost predicate CameBack(net: Net, chains: set<Chain>, st: State, me: Writer, unheard: set<Key>, r: Rid) {
    exists c: Chain, i: nat :: CountedAt(net, chains, st, me, r, c, i) && Link(c, i) !in unheard
  }

  /** The matching records of a batch of which both an entry and the ciphertext came back. */
  ghost function HeardOf(p: Plan, chunk: seq<Dyadic.Label>, net: Net, chains: set<Chain>, st: State, me: Writer,
                         unheard: set<Key>,
                         missed: set<Key>): set<Rid>
    requires p.Valid()
  {
    set r | r in Matching(p, chunk) && CameBack(net, chains, st, me, unheard, r) && Rec(r) !in missed
  }

  lemma FoundIffCame(net: Net, known: map<Chain, nat>, u: UnitRead, unheard: set<Key>, st: State, me: Writer, r: Rid)
    requires ReadWhereHeard(net, known, u, unheard) && forall c :: c in known ==> st.Count(me, c) == u.ends[c]
    ensures r in Index.Rids(u.got, known.Keys, u.ends) <==> CameBack(net, known.Keys, st, me, unheard, r)
  {
    hide EndWhereHeard;
    if r in Index.Rids(u.got, known.Keys, u.ends) {
      var k :| k in u.got && k.Link? && k.chain in known && 1 <= k.i <= u.ends[k.chain] && u.got[k].Entry?
          && u.got[k].rid == r;
      assert k == Link(k.chain, k.i);
      assert CountedAt(net, known.Keys, st, me, r, k.chain, k.i);
    }
    if CameBack(net, known.Keys, st, me, unheard, r) {
      var c: Chain, i: nat :| CountedAt(net, known.Keys, st, me, r, c, i) && Link(c, i) !in unheard;
      assert Link(c, i) in u.got && u.got[Link(c, i)] == Entry(r);
    }
  }

  /** What a batch brings whatever goes unanswered: just the matching records of which an entry and the ciphertext
      came back. */
  lemma BatchWhereHeard(p: Plan, w: World, st: State, me: Writer, chunk: seq<Dyadic.Label>, u: UnitRead,
                        unheard: set<Key>,
                        keys: set<Key>, blobs: Net, missed: set<Key>, st': State)
    requires p.Valid() && p.table == w.Standing() && Ready(p.schema, w, st, me) && forall d :: d in chunk ==>
               ReachedLabel(p.schema, Of(p.driver, d))
    requires var chains := ChunkChains(p.driver, chunk, st);
             && ReadWhereHeard(w.net, KnownCounts(st, me, chains), u, unheard)
             && (forall c :: c in chains ==> st'.Count(me, c) == u.ends[c])
             && keys == set x | x in Index.Rids(u.got, chains, u.ends) && x !in st.tombRids :: Rec(x)
    requires HonestRead(w.net, keys, blobs, missed) && blobs.Keys !! missed
    ensures var rows := RowsFound(p.schema, p.preds, Index.Rids(u.got, ChunkChains(p.driver, chunk, st), u.ends),
                                  st.tombRids, blobs);
            && rows.Keys == HeardOf(p, chunk, w.net, ChunkChains(p.driver, chunk, st), st', me, unheard, missed)
            && rows.Keys <= Matching(p, chunk) && forall r :: r in rows ==>
                 r in p.table.inserted && rows[r] == p.table.inserted[r]
  {
    hide Ready, ReachedLabel, ChunkChains, Index.Rids, PassesFilter, Dyadic.Covers, EndWhereHeard, CameBack, World.Lost;
    var chains := ChunkChains(p.driver, chunk, st);
    var known := KnownCounts(st, me, chains);
    assert known.Keys == chains;
    var found := Index.Rids(u.got, chains, u.ends);
    var rows := RowsFound(p.schema, p.preds, found, st.tombRids, blobs);
    forall r ensures r in found <==> CameBack(w.net, chains, st', me, unheard, r) {
      FoundIffCame(w.net, known, u, unheard, st', me, r);
    }
    forall r | r in rows
      ensures r in Matching(p, chunk) && r in w.Standing().inserted && rows[r] == w.Standing().inserted[r]
              && Rec(r) !in missed
    {
      FoundMatches(p.schema, w, st, me, p.driver, chunk, u, r);
      ReadyBlob(p.schema, w, st, me, r);
    }
    forall r | r in Matching(p, chunk) && r in found && Rec(r) !in missed ensures r in rows {
      ReadyRecords(p.schema, w, st, me, r);
      assert Rec(r) in keys;
    }
  }

  /** So a batch delivers all it should if and only if of each matching record an entry and the ciphertext came back. */
  lemma BatchExactIff(p: Plan, base: nat, net: Net, chains: set<Chain>, st: State, me: Writer, unheard: set<Key>,
                      missed: set<Key>)
    requires p.Valid()
    ensures var chunk := Chunk(p.units, base, p.batch);
            RowsFor(p, base, HeardOf(p, chunk, net, chains, st, me, unheard, missed)) == BatchRows(p, base) <==>
              forall r :: r in Matching(p, chunk) ==> CameBack(net, chains, st, me, unheard, r) && Rec(r) !in missed
  {
    hide Matching, CameBack, Sorted;
    var chunk := Chunk(p.units, base, p.batch);
    var heard := HeardOf(p, chunk, net, chains, st, me, unheard, missed);
    if RowsFor(p, base, heard) == BatchRows(p, base) {
      SameRids(p, base, heard, Matching(p, chunk));
    }
    assert (forall r :: r in Matching(p, chunk) ==> CameBack(net, chains, st, me, unheard, r) && Rec(r) !in missed) ==>
           heard == Matching(p, chunk);
  }

  lemma SameRids(p: Plan, base: nat, rids: set<Rid>, rids': set<Rid>)
    requires RowsFor(p, base, rids) == RowsFor(p, base, rids')
    ensures rids == rids'
  {
    hide Sorted;
    var s, s' := Sorted(p, rids), Sorted(p, rids');
    assert |s| == |s'| && forall n :: 0 <= n < |s| ==> s[n] == s'[n] by {
      forall n | 0 <= n < |s| ensures |s| == |s'| && s[n] == s'[n] {
        assert RowsFor(p, base, rids)[n].rid == s[n] && RowsFor(p, base, rids')[n].rid == s'[n];
      }
    }
    SortedElements(p, rids);
    SortedElements(p, rids');
  }

  /** A batch is exact: its rows are the matching records. */
  lemma BatchExact(p: Plan, w: World, st: State, me: Writer, chunk: seq<Dyadic.Label>, u: UnitRead, blobs: Net)
    requires p.Valid() && p.table == w.Standing() && Ready(p.schema, w, st, me) && forall d :: d in chunk ==>
               ReachedLabel(p.schema, Of(p.driver, d))
    requires ReadOf(w.net, KnownCounts(st, me, ChunkChains(p.driver, chunk, st)), u)
    requires var found := Index.Rids(u.got, ChunkChains(p.driver, chunk, st), u.ends);
             && Truthful(w.net, blobs)
             && forall r :: r in found && r !in st.tombRids && w.Standing().Live(r) && Rec(r) in w.net ==>
                  Rec(r) in blobs
    ensures var rows := RowsFound(p.schema, p.preds, Index.Rids(u.got, ChunkChains(p.driver, chunk, st), u.ends),
                                  st.tombRids, blobs);
            && rows.Keys == Matching(p, chunk) && forall r :: r in rows ==>
                 r in w.Standing().inserted && rows[r] == w.Standing().inserted[r]
  {
    hide Ready, ReadUpTo, Stops, ReachedLabel, ChunkChains, Index.Rids, PassesFilter, Dyadic.Covers;
    var found := Index.Rids(u.got, ChunkChains(p.driver, chunk, st), u.ends);
    var rows := RowsFound(p.schema, p.preds, found, st.tombRids, blobs);
    forall r | r in rows
      ensures r in Matching(p, chunk) && r in w.Standing().inserted && rows[r] == w.Standing().inserted[r] {
      FoundMatches(p.schema, w, st, me, p.driver, chunk, u, r);
      ReadyBlob(p.schema, w, st, me, r);
    }
    forall r | r in Matching(p, chunk) ensures r in rows {
      MatchFound(p.schema, w, st, me, p.driver, chunk, u, r);
      ReadyBlob(p.schema, w, st, me, r);
    }
  }

  lemma ReadyBlob(schema: Schema, w: World, st: State, me: Writer, r: Rid)
    requires Ready(schema, w, st, me) && Rec(r) in w.net
    ensures r in w.Standing().inserted && w.net[Rec(r)] == Blob(w.Standing().inserted[r])
  {
    hide Inv, Warm, ShownSeen;
    BlobIs(schema, w, r);
  }

  // ------------------------------------------------------------ the stream itself

  /** Chain lengths learned from a batch keep the caches good. */
  lemma LearnedReady(schema: Schema, w: World, st: State, me: Writer, f: Field, chunk: seq<Dyadic.Label>, u: UnitRead,
                     unheard: set<Key>)
    requires Ready(schema, w, st, me)
             && ReadWhereHeard(w.net, KnownCounts(st, me, ChunkChains(f, chunk, st)), u, unheard)
    requires forall c :: c in ChunkChains(f, chunk, st) ==> c.Index? && c.w != Tomb
    ensures ChunkChains(f, chunk, st) + {} <= u.ends.Keys
            && Ready(schema, w, Learned(st, me, ChunkChains(f, chunk, st), {}, u.got, u.ends), me)
  {
    hide EndWhereHeard, Inv, MarksOf, NamesOf, TombsSeen, CountedWithin, Dense, ChunkChains, Stops, StopsAt, ReadUpTo,
         KnownCounts, Learned, Index.Rids, ShownSeen, Capped, Synced;
    var labels := ChunkChains(f, chunk, st);
    KnownKeys(st, me, labels);
    var st' := Learned(st, me, labels, {}, u.got, u.ends);
    assert labels + {} == labels;
    assert Capped(w.net, LogLen(w)) by { EntriesOnWalk(schema, w, w.Epochs()); }
    assert Founded(w.net, st, me, labels + {}, u.ends) by { UnitsFounded(w.net, st, me, labels, u, unheard); }
    LearnedWithin(w.net, st, me, LogLen(w), labels, {}, u.got, u.ends);
    OnlyCounts(st, me, labels, u.got, u.ends);
    OnlyCounters(w.net, w.Standing(), st, st');
    assert ShownSeen(schema, w, st') by { StillSeen(schema, w, st, st'); }
  }

  lemma StillSeen(schema: Schema, w: World, st: State, st': State)
    requires ShownSeen(schema, w, st) && st'.tombRids == st.tombRids
    ensures ShownSeen(schema, w, st')
  {
    hide Shown;
  }

  lemma UnitsFounded(net: Net, st: State, me: Writer, labels: set<Chain>, u: UnitRead, unheard: set<Key>)
    requires ReadWhereHeard(net, KnownCounts(st, me, labels), u, unheard)
    ensures labels + {} <= u.ends.Keys && Founded(net, st, me, labels + {}, u.ends)
  {
    forall c | c in labels
      ensures st.Count(me, c) <= u.ends[c] && (u.ends[c] == st.Count(me, c) || Link(c, u.ends[c]) in net) {
      assert EndWhereHeard(net, c, st.Count(me, c), u.ends[c], unheard);
    }
  }

  lemma KnownKeys(st: State, me: Writer, labels: set<Chain>)
    ensures KnownCounts(st, me, labels).Keys == labels
  {
  }

  lemma OnlyCounts(st: State, me: Writer, labels: set<Chain>, got: Net, ends: map<Chain, nat>)
    requires labels + {} <= ends.Keys && forall c :: c in labels + {} ==> c.Index?
    ensures var st' := Learned(st, me, labels, {}, got, ends);
            st' == st.(chains := st'.chains, remote := st'.remote)
  {
    NoChainsNoRids(got, ends);
    hide Index.Rids;
    var st' := Learned(st, me, labels, {}, got, ends);
    assert st'.tombCounts == st.tombCounts;
    assert st'.tombRids == st.tombRids;
  }

  lemma NoChainsNoRids(got: Net, ends: map<Chain, nat>)
    ensures Index.Rids(got, {}, ends) == {}
  {
  }

  /** One batch: its entries, its records, filtered, sorted, each row with the cursor after it. */
  method StreamBatch(o: Owner, net: Net, preds: seq<Predicate>, driver: Field, order: Order, chunk: seq<Dyadic.Label>,
                     base: nat,
                     silent: set<Key>, ghost p: Plan, ghost w: World)
    returns (r: Result<seq<Row>, set<Key>>, ghost unheard: set<Key>, ghost missed: set<Key>)
    requires p.Valid() && net == w.net && o.schema == p.schema && preds == p.preds && driver == p.driver
             && order == p.order
    requires p.table == w.Standing() && chunk == Chunk(p.units, base, p.batch) && forall d :: d in p.units ==>
               ReachedLabel(p.schema, Of(p.driver, d))
    modifies o`st
    ensures silent == {} ==> r.Success?
    ensures (forall c :: c in ChunkChains(driver, chunk, old(o.st)) ==>
               Link(c, old(o.st).Count(o.me, c) + 1) !in net) ==> r.Success?
    ensures unheard <= silent && missed <= silent
    ensures r.Failure? ==> o.st == old(o.st)
    ensures old(Ready(p.schema, w, o.st, o.me)) && r.Success? ==>
              exists rows ::
                  BatchGives(p, chunk, w, old(o.st), o.st, o.me, ChunkChains(driver, chunk, old(o.st)), unheard, missed,
                             rows)
                             && r.value == RowsFor(p, base, rows.Keys)
    ensures old(Ready(p.schema, w, o.st, o.me)) && Speaks(w, silent) && r.Success? ==> r.value == BatchRows(p, base)
  {
    hide Ready, Speaks, ReachedLabel, ChunkChains, Index.Rids, KnownCounts, RowsFound, Matching, Sorted, Learned,
         LinksSpeak, BatchReads, BatchGives, RowsFor, BatchRows, World.Standing;
    ghost var good := Ready(p.schema, w, o.st, o.me);
    var chains := ChunkChains(driver, chunk, o.st);
    ChainsAreLabels(driver, chunk, o.st);
    ghost var keys, blobs;
    var read;
    read, unheard, keys, blobs, missed := ReadBatch(net, o.schema, preds, o.st, o.me, chains, silent);
    if read.Failure? {
      return Failure(read.error), unheard, missed;
    }
    var u, rows, st' := read.value.0, read.value.1,
        Learned(o.st, o.me, chains, {}, read.value.0.got, read.value.0.ends);
    ghost var plan := p.(table := Table(rows, {}));
    if good {
      ChunkReached(p, base);
      BatchTold(p, w, o.st, o.me, chunk, chains, u, unheard, keys, blobs, missed, st', silent, rows);
      GivesTrue(p, chunk, w, o.st, st', o.me, chains, unheard, missed, rows);
      plan := p;
    }
    var ids := SortIds(rows, order, plan);
    IdsAreRows(plan, rows, ids);
    o.st := st';
    r := Success(seq(|ids|, n requires 0 <= n < |ids| => Row(ids[n], rows[ids[n]], Cursor(base, n + 1))));
    if good {
      SameRows(p, base, rows, ids, r.value);
      BatchIsFor(p, base);
    }
  }

  lemma GivesTrue(p: Plan, chunk: seq<Dyadic.Label>, w: World, st: State, st': State, me: Writer, chains: set<Chain>,
                  unheard: set<Key>,
                  missed: set<Key>, rows: map<Rid, Record>)
    requires p.Valid() && BatchGives(p, chunk, w, st, st', me, chains, unheard, missed, rows)
    ensures forall r :: r in rows ==> r in p.table.inserted && rows[r] == p.table.inserted[r]
  {
    hide HeardOf, Ready, EndWhereHeard;
  }

  /** Both reads of a batch, and the rows before they are sorted. */
  method ReadBatch(net: Net, schema: Schema, preds: seq<Predicate>, st: State, me: Writer, chains: set<Chain>,
                   silent: set<Key>)
    returns (r: Result<(UnitRead, map<Rid, Record>), set<Key>>, ghost unheard: set<Key>, ghost keys: set<Key>,
             ghost blobs: Net, ghost missed: set<Key>)
    requires KnownFields(schema, preds)
    ensures silent == {} || (forall c :: c in chains ==> Link(c, st.Count(me, c) + 1) !in net) ==> r.Success?
    ensures unheard <= silent && missed <= silent
    ensures r.Success? ==>
              && BatchReads(net, KnownCounts(st, me, chains), r.value.0, unheard, st.tombRids, keys, blobs, missed)
              && chains + {} <= r.value.0.ends.Keys
              && r.value.1 == RowsFound(schema, preds, Index.Rids(r.value.0.got, chains, r.value.0.ends), st.tombRids,
                                        blobs)
  {
    hide Index.Rids, KnownCounts, RowsFound, ReadWhereHeard;
    KnownKeys(st, me, chains);
    KnownAre(st, me, chains);
    keys, blobs, missed := {}, map[], {};
    var read;
    read, unheard := UnitEntries(net, KnownCounts(st, me, chains), silent);
    if read.Failure? {
      return Failure(read.error), unheard, keys, blobs, missed;
    }
    var u := read.value;
    ReadShape(net, KnownCounts(st, me, chains), u, unheard);
    var found := Index.Rids(u.got, chains, u.ends);
    var asked := set x | x in found && x !in st.tombRids :: Rec(x);
    var got, bad := MGet(net, asked, silent);
    keys, blobs, missed := asked, got, bad;
    return Success((u, RowsFound(schema, preds, found, st.tombRids, got))), unheard, keys, blobs, missed;
  }

  /** The two reads of a batch: entries of its chains, and ciphertexts of the ids found that have no known tombstone. */
  ghost predicate BatchReads(net: Net, known: map<Chain, nat>, u: UnitRead, unheard: set<Key>, tombs: set<Rid>,
                             keys: set<Key>, blobs: Net,
                             missed: set<Key>)
  {
    && ReadWhereHeard(net, known, u, unheard)
    && keys == (set x | x in Index.Rids(u.got, known.Keys, u.ends) && x !in tombs :: Rec(x))
    && HonestRead(net, keys, blobs, missed) && blobs.Keys !! missed
  }

  /** What they come to: rows for what was heard of, and caches as good as before. */
  ghost predicate BatchGives(p: Plan, chunk: seq<Dyadic.Label>, w: World, st: State, st': State, me: Writer,
                             chains: set<Chain>, unheard: set<Key>,
                             missed: set<Key>, rows: map<Rid, Record>)
    requires p.Valid()
  {
    && rows.Keys == HeardOf(p, chunk, w.net, chains, st', me, unheard, missed)
    && (forall r :: r in rows ==> r in p.table.inserted && rows[r] == p.table.inserted[r])
    && Ready(p.schema, w, st', me) && st'.tombRids == st.tombRids
    && forall c :: c in chains ==> EndWhereHeard(w.net, c, st.Count(me, c), st'.Count(me, c), unheard)
  }

  lemma BatchTold(p: Plan, w: World, st: State, me: Writer, chunk: seq<Dyadic.Label>, chains: set<Chain>, u: UnitRead,
                  unheard: set<Key>,
                  keys: set<Key>, blobs: Net, missed: set<Key>, st': State, silent: set<Key>, rows: map<Rid, Record>)
    requires p.Valid() && p.table == w.Standing() && Ready(p.schema, w, st, me) && forall d :: d in chunk ==>
               ReachedLabel(p.schema, Of(p.driver, d))
    requires chains == ChunkChains(p.driver, chunk, st)
             && BatchReads(w.net, KnownCounts(st, me, chains), u, unheard, st.tombRids, keys, blobs, missed)
    requires chains + {} <= u.ends.Keys && (forall c :: c in chains ==> c.Index? && c.w != Tomb)
               && st' == Learned(st, me, chains, {}, u.got, u.ends)
    requires rows == RowsFound(p.schema, p.preds, Index.Rids(u.got, chains, u.ends), st.tombRids, blobs)
    ensures BatchGives(p, chunk, w, st, st', me, chains, unheard, missed, rows)
    ensures Speaks(w, silent) && unheard <= silent && missed <= silent ==> rows.Keys == Matching(p, chunk)
  {
    hide Ready, Speaks, ReachedLabel, ChunkChains, Index.Rids, RowsFound, Matching, Learned, EndWhereHeard, HeardOf,
         World.Standing, ReadOf, ReadWhereHeard, KnownCounts;
    KnownAre(st, me, chains);
    KnownKeys(st, me, chains);
    ReadShape(w.net, KnownCounts(st, me, chains), u, unheard);
    forall c | c in chains ensures st'.Count(me, c) == u.ends[c] {
      LearnedCounts(st, me, chains, {}, u.got, u.ends, c);
    }
    BatchWhereHeard(p, w, st, me, chunk, u, unheard, keys, blobs, missed, st');
    LearnedReady(p.schema, w, st, me, p.driver, chunk, u, unheard);
    OnlyCounts(st, me, chains, u.got, u.ends);
    if Speaks(w, silent) && unheard <= silent && missed <= silent {
      SpeaksRead(w.net, w, silent, KnownCounts(st, me, chains), u, unheard);
      BlobsBack(w, silent, Index.Rids(u.got, chains, u.ends), st.tombRids, keys, blobs, missed);
      BatchExact(p, w, st, me, chunk, u, blobs);
    }
  }

  lemma BatchIsFor(p: Plan, base: nat)
    requires p.Valid()
    ensures BatchRows(p, base) == RowsFor(p, base, Matching(p, Chunk(p.units, base, p.batch)))
  {
  }

  lemma KnownAre(st: State, me: Writer, chains: set<Chain>)
    ensures forall c :: c in chains ==>
              c in KnownCounts(st, me, chains) && KnownCounts(st, me, chains)[c] == st.Count(me, c)
  {
  }

  lemma ReadShape(net: Net, known: map<Chain, nat>, u: UnitRead, unheard: set<Key>)
    requires ReadWhereHeard(net, known, u, unheard)
    ensures u.ends.Keys == known.Keys && Truthful(net, u.got)
    ensures forall c :: c in known ==> EndWhereHeard(net, c, known[c], u.ends[c], unheard)
  {
    hide EndWhereHeard;
  }

  lemma SpeaksRead(net: Net, w: World, silent: set<Key>, known: map<Chain, nat>, u: UnitRead, unheard: set<Key>)
    requires net == w.net && Speaks(w, silent) && ReadWhereHeard(net, known, u, unheard) && unheard <= silent
    ensures ReadOf(net, known, u)
  {
    hide EndWhereHeard, ReadOf;
    forall k: Key | k.Link? && k in unheard ensures k !in net {
      assert k == Link(k.chain, k.i);
    }
    HeardIsRead(net, known, u, unheard);
  }

  lemma IdsAreRows(p: Plan, rows: map<Rid, Record>, ids: seq<Rid>)
    requires ids == Sorted(p, rows.Keys)
    ensures forall n :: 0 <= n < |ids| ==> ids[n] in rows
  {
    hide Sorted;
    SortedElements(p, rows.Keys);
    forall n | 0 <= n < |ids| ensures ids[n] in rows {
      assert ids[n] in Elements(ids);
    }
  }

  lemma SameRows(p: Plan, base: nat, rows: map<Rid, Record>, ids: seq<Rid>, out: seq<Row>)
    requires ids == Sorted(p, rows.Keys)
    requires forall r :: r in rows ==> r in p.table.inserted && rows[r] == p.table.inserted[r]
    requires |out| == |ids| && forall n :: 0 <= n < |ids| ==>
               ids[n] in rows && out[n] == Row(ids[n], rows[ids[n]], Cursor(base, n + 1))
    ensures out == RowsFor(p, base, rows.Keys)
  {
    hide Sorted;
  }

  lemma ChunkReached(p: Plan, base: nat)
    requires forall d :: d in p.units ==> ReachedLabel(p.schema, Of(p.driver, d))
    ensures forall d :: d in Chunk(p.units, base, p.batch) ==> ReachedLabel(p.schema, Of(p.driver, d))
  {
    hide ReachedLabel;
  }

  lemma BlobsBack(w: World, silent: set<Key>, found: set<Rid>, tombs: set<Rid>, keys: set<Key>, blobs: Net,
                  bad: set<Key>)
    requires Speaks(w, silent) && HonestRead(w.net, keys, blobs, bad) && bad <= silent
    requires keys == set x | x in found && x !in tombs :: Rec(x)
    ensures Truthful(w.net, blobs)
    ensures forall r :: r in found && r !in tombs && w.Standing().Live(r) && Rec(r) in w.net ==> Rec(r) in blobs
  {
    hide LinksSpeak;
    forall r | r in found && r !in tombs && w.Standing().Live(r) && Rec(r) in w.net ensures Rec(r) in blobs {
      assert Rec(r) in keys;
    }
  }

  /** The rows from a cursor on: the first batch less what it had already delivered, and everything after it. */
  ghost function From(p: Plan, after: Cursor): seq<Row>
    requires p.Valid()
  {
    if after.unit >= |p.units| then []
    else BatchRows(p, after.unit)[Min(after.n, |BatchRows(p, after.unit)|)..] + Spec(p, after.unit + p.batch)
  }

  /** The cut a limit makes. It is looked at after each row, so a limit below one still lets one row out. */
  function Limited<T>(s: seq<T>, limit: Option<int>): seq<T> {
    if limit.Some? && |s| > Max(limit.value, 1) then s[..Max(limit.value, 1)] else s
  }

  /** For a cursor some row of the stream carries, what is left is the stream after that row. */
  lemma FromCursor(p: Plan, k: nat)
    requires p.Valid() && k < |Spec(p, 0)|
    ensures From(p, Spec(p, 0)[k].cursor) == Spec(p, 0)[k + 1..] && From(p, Cursor(0, 0)) == Spec(p, 0)
  {
    hide BatchRows, Spec;
    CursorResumes(p, 0, k);
    var at := Spec(p, 0)[k].cursor;
    SpecStep(p, at.unit);
    SpecStep(p, 0);
    if at.unit < |p.units| {
      var rows, rest := BatchRows(p, at.unit), Spec(p, at.unit + p.batch);
      assert (rows + rest)[at.n..] == rows[at.n..] + rest;
    }
    if p.units != [] {
      assert BatchRows(p, 0)[0..] == BatchRows(p, 0);
    }
  }

  lemma LimitedShort<T>(s: seq<T>, limit: Option<int>)
    ensures !(limit.Some? && |s| >= Max(limit.value, 1)) ==> Limited(s, limit) == s
  {
  }

  lemma LimitedPrefix<T>(s: seq<T>, more: seq<T>, limit: Option<int>)
    ensures limit.Some? && |s| >= Max(limit.value, 1) ==> Limited(s + more, limit) == Limited(s, limit)
  {
  }

  lemma ToTheEnd(rows: seq<Row>, n: nat, k: nat)
    requires n == |rows| && k <= n
    ensures rows[k..n] == rows[k..]
  {
  }

  lemma CutAt(out: seq<Row>, rows: seq<Row>, k: nat, n: nat)
    requires k <= n <= |rows|
    ensures (out + rows[k..])[..|out| + n - k] == out + rows[k..n]
  {
    assert rows[k..] == rows[k..n] + rows[n..];
    assert out + rows[k..] == (out + rows[k..n]) + rows[n..];
  }

  /** Yield rows one by one until a limit is reached. */
  method Deliver(out: seq<Row>, rows: seq<Row>, skip: nat, limit: Option<int>) returns (out': seq<Row>, full: bool)
    requires limit.Some? ==> |out| < Max(limit.value, 1)
    ensures var all := out + rows[Min(skip, |rows|)..];
            && out' == Limited(all, limit) && (full <==> limit.Some? && |all| >= Max(limit.value, 1))
  {
    out', full := out, false;
    var n := 0;
    ghost var all := out + rows[Min(skip, |rows|)..];
    while n < |rows|
      invariant n <= |rows| && out' == out + rows[Min(skip, n)..n]
      invariant limit.Some? ==> |out'| < Max(limit.value, 1)
      decreases |rows| - n
    {
      if n >= skip {
        assert rows[Min(skip, n + 1)..n + 1] == rows[Min(skip, n)..n] + [rows[n]];
        out' := out' + [rows[n]];
        if limit.Some? && |out'| >= limit.value {
          CutAt(out, rows, Min(skip, |rows|), n + 1);
          return out', true;
        }
      }
      n := n + 1;
    }
    ToTheEnd(rows, n, Min(skip, n));
  }

  /** The range of the first predicate on a field. */
  function RangeOf(schema: Schema, preds: seq<Predicate>, f: Field): (int, int)
    requires KnownFields(schema, preds) && exists q :: q in preds && q.field == f
  {
    if preds[0].field == f then BoundsOf(schema, preds[0])
    else
      assert exists q :: q in preds[1..] && q.field == f by {
        var q :| q in preds && q.field == f;
        assert q in preds[1..];
      }
      RangeOf(schema, preds[1..], f)
  }

  lemma {:induction false} RangeIsOfOne(schema: Schema, preds: seq<Predicate>, f: Field)
    requires KnownFields(schema, preds) && exists q :: q in preds && q.field == f
    ensures exists q :: q in preds && q.field == f && BoundsOf(schema, q) == RangeOf(schema, preds, f)
  {
    if preds[0].field == f {
      assert preds[0] in preds;
    } else {
      var q :| q in preds && q.field == f;
      assert q in preds[1..];
      RangeIsOfOne(schema, preds[1..], f);
      var x :| x in preds[1..] && x.field == f && BoundsOf(schema, x) == RangeOf(schema, preds[1..], f);
      assert x in preds;
    }
  }

  /** What a stream can start from: warm caches on a network where every deleted record that is still shown has a
      tombstone any reader is sure to find, and where no epoch is being deleted in which something live was left
      behind. */
  ghost predicate CanStart(schema: Schema, w: World, st: State, me: Writer) {
    && ValidSchema(schema) && Inv(schema, w) && Warm(w, st, me) && Hidden(schema, w, me)
    && (w.phase.Deleting? ==> NoneLost(schema, w))
  }

  /** Then whatever is shown of what does not stand is deleted. */
  lemma ShownIsDeleted(schema: Schema, w: World, r: Rid)
    requires Inv(schema, w) && (w.phase.Deleting? ==> NoneLost(schema, w))
               && Shown(schema, w.net, w.Standing(), w.Epochs(), w.writers, r)
    ensures Shown(schema, w.net, w.table, w.Epochs(), w.writers, r)
  {
    hide Inv, LiveFindable, World.Lost;
    StandingShown(schema, w, w.Epochs(), w.writers, r);
    ShownIsGone(schema, w.net, w.Standing(), w.Epochs(), w.writers, r);
    if r in w.Lost() {
      LostShown(schema, w, r);
    }
  }

  /** A tombstone with no gap before it has been taken in by a refresh. */
  lemma ListedTombTaken(w: World, eps: set<nat>, st: State, st': State, me: Writer, r: Rid)
    requires TombsSeen(w.net, st', w.Standing()) && Capped(w.net, LogLen(w))
             && Listed(w.net, ReaderView(w, eps, w.writers), Tomb, r)
    requires forall c :: c in TombChains(eps, w.writers) ==>
               c in st'.tombCounts && StopsAt(w.net, c, st.Count(me, c), st'.tombCounts[c])
    ensures r in st'.tombRids
  {
    var c: Chain, i: nat :| Names(w.net, eps, w.writers, c, i, r) && c.w == Tomb && Unbroken(w.net, c, 0, i);
    assert c == Index(Tomb, c.epoch, c.writer) && c in TombChains(eps, w.writers);
    StopsPast(w.net, c, 0, i, st.Count(me, c), st'.tombCounts[c]);
  }

  lemma ReadyNow(schema: Schema, w: World, st: State, st': State, me: Writer)
    requires CanStart(schema, w, st, me) && st.Epochs() == w.Epochs() && Elements(st.writers) == w.writers
    requires st' == st.(tombCounts := st'.tombCounts, tombRids := st'.tombRids) && TombsSeen(w.net, st', w.Standing())
    requires forall c :: c in TombChains(w.Epochs(), w.writers) ==>
               c in st'.tombCounts && StopsAt(w.net, c, st.Count(me, c), st'.tombCounts[c])
    requires forall c :: c in st'.tombCounts && c !in TombChains(w.Epochs(), w.writers) ==>
               c in st.tombCounts && st'.tombCounts[c] == st.tombCounts[c]
    ensures Ready(schema, w, st', me)
  {
    hide Inv, Shown, Listed, TombsSeen, MarksOf, NamesOf, Dense, StopsAt, Capped, TombChains, TrueEpochs, TrueReaders,
         Faithful;
    EntriesOnWalk(schema, w, w.Epochs());
    ReadersSeeTable(schema, w, me);
    forall r | Shown(schema, w.net, w.Standing(), w.Epochs(), w.writers, r) ensures r in st'.tombRids {
      if w.writers == {} {
        NobodyShown(schema, w, w.Epochs(), w.writers);
      }
      ShownIsDeleted(schema, w, r);
      ListedTombTaken(w, w.Epochs(), st, st', me, r);
    }
    TombsWithin(w, st, st', me);
  }

  lemma TombsWithin(w: World, st: State, st': State, me: Writer)
    requires CountedWithin(st, me, LogLen(w)) && Capped(w.net, LogLen(w))
    requires st' == st.(tombCounts := st'.tombCounts, tombRids := st'.tombRids)
    requires forall c :: c in TombChains(w.Epochs(), w.writers) ==>
               c in st'.tombCounts && StopsAt(w.net, c, st.Count(me, c), st'.tombCounts[c])
    requires forall c :: c in st'.tombCounts && c !in TombChains(w.Epochs(), w.writers) ==>
               c in st.tombCounts && st'.tombCounts[c] == st.tombCounts[c]
    ensures CountedWithin(st', me, LogLen(w))
  {
    hide Capped, StopsAt;
    forall c | c in TombChains(w.Epochs(), w.writers)
      ensures c.Index? && c.w == Tomb && st'.tombCounts[c] <= |w.Log(c)| {
      StopParts(w.net, c, st.Count(me, c), st'.tombCounts[c]);
      CountIsWithin(st, me, LogLen(w), c);
      FilledIsWithin(w.net, LogLen(w), c, st'.tombCounts[c]);
    }
  }

  /** The plan of a stream: driven by one of its predicates, by the one on the field it is ordered by if it is
      ordered. */
  ghost function PlanOf(schema: Schema, table: Table, preds: seq<Predicate>, driver: Field, order: Order,
                        batch: nat): Plan
    requires ValidSchema(schema) && KnownFields(schema, preds) && exists q :: q in preds && q.field == driver
  {
    DriverKnown(schema, preds, driver);
    var (a, b) := RangeOf(schema, preds, driver);
    Plan(schema, table, preds, driver, order, Units(schema, driver, a, b, order), batch)
  }

  lemma DriverKnown(schema: Schema, preds: seq<Predicate>, driver: Field)
    requires KnownFields(schema, preds) && exists q :: q in preds && q.field == driver
    ensures driver in schema
  {
  }

  /** Before a stream starts: epochs, writers and tombstones are read up to date. */
  method Prepare(o: Owner, net: Net, silent: set<Key>, ghost w: World) returns (ok: bool)
    requires net == w.net && ValidSchema(o.schema) && Inv(o.schema, w)
    modifies o`st
    ensures silent == {} ==> ok
    ensures ok && old(CanStart(o.schema, w, o.st, o.me)) && LinksSpeak(net, silent) ==> Ready(o.schema, w, o.st, o.me)
  {
    hide Ready, Trusted, Inv, LinksSpeak, ValidSchema, Warm, Hidden, SearchAsks, OpenedHeard, MarksWithin, NamesWithin,
         Synced, TombsSeen, Dense, TombChains, StopsAt;
    ghost var good := CanStart(o.schema, w, o.st, o.me) && LinksSpeak(net, silent);
    ghost var unread, unnamed;
    if good {
      CanStartSynced(o.schema, w, o.st, o.me);
    }
    ok, unread := o.RefreshEpoch(net, silent, w.Standing(), LogLen(w));
    AbsentIsWithin(net, unread, (o.st.epoch, o.st.sealedMax), o.st.writers);
    if !ok {
      return;
    }
    ghost var st1 := o.st;
    ok, unnamed := o.RefreshWriters(net, silent, w.Standing(), LogLen(w));
    AbsentIsWithin(net, unnamed, (o.st.epoch, o.st.sealedMax), o.st.writers);
    if !ok {
      return;
    }
    if good {
      StartedWarm(o.schema, w, old(o.st), st1, o.st, o.me);
      WritersKnown(o.schema, w, o.st, o.me);
    }
    ghost var untaken;
    var tombs;
    tombs, untaken := RefreshTombs(net, o.st, o.me, Elements(o.st.writers), silent, o.schema, w.Standing());
    if tombs.Failure? {
      return false;
    }
    if good {
      AbsentIsTaken(net, untaken, tombs.value.tombRids);
      EntriesOnWalk(o.schema, w, w.Epochs());
      assert TombsSeen(w.net, o.st, w.Standing()) by { WarmSeen(w, o.st, o.me); }
      ReadyNow(o.schema, w, o.st, tombs.value, o.me);
    }
    o.st := tombs.value;
  }

  lemma CanStartSynced(schema: Schema, w: World, st: State, me: Writer)
    requires CanStart(schema, w, st, me)
    ensures Synced(w.net, st) && Dense(w.net, EpochChain) && Dense(w.net, RegistryChain)
  {
    hide Inv, Hidden, CountedWithin, TombsSeen, MarksOf, NamesOf, Dense;
  }

  lemma WarmSeen(w: World, st: State, me: Writer)
    requires Warm(w, st, me)
    ensures TombsSeen(w.net, st, w.Standing()) && Synced(w.net, st)
  {
    hide TombsSeen, Synced;
  }

  /** Both refreshes, on a network whose links answer. */
  lemma StartedWarm(schema: Schema, w: World, st0: State, st1: State, st: State, me: Writer)
    requires CanStart(schema, w, st0, me)
    requires Trusted(schema, w.net, w.Standing(), st0, me, LogLen(w)) ==>
               Trusted(schema, w.net, w.Standing(), st1, me, LogLen(w))
    requires Trusted(schema, w.net, w.Standing(), st1, me, LogLen(w)) ==>
               Trusted(schema, w.net, w.Standing(), st, me, LogLen(w))
    ensures CanStart(schema, w, st, me)
  {
    hide Inv, Warm, Hidden, Trusted;
    WarmIsTrusted(schema, w, st0, me);
    WarmIsTrusted(schema, w, st, me);
  }

  /** The loop over batches. */
  method WalkUnits(o: Owner, net: Net, preds: seq<Predicate>, driver: Field, order: Order, units: seq<Dyadic.Label>,
                   batch: nat, after: Cursor,
                   limit: Option<int>, silent: set<Key>, ghost p: Plan, ghost w: World)
    returns (r: Result<seq<Row>, set<Key>>)
    requires p.Valid() && net == w.net && o.schema == p.schema && preds == p.preds && driver == p.driver
             && order == p.order
    requires p.table == w.Standing() && units == p.units && batch == p.batch
    requires forall d :: d in p.units ==> ReachedLabel(p.schema, Of(p.driver, d))
    modifies o`st
    ensures silent == {} ==> r.Success?
    ensures old(Ready(p.schema, w, o.st, o.me)) && r.Success? ==> AllTrue(p, r.value)
    ensures old(Ready(p.schema, w, o.st, o.me)) && Speaks(w, silent) && r.Success? ==>
              r.value == Limited(From(p, after), limit)
  {
    hide Ready, Speaks, ReachedLabel, BatchRows, Spec, From, Limited, TrueRow, HeardOf, RowsFor, ChunkChains,
         EndWhereHeard;
    ghost var ready := Ready(p.schema, w, o.st, o.me);
    ghost var good := ready && Speaks(w, silent);
    var out: seq<Row>, base := [], after.unit;
    NothingYet(p, after, limit);
    while base < |units|
      invariant limit.Some? ==> |out| < Max(limit.value, 1)
      invariant ready ==> Ready(p.schema, w, o.st, o.me) && AllTrue(p, out)
      invariant good ==> if base == after.unit then out == [] else out + Spec(p, base) == From(p, after)
      invariant base >= after.unit
      decreases |units| - base
    {
      var rows;
      ghost var unheard, missed;
      ghost var st0 := o.st;
      rows, unheard, missed := StreamBatch(o, net, preds, driver, order, Chunk(units, base, batch), base, silent, p, w);
      if rows.Failure? {
        return Failure(rows.error);
      }
      var skip := if base == after.unit then after.n else 0;
      ghost var before := out;
      var full;
      out, full := Deliver(out, rows.value, skip, limit);
      if ready {
        ghost var chains := ChunkChains(driver, Chunk(units, base, batch), st0);
        ghost var found :| BatchGives(p, Chunk(units, base, batch), w, st0, o.st, o.me, chains, unheard, missed, found)
                           && rows.value == RowsFor(p, base, found.Keys);
        HeardAreTrue(p, base, found.Keys, net, chains, o.st, o.me, unheard, missed);
        StillTrue(p, before, rows.value, skip, limit);
      }
      if good {
        DeliverStep(p, after, base, before, skip, limit);
      }
      if full {
        return Success(out);
      }
      StillOpen(before + rows.value[Min(skip, |rows.value|)..], limit);
      base := base + batch;
    }
    SpecDone(p, base);
    assert out + [] == out;
    StillOpen(out, limit);
    return Success(out);
  }

  /** A row that belongs into the stream: a record that stands, as it was inserted, inside every range whose field it
      carries. */
  ghost predicate TrueRow(p: Plan, row: Row)
    requires p.Valid()
  {
    && p.table.Live(row.rid) && row.rec == p.table.inserted[row.rid] && p.driver in row.rec
    && Dyadic.Covers(p.schema[p.driver].bits, p.units, row.rec[p.driver]) && PassesFilter(p.schema, row.rec, p.preds)
  }

  ghost predicate AllTrue(p: Plan, rows: seq<Row>)
    requires p.Valid()
  {
    forall row :: row in rows ==> TrueRow(p, row)
  }

  lemma HeardAreTrue(p: Plan, base: nat, rids: set<Rid>, net: Net, chains: set<Chain>, st: State, me: Writer,
                     unheard: set<Key>, missed: set<Key>)
    requires p.Valid() && rids == HeardOf(p, Chunk(p.units, base, p.batch), net, chains, st, me, unheard, missed)
    ensures AllTrue(p, RowsFor(p, base, rids))
  {
    hide Sorted, PassesFilter, CameBack;
    var ids := Sorted(p, rids);
    SortedElements(p, rids);
    forall row | row in RowsFor(p, base, rids) ensures TrueRow(p, row) {
      var n :| 0 <= n < |ids| && row == RowsFor(p, base, rids)[n];
      assert ids[n] in Elements(ids);
      ChunkInUnits(p, base, row.rec[p.driver]);
    }
  }

  lemma ChunkInUnits(p: Plan, base: nat, v: int)
    requires p.Valid() && Dyadic.Covers(p.schema[p.driver].bits, Chunk(p.units, base, p.batch), v)
    ensures Dyadic.Covers(p.schema[p.driver].bits, p.units, v)
  {
    hide Dyadic.Contains;
    var chunk := Chunk(p.units, base, p.batch);
    var i :| 0 <= i < |chunk| && Dyadic.Contains(p.schema[p.driver].bits, chunk[i], v);
    assert p.units[base + i] == chunk[i];
  }

  lemma StillTrue(p: Plan, before: seq<Row>, rows: seq<Row>, skip: nat, limit: Option<int>)
    requires p.Valid() && AllTrue(p, before) && AllTrue(p, rows)
    ensures AllTrue(p, Limited(before + rows[Min(skip, |rows|)..], limit))
  {
    hide TrueRow;
  }

  lemma NothingYet(p: Plan, after: Cursor, limit: Option<int>)
    requires p.Valid()
    ensures after.unit >= |p.units| ==> Limited(From(p, after), limit) == []
  {
  }

  lemma StillOpen(all: seq<Row>, limit: Option<int>)
    ensures !(limit.Some? && |all| >= Max(limit.value, 1)) ==> Limited(all, limit) == all
  {
  }

  lemma SpecDone(p: Plan, base: nat)
    requires p.Valid()
    ensures base >= |p.units| ==> Spec(p, base) == []
  {
  }

  /** Stream matching records from a cursor on, over a network that does not change, with some keys silent while the
      stream is prepared and some while it is walked. If entries answer while it is prepared, every row delivered
      belongs to the stream; if entries and live records answer while it is walked, too, the rows are the stream from
      there, cut at the limit. */
  method QueryStream(o: Owner, net: Net, preds: seq<Predicate>, driver: Field, order: Order, batch: nat, after: Cursor,
                     limit: Option<int>,
                     before: set<Key>, silent: set<Key>, ghost w: World)
    returns (r: Result<seq<Row>, set<Key>>)
    requires net == w.net && ValidSchema(o.schema) && KnownFields(o.schema, preds) && batch >= 1
    requires (exists q :: q in preds && q.field == driver) && (order.By? ==> order.field == driver)
    requires Inv(o.schema, w)
    requires var (a, b) := RangeOf(o.schema, preds, driver);
             order.By? && driver in o.schema ==>
                 Dyadic.InDomain(o.schema[driver].bits, a) && Dyadic.InDomain(o.schema[driver].bits, b)
    modifies o`st
    ensures before == {} && silent == {} ==> r.Success?
    ensures old(CanStart(o.schema, w, o.st, o.me)) && LinksSpeak(net, before) && r.Success? ==>
              AllTrue(PlanOf(o.schema, w.Standing(), preds, driver, order, batch), r.value)
    ensures old(CanStart(o.schema, w, o.st, o.me)) && LinksSpeak(net, before) && Speaks(w, silent) && r.Success? ==>
              r.value == Limited(From(PlanOf(o.schema, w.Standing(), preds, driver, order, batch), after), limit)
  {
    hide Ready, Speaks, ReachedLabel, CanStart, Inv, LinksSpeak, Units, RangeOf, BoundsOf, ValidSchema, Dyadic.InDomain,
         From, Limited, TrueRow, World.Standing;
    DriverKnown(o.schema, preds, driver);
    var (a, b) := RangeOf(o.schema, preds, driver);
    UnitsExactly(o.schema, driver, a, b, order);
    UnitsAreReached(o.schema, driver, Units(o.schema, driver, a, b, order), a, b);
    var ok := Prepare(o, net, before, w);
    if !ok {
      return Failure(before);
    }
    r := WalkUnits(o, net, preds, driver, order, Units(o.schema, driver, a, b, order), batch, after, limit, silent,
                   PlanOf(o.schema, w.Standing(), preds, driver, order, batch), w);
  }

  lemma DeliverStep(p: Plan, after: Cursor, base: nat, before: seq<Row>, skip: nat, limit: Option<int>)
    requires p.Valid() && base < |p.units| && base >= after.unit
    requires skip == if base == after.unit then after.n else 0
    requires if base == after.unit then before == [] else before + Spec(p, base) == From(p, after)
    ensures var all := before + BatchRows(p, base)[Min(skip, |BatchRows(p, base)|)..];
            && all + Spec(p, base + p.batch) == From(p, after)
            && (limit.Some? && |all| >= Max(limit.value, 1) ==> Limited(all, limit) == Limited(From(p, after), limit))
            && (!(limit.Some? && |all| >= Max(limit.value, 1)) ==> Limited(all, limit) == all)
  {
    hide BatchRows, Spec, Limited;
    var rows := BatchRows(p, base);
    var all := before + rows[Min(skip, |rows|)..];
    SpecStep(p, base);
    LimitedShort(all, limit);
    if base != after.unit {
      assert rows[0..] == rows;
      assert before + (rows + Spec(p, base + p.batch)) == (before + rows) + Spec(p, base + p.batch);
    }
    LimitedPrefix(all, Spec(p, base + p.batch), limit);
  }

  lemma UnitsAreReached(schema: Schema, f: Field, units: seq<Dyadic.Label>, a: int, b: int)
    requires f in schema && Exactly(schema, f, units, a, b)
    ensures forall d :: d in units ==> ReachedLabel(schema, Of(f, d))
  {
  }

  lemma WritersKnown(schema: Schema, w: World, st: State, me: Writer)
    requires CanStart(schema, w, st, me)
    requires Dense(w.net, EpochChain) && Dense(w.net, RegistryChain)
    requires st.epochLen == EndOf(w.net, EpochChain) && st.regLen == EndOf(w.net, RegistryChain)
    ensures Elements(st.writers) == w.writers && st.Epochs() == w.Epochs()
  {
    hide Inv, Hidden, CountedWithin, TombsSeen, MarksOf, NamesOf, Dense;
    SystemRead(schema, w, st, me);
    assert Elements(st.writers) == (set u | u in st.writers);
  }
}
