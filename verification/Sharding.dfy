/** Several databases read as one: merging ordered streams, interleaving unordered ones, and adding up histograms
    (ShardedOwner.query_stream, histogram, approx_sum, _interleave, _tag and _untag in blindrange/sharded.py). */
module Sharding {
  import opened Basics
  import opened Aggregates
  import Dyadic
  import Index
  import Streaming

  /** A row as the merge sees it: its shard, what it is ordered by, and the row itself. */
  datatype Tagged<T> = Tagged(shard: nat, key: int, row: T)

  // ------------------------------------------------------------ the ordered merge

  /** a is to come no later than b. */
  predicate NotAfter(desc: bool, a: int, b: int) {
    if desc then a >= b else a <= b
  }

  ghost predicate InOrder<T>(desc: bool, s: seq<Tagged<T>>) {
    forall i, j :: 0 <= i < j < |s| ==> if desc then s[i].key >= s[j].key else s[i].key <= s[j].key
  }

  /** Rows of each stream carry the stream's number. */
  ghost predicate OwnRows<T>(streams: seq<seq<Tagged<T>>>) {
    forall n, i :: 0 <= n < |streams| && 0 <= i < |streams[n]| ==> streams[n][i].shard == n
  }

  function Size<T>(streams: seq<seq<T>>): nat {
    if streams == [] then 0 else Size(streams[..|streams| - 1]) + |streams[|streams| - 1]|
  }

  /** The stream to take from next: the first whose head comes no later than any other head. */
  function Next<T>(desc: bool, streams: seq<seq<Tagged<T>>>): (k: nat)
    requires Size(streams) > 0
    ensures k < |streams| && streams[k] != []
    ensures forall n :: 0 <= n < |streams| && streams[n] != [] ==> NotAfter(desc, streams[k][0].key, streams[n][0].key)
    ensures forall n :: 0 <= n < k && streams[n] != [] ==> !NotAfter(desc, streams[n][0].key, streams[k][0].key)
  {
    var init, last := streams[..|streams| - 1], streams[|streams| - 1];
    if Size(init) == 0 then
      EmptyStreams(init);
      |streams| - 1
    else
      var k := Next(desc, init);
      if last != [] && !NotAfter(desc, init[k][0].key, last[0].key) then |streams| - 1 else k
  }

  lemma {:induction false} EmptyStreams<T>(streams: seq<seq<T>>)
    requires Size(streams) == 0
    ensures forall n :: 0 <= n < |streams| ==> streams[n] == []
  {
    if streams != [] {
      EmptyStreams(streams[..|streams| - 1]);
    }
  }

  lemma {:induction false} SizeWithout<T>(streams: seq<seq<T>>, k: nat)
    requires k < |streams| && streams[k] != []
    ensures Size(streams[k := streams[k][1..]]) == Size(streams) - 1
  {
    var init := streams[..|streams| - 1];
    var less := streams[k := streams[k][1..]];
    if k < |streams| - 1 {
      SizeWithout(init, k);
      assert less[..|less| - 1] == init[k := streams[k][1..]];
    } else {
      assert less[..|less| - 1] == init;
    }
  }

  /** What a heap merge of sorted streams yields; of equal heads the one of the earlier stream first. */
  function Merged<T>(desc: bool, streams: seq<seq<Tagged<T>>>): seq<Tagged<T>>
    decreases Size(streams)
  {
    if Size(streams) == 0 then []
    else
      var k := Next(desc, streams);
      SizeWithout(streams, k);
      [streams[k][0]] + Merged(desc, streams[k := streams[k][1..]])
  }

  method Merge<T>(desc: bool, streams: seq<seq<Tagged<T>>>, limit: Option<nat>) returns (out: seq<Tagged<T>>)
    ensures out == Cut(Merged(desc, streams), limit)
  {
    out := [];
    var heads := streams;
    while Size(heads) > 0
      invariant out + Merged(desc, heads) == Merged(desc, streams)
      invariant limit.Some? ==> |out| <= limit.value
      decreases Size(heads)
    {
      if limit.Some? && |out| >= limit.value {
        return out;
      }
      var k := Next(desc, heads);
      SizeWithout(heads, k);
      assert out + ([heads[k][0]] + Merged(desc, heads[k := heads[k][1..]])) == (out + [heads[k][0]]) + Merged(desc,
             heads[k := heads[k][1..]]);
      out := out + [heads[k][0]];
      heads := heads[k := heads[k][1..]];
    }
    assert out + [] == out;
  }

  function Cut<T>(s: seq<T>, limit: Option<nat>): seq<T> {
    if limit.Some? && limit.value < |s| then s[..limit.value] else s
  }

  /** Rows of one shard, in the order they appear. */
  function Of<T>(s: seq<Tagged<T>>, n: nat): seq<Tagged<T>> {
    if s == [] then [] else (if s[0].shard == n then [s[0]] else []) + Of(s[1..], n)
  }

  /** The merge keeps every shard's rows, all of them, in the shard's own order. */
  lemma {:induction false} MergeKeepsShards<T>(desc: bool, streams: seq<seq<Tagged<T>>>, n: nat)
    requires OwnRows(streams) && n < |streams|
    ensures Of(Merged(desc, streams), n) == streams[n]
    decreases Size(streams)
  {
    if Size(streams) == 0 {
      EmptyStreams(streams);
    } else {
      var k := Next(desc, streams);
      SizeWithout(streams, k);
      MergeKeepsShards(desc, streams[k := streams[k][1..]], n);
      var m := Merged(desc, streams);
      assert m[1..] == Merged(desc, streams[k := streams[k][1..]]);
      assert streams[k] == [streams[k][0]] + streams[k][1..];
    }
  }

  lemma {:induction false} MergedFrom<T>(desc: bool, streams: seq<seq<Tagged<T>>>, r: Tagged<T>)
    requires r in Merged(desc, streams)
    ensures exists n :: 0 <= n < |streams| && r in streams[n]
    decreases Size(streams)
  {
    var k := Next(desc, streams);
    SizeWithout(streams, k);
    if r != streams[k][0] {
      var less := streams[k := streams[k][1..]];
      MergedFrom(desc, less, r);
      var n :| 0 <= n < |less| && r in less[n];
      assert r in streams[n];
    }
  }

  /** Merging sorted streams gives a sorted stream. */
  lemma {:induction false} MergeSorted<T>(desc: bool, streams: seq<seq<Tagged<T>>>)
    requires forall n :: 0 <= n < |streams| ==> InOrder(desc, streams[n])
    ensures InOrder(desc, Merged(desc, streams))
    decreases Size(streams)
  {
    if Size(streams) > 0 {
      var k := Next(desc, streams);
      SizeWithout(streams, k);
      var less := streams[k := streams[k][1..]];
      MergeSorted(desc, less);
      var rest := Merged(desc, less);
      forall j | 0 <= j < |rest| ensures NotAfter(desc, streams[k][0].key, rest[j].key) {
        MergedFrom(desc, less, rest[j]);
        HeadFirst(desc, streams, k, less, rest[j]);
      }
    }
  }

  lemma HeadFirst<T>(desc: bool, streams: seq<seq<Tagged<T>>>, k: nat, less: seq<seq<Tagged<T>>>, r: Tagged<T>)
    requires forall n :: 0 <= n < |streams| ==> InOrder(desc, streams[n])
    requires Size(streams) > 0 && k == Next(desc, streams) && less == streams[k := streams[k][1..]]
    requires exists n :: 0 <= n < |less| && r in less[n]
    ensures NotAfter(desc, streams[k][0].key, r.key)
  {
    var n :| 0 <= n < |less| && r in less[n];
    assert r in streams[n];
    var i :| 0 <= i < |streams[n]| && streams[n][i] == r;
    assert i > 0 ==> NotAfter(desc, streams[n][0].key, r.key);
  }

  /** Of rows with equal keys those of an earlier stream come first. */
  ghost predicate Stable<T>(s: seq<Tagged<T>>) {
    forall i, j :: 0 <= i < j < |s| && s[i].key == s[j].key ==> s[i].shard <= s[j].shard
  }

  lemma {:induction false} MergeStable<T>(desc: bool, streams: seq<seq<Tagged<T>>>)
    requires OwnRows(streams) && forall n :: 0 <= n < |streams| ==> InOrder(desc, streams[n])
    ensures Stable(Merged(desc, streams))
    decreases Size(streams)
  {
    if Size(streams) > 0 {
      var k := Next(desc, streams);
      SizeWithout(streams, k);
      var less := streams[k := streams[k][1..]];
      MergeStable(desc, less);
      var rest := Merged(desc, less);
      forall j | 0 <= j < |rest| && rest[j].key == streams[k][0].key ensures k <= rest[j].shard {
        MergedFrom(desc, less, rest[j]);
        TieBehind(desc, streams, k, less, rest[j]);
      }
    }
  }

  lemma TieBehind<T>(desc: bool, streams: seq<seq<Tagged<T>>>, k: nat, less: seq<seq<Tagged<T>>>, r: Tagged<T>)
    requires OwnRows(streams) && forall n :: 0 <= n < |streams| ==> InOrder(desc, streams[n])
    requires Size(streams) > 0 && k == Next(desc, streams) && less == streams[k := streams[k][1..]]
    requires (exists n :: 0 <= n < |less| && r in less[n]) && r.key == streams[k][0].key
    ensures k <= r.shard
  {
    var n :| 0 <= n < |less| && r in less[n];
    assert r in streams[n];
    var i :| 0 <= i < |streams[n]| && streams[n][i] == r;
    assert i > 0 ==> NotAfter(desc, streams[n][0].key, r.key);
  }

  /** Streams cut short where a merge of so many rows cannot see it. */
  ghost predicate LongEnough<T>(full: seq<seq<T>>, cut: seq<seq<T>>, rows: nat) {
    && |cut| == |full|
    && forall n :: 0 <= n < |full| ==> cut[n] <= full[n] && (cut[n] == full[n] || |cut[n]| >= rows)
  }

  lemma {:induction false} SizeZero<T>(full: seq<seq<T>>, cut: seq<seq<T>>, rows: nat)
    requires LongEnough(full, cut, rows) && rows > 0
    ensures Size(cut) == 0 <==> Size(full) == 0
  {
    if full != [] {
      SizeZero(full[..|full| - 1], cut[..|cut| - 1], rows);
    }
  }

  lemma SameNext<T>(desc: bool, full: seq<seq<Tagged<T>>>, cut: seq<seq<Tagged<T>>>, rows: nat)
    requires LongEnough(full, cut, rows) && rows > 0 && Size(full) > 0 && Size(cut) > 0
    ensures Next(desc, cut) == Next(desc, full)
  {
    var a, b := Next(desc, cut), Next(desc, full);
    forall n | 0 <= n < |full|
      ensures (cut[n] == [] <==> full[n] == []) && (full[n] != [] ==> cut[n][0] == full[n][0]) {
    }
  }

  lemma LongEnoughTail<T>(full: seq<seq<T>>, cut: seq<seq<T>>, rows: nat, k: nat)
    requires LongEnough(full, cut, rows) && rows > 0 && k < |full| && full[k] != []
    ensures cut[k] != [] && cut[k][0] == full[k][0]
    ensures LongEnough(full[k := full[k][1..]], cut[k := cut[k][1..]], rows - 1)
  {
  }

  /** Passing the limit on to every shard does not change what the merge delivers within it. */
  lemma {:induction false} LimitPassesOn<T>(desc: bool, full: seq<seq<Tagged<T>>>, cut: seq<seq<Tagged<T>>>, rows: nat)
    requires LongEnough(full, cut, rows)
    ensures Cut(Merged(desc, cut), Some(rows)) == Cut(Merged(desc, full), Some(rows))
    decreases rows
  {
    hide LongEnough, Cut;
    if rows == 0 {
      CutNone(Merged(desc, cut), Merged(desc, full));
    } else {
      SizeZero(full, cut, rows);
      if Size(full) > 0 {
        SameNext(desc, full, cut, rows);
        var k := Next(desc, full);
        SameWidth(full, cut, rows);
        LongEnoughTail(full, cut, rows, k);
        SizeWithout(full, k);
        SizeWithout(cut, k);
        var full', cut' := full[k := full[k][1..]], cut[k := cut[k][1..]];
        LimitPassesOn(desc, full', cut', rows - 1);
        CutCons(full[k][0], Merged(desc, full'), rows);
        CutCons(cut[k][0], Merged(desc, cut'), rows);
      }
    }
  }

  lemma SameWidth<T>(full: seq<seq<T>>, cut: seq<seq<T>>, rows: nat)
    requires LongEnough(full, cut, rows)
    ensures |cut| == |full|
  {
  }

  lemma CutNone<T>(s: seq<T>, t: seq<T>)
    ensures Cut(s, Some(0)) == [] == Cut(t, Some(0))
  {
  }

  lemma CutCons<T>(x: T, s: seq<T>, rows: nat)
    requires rows > 0
    ensures Cut([x] + s, Some(rows)) == [x] + Cut(s, Some(rows - 1))
  {
  }

  // ------------------------------------------------------------ the shards' own streams

  /** The value a merge looks up in a row. */
  function KeyOf(f: string, row: Streaming.Row): int {
    if f in row.rec then row.rec[f] else 0
  }

  function TaggedRows(n: nat, f: string, rows: seq<Streaming.Row>): (out: seq<Tagged<Streaming.Row>>)
    ensures |out| == |rows|
  {
    seq(|rows|, i requires 0 <= i < |rows| => Tagged(n, KeyOf(f, rows[i]), rows[i]))
  }

  /** What one shard is asked for: the rows in its range, ordered by an integer field. */
  ghost predicate OrderedBy(p: Streaming.Plan, f: string, desc: bool, a: int, b: int) {
    && p.Valid() && p.order == Streaming.By(f, desc)
    && Dyadic.InDomain(p.schema[f].bits, a) && Dyadic.InDomain(p.schema[f].bits, b)
    && p.units == Streaming.Units(p.schema, f, a, b, p.order)
  }

  /** A shard's stream comes in the order the merge relies on. */
  lemma ShardSorted(p: Streaming.Plan, f: string, desc: bool, a: int, b: int, n: nat)
    requires OrderedBy(p, f, desc, a, b)
    ensures InOrder(desc, TaggedRows(n, f, Streaming.Spec(p, 0)))
  {
    hide Streaming.Units, Streaming.Spec, Streaming.InOrder, Disjoint;
    Streaming.UnitsInOrder(p, a, b);
    Streaming.UnitsExactly(p.schema, f, a, b, p.order);
    var rows := Streaming.Spec(p, 0);
    forall i, j | 0 <= i < j < |rows| ensures NotAfter(desc, KeyOf(f, rows[i]), KeyOf(f, rows[j])) {
      Streaming.StreamSorted(p, 0, i, j);
      Streaming.SpecRow(p, 0, i);
      Streaming.SpecRow(p, 0, j);
    }
  }

  /** Rows are keyed by their value of the field. */
  ghost predicate Keyed(f: string, s: seq<Tagged<Streaming.Row>>) {
    forall r :: r in s ==> f in r.row.rec && r.key == r.row.rec[f]
  }

  lemma ShardKeyed(p: Streaming.Plan, f: string, desc: bool, a: int, b: int, n: nat)
    requires OrderedBy(p, f, desc, a, b)
    ensures Keyed(f, TaggedRows(n, f, Streaming.Spec(p, 0)))
  {
    hide Streaming.Units, Streaming.Spec, Disjoint;
    Streaming.UnitsExactly(p.schema, f, a, b, p.order);
    var rows := Streaming.Spec(p, 0);
    forall i | 0 <= i < |rows| ensures f in rows[i].rec {
      Streaming.RowMatches(p, i);
    }
  }

  lemma MergedKeyed(desc: bool, f: string, streams: seq<seq<Tagged<Streaming.Row>>>)
    requires forall n :: 0 <= n < |streams| ==> Keyed(f, streams[n])
    ensures Keyed(f, Merged(desc, streams))
  {
    hide Merged;
    forall r | r in Merged(desc, streams) ensures f in r.row.rec && r.key == r.row.rec[f] {
      MergedFrom(desc, streams, r);
    }
  }

  /** Every shard's whole stream. */
  ghost function Whole(plans: seq<Streaming.Plan>, f: string): (streams: seq<seq<Tagged<Streaming.Row>>>)
    requires forall n :: 0 <= n < |plans| ==> plans[n].Valid()
    ensures |streams| == |plans|
  {
    seq(|plans|, n requires 0 <= n < |plans| => TaggedRows(n, f, Streaming.Spec(plans[n], 0)))
  }

  /** What every shard delivers when it is passed the limit. */
  ghost function Delivered(plans: seq<Streaming.Plan>, f: string,
                           limit: Option<nat>): (streams: seq<seq<Tagged<Streaming.Row>>>)
    requires forall n :: 0 <= n < |plans| ==> plans[n].Valid()
    ensures |streams| == |plans|
  {
    seq(|plans|, n requires 0 <= n < |plans| => TaggedRows(n, f, Streaming.Limited(Streaming.Spec(plans[n], 0), limit)))
  }

  lemma TaggedCut(n: nat, f: string, rows: seq<Streaming.Row>, limit: Option<nat>)
    ensures var cut, full := TaggedRows(n, f, Streaming.Limited(rows, limit)), TaggedRows(n, f, rows);
            cut <= full && (cut == full || (limit.Some? && |cut| >= limit.value))
  {
    assert TaggedRows(n, f, Streaming.Limited(rows, limit)) == TaggedRows(n, f,
           rows)[..|Streaming.Limited(rows, limit)|];
  }

  /** A sharded stream ordered by an integer field, end to end: what is delivered within the limit is the merge of the
      shards' whole streams cut there, sorted throughout, with each shard's rows in their own order. */
  lemma ShardedStream(plans: seq<Streaming.Plan>, f: string, desc: bool, a: int, b: int, limit: Option<nat>)
    requires forall n :: 0 <= n < |plans| ==> plans[n].Valid() && OrderedBy(plans[n], f, desc, a, b)
    ensures Cut(Merged(desc, Delivered(plans, f, limit)), limit) == Cut(Merged(desc, Whole(plans, f)), limit)
    ensures InOrder(desc, Merged(desc, Whole(plans, f)))
            && InOrder(desc, Cut(Merged(desc, Delivered(plans, f, limit)), limit))
    ensures forall n :: 0 <= n < |plans| ==>
              Of(Merged(desc, Whole(plans, f)), n) == TaggedRows(n, f, Streaming.Spec(plans[n], 0))
    ensures Stable(Merged(desc, Whole(plans, f))) && Keyed(f, Merged(desc, Whole(plans, f)))
  {
    hide OrderedBy, InOrder, Stable, Keyed, Merged, Streaming.Spec, Streaming.Limited, TaggedRows;
    var full, cut := Whole(plans, f), Delivered(plans, f, limit);
    forall n | 0 <= n < |plans|
      ensures InOrder(desc, full[n]) && Keyed(f, full[n])
      ensures cut[n] <= full[n] && (cut[n] == full[n] || (limit.Some? && |cut[n]| >= limit.value))
    {
      ShardSorted(plans[n], f, desc, a, b, n);
      ShardKeyed(plans[n], f, desc, a, b, n);
      TaggedCut(n, f, Streaming.Spec(plans[n], 0), limit);
    }
    MergeSorted(desc, full);
    if limit.Some? {
      LimitPassesOn(desc, full, cut, limit.value);
    } else {
      assert full == cut;
    }
    CutSorted(desc, Merged(desc, full), limit);
    OwnTags(plans, f);
    MergeStable(desc, full);
    MergedKeyed(desc, f, full);
    forall n | 0 <= n < |plans| ensures Of(Merged(desc, full), n) == full[n] {
      MergeKeepsShards(desc, full, n);
    }
  }

  lemma CutSorted<T>(desc: bool, s: seq<Tagged<T>>, limit: Option<nat>)
    requires InOrder(desc, s)
    ensures InOrder(desc, Cut(s, limit))
  {
  }

  lemma OwnTags(plans: seq<Streaming.Plan>, f: string)
    requires forall n :: 0 <= n < |plans| ==> plans[n].Valid()
    ensures OwnRows(Whole(plans, f))
  {
    hide Streaming.Spec;
  }

  // ------------------------------------------------------------ the unordered merge

  /** What has been yielded and what is left make up the streams. */
  ghost predicate SharedOut<T>(streams: seq<seq<Tagged<T>>>, out: seq<Tagged<T>>, live: seq<seq<Tagged<T>>>) {
    && |live| == |streams| && OwnRows(live) && |out| + Size(live) == Size(streams)
    && forall n :: 0 <= n < |streams| ==> Of(out, n) + live[n] == streams[n]
  }

  lemma TakeOne<T>(streams: seq<seq<Tagged<T>>>, out: seq<Tagged<T>>, live: seq<seq<Tagged<T>>>, k: nat)
    requires SharedOut(streams, out, live) && k < |live| && live[k] != []
    ensures SharedOut(streams, out + [live[k][0]], live[k := live[k][1..]])
            && Size(live[k := live[k][1..]]) == Size(live) - 1
  {
    hide Of, Size;
    SizeWithout(live, k);
    var row, live' := live[k][0], live[k := live[k][1..]];
    forall n | 0 <= n < |streams| ensures Of(out + [row], n) + live'[n] == streams[n] {
      OfAppend(out, row, n);
      assert live[k] == [row] + live[k][1..];
    }
  }

  lemma StartShared<T>(streams: seq<seq<Tagged<T>>>)
    requires OwnRows(streams)
    ensures SharedOut(streams, [], streams)
  {
  }

  lemma EndShared<T>(streams: seq<seq<Tagged<T>>>, out: seq<Tagged<T>>, live: seq<seq<Tagged<T>>>)
    requires SharedOut(streams, out, live) && Size(live) == 0
    ensures forall n :: 0 <= n < |streams| ==> Of(out, n) == streams[n]
    ensures |out| == Size(streams)
  {
    hide Of;
    EmptyStreams(live);
    forall n | 0 <= n < |streams| ensures Of(out, n) == streams[n] {
      assert Of(out, n) + [] == Of(out, n);
    }
  }

  /** Rounds over the live streams, one row from each: every shard's rows, all of them, in the shard's own order. */
  method Interleave<T>(streams: seq<seq<Tagged<T>>>) returns (out: seq<Tagged<T>>)
    requires OwnRows(streams)
    ensures forall n :: 0 <= n < |streams| ==> Of(out, n) == streams[n]
    ensures |out| == Size(streams)
  {
    hide SharedOut, OwnRows, Of, Size;
    out := [];
    var live := streams;
    StartShared(streams);
    while Size(live) > 0
      invariant SharedOut(streams, out, live) && |live| == |streams|
      decreases Size(live)
    {
      ghost var before := Size(live);
      var k := 0;
      while k < |live|
        invariant k <= |live| == |streams| && SharedOut(streams, out, live) && Size(live) <= before
        invariant Size(live) == before ==> forall n :: 0 <= n < k ==> live[n] == []
      {
        if live[k] != [] {
          TakeOne(streams, out, live, k);
          out, live := out + [live[k][0]], live[k := live[k][1..]];
        }
        k := k + 1;
      }
      if Size(live) == before {
        AllEmpty(live);
      }
    }
    EndShared(streams, out, live);
  }

  lemma {:induction false} OfAppend<T>(s: seq<Tagged<T>>, r: Tagged<T>, n: nat)
    ensures Of(s + [r], n) == Of(s, n) + if r.shard == n then [r] else []
  {
    if s == [] {
      assert s + [r] == [r] && [r][1..] == [];
    } else {
      OfAppend(s[1..], r, n);
      assert (s + [r])[1..] == s[1..] + [r];
    }
  }

  lemma {:induction false} AllEmpty<T>(streams: seq<seq<T>>)
    requires forall n :: 0 <= n < |streams| ==> streams[n] == []
    ensures Size(streams) == 0
  {
    if streams != [] {
      AllEmpty(streams[..|streams| - 1]);
    }
  }

  // ------------------------------------------------------------ histograms of all shards

  /** What bars with the same ends add up to. */
  function CountAt(bars: seq<Bar>, lo: int, hi: int): nat {
    if bars == [] then 0
    else CountAt(bars[..|bars| - 1], lo, hi)
         + if bars[|bars| - 1].lo == lo && bars[|bars| - 1].hi == hi then bars[|bars| - 1].count else 0
  }

  function Flat(parts: seq<seq<Bar>>): seq<Bar> {
    if parts == [] then [] else Flat(parts[..|parts| - 1]) + parts[|parts| - 1]
  }

  /** What the bars of all shards with the same ends, and all their bars, add up to. */
  function ShardsAt(parts: seq<seq<Bar>>, lo: int, hi: int): nat {
    if parts == [] then 0 else ShardsAt(parts[..|parts| - 1], lo, hi) + CountAt(parts[|parts| - 1], lo, hi)
  }

  function ShardsSum(parts: seq<seq<Bar>>): nat {
    if parts == [] then 0 else ShardsSum(parts[..|parts| - 1]) + Sum(parts[|parts| - 1])
  }

  lemma {:induction false} CountConcat(x: seq<Bar>, y: seq<Bar>, lo: int, hi: int)
    ensures CountAt(x + y, lo, hi) == CountAt(x, lo, hi) + CountAt(y, lo, hi)
  {
    if y == [] {
      assert x + y == x;
    } else {
      CountConcat(x, y[..|y| - 1], lo, hi);
      assert (x + y)[..|x + y| - 1] == x + y[..|y| - 1];
    }
  }

  /** Adding up shard by shard is adding up all bars. */
  lemma {:induction false} FlatAdds(parts: seq<seq<Bar>>)
    ensures Sum(Flat(parts)) == ShardsSum(parts)
    ensures forall lo, hi :: CountAt(Flat(parts), lo, hi) == ShardsAt(parts, lo, hi)
    ensures forall n, b :: 0 <= n < |parts| && b in parts[n] ==> b in Flat(parts)
  {
    hide Sum, CountAt;
    if parts == [] {
      NoBars();
    } else {
      var init, last := parts[..|parts| - 1], parts[|parts| - 1];
      FlatAdds(init);
      SumConcat(Flat(init), last);
      forall lo, hi ensures CountAt(Flat(parts), lo, hi) == ShardsAt(parts, lo, hi) {
        CountConcat(Flat(init), last, lo, hi);
      }
      forall n, b | 0 <= n < |parts| && b in parts[n] ensures b in Flat(parts) {
        assert n < |init| ==> init[n] == parts[n];
      }
    }
  }

  lemma NoBars()
    ensures Sum([]) == 0 && forall lo, hi :: CountAt([], lo, hi) == 0
  {
  }

  ghost predicate Totals(bars: seq<Bar>, totals: map<(int, int), nat>) {
    && (forall b :: b in bars ==> (b.lo, b.hi) in totals)
    && (forall k :: k in totals ==> totals[k] == CountAt(bars, k.0, k.1))
  }

  /** The dictionary of totals, bar by bar. */
  method AddTotals(bars: seq<Bar>) returns (totals: map<(int, int), nat>)
    ensures Totals(bars, totals) && forall k :: k in totals ==> exists b :: b in bars && k == (b.lo, b.hi)
  {
    totals := map[];
    for i := 0 to |bars|
      invariant Totals(bars[..i], totals)
      invariant forall k :: k in totals ==> exists b :: b in bars && k == (b.lo, b.hi)
    {
      var b := bars[i];
      var key := (b.lo, b.hi);
      assert bars[..i + 1] == bars[..i] + [b] && bars[..i + 1][..i] == bars[..i];
      if key !in totals {
        NeverSeen(bars[..i], b.lo, b.hi);
      }
      totals := totals[key := (if key in totals then totals[key] else 0) + b.count];
    }
    assert bars[..|bars|] == bars;
  }

  lemma {:induction false} NeverSeen(bars: seq<Bar>, lo: int, hi: int)
    requires forall b :: b in bars ==> (b.lo, b.hi) != (lo, hi)
    ensures CountAt(bars, lo, hi) == 0
  {
    if bars != [] {
      NeverSeen(bars[..|bars| - 1], lo, hi);
      assert bars[|bars| - 1] in bars;
    }
  }

  predicate Earlier(a: (int, int), b: (int, int)) {
    a.0 < b.0 || (a.0 == b.0 && a.1 < b.1)
  }

  /** Keys in ascending order. */
  method SortKeys(keys: set<(int, int)>) returns (s: seq<(int, int)>)
    ensures Elements(s) == keys && NoDuplicates(s)
    ensures forall i, j :: 0 <= i < j < |s| ==> Earlier(s[i], s[j])
  {
    s := [];
    var todo := keys;
    while todo != {}
      invariant todo <= keys && Elements(s) == keys - todo
      invariant forall i, j :: 0 <= i < j < |s| ==> Earlier(s[i], s[j])
      invariant forall i, k :: 0 <= i < |s| && k in todo ==> Earlier(s[i], k)
      decreases todo
    {
      var k := First(todo);
      assert Elements(s + [k]) == Elements(s) + {k};
      s := s + [k];
      todo := todo - {k};
    }
  }

  method First(keys: set<(int, int)>) returns (k: (int, int))
    requires keys != {}
    ensures k in keys && forall x :: x in keys && x != k ==> Earlier(k, x)
  {
    k :| k in keys;
    var rest := keys - {k};
    while rest != {}
      invariant rest <= keys && k in keys
      invariant forall x :: x in keys && x !in rest && x != k ==> Earlier(k, x)
      decreases rest
    {
      var x :| x in rest;
      if Earlier(x, k) {
        k := x;
      }
      rest := rest - {x};
    }
  }

  function BarsAt(keys: seq<(int, int)>, totals: map<(int, int), nat>): (bars: seq<Bar>)
    requires forall k :: k in keys ==> k in totals
    ensures |bars| == |keys|
  {
    seq(|keys|, i requires 0 <= i < |keys| => Bar(keys[i].0, keys[i].1, totals[keys[i]]))
  }

  /** Adding up per pair of ends and then over the pairs is adding up. */
  lemma {:induction false} TotalsSum(bars: seq<Bar>, keys: seq<(int, int)>)
    requires NoDuplicates(keys) && forall b :: b in bars ==> (b.lo, b.hi) in keys
    ensures KeySum(bars, keys) == Sum(bars)
  {
    if bars == [] {
      NothingAt(keys);
    } else {
      var init, last := bars[..|bars| - 1], bars[|bars| - 1];
      assert bars == init + [last];
      TotalsSum(init, keys);
      assert last in bars;
      OneMoreBar(init, last, keys);
    }
  }

  function KeySum(bars: seq<Bar>, keys: seq<(int, int)>): nat {
    if keys == [] then 0
    else KeySum(bars, keys[..|keys| - 1]) + CountAt(bars, keys[|keys| - 1].0, keys[|keys| - 1].1)
  }

  lemma {:induction false} NothingAt(keys: seq<(int, int)>)
    ensures KeySum([], keys) == 0
  {
    if keys != [] {
      NothingAt(keys[..|keys| - 1]);
    }
  }

  lemma {:induction false} OneMoreBar(bars: seq<Bar>, b: Bar, keys: seq<(int, int)>)
    requires NoDuplicates(keys)
    ensures KeySum(bars + [b], keys) == KeySum(bars, keys) + if (b.lo, b.hi) in keys then b.count else 0
  {
    assert (bars + [b])[..|bars|] == bars;
    if keys != [] {
      OneMoreBar(bars, b, keys[..|keys| - 1]);
      assert keys == keys[..|keys| - 1] + [keys[|keys| - 1]];
    }
  }

  lemma {:induction false} SumAt(bars: seq<Bar>, keys: seq<(int, int)>, totals: map<(int, int), nat>)
    requires (forall k :: k in keys ==> k in totals) && forall k :: k in totals ==> totals[k] == CountAt(bars, k.0, k.1)
    ensures Sum(BarsAt(keys, totals)) == KeySum(bars, keys)
  {
    if keys != [] {
      SumAt(bars, keys[..|keys| - 1], totals);
      var at := BarsAt(keys, totals);
      assert at[..|at| - 1] == BarsAt(keys[..|keys| - 1], totals);
    }
  }

  ghost predicate HasEnds(whole: seq<Bar>, b: Bar) {
    exists i :: 0 <= i < |whole| && whole[i].lo == b.lo && whole[i].hi == b.hi
  }

  /** One bar for each pair of ends the shards' bars have, in ascending order, with all they add up to. */
  ghost predicate AddedUp(parts: seq<seq<Bar>>, whole: seq<Bar>) {
    && (forall b :: b in whole ==> b.count == ShardsAt(parts, b.lo, b.hi))
    && (forall n, b :: 0 <= n < |parts| && b in parts[n] ==> HasEnds(whole, b))
    && forall i, j :: 0 <= i < j < |whole| ==> Earlier((whole[i].lo, whole[i].hi), (whole[j].lo, whole[j].hi))
  }

  lemma WholeAdds(parts: seq<seq<Bar>>, keys: seq<(int, int)>, totals: map<(int, int), nat>)
    requires (forall k :: k in keys ==> k in totals) && Totals(Flat(parts), totals)
    requires forall b :: b in Flat(parts) ==> (b.lo, b.hi) in keys
    requires forall i, j :: 0 <= i < j < |keys| ==> Earlier(keys[i], keys[j])
    ensures AddedUp(parts, BarsAt(keys, totals))
  {
    FlatAdds(parts);
    var whole := BarsAt(keys, totals);
    forall b | b in whole ensures b.count == ShardsAt(parts, b.lo, b.hi) {
      var i :| 0 <= i < |keys| && whole[i] == b;
      assert totals[keys[i]] == CountAt(Flat(parts), b.lo, b.hi);
    }
    forall n, b | 0 <= n < |parts| && b in parts[n] ensures HasEnds(whole, b) {
      var i :| 0 <= i < |keys| && keys[i] == (b.lo, b.hi);
      assert whole[i].lo == b.lo && whole[i].hi == b.hi;
    }
    forall i, j | 0 <= i < j < |whole| ensures Earlier((whole[i].lo, whole[i].hi), (whole[j].lo, whole[j].hi)) {
      assert Earlier(keys[i], keys[j]);
    }
  }

  /** The histogram of all shards: bars add bucket by bucket, and only then are they merged down, neighbours with
      neighbours. The total is what the shards' histograms add up to. */
  method Histogram(parts: seq<seq<Bar>>, buckets: nat) returns (bars: seq<Bar>, ghost whole: seq<Bar>)
    ensures AddedUp(parts, whole) && forall bar :: bar in bars ==> exists i, j :: Groups(whole, i, j, bar)
    ensures Sum(bars) == ShardsSum(parts)
    ensures buckets > 0 ==> |bars| <= buckets
    ensures buckets == 0 ==> bars == whole
  {
    FlatAdds(parts);
    hide Sum, KeySum, CountAt, Groups;
    var all := Flat(parts);
    var totals := AddTotals(all);
    var keys := SortKeys(totals.Keys);
    forall k | k in keys ensures k in totals {
      assert k in Elements(keys);
    }
    forall b | b in all ensures (b.lo, b.hi) in keys {
      assert (b.lo, b.hi) in Elements(keys);
    }
    TotalsSum(all, keys);
    SumAt(all, keys, totals);
    whole := BarsAt(keys, totals);
    WholeAdds(parts, keys, totals);
    bars := Reduce(BarsAt(keys, totals), buckets);
  }

  // ------------------------------------------------------------ sums of all shards

  function SumReal(xs: seq<real>): real {
    if xs == [] then 0.0 else SumReal(xs[..|xs| - 1]) + xs[|xs| - 1]
  }

  /** Estimates and error bars both add: the total is within the total error when each part is within its own. */
  lemma {:induction false} ErrorsAdd(estimates: seq<real>, errors: seq<real>, sums: seq<real>)
    requires |estimates| == |errors| == |sums|
    requires forall i :: 0 <= i < |sums| ==> -errors[i] <= estimates[i] - sums[i] <= errors[i]
    ensures -SumReal(errors) <= SumReal(estimates) - SumReal(sums) <= SumReal(errors)
  {
    if sums != [] {
      ErrorsAdd(estimates[..|sums| - 1], errors[..|sums| - 1], sums[..|sums| - 1]);
    }
  }

  // ------------------------------------------------------------ tags

  function DigitValue(c: char): Option<nat> {
    if '0' <= c <= '9' then Some(c as int - '0' as int) else None
  }

  /** A decimal number, if that is what the text is. */
  function Number(s: string): Option<nat> {
    if s == [] then None
    else if |s| == 1 then DigitValue(s[0])
    else
      var high, low := Number(s[..|s| - 1]), DigitValue(s[|s| - 1]);
      if high.Some? && low.Some? then Some(10 * high.value + low.value) else None
  }

  lemma {:induction false} NumberOfDigits(n: nat)
    ensures Digits(n) != [] && Number(Digits(n)) == Some(n) && ':' !in Digits(n)
  {
    if n < 10 {
      OneDigit(n);
    } else {
      hide Number, Digit, DigitValue;
      NumberOfDigits(n / 10);
      OneDigit(n % 10);
      NumberStep(Digits(n / 10), Digit(n % 10));
    }
  }

  lemma OneDigit(d: nat)
    requires d < 10
    ensures DigitValue(Digit(d)) == Some(d) && Digit(d) != ':'
  {
  }

  lemma NumberStep(s: string, c: char)
    requires s != []
    ensures Number(s + [c]) == if Number(s).Some? && DigitValue(c).Some?
            then Some(10 * Number(s).value + DigitValue(c).value) else None
  {
    assert (s + [c])[..|s|] == s;
  }

  function Tag(n: nat, rid: string): string {
    "s" + Digits(n) + ":" + rid
  }

  /** The text before the first colon and after it. */
  function Partition(s: string): (string, string) {
    if s == [] then ([], [])
    else if s[0] == ':' then ([], s[1..])
    else
      var (head, tail) := Partition(s[1..]);
      ([s[0]] + head, tail)
  }

  function Untag(rid: string): Result<(nat, string), string> {
    var (n, bare) := Partition(rid);
    if bare == [] || n == [] || n[0] != 's' then Failure("not a sharded rid")
    else
      match Number(n[1..])
      case None => Failure("not a number")
      case Some(shard) => Success((shard, bare))
  }

  lemma {:induction false} PartitionAt(head: string, tail: string)
    requires ':' !in head
    ensures Partition(head + ":" + tail) == (head, tail)
  {
    var s := head + ":" + tail;
    if head == [] {
      assert s[1..] == tail;
    } else {
      PartitionAt(head[1..], tail);
      assert s[1..] == head[1..] + ":" + tail && s[0] == head[0];
      assert [head[0]] + head[1..] == head;
    }
  }

  /** A delete finds the shard that owns a handle: untagging undoes tagging, for every handle that is not empty. */
  lemma UntagTag(n: nat, rid: string)
    ensures Untag(Tag(n, rid)) == (if rid == [] then Failure("not a sharded rid") else Success((n, rid)))
  {
    NumberOfDigits(n);
    var head := "s" + Digits(n);
    PartitionAt(head, rid);
    assert Tag(n, rid) == head + ":" + rid;
    assert head[1..] == Digits(n);
  }
}
