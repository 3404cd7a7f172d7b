/** Deriving an epoch's label tree from its first level and the records, instead of descending it
    (Owner._derive_epoch in blindrange/client.py).

    Every record is appended to all levels at once, so the records named by level 1 tell how long every
    deeper chain is; ids whose records are gone still take up slots, and probes past the predicted ends
    make up for them. */
module Derivation {
  import opened Basics
  import opened Chains
  import opened Index
  import opened Query
  import opened Compaction
  import opened CompactionProof
  import opened EpochWalk
  import opened Probes
  import Dyadic

  // ------------------------------------------------------------ level 1

  function TopChains(schema: Schema, ep: nat, ws: set<Writer>): set<Chain> {
    (set f, u | f in schema && u in ws :: Index(Of(f, Dyadic.Label(1, 0)), ep, u))
    + (set f, u | f in schema && u in ws :: Index(Of(f, Dyadic.Label(1, 1)), ep, u))
  }

  datatype TopRead = TopRead(ends: map<Chain, nat>, got: Net)

  /** Level 1 has been read to its ends. */
  ghost predicate TopIsRead(schema: Schema, w: World, ep: nat, ws: set<Writer>, top: TopRead) {
    && top.ends.Keys == TopChains(schema, ep, ws)
    && (forall c :: c in top.ends ==> top.ends[c] == |w.Log(c)|)
    && KeysOf(w.net, TopChains(schema, ep, ws), top.got.Keys) && Truthful(w.net, top.got)
  }

  method ReadTop(schema: Schema, net: Net, ep: nat, ws: set<Writer>, silent: set<Key>, ghost w: World)
    returns (r: Result<TopRead, set<Key>>)
    requires net == w.net && Rendered(w.net, w.log, w.missing) && Whole(w, ep)
    ensures silent == {} ==> r.Success?
    ensures r.Success? ==> TopIsRead(schema, w, ep, ws, r.value)
  {
    hide StopsAt, Rendered, Whole, DenseTo;
    var found, _ := DiscoverEnds(net, map c | c in TopChains(schema, ep, ws) :: 0, silent);
    if found.Failure? {
      return Failure(found.error);
    }
    var ends := found.value;
    var got, bad := MGet(net, SlotsTo(ends), silent);
    if SlotsTo(ends) * bad != {} {
      return Failure(SlotsTo(ends) * bad);
    }
    NoneInCommon(SlotsTo(ends), bad);
    forall c | c in ends ensures ends[c] == |w.Log(c)| && DenseTo(net, c, ends[c]) {
      ChainAsLogged(w, c);
      StopOfDense(net, c, 0, |w.Log(c)|, ends[c]);
    }
    DenseSlots(net, ends, got);
    return Success(TopRead(ends, got));
  }

  lemma DenseSlots(net: Net, ends: map<Chain, nat>, got: Net)
    requires forall c :: c in ends ==> DenseTo(net, c, ends[c])
    requires got.Keys <= SlotsTo(ends) && Truthful(net, got)
    requires forall k :: k in SlotsTo(ends) && k in net ==> k in got
    ensures KeysOf(net, ends.Keys, got.Keys)
  {
    forall k: Key | k.Link? && k.chain in ends && k in net ensures k in got.Keys {
      assert k == Link(k.chain, k.i) && k in SlotsTo(ends);
    }
  }

  // ------------------------------------------------------------ whose records they are

  /** An entry read under a writer. */
  ghost predicate FromSlot(got: Net, r: Rid, u: Writer) {
    exists k :: k in got && k.Link? && k.chain.Index? && k.chain.writer == u && got[k] == Entry(r)
  }

  method Homes(got: Net) returns (home: map<Rid, Writer>)
    requires forall k :: k in got ==> k.Link? && k.chain.Index?
    ensures forall k :: k in got && got[k].Entry? ==> got[k].rid in home
    ensures forall r :: r in home ==> FromSlot(got, r, home[r])
  {
    home := map[];
    var todo := got.Keys;
    while todo != {}
      invariant todo <= got.Keys
      invariant forall k :: k in got && k !in todo && got[k].Entry? ==> got[k].rid in home
      invariant forall r :: r in home ==> FromSlot(got, r, home[r])
      decreases todo
    {
      var k :| k in todo;
      if got[k].Entry? {
        assert FromSlot(got, got[k].rid, k.chain.writer);
        home := home[got[k].rid := k.chain.writer];
      }
      todo := todo - {k};
    }
  }

  ghost predicate TopLabel(schema: Schema, l: ChainLabel) {
    ReachedLabel(schema, l) && l.node.level == 1
  }

  ghost predicate OnTop(schema: Schema, log: map<Chain, seq<Rid>>, ep: nat, u: Writer, r: Rid) {
    exists l :: TopLabel(schema, l) && Holds(log, l, ep, u, r)
  }

  /** The homes are exactly the writers that list the ids on level 1. */
  ghost predicate HomesOf(schema: Schema, w: World, ep: nat, ws: set<Writer>, home: map<Rid, Writer>) {
    forall r, u :: (r in home && home[r] == u) <==> (u in ws && OnTop(schema, w.log, ep, u, r))
  }

  lemma TopChainOf(schema: Schema, ep: nat, ws: set<Writer>, l: ChainLabel, u: Writer)
    requires ValidSchema(schema)
    ensures Index(l, ep, u) in TopChains(schema, ep, ws) <==> TopLabel(schema, l) && u in ws
  {
    assert Pow2(1) == 2;
    if TopLabel(schema, l) && u in ws {
      assert l == Of(l.field, Dyadic.Label(1, 0)) || l == Of(l.field, Dyadic.Label(1, 1));
    }
  }

  lemma TopIsHome(schema: Schema, w: World, ep: nat, ws: set<Writer>, top: TopRead, home: map<Rid, Writer>, r: Rid,
                  u: Writer)
    requires ValidSchema(schema) && Rendered(w.net, w.log, w.missing) && Whole(w, ep)
    requires TopIsRead(schema, w, ep, ws, top)
    requires forall k :: k in top.got && top.got[k].Entry? ==> top.got[k].rid in home
    requires u in ws && OnTop(schema, w.log, ep, u, r)
    ensures r in home
  {
    hide TopChains, TopLabel, Whole, Rendered, Dense, DenseTo;
    var l :| TopLabel(schema, l) && Holds(w.log, l, ep, u, r);
    var c := Index(l, ep, u);
    var j :| 0 <= j < |w.log[c]| && w.log[c][j] == r;
    ChainAsLogged(w, c);
    TopChainOf(schema, ep, ws, l, u);
    assert Link(c, j + 1) in top.got.Keys;
    assert top.got[Link(c, j + 1)] == Entry(r);
  }

  lemma HomeIsTop(schema: Schema, w: World, ep: nat, ws: set<Writer>, top: TopRead, r: Rid, u: Writer)
    requires ValidSchema(schema) && Rendered(w.net, w.log, w.missing)
    requires TopIsRead(schema, w, ep, ws, top) && FromSlot(top.got, r, u)
    ensures u in ws && OnTop(schema, w.log, ep, u, r)
  {
    hide TopChains, TopLabel;
    var k :| k in top.got && k.Link? && k.chain.Index? && k.chain.writer == u && top.got[k] == Entry(r);
    var c := k.chain;
    assert k in top.got.Keys && c in TopChains(schema, ep, ws);
    TopEpoch(schema, ep, ws, c);
    assert c == Index(c.w, ep, u) && k == Link(c, k.i);
    TopChainOf(schema, ep, ws, c.w, u);
    assert w.net[Link(c, k.i)] == Entry(w.log[c][k.i - 1]);
    assert TopLabel(schema, c.w) && r in w.log[c];
    TopIsField(schema, c.w);
    assert Holds(w.log, c.w, ep, u, r);
  }

  lemma TopIsField(schema: Schema, l: ChainLabel)
    ensures TopLabel(schema, l) ==> l.Of?
  {
  }

  lemma TopEpoch(schema: Schema, ep: nat, ws: set<Writer>, c: Chain)
    ensures c in TopChains(schema, ep, ws) ==> c.Index? && c.epoch == ep
  {
  }

  lemma HomesRight(schema: Schema, w: World, ep: nat, ws: set<Writer>, top: TopRead, home: map<Rid, Writer>)
    requires ValidSchema(schema) && Rendered(w.net, w.log, w.missing) && Whole(w, ep) && OneHome(w.log)
    requires TopIsRead(schema, w, ep, ws, top)
    requires forall k :: k in top.got && top.got[k].Entry? ==> top.got[k].rid in home
    requires forall r :: r in home ==> FromSlot(top.got, r, home[r])
    ensures HomesOf(schema, w, ep, ws, home)
  {
    hide TopIsRead, FromSlot, Rendered, Whole, TopLabel, Holds;
    forall r | r in home ensures home[r] in ws && OnTop(schema, w.log, ep, home[r], r) {
      HomeIsTop(schema, w, ep, ws, top, r, home[r]);
    }
    forall r, u | u in ws && OnTop(schema, w.log, ep, u, r) ensures r in home && home[r] == u {
      TopIsHome(schema, w, ep, ws, top, home, r, u);
    }
  }

  // ------------------------------------------------------------ the tally

  function CountIn(lens: map<Chain, nat>, c: Chain): nat {
    if c in lens then lens[c] else 0
  }

  /** Chains below level 1 a record is appended to. */
  function DeepChains(schema: Schema, rec: Record, ep: nat, u: Writer): set<Chain>
    requires ValidSchema(schema)
  {
    set c | c in RecordChains(schema, rec, ep, u) && c.Index? && c.w.Of? && c.w.node.level >= 2
  }

  /** One more on each of some chains. */
  ghost predicate Bumped(lens: map<Chain, nat>, chains: set<Chain>, lens': map<Chain, nat>) {
    && lens'.Keys == lens.Keys + chains
    && forall c :: c in lens' ==> lens'[c] == CountIn(lens, c) + if c in chains then 1 else 0
  }

  /** The deep chains among the first k levels of one field. */
  function FieldChains(f: Field, labels: seq<Dyadic.Label>, k: nat, ep: nat, u: Writer): set<Chain>
    requires k <= |labels|
  {
    set j | 0 <= j < k && labels[j].level >= 2 :: Index(Of(f, labels[j]), ep, u)
  }

  method TallyField(f: Field, labels: seq<Dyadic.Label>, ep: nat, u: Writer, lens: map<Chain, nat>)
    returns (lens': map<Chain, nat>)
    requires forall i, j :: 0 <= i < j < |labels| ==> labels[i].level != labels[j].level
    ensures Bumped(lens, FieldChains(f, labels, |labels|, ep, u), lens')
  {
    lens' := lens;
    for k := 0 to |labels|
      invariant Bumped(lens, FieldChains(f, labels, k, ep, u), lens')
    {
      if labels[k].level >= 2 {
        var c := Index(Of(f, labels[k]), ep, u);
        assert c !in FieldChains(f, labels, k, ep, u);
        assert FieldChains(f, labels, k + 1, ep, u) == FieldChains(f, labels, k, ep, u) + {c};
        lens' := lens'[c := CountIn(lens', c) + 1];
      } else {
        assert FieldChains(f, labels, k + 1, ep, u) == FieldChains(f, labels, k, ep, u);
      }
    }
  }

  function OfFields(chains: set<Chain>, fields: set<Field>): set<Chain> {
    set c | c in chains && c.Index? && c.w.Of? && c.w.field in fields
  }

  lemma FieldsDeep(schema: Schema, rec: Record, ep: nat, u: Writer, done: set<Field>, f: Field)
    requires ValidSchema(schema) && f in schema && f !in done
    ensures var deep := DeepChains(schema, rec, ep, u);
            && (f !in rec ==> OfFields(deep, done + {f}) == OfFields(deep, done))
            && (f in rec ==> var labels := Dyadic.LevelsFor(rec[f], schema[f].bits, schema[f].mlvl);
                  && OfFields(deep, done + {f}) == OfFields(deep, done) + FieldChains(f, labels, |labels|, ep, u)
                  && OfFields(deep, done) !! FieldChains(f, labels, |labels|, ep, u))
  {
    hide Dyadic.LevelsFor;
    var deep := DeepChains(schema, rec, ep, u);
    if f in rec {
      var labels := Dyadic.LevelsFor(rec[f], schema[f].bits, schema[f].mlvl);
      forall c | c in FieldChains(f, labels, |labels|, ep, u) ensures c in deep {
        assert c.w.node in labels;
      }
    }
  }

  lemma BumpedBoth(lens: map<Chain, nat>, a: set<Chain>, b: set<Chain>, mid: map<Chain, nat>, lens': map<Chain, nat>)
    requires Bumped(lens, a, mid) && Bumped(mid, b, lens') && a !! b
    ensures Bumped(lens, a + b, lens')
  {
  }

  method TallyRecord(schema: Schema, rec: Record, ep: nat, u: Writer, lens: map<Chain, nat>)
    returns (lens': map<Chain, nat>)
    requires ValidSchema(schema)
    ensures Bumped(lens, DeepChains(schema, rec, ep, u), lens')
  {
    hide DeepChains, Bumped, FieldChains, OfFields;
    ghost var deep := DeepChains(schema, rec, ep, u);
    NoFieldsYet(schema, rec, ep, u, lens);
    lens' := lens;
    var todo := schema.Keys;
    ghost var done: set<Field> := {};
    while todo != {}
      invariant todo + done == schema.Keys && todo !! done
      invariant Bumped(lens, OfFields(deep, done), lens')
      decreases todo
    {
      var f :| f in todo;
      FieldsDeep(schema, rec, ep, u, done, f);
      if f in rec {
        var labels := Dyadic.LevelsFor(rec[f], schema[f].bits, schema[f].mlvl);
        ghost var mid := lens';
        lens' := TallyField(f, labels, ep, u, lens');
        BumpedBoth(lens, OfFields(deep, done), FieldChains(f, labels, |labels|, ep, u), mid, lens');
      }
      todo, done := todo - {f}, done + {f};
    }
  }

  lemma NoFieldsYet(schema: Schema, rec: Record, ep: nat, u: Writer, lens: map<Chain, nat>)
    requires ValidSchema(schema)
    ensures Bumped(lens, OfFields(DeepChains(schema, rec, ep, u), {}), lens)
    ensures OfFields(DeepChains(schema, rec, ep, u), schema.Keys) == DeepChains(schema, rec, ep, u)
  {
    hide Dyadic.LevelsFor;
  }

  /** The readable ids, among some, whose records put them in a chain. */
  function Under(schema: Schema, rids: set<Rid>, home: map<Rid, Writer>, recs: map<Rid, Record>, ep: nat,
                 c: Chain): set<Rid>
    requires ValidSchema(schema)
  {
    set r | r in rids && r in home && r in recs && c in DeepChains(schema, recs[r], ep, home[r])
  }

  function Unread(rids: set<Rid>, home: map<Rid, Writer>, recs: map<Rid, Record>, u: Writer): set<Rid> {
    set r | r in rids && r in home && r !in recs && home[r] == u
  }

  /** The tallies count what they should over the ids taken in so far. */
  ghost predicate Tallied(schema: Schema, rids: set<Rid>, home: map<Rid, Writer>, recs: map<Rid, Record>, ep: nat,
                          lens: map<Chain, nat>, unknown: map<Writer, nat>)
    requires ValidSchema(schema)
  {
    && (forall c :: c in lens <==> Under(schema, rids, home, recs, ep, c) != {})
    && (forall c :: c in lens ==> lens[c] == |Under(schema, rids, home, recs, ep, c)|)
    && (forall u :: Lacking(unknown, u) == |Unread(rids, home, recs, u)|)
  }

  /** One more id taken in: what it changes in a chain's count and in a writer's. */
  lemma OneMore(schema: Schema, rids: set<Rid>, home: map<Rid, Writer>, recs: map<Rid, Record>, ep: nat, r: Rid,
                c: Chain, u: Writer)
    requires ValidSchema(schema) && r !in rids && r in home
    ensures Under(schema, rids + {r}, home, recs, ep, c) ==
            Under(schema, rids, home, recs, ep, c) + if r in recs && c in DeepChains(schema, recs[r], ep, home[r])
                then {r} else {}
    ensures Unread(rids + {r}, home, recs, u) == Unread(rids, home, recs, u) + if r !in recs && home[r] == u then {r}
            else {}
    ensures r !in Under(schema, rids, home, recs, ep, c) && r !in Unread(rids, home, recs, u)
  {
    hide DeepChains;
  }

  /** What one chain's count is after taking in one more id. */
  lemma ChainTallied(schema: Schema, rids: set<Rid>, home: map<Rid, Writer>, recs: map<Rid, Record>, ep: nat,
                     lens: map<Chain, nat>, r: Rid, lens': map<Chain, nat>, c: Chain)
    requires ValidSchema(schema) && r !in rids && r in home
    requires c in lens <==> Under(schema, rids, home, recs, ep, c) != {}
    requires c in lens ==> lens[c] == |Under(schema, rids, home, recs, ep, c)|
    requires Bumped(lens, if r in recs then DeepChains(schema, recs[r], ep, home[r]) else {}, lens')
    ensures c in lens' <==> Under(schema, rids + {r}, home, recs, ep, c) != {}
    ensures c in lens' ==> lens'[c] == |Under(schema, rids + {r}, home, recs, ep, c)|
  {
    hide DeepChains, Under, Unread, ValidSchema;
    OneMore(schema, rids, home, recs, ep, r, c, home[r]);
  }

  /** What one writer's count is. */
  lemma WriterTallied(schema: Schema, rids: set<Rid>, home: map<Rid, Writer>, recs: map<Rid, Record>, ep: nat,
                      unknown: map<Writer, nat>, r: Rid, unknown': map<Writer, nat>, u: Writer)
    requires ValidSchema(schema) && r !in rids && r in home
    requires Lacking(unknown, u) == |Unread(rids, home, recs, u)|
    requires unknown' == if r in recs then unknown else unknown[home[r] := Lacking(unknown, home[r]) + 1]
    ensures Lacking(unknown', u) == |Unread(rids + {r}, home, recs, u)|
  {
    hide DeepChains, Under, Unread, ValidSchema;
    OneMore(schema, rids, home, recs, ep, r, EpochChain, u);
  }

  lemma TalliedOn(schema: Schema, rids: set<Rid>, home: map<Rid, Writer>, recs: map<Rid, Record>, ep: nat,
                  lens: map<Chain, nat>, unknown: map<Writer, nat>, r: Rid, lens': map<Chain, nat>,
                      unknown': map<Writer, nat>)
    requires ValidSchema(schema) && Tallied(schema, rids, home, recs, ep, lens, unknown) && r !in rids && r in home
    requires Bumped(lens, if r in recs then DeepChains(schema, recs[r], ep, home[r]) else {}, lens')
    requires unknown' == if r in recs then unknown else unknown[home[r] := Lacking(unknown, home[r]) + 1]
    ensures Tallied(schema, rids + {r}, home, recs, ep, lens', unknown')
  {
    hide DeepChains, Under, Unread, Lacking, Bumped, ValidSchema;
    forall c
      ensures c in lens' <==> Under(schema, rids + {r}, home, recs, ep, c) != {}
      ensures c in lens' ==> lens'[c] == |Under(schema, rids + {r}, home, recs, ep, c)|
    {
      ChainTallied(schema, rids, home, recs, ep, lens, r, lens', c);
    }
    forall u ensures Lacking(unknown', u) == |Unread(rids + {r}, home, recs, u)| {
      WriterTallied(schema, rids, home, recs, ep, unknown, r, unknown', u);
    }
  }

  lemma NothingBumped(lens: map<Chain, nat>)
    ensures Bumped(lens, {}, lens)
  {
  }

  /** Count, per deep chain, the readable records that belong to it, and per writer the ids without one. */
  method Tally(schema: Schema, ep: nat, home: map<Rid, Writer>, recs: map<Rid, Record>)
    returns (lens: map<Chain, nat>, unknown: map<Writer, nat>)
    requires ValidSchema(schema)
    ensures Tallied(schema, home.Keys, home, recs, ep, lens, unknown)
  {
    lens, unknown := map[], map[];
    var todo := home.Keys;
    ghost var done: set<Rid> := {};
    NothingTallied(schema, home, recs, ep);
    hide Tallied, Bumped, ValidSchema, Lacking;
    while todo != {}
      invariant todo + done == home.Keys && todo !! done
      invariant Tallied(schema, done, home, recs, ep, lens, unknown)
      decreases todo
    {
      var r :| r in todo;
      ghost var lens0, unknown0 := lens, unknown;
      if r in recs {
        lens := TallyRecord(schema, recs[r], ep, home[r], lens);
      } else {
        unknown := unknown[home[r] := Lacking(unknown, home[r]) + 1];
        NothingBumped(lens);
      }
      TalliedOn(schema, done, home, recs, ep, lens0, unknown0, r, lens, unknown);
      todo, done := todo - {r}, done + {r};
    }
  }

  lemma NothingTallied(schema: Schema, home: map<Rid, Writer>, recs: map<Rid, Record>, ep: nat)
    requires ValidSchema(schema)
    ensures Tallied(schema, {}, home, recs, ep, map[], map[])
  {
  }

  // ------------------------------------------------------------ what the tallies say about the chains

  /** Ids of a chain whose records cannot be read. */
  function Unreadable(net: Net, ids: seq<Rid>): set<Rid> {
    set r | r in ids && Rec(r) !in net
  }

  function Readable(net: Net, ids: seq<Rid>): set<Rid> {
    set r | r in ids && Rec(r) in net
  }

  /** The records of the homed ids that are still there. */
  ghost predicate RecordsOf(net: Net, home: map<Rid, Writer>, recs: map<Rid, Record>) {
    && (forall r :: r in recs <==> r in home && Rec(r) in net)
    && (forall r :: r in recs ==> net[Rec(r)] == Blob(recs[r]))
  }

  lemma ReadableSplit(net: Net, ids: seq<Rid>)
    requires NoDuplicates(ids)
    ensures |ids| == |Readable(net, ids)| + |Unreadable(net, ids)|
  {
    DistinctSize(ids);
    assert Elements(ids) == Readable(net, ids) + Unreadable(net, ids);
  }

  /** A record listed under an interval of a field's tree has its value there, and is findable on level 1. */
  lemma TopLabelOf(schema: Schema, rec: Record, l: ChainLabel) returns (top: ChainLabel)
    requires ValidSchema(schema) && ReachedLabel(schema, l) && Labelled(schema, rec, l)
    ensures TopLabel(schema, top) && Findable(schema, rec, top) && Findable(schema, rec, l)
  {
    var s, v := schema[l.field], rec[l.field];
    Dyadic.LevelsForContains(v, s.bits, s.mlvl, l.node);
    Dyadic.NodeInDomain(s.bits, l.node);
    var i := v / Dyadic.Width(s.bits, 1);
    Dyadic.IndexOfValue(s.bits, 1, v);
    Dyadic.LevelsForContains(v, s.bits, s.mlvl, Dyadic.Label(1, i));
    Pow2Add(1, s.bits - 1);
    assert Pow2(1) == 2;
    HalfIndex(i, Dyadic.Width(s.bits, 1), v);
    top := Of(l.field, Dyadic.Label(1, i));
  }

  lemma HalfIndex(i: int, half: nat, v: int)
    requires half >= 1 && i * half <= v < i * half + half && 0 <= v < 2 * half
    ensures 0 <= i < 2
  {
    if i < 0 {
      Dyadic.MulStep(i, 0, half);
    } else if i >= 2 {
      if i > 2 {
        Dyadic.MulStep(2, i, half);
      }
    }
  }

  /** A chain below level 1 of some field's tree. */
  ghost predicate DeepChain(schema: Schema, ep: nat, ws: set<Writer>, c: Chain) {
    c.Index? && c.epoch == ep && c.writer in ws && ReachedLabel(schema, c.w) && c.w.node.level >= 2
  }

  /** What reading level 1 and the records established. */
  ghost predicate ReadIn(schema: Schema, w: World, ep: nat, ws: set<Writer>, home: map<Rid, Writer>,
                         recs: map<Rid, Record>) {
    HomesOf(schema, w, ep, ws, home) && RecordsOf(w.net, home, recs)
  }

  lemma HomedOf(schema: Schema, w: World, ep: nat, ws: set<Writer>, home: map<Rid, Writer>, l: ChainLabel, u: Writer,
                r: Rid)
    requires ValidSchema(schema) && Closed(schema, w.log, w.table) && LogTrue(schema, w.log, w.table)
    requires HomesOf(schema, w, ep, ws, home) && u in ws && ReachedLabel(schema, l) && Holds(w.log, l, ep, u, r)
    ensures r in home && home[r] == u && r in w.table.inserted && Labelled(schema, w.table.inserted[r], l)
  {
    hide Labelled, ReachedLabel, Findable;
    assert EntryTrue(schema, w.table, l, r);
    LabelsReached(schema);
    var top := TopLabelOf(schema, w.table.inserted[r], l);
    assert Holds(w.log, top, ep, u, r);
    assert OnTop(schema, w.log, ep, u, r);
  }

  lemma UnderIsListed(schema: Schema, w: World, ep: nat, ws: set<Writer>, home: map<Rid, Writer>,
                      recs: map<Rid, Record>, c: Chain, r: Rid)
    requires ValidSchema(schema) && Closed(schema, w.log, w.table) && BlobsTrue(w.net, w.table)
    requires ReadIn(schema, w, ep, ws, home, recs) && DeepChain(schema, ep, ws, c)
    requires r in Under(schema, home.Keys, home, recs, ep, c)
    ensures r in Readable(w.net, w.Log(c))
  {
    hide DeepChains, RecordChains, Labelled, ReachedLabel, Findable;
    var u := home[r];
    DeepLabel(schema, recs[r], ep, u, c);
    var l' := TopLabelOf(schema, recs[r], c.w);
    assert OnTop(schema, w.log, ep, u, r);
    var top :| TopLabel(schema, top) && Holds(w.log, top, ep, u, r);
    assert recs[r] == w.table.inserted[r];
    assert Holds(w.log, c.w, ep, u, r);
  }

  lemma DeepLabel(schema: Schema, rec: Record, ep: nat, u: Writer, c: Chain)
    requires ValidSchema(schema)
    ensures c in DeepChains(schema, rec, ep, u) <==>
              c.Index? && c == Index(c.w, ep, u) && Labelled(schema, rec, c.w) && c.w.node.level >= 2
  {
    hide Labelled, RecordChains;
    RecordChainsOf(schema, rec, ep, u);
    LabelledIsTree(schema, rec);
  }

  lemma LabelledIsTree(schema: Schema, rec: Record)
    ensures forall l :: Labelled(schema, rec, l) ==> l.Of?
  {
  }

  /** The predicted length of a chain is the number of its ids that can still be read. */
  lemma PredictedLength(schema: Schema, w: World, ep: nat, ws: set<Writer>, home: map<Rid, Writer>,
                        recs: map<Rid, Record>, c: Chain)
    requires ValidSchema(schema) && Closed(schema, w.log, w.table) && LogTrue(schema, w.log, w.table)
             && BlobsTrue(w.net, w.table)
    requires ReadIn(schema, w, ep, ws, home, recs) && DeepChain(schema, ep, ws, c)
    ensures Under(schema, home.Keys, home, recs, ep, c) == Readable(w.net, w.Log(c))
    ensures Unreadable(w.net, w.Log(c)) <= Unread(home.Keys, home, recs, c.writer)
  {
    hide Under, DeepChains, Labelled, ReachedLabel, Closed, LogTrue, HomesOf, Holds, BlobsTrue;
    forall r | r in Under(schema, home.Keys, home, recs, ep, c) ensures r in Readable(w.net, w.Log(c)) {
      UnderIsListed(schema, w, ep, ws, home, recs, c, r);
    }
    forall r | r in w.Log(c)
      ensures r in home && home[r] == c.writer
      ensures Rec(r) in w.net ==> r in Under(schema, home.Keys, home, recs, ep, c)
    {
      ListedHolds(w, schema, c, r);
      HomedOf(schema, w, ep, ws, home, c.w, c.writer, r);
      if Rec(r) in w.net {
        ReadableUnder(schema, w, home, recs, ep, c, r);
      }
    }
  }

  lemma ListedHolds(w: World, schema: Schema, c: Chain, r: Rid)
    requires c.Index? && ReachedLabel(schema, c.w) && r in w.Log(c)
    ensures Holds(w.log, c.w, c.epoch, c.writer, r)
  {
    assert c == Index(c.w, c.epoch, c.writer);
  }

  lemma ReadableUnder(schema: Schema, w: World, home: map<Rid, Writer>, recs: map<Rid, Record>, ep: nat, c: Chain,
                      r: Rid)
    requires ValidSchema(schema) && BlobsTrue(w.net, w.table) && RecordsOf(w.net, home, recs)
    requires c.Index? && c.epoch == ep && c.w.Of? && c.w.node.level >= 2
    requires r in home && home[r] == c.writer && Rec(r) in w.net && r in w.table.inserted
             && Labelled(schema, w.table.inserted[r], c.w)
    ensures r in Under(schema, home.Keys, home, recs, ep, c)
  {
    hide DeepChains, Labelled;
    DeepLabel(schema, recs[r], ep, home[r], c);
  }

  // ------------------------------------------------------------ the derivation

  /** What deriving an epoch returns: the ids it names, the index entries to mirror, the chain lengths it vouches
      for, the chains among them whose probes ran out, and the fields that had to be walked. */
  datatype Derived = Derived(rids: set<Rid>, kv: Net, ends: map<Chain, nat>, settled: set<Chain>, fallback: set<Field>)

  /** No derived length exceeds the chain, and everything it counts is in hand. */
  ghost predicate EndsHeld(w: World, ep: nat, ws: set<Writer>, d: Derived) {
    forall c :: c in d.ends ==>
      c.Index? && c.epoch == ep && c.writer in ws && d.ends[c] <= |w.Log(c)| && Fetched(w.net, d.kv, c, d.ends[c])
  }

  ghost predicate TopExact(schema: Schema, w: World, ep: nat, ws: set<Writer>, d: Derived) {
    forall l, u :: TopLabel(schema, l) && u in ws ==>
      Index(l, ep, u) in d.ends && d.ends[Index(l, ep, u)] == |w.Log(Index(l, ep, u))|
  }

  /** Derived lengths of chains with a readable record: exact up to 99 unreadable ids, settled up to 98, if every slot
      probed was heard of; settled and too short if one was not. */
  ghost predicate DeepExact(schema: Schema, w: World, ep: nat, ws: set<Writer>, unheard: set<Key>, d: Derived) {
    forall c :: DeepChain(schema, ep, ws, c) && c.w.field !in d.fallback && Readable(w.net, w.Log(c)) != {} ==>
      ExactWithin(w, c, unheard, d)
  }

  ghost predicate ExactWithin(w: World, c: Chain, unheard: set<Key>, d: Derived) {
    && c in d.ends
    && (d.ends[c] == |w.Log(c)| <==> |Unreadable(w.net, w.Log(c))| <= 99 && Heard(unheard, c, |w.Log(c)|))
    && (c in d.settled <==> |Unreadable(w.net, w.Log(c))| <= 98 || !Heard(unheard, c, |w.Log(c)|))
  }

  ghost predicate SettledExact(w: World, unheard: set<Key>, d: Derived) {
    forall c :: c in d.settled && c in d.ends && c.Index? && c.w.Of? && c.w.node.level >= 2 ==>
      (d.ends[c] == |w.Log(c)| <==> Heard(unheard, c, |w.Log(c)|))
  }

  /** A readable record with a value outside a field's domain. */
  ghost predicate Stray(schema: Schema, w: World, f: Field) {
    exists r :: r in w.table.inserted && f in schema && f in w.table.inserted[r] && Rec(r) in w.net
                && !Dyadic.InDomain(schema[f].bits, w.table.inserted[r][f])
  }

  /** The fields walked instead are copied, but for slots that did not come back when they were read. */
  ghost predicate WalkedInstead(schema: Schema, w: World, ep: nat, ws: set<Writer>, missed: set<Key>, d: Derived) {
    forall k :: InForest(schema, d.fallback, ep, ws, k) && k in w.net ==> k in d.kv || k in missed
  }

  ghost predicate IdsHeld(schema: Schema, w: World, ep: nat, ws: set<Writer>, d: Derived) {
    && (forall r, u :: u in ws && OnTop(schema, w.log, ep, u, r) ==> r in d.rids)
    && (forall r :: r in d.rids ==> r in w.table.inserted)
  }

  /** A value decides whether the labels it puts a record under lie inside the domain. */
  lemma InsideOrStray(schema: Schema, rec: Record, l: ChainLabel)
    requires ValidSchema(schema) && Labelled(schema, rec, l)
    ensures Dyadic.InDomain(schema[l.field].bits, rec[l.field]) ==> ReachedLabel(schema, l)
  {
    var s, v := schema[l.field], rec[l.field];
    Dyadic.LevelsForContains(v, s.bits, s.mlvl, l.node);
    if Dyadic.InDomain(s.bits, v) {
      Dyadic.IndexOfValue(s.bits, l.node.level, v);
      Dyadic.LeafInDomain(s.bits, l.node.level, v);
    }
  }

  /** A chain the derivation counted on and its records. */
  lemma TalliedChain(schema: Schema, w: World, ep: nat, ws: set<Writer>, home: map<Rid, Writer>, recs: map<Rid, Record>,
                     lens: map<Chain, nat>, unknown: map<Writer, nat>, c: Chain)
    returns (r: Rid)
    requires ValidSchema(schema) && BlobsTrue(w.net, w.table) && ReadIn(schema, w, ep, ws, home, recs)
    requires Tallied(schema, home.Keys, home, recs, ep, lens, unknown) && c in lens
    ensures c.Index? && c.w.Of? && c.epoch == ep && c.writer in ws && c.w.node.level >= 2 && c.w.field in schema
    ensures r in w.table.inserted && Rec(r) in w.net && Labelled(schema, w.table.inserted[r], c.w)
  {
    hide DeepChains, Labelled, OnTop;
    r :| r in Under(schema, home.Keys, home, recs, ep, c);
    DeepLabel(schema, recs[r], ep, home[r], c);
    LabelledFields(schema, recs[r], c.w);
  }

  lemma LabelledFields(schema: Schema, rec: Record, l: ChainLabel)
    requires Labelled(schema, rec, l)
    ensures l.Of? && l.field in schema && l.field in rec
  {
  }

  /** A field falls back only on account of a value outside its domain. */
  lemma FallbackIsStray(schema: Schema, w: World, ep: nat, ws: set<Writer>, home: map<Rid, Writer>,
                        recs: map<Rid, Record>,
                        lens: map<Chain, nat>, unknown: map<Writer, nat>, f: Field)
    requires ValidSchema(schema) && Inv(schema, w) && Whole(w, ep) && ReadIn(schema, w, ep, ws, home, recs)
    requires Tallied(schema, home.Keys, home, recs, ep, lens, unknown) && Mispredicted(w.net, lens, f)
    ensures f in schema && Stray(schema, w, f)
  {
    hide Labelled, ReachedLabel, Tallied, ReadIn, Whole, Under, Closed, LogTrue, Rendered, BlobsTrue, OneHome, Complete,
         DeadBuried, WalkedRight, Owned, MissingWhere, SystemTrue, Dense, DenseTo;
    var c: Chain, i: nat :| c in lens && c.Index? && c.w.Of? && c.w.field == f && 1 <= i <= lens[c]
        && Link(c, i) !in w.net;
    var r := TalliedChain(schema, w, ep, ws, home, recs, lens, unknown, c);
    LabelledFields(schema, w.table.inserted[r], c.w);
    if Dyadic.InDomain(schema[f].bits, w.table.inserted[r][f]) {
      InsideOrStray(schema, w.table.inserted[r], c.w);
      StartWithin(schema, w, ep, ws, home, recs, lens, unknown, c);
      ChainAsLogged(w, c);
      assert false;
    }
  }

  /** A tallied chain inside a field's tree is predicted no longer than it is, and by how much shorter. */
  lemma StartWithin(schema: Schema, w: World, ep: nat, ws: set<Writer>, home: map<Rid, Writer>, recs: map<Rid, Record>,
                    lens: map<Chain, nat>, unknown: map<Writer, nat>, c: Chain)
    requires ValidSchema(schema) && Inv(schema, w) && ReadIn(schema, w, ep, ws, home, recs)
    requires Tallied(schema, home.Keys, home, recs, ep, lens, unknown) && DeepChain(schema, ep, ws, c)
    ensures c in lens <==> Readable(w.net, w.Log(c)) != {}
    ensures c in lens ==> lens[c] + |Unreadable(w.net, w.Log(c))| == |w.Log(c)|
    ensures |Unreadable(w.net, w.Log(c))| <= Lacking(unknown, c.writer)
  {
    hide Labelled, ReachedLabel, ReadIn, Under, Unread, Closed, LogTrue, Rendered, BlobsTrue, OneHome, Complete,
         DeadBuried, WalkedRight, Owned, MissingWhere, SystemTrue, Readable, Unreadable, Lacking;
    PredictedLength(schema, w, ep, ws, home, recs, c);
    assert NoDuplicates(w.Log(c)) by {
      LabelsReached(schema);
    }
    ReadableSplit(w.net, w.Log(c));
    SubsetSize(Unreadable(w.net, w.Log(c)), Unread(home.Keys, home, recs, c.writer));
  }

  /** Three passes of at most 33 probes each: exact up to 99 unreadable ids, if none of the chain's slots went
      unheard. */
  lemma PassesSuffice(net: Net, unheard: set<Key>, c: Chain, start: nat, missing: nat, len: nat, settled: bool, kv: Net,
                      end: nat, unreadable: nat)
    requires Tracked(net, unheard, c, start, Slack(missing), 3, len, settled, kv)
    requires DenseTo(net, c, end) && start + unreadable == end && unreadable <= missing
    ensures len == end <==> unreadable <= 99 && Heard(unheard, c, end)
    ensures settled <==> unreadable <= 98 || !Heard(unheard, c, end)
  {
    hide Heard, Tracked;
    ThreePasses(net, unheard, c, start, Slack(missing), len, settled, kv, end);
  }

  function Chosen(top: map<Chain, nat>, g: Guess): map<Chain, nat>
    requires TreeChains(g.lens.Keys)
  {
    top + map c | c in g.lens && c.w.field !in g.fallback :: g.lens[c]
  }

  /** Everything the derivation read and computed before any slow walk. */
  ghost predicate Gathered(schema: Schema, w: World, ep: nat, ws: set<Writer>, unheard: set<Key>, top: TopRead,
                           home: map<Rid, Writer>, recs: map<Rid, Record>, lens: map<Chain, nat>,
                               unknown: map<Writer, nat>, g: Guess)
    requires ValidSchema(schema)
  {
    && TopIsRead(schema, w, ep, ws, top) && ReadIn(schema, w, ep, ws, home, recs)
    && Tallied(schema, home.Keys, home, recs, ep, lens, unknown)
    && After(w.net, unheard, lens, unknown, 3, g)
  }

  /** A derived chain is no level-1 chain. */
  lemma BelowTop(schema: Schema, w: World, ep: nat, ws: set<Writer>, unheard: set<Key>, top: TopRead,
                 home: map<Rid, Writer>,
                 recs: map<Rid, Record>, lens: map<Chain, nat>, unknown: map<Writer, nat>, g: Guess, c: Chain)
    requires ValidSchema(schema) && BlobsTrue(w.net, w.table)
    requires Gathered(schema, w, ep, ws, unheard, top, home, recs, lens, unknown, g) && c in g.lens
    ensures c in lens && c.Index? && c.w.Of? && c.epoch == ep && c.writer in ws && c.w.node.level >= 2 && c !in top.ends
    ensures c.w.field in schema
    ensures c.w.field !in g.fallback ==> TrackedOf(w.net, unheard, lens, unknown, 3, g, c)
  {
    hide Tallied, ReadIn, TrackedOf, TopChains, Labelled;
    var r := TalliedChain(schema, w, ep, ws, home, recs, lens, unknown, c);
    TopChainOf(schema, ep, ws, c.w, c.writer);
    assert c == Index(c.w, ep, c.writer);
  }

  lemma TopHeld(schema: Schema, w: World, ep: nat, ws: set<Writer>, top: TopRead, c: Chain)
    requires ValidSchema(schema) && Rendered(w.net, w.log, w.missing) && Whole(w, ep)
             && TopIsRead(schema, w, ep, ws, top) && c in top.ends
    ensures c.Index? && c.epoch == ep && c.writer in ws && Fetched(w.net, top.got, c, top.ends[c])
  {
    hide Rendered, Whole;
    TopEpoch(schema, ep, ws, c);
    assert c == Index(c.w, ep, c.writer);
    TopChainOf(schema, ep, ws, c.w, c.writer);
    ChainAsLogged(w, c);
    forall i: nat | 1 <= i <= top.ends[c] ensures Link(c, i) in w.net && Link(c, i) in top.got {
      assert Link(c, i) in top.got.Keys;
    }
  }

  lemma HeldWithMore(net: Net, kv: Net, more: Net, c: Chain, len: nat)
    requires Fetched(net, kv, c, len)
    ensures Fetched(net, kv + more, c, len) && Fetched(net, more + kv, c, len)
  {
  }

  lemma FetchedWithin(w: World, kv: Net, c: Chain, len: nat)
    requires Rendered(w.net, w.log, w.missing) && c.Index? && Whole(w, c.epoch) && Fetched(w.net, kv, c, len)
    ensures len <= |w.Log(c)|
  {
    ChainAsLogged(w, c);
    assert len > 0 ==> Link(c, len) in w.net;
  }

  /** One derived length: no longer than its chain, and all of it in hand. */
  lemma ChosenHeld(schema: Schema, w: World, ep: nat, ws: set<Writer>, unheard: set<Key>, top: TopRead,
                   home: map<Rid, Writer>,
                   recs: map<Rid, Record>, lens: map<Chain, nat>, unknown: map<Writer, nat>, g: Guess, more: Net,
                       c: Chain)
    requires ValidSchema(schema) && Inv(schema, w) && Whole(w, ep) && TreeChains(g.lens.Keys)
    requires Gathered(schema, w, ep, ws, unheard, top, home, recs, lens, unknown, g) && c in Chosen(top.ends, g)
    ensures c.Index? && c.epoch == ep && c.writer in ws
    ensures Chosen(top.ends, g)[c] <= |w.Log(c)| && Fetched(w.net, top.got + g.kv + more, c, Chosen(top.ends, g)[c])
  {
    hide Inv, Gathered, TopLabel, Whole, TrackedOf, Fetched, TopIsRead, ReadIn, Tallied, After, Rendered, BlobsTrue,
         OneHome, LogTrue;
    InvFacts(schema, w);
    GatheredTop(schema, w, ep, ws, unheard, top, home, recs, lens, unknown, g);
    var len := Chosen(top.ends, g)[c];
    if c in g.lens && c.w.field !in g.fallback {
      BelowTop(schema, w, ep, ws, unheard, top, home, recs, lens, unknown, g, c);
      TrackedFetched(w.net, unheard, lens, unknown, g, c);
      HeldWithMore(w.net, g.kv, top.got, c, len);
    } else {
      TopHeld(schema, w, ep, ws, top, c);
      HeldWithMore(w.net, top.got, g.kv, c, len);
    }
    HeldWithMore(w.net, top.got + g.kv, more, c, len);
    FetchedWithin(w, top.got + g.kv + more, c, len);
  }

  lemma DerivedHeld(schema: Schema, w: World, ep: nat, ws: set<Writer>, unheard: set<Key>, top: TopRead,
                    home: map<Rid, Writer>,
                    recs: map<Rid, Record>, lens: map<Chain, nat>, unknown: map<Writer, nat>, g: Guess, more: Net,
                        d: Derived)
    requires ValidSchema(schema) && Inv(schema, w) && Whole(w, ep) && TreeChains(g.lens.Keys)
    requires Gathered(schema, w, ep, ws, unheard, top, home, recs, lens, unknown, g)
    requires d.kv == top.got + g.kv + more && d.ends == Chosen(top.ends, g)
    ensures EndsHeld(w, ep, ws, d)
  {
    hide Inv, Gathered, Whole, Fetched, Chosen;
    forall c | c in d.ends
      ensures c.Index? && c.epoch == ep && c.writer in ws && d.ends[c] <= |w.Log(c)|
              && Fetched(w.net, d.kv, c, d.ends[c])
    {
      ChosenHeld(schema, w, ep, ws, unheard, top, home, recs, lens, unknown, g, more, c);
    }
  }

  lemma TopStays(schema: Schema, w: World, ep: nat, ws: set<Writer>, unheard: set<Key>, top: TopRead,
                 home: map<Rid, Writer>,
                 recs: map<Rid, Record>, lens: map<Chain, nat>, unknown: map<Writer, nat>, g: Guess, d: Derived)
    requires ValidSchema(schema) && BlobsTrue(w.net, w.table) && TreeChains(g.lens.Keys)
    requires Gathered(schema, w, ep, ws, unheard, top, home, recs, lens, unknown, g) && d.ends == Chosen(top.ends, g)
    ensures TopExact(schema, w, ep, ws, d)
  {
    hide Gathered, TopLabel, TrackedOf, ReadIn, Tallied, After, BlobsTrue, TopChains, KeysOf, Truthful;
    GatheredTop(schema, w, ep, ws, unheard, top, home, recs, lens, unknown, g);
    forall l, u | TopLabel(schema, l) && u in ws
      ensures Index(l, ep, u) in d.ends && d.ends[Index(l, ep, u)] == |w.Log(Index(l, ep, u))|
    {
      var c := Index(l, ep, u);
      TopChainOf(schema, ep, ws, l, u);
      if c in g.lens {
        BelowTop(schema, w, ep, ws, unheard, top, home, recs, lens, unknown, g, c);
      }
    }
  }

  lemma TrackedFetched(net: Net, unheard: set<Key>, lens: map<Chain, nat>, unknown: map<Writer, nat>, g: Guess,
                       c: Chain)
    requires c in lens && c.Index? && TrackedOf(net, unheard, lens, unknown, 3, g, c)
    ensures Fetched(net, g.kv, c, g.lens[c])
  {
  }

  lemma InvFacts(schema: Schema, w: World)
    requires Inv(schema, w)
    ensures Rendered(w.net, w.log, w.missing) && BlobsTrue(w.net, w.table) && OneHome(w.log)
            && LogTrue(schema, w.log, w.table)
  {
  }

  lemma GatheredTop(schema: Schema, w: World, ep: nat, ws: set<Writer>, unheard: set<Key>, top: TopRead,
                    home: map<Rid, Writer>,
                    recs: map<Rid, Record>, lens: map<Chain, nat>, unknown: map<Writer, nat>, g: Guess)
    requires ValidSchema(schema) && Gathered(schema, w, ep, ws, unheard, top, home, recs, lens, unknown, g)
    ensures TopIsRead(schema, w, ep, ws, top) && ReadIn(schema, w, ep, ws, home, recs)
    ensures Tallied(schema, home.Keys, home, recs, ep, lens, unknown) && After(w.net, unheard, lens, unknown, 3, g)
    ensures Truthful(w.net, top.got) && Truthful(w.net, g.kv) && g.lens.Keys == lens.Keys
    ensures forall f :: f in g.fallback ==> Mispredicted(w.net, lens, f)
  {
    hide TrackedOf;
  }

  lemma DerivedExact(schema: Schema, w: World, ep: nat, ws: set<Writer>, unheard: set<Key>, top: TopRead,
                     home: map<Rid, Writer>,
                     recs: map<Rid, Record>, lens: map<Chain, nat>, unknown: map<Writer, nat>, g: Guess, d: Derived)
    requires ValidSchema(schema) && Inv(schema, w) && Whole(w, ep) && TreeChains(g.lens.Keys)
    requires Gathered(schema, w, ep, ws, unheard, top, home, recs, lens, unknown, g)
    requires d.ends == Chosen(top.ends, g) && d.settled == g.done && d.fallback == g.fallback
    ensures DeepExact(schema, w, ep, ws, unheard, d)
  {
    hide Inv, Gathered, TopLabel, Whole, Tracked, Unreadable, Readable, ReachedLabel, Tallied, After;
    InvFacts(schema, w);
    GatheredTop(schema, w, ep, ws, unheard, top, home, recs, lens, unknown, g);
    LabelsReached(schema);
    forall c | DeepChain(schema, ep, ws, c) && c.w.field !in d.fallback && Readable(w.net, w.Log(c)) != {}
      ensures ExactWithin(w, c, unheard, d)
    {
      StartWithin(schema, w, ep, ws, home, recs, lens, unknown, c);
      BelowTop(schema, w, ep, ws, unheard, top, home, recs, lens, unknown, g, c);
      ChainAsLogged(w, c);
      PassesSuffice(w.net, unheard, c, lens[c], Lacking(unknown, c.writer), g.lens[c], c in g.done, g.kv,
                    |w.Log(c)|, |Unreadable(w.net, w.Log(c))|);
    }
  }

  lemma SettledEnd(net: Net, unheard: set<Key>, c: Chain, start: nat, slack: nat, len: nat, kv: Net, end: nat)
    requires Tracked(net, unheard, c, start, slack, 3, len, true, kv) && DenseTo(net, c, end) && len <= end
    ensures len == end <==> Heard(unheard, c, end)
  {
    ThreePasses(net, unheard, c, start, slack, len, true, kv, end);
  }

  lemma SettledIsExact(schema: Schema, w: World, ep: nat, ws: set<Writer>, unheard: set<Key>, top: TopRead,
                       home: map<Rid, Writer>,
                       recs: map<Rid, Record>, lens: map<Chain, nat>, unknown: map<Writer, nat>, g: Guess, d: Derived)
    requires ValidSchema(schema) && Inv(schema, w) && Whole(w, ep) && TreeChains(g.lens.Keys)
    requires Gathered(schema, w, ep, ws, unheard, top, home, recs, lens, unknown, g)
    requires d.ends == Chosen(top.ends, g) && d.settled == g.done && d.fallback == g.fallback
    ensures SettledExact(w, unheard, d)
  {
    hide Inv, Gathered, TopLabel, Whole, Tallied, After, Fetched, Sees, Dense;
    InvFacts(schema, w);
    GatheredTop(schema, w, ep, ws, unheard, top, home, recs, lens, unknown, g);
    forall c | c in d.settled && c in d.ends && c.Index? && c.w.Of? && c.w.node.level >= 2
      ensures d.ends[c] == |w.Log(c)| <==> Heard(unheard, c, |w.Log(c)|)
    {
      if c in top.ends {
        TopEpoch(schema, ep, ws, c);
      }
      BelowTop(schema, w, ep, ws, unheard, top, home, recs, lens, unknown, g, c);
      TrackedFetched(w.net, unheard, lens, unknown, g, c);
      FetchedWithin(w, g.kv, c, d.ends[c]);
      ChainAsLogged(w, c);
      SettledEnd(w.net, unheard, c, lens[c], SlackOf(unknown, c), g.lens[c], g.kv, |w.Log(c)|);
    }
  }

  /** The whole promise of a derivation, some of whose probes went unheard and some of whose reads of walked fields
      missed. */
  ghost predicate DerivedRight(schema: Schema, w: World, ep: nat, ws: set<Writer>, unheard: set<Key>, missed: set<Key>,
                               d: Derived) {
    && Truthful(w.net, d.kv) && EndsHeld(w, ep, ws, d) && TopExact(schema, w, ep, ws, d)
    && IdsHeld(schema, w, ep, ws, d)
    && (forall f :: f in d.fallback ==> f in schema && Stray(schema, w, f))
    && DeepExact(schema, w, ep, ws, unheard, d) && SettledExact(w, unheard, d)
    && WalkedInstead(schema, w, ep, ws, missed, d)
  }

  lemma HomesHeld(schema: Schema, w: World, ep: nat, ws: set<Writer>, home: map<Rid, Writer>, r: Rid)
    requires LogTrue(schema, w.log, w.table) && HomesOf(schema, w, ep, ws, home) && r in home
    ensures r in w.table.inserted
  {
    assert OnTop(schema, w.log, ep, home[r], r);
    var l :| TopLabel(schema, l) && Holds(w.log, l, ep, home[r], r);
  }

  lemma AllGathered(schema: Schema, w: World, ep: nat, ws: set<Writer>, unheard: set<Key>, top: TopRead,
                    home: map<Rid, Writer>,
                    recs: map<Rid, Record>, lens: map<Chain, nat>, unknown: map<Writer, nat>, g: Guess)
    requires ValidSchema(schema) && TopIsRead(schema, w, ep, ws, top) && ReadIn(schema, w, ep, ws, home, recs)
    requires Tallied(schema, home.Keys, home, recs, ep, lens, unknown) && After(w.net, unheard, lens, unknown, 3, g)
    ensures Gathered(schema, w, ep, ws, unheard, top, home, recs, lens, unknown, g)
  {
  }

  lemma TopAreSlots(schema: Schema, w: World, ep: nat, ws: set<Writer>, top: TopRead)
    requires TopIsRead(schema, w, ep, ws, top)
    ensures forall k :: k in top.got ==> k.Link? && k.chain.Index?
  {
    forall k | k in top.got ensures k.Link? && k.chain.Index? {
      assert k in top.got.Keys;
      TopEpoch(schema, ep, ws, k.chain);
    }
  }

  lemma RecordsRead(w: World, home: map<Rid, Writer>, keys: set<Key>, blobs: Net, bad: set<Key>, recs: map<Rid, Record>)
    requires BlobsTrue(w.net, w.table) && keys == (set x | x in home :: Rec(x))
    requires HonestRead(w.net, keys, blobs, bad) && keys * bad == {}
    requires recs == map x | x in home && Rec(x) in blobs && blobs[Rec(x)].Blob? :: blobs[Rec(x)].rec
    ensures RecordsOf(w.net, home, recs)
  {
    NoneInCommon(keys, bad);
    forall r | r in home ensures Rec(r) in blobs <==> Rec(r) in w.net {
      assert Rec(r) in keys;
    }
  }

  lemma LensAreTree(schema: Schema, w: World, ep: nat, ws: set<Writer>, home: map<Rid, Writer>, recs: map<Rid, Record>,
                    lens: map<Chain, nat>, unknown: map<Writer, nat>)
    requires ValidSchema(schema) && BlobsTrue(w.net, w.table) && ReadIn(schema, w, ep, ws, home, recs)
    requires Tallied(schema, home.Keys, home, recs, ep, lens, unknown)
    ensures TreeChains(lens.Keys)
  {
    hide Tallied, ReadIn, BlobsTrue;
    forall c | c in lens ensures c.Index? && c.w.Of? {
      var r := TalliedChain(schema, w, ep, ws, home, recs, lens, unknown, c);
    }
  }

  /** What the slow walk added: entries of the fields it walked, and ids of records. */
  ghost predicate SlowPart(schema: Schema, w: World, ep: nat, ws: set<Writer>, missed: set<Key>, fields: set<Field>,
                           more: Net, ids: set<Rid>) {
    && Truthful(w.net, more)
    && (forall k :: InForest(schema, fields, ep, ws, k) && k in w.net ==> (k in more <==> k !in missed))
    && (forall r :: r in ids ==> r in w.table.inserted)
  }

  lemma NoSlowPart(schema: Schema, w: World, ep: nat, ws: set<Writer>)
    ensures SlowPart(schema, w, ep, ws, {}, {}, map[], {})
  {
  }

  function IdsOf(entries: map<ChainLabel, set<Rid>>): set<Rid> {
    set l, x | l in entries && x in entries[l] :: x
  }

  lemma WalkCovers(schema: Schema, w: World, ep: nat, ws: set<Writer>, fields: set<Field>, walk: WalkRead,
                   got: Net, missed: set<Key>)
    requires LogTrue(schema, w.log, w.table) && Entries(schema, w, fields, ep, ws, walk.entries)
    requires forall k :: k in walk.keys <==> InForest(schema, fields, ep, ws, k) && k in w.net
    requires HonestRead(w.net, walk.keys, got, missed) && got.Keys !! missed
    ensures SlowPart(schema, w, ep, ws, missed, fields, got, IdsOf(walk.entries))
  {
    hide ReachedLabel, EntryTrue;
    LabelsReached(schema);
    forall r | r in IdsOf(walk.entries) ensures r in w.table.inserted {
      var l :| l in walk.entries && r in walk.entries[l];
      var u :| u in ws && Index(l, ep, u) in w.log && r in w.log[Index(l, ep, u)];
      TrueEntry(schema, w, Index(l, ep, u), r);
    }
    forall k | InForest(schema, fields, ep, ws, k) && k in w.net ensures k in got <==> k !in missed {
      assert k in walk.keys;
    }
  }

  lemma TrueEntry(schema: Schema, w: World, c: Chain, r: Rid)
    requires LogTrue(schema, w.log, w.table) && c in w.log && r in w.log[c] && c.Index? && c.w.Of?
    ensures r in w.table.inserted
  {
  }

  lemma DerivedAll(schema: Schema, w: World, ep: nat, ws: set<Writer>, unheard: set<Key>, missed: set<Key>,
                   top: TopRead, home: map<Rid, Writer>,
                   recs: map<Rid, Record>, lens: map<Chain, nat>, unknown: map<Writer, nat>, g: Guess, more: Net,
                       extra: set<Rid>, d: Derived)
    requires ValidSchema(schema) && Inv(schema, w) && Whole(w, ep) && TreeChains(g.lens.Keys)
    requires Gathered(schema, w, ep, ws, unheard, top, home, recs, lens, unknown, g)
    requires SlowPart(schema, w, ep, ws, missed, g.fallback, more, extra)
    requires forall f :: f in g.fallback ==> f in schema && Stray(schema, w, f)
    requires d == Derived(home.Keys + extra, top.got + g.kv + more, Chosen(top.ends, g), g.done, g.fallback)
    ensures DerivedRight(schema, w, ep, ws, unheard, missed, d)
  {
    hide Inv, Whole, TopIsRead, HomesOf, Tallied, After, InForest, Entries, Stray, EndsHeld, TopExact, DeepExact,
         SettledExact, Gathered, OnTop, RecordsOf;
    InvFacts(schema, w);
    GatheredTop(schema, w, ep, ws, unheard, top, home, recs, lens, unknown, g);
    DerivedHeld(schema, w, ep, ws, unheard, top, home, recs, lens, unknown, g, more, d);
    TopStays(schema, w, ep, ws, unheard, top, home, recs, lens, unknown, g, d);
    DerivedExact(schema, w, ep, ws, unheard, top, home, recs, lens, unknown, g, d);
    SettledIsExact(schema, w, ep, ws, unheard, top, home, recs, lens, unknown, g, d);
    IdsAreHeld(schema, w, ep, ws, home, extra, d);
  }

  lemma IdsAreHeld(schema: Schema, w: World, ep: nat, ws: set<Writer>, home: map<Rid, Writer>, extra: set<Rid>,
                   d: Derived)
    requires LogTrue(schema, w.log, w.table) && HomesOf(schema, w, ep, ws, home)
    requires forall r :: r in extra ==> r in w.table.inserted
    requires d.rids == home.Keys + extra
    ensures IdsHeld(schema, w, ep, ws, d)
  {
    hide LogTrue, OnTop;
    forall r | r in home ensures r in w.table.inserted {
      HomesHeld(schema, w, ep, ws, home, r);
    }
  }

  /** Derive an epoch: level 1, the records, arithmetic, verification, and a walk for what it cannot vouch for. */
  method DeriveEpoch(schema: Schema, net: Net, ep: nat, ws: set<Writer>, silent: set<Key>, ghost w: World)
    returns (r: Result<Derived, set<Key>>, ghost unheard: set<Key>, ghost missed: set<Key>)
    requires ValidSchema(schema) && net == w.net && Inv(schema, w) && Whole(w, ep)
    ensures silent == {} ==> r.Success?
    ensures unheard <= silent && missed <= silent
    ensures r.Success? ==> DerivedRight(schema, w, ep, ws, unheard, missed, r.value)
  {
    hide Inv, Whole, TopIsRead, HomesOf, Tallied, After, InForest, Entries, Stray, EndsHeld, TopExact, DeepExact,
         SettledExact, Mispredicted, TopChains, OneHome, Rendered, LogTrue, BlobsTrue, OnTop, FromSlot, SlowPart,
         DerivedRight, Gathered;
    unheard, missed := {}, {};
    InvFacts(schema, w);
    var top := ReadTop(schema, net, ep, ws, silent, w);
    if top.Failure? {
      return Failure(top.error), {}, {};
    }
    TopAreSlots(schema, w, ep, ws, top.value);
    var home := Homes(top.value.got);
    HomesRight(schema, w, ep, ws, top.value, home);
    var blobKeys := set x | x in home :: Rec(x);
    var blobs, bad := MGet(net, blobKeys, silent);
    if blobKeys * bad != {} {
      return Failure(blobKeys * bad), {}, {};
    }
    var recs := map x | x in home && Rec(x) in blobs && blobs[Rec(x)].Blob? :: blobs[Rec(x)].rec;
    RecordsRead(w, home, blobKeys, blobs, bad, recs);
    var lens, unknown := Tally(schema, ep, home, recs);
    LensAreTree(schema, w, ep, ws, home, recs, lens, unknown);
    var g;
    g, unheard := Verify(net, lens, unknown, silent);
    if g.Failure? {
      return Failure(g.error), unheard, {};
    }
    AllGathered(schema, w, ep, ws, unheard, top.value, home, recs, lens, unknown, g.value);
    GatheredTop(schema, w, ep, ws, unheard, top.value, home, recs, lens, unknown, g.value);
    forall f | f in g.value.fallback ensures f in schema && Stray(schema, w, f) {
      FallbackIsStray(schema, w, ep, ws, home, recs, lens, unknown, f);
    }
    var more, extra := map[], {};
    NoSlowPart(schema, w, ep, ws);
    if g.value.fallback != {} {
      var walk := WalkEpoch(schema, net, ep, ws, g.value.fallback, silent, w);
      if walk.Failure? {
        return Failure(walk.error), unheard, {};
      }
      var got, bad := MGet(net, walk.value.keys, silent);
      missed := bad;
      more := got;
      extra := IdsOf(walk.value.entries);
      WalkCovers(schema, w, ep, ws, g.value.fallback, walk.value, got, missed);
    }
    var d := Derived(home.Keys + extra, top.value.got + g.value.kv + more, Chosen(top.value.ends, g.value),
                     g.value.done, g.value.fallback);
    DerivedAll(schema, w, ep, ws, unheard, missed, top.value, home, recs, lens, unknown, g.value, more, extra, d);
    return Success(d), unheard, missed;
  }
}
