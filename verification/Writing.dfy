/** Inserting and deleting (Owner.insert_many and Owner.delete_many in blindrange/client.py), as the owner runs
    them from its counters, refining the protocol steps. */
module Writing {
  import opened Basics
  import opened Chains
  import opened Index
  import opened Query
  import opened Compaction
  import opened CompactionProof
  import Dyadic

  /** Labels a record is appended under. */
  function LabelsOf(schema: Schema, rec: Record): set<ChainLabel>
    requires ValidSchema(schema)
  {
    set f, d | f in schema && f in rec && d in Dyadic.LevelsFor(rec[f], schema[f].bits, schema[f].mlvl) :: Of(f, d)
  }

  function CountAt(chains: map<ChainLabel, nat>, l: ChainLabel): nat {
    if l in chains then chains[l] else 0
  }

  /** Counters after one more entry under each of some labels. */
  ghost predicate Advanced(chains: map<ChainLabel, nat>, labels: set<ChainLabel>, chains': map<ChainLabel, nat>) {
    forall l :: CountAt(chains', l) == CountAt(chains, l) + if l in labels then 1 else 0
  }

  function SlotAfter(chains: map<ChainLabel, nat>, ep: nat, me: Writer, l: ChainLabel): Key {
    Link(Index(l, ep, me), CountAt(chains, l) + 1)
  }

  function SlotsFor(chains: map<ChainLabel, nat>, labels: set<ChainLabel>, ep: nat, me: Writer): set<Key> {
    set l | l in labels :: SlotAfter(chains, ep, me, l)
  }

  /** The entries one record is appended as: in each of its chains, right after what the counters say is there. */
  function EntriesFor(chains: map<ChainLabel, nat>, labels: set<ChainLabel>, ep: nat, me: Writer, r: Rid): Net {
    map k | k in SlotsFor(chains, labels, ep, me) :: Entry(r)
  }

  function FieldLabels(f: Field, labels: seq<Dyadic.Label>, k: nat): set<ChainLabel>
    requires k <= |labels|
  {
    set j | 0 <= j < k :: Of(f, labels[j])
  }

  /** One field of a record: an entry per level. */
  method AppendField(f: Field, labels: seq<Dyadic.Label>, ep: nat, me: Writer, r: Rid, chains: map<ChainLabel, nat>,
                     puts: Net)
    returns (chains': map<ChainLabel, nat>, puts': Net)
    requires forall i, j :: 0 <= i < j < |labels| ==> labels[i].level != labels[j].level
    ensures Advanced(chains, FieldLabels(f, labels, |labels|), chains')
    ensures puts' == puts + EntriesFor(chains, FieldLabels(f, labels, |labels|), ep, me, r)
  {
    hide Advanced, EntriesFor, FieldLabels;
    chains', puts' := chains, puts;
    NoFieldLabels(f, labels, chains, ep, me, r);
    for k := 0 to |labels|
      invariant Advanced(chains, FieldLabels(f, labels, k), chains')
      invariant puts' == puts + EntriesFor(chains, FieldLabels(f, labels, k), ep, me, r)
    {
      var l := Of(f, labels[k]);
      NextFieldLabel(f, labels, k);
      AdvanceOne(chains, FieldLabels(f, labels, k), chains', l);
      EntriesGrow(chains, FieldLabels(f, labels, k), ep, me, r, l);
      var i := CountAt(chains', l) + 1;
      puts' := puts'[Link(Index(l, ep, me), i) := Entry(r)];
      chains' := chains'[l := i];
    }
  }

  lemma NoFieldLabels(f: Field, labels: seq<Dyadic.Label>, chains: map<ChainLabel, nat>, ep: nat, me: Writer, r: Rid)
    ensures Advanced(chains, FieldLabels(f, labels, 0), chains)
    ensures EntriesFor(chains, FieldLabels(f, labels, 0), ep, me, r) == map[]
  {
  }

  lemma NextFieldLabel(f: Field, labels: seq<Dyadic.Label>, k: nat)
    requires k < |labels| && forall i, j :: 0 <= i < j < |labels| ==> labels[i].level != labels[j].level
    ensures Of(f, labels[k]) !in FieldLabels(f, labels, k)
    ensures FieldLabels(f, labels, k + 1) == FieldLabels(f, labels, k) + {Of(f, labels[k])}
  {
  }

  lemma AdvanceOne(chains: map<ChainLabel, nat>, labels: set<ChainLabel>, mid: map<ChainLabel, nat>, l: ChainLabel)
    requires Advanced(chains, labels, mid) && l !in labels
    ensures CountAt(mid, l) == CountAt(chains, l)
    ensures Advanced(chains, labels + {l}, mid[l := CountAt(mid, l) + 1])
  {
  }

  lemma EntriesGrow(chains: map<ChainLabel, nat>, labels: set<ChainLabel>, ep: nat, me: Writer, r: Rid, l: ChainLabel)
    ensures EntriesFor(chains, labels + {l}, ep, me, r) == EntriesFor(chains, labels, ep, me,
                                                                      r)[SlotAfter(chains, ep, me, l) := Entry(r)]
  {
  }

  function LabelsIn(labels: set<ChainLabel>, fields: set<Field>): set<ChainLabel> {
    set l | l in labels && l.Of? && l.field in fields
  }

  lemma FieldOfRecord(schema: Schema, rec: Record, done: set<Field>, f: Field)
    requires ValidSchema(schema) && f in schema && f !in done
    ensures var all := LabelsOf(schema, rec);
            && (f !in rec ==> LabelsIn(all, done + {f}) == LabelsIn(all, done))
            && (f in rec ==> var labels := Dyadic.LevelsFor(rec[f], schema[f].bits, schema[f].mlvl);
                  && LabelsIn(all, done + {f}) == LabelsIn(all, done) + FieldLabels(f, labels, |labels|)
                  && LabelsIn(all, done) !! FieldLabels(f, labels, |labels|))
  {
    hide Dyadic.LevelsFor;
    var all := LabelsOf(schema, rec);
    if f in rec {
      var labels := Dyadic.LevelsFor(rec[f], schema[f].bits, schema[f].mlvl);
      forall l | l in FieldLabels(f, labels, |labels|) ensures l in all {
        assert l.node in labels;
      }
    }
  }

  lemma AdvancedBoth(chains: map<ChainLabel, nat>, a: set<ChainLabel>, mid: map<ChainLabel, nat>, b: set<ChainLabel>,
                     chains': map<ChainLabel, nat>, ep: nat, me: Writer, r: Rid)
    requires Advanced(chains, a, mid) && Advanced(mid, b, chains') && a !! b
    ensures Advanced(chains, a + b, chains')
    ensures EntriesFor(chains, a + b, ep, me, r) == EntriesFor(chains, a, ep, me, r) + EntriesFor(mid, b, ep, me, r)
  {
    forall l | l in b ensures SlotAfter(mid, ep, me, l) == SlotAfter(chains, ep, me, l) {
    }
  }

  /** All fields of one record. */
  method AppendRecord(schema: Schema, rec: Record, ep: nat, me: Writer, r: Rid, chains: map<ChainLabel, nat>)
    returns (chains': map<ChainLabel, nat>, puts: Net)
    requires ValidSchema(schema)
    ensures Advanced(chains, LabelsOf(schema, rec), chains')
    ensures puts == EntriesFor(chains, LabelsOf(schema, rec), ep, me, r)[Rec(r) := Blob(rec)]
  {
    hide LabelsOf, Advanced, FieldLabels, LabelsIn, EntriesFor;
    ghost var all := LabelsOf(schema, rec);
    NoLabelsYet(schema, rec, chains, ep, me, r);
    chains', puts := chains, map[Rec(r) := Blob(rec)];
    var todo := schema.Keys;
    ghost var done: set<Field> := {};
    while todo != {}
      invariant todo + done == schema.Keys && todo !! done
      invariant Advanced(chains, LabelsIn(all, done), chains')
      invariant puts == map[Rec(r) := Blob(rec)] + EntriesFor(chains, LabelsIn(all, done), ep, me, r)
      decreases todo
    {
      var f :| f in todo;
      FieldOfRecord(schema, rec, done, f);
      if f in rec {
        var labels := Dyadic.LevelsFor(rec[f], schema[f].bits, schema[f].mlvl);
        ghost var mid := chains';
        chains', puts := AppendField(f, labels, ep, me, r, chains', puts);
        AdvancedBoth(chains, LabelsIn(all, done), mid, FieldLabels(f, labels, |labels|), chains', ep, me, r);
      }
      todo, done := todo - {f}, done + {f};
    }
    BlobFirst(chains, all, ep, me, r, rec);
  }

  lemma NoLabelsYet(schema: Schema, rec: Record, chains: map<ChainLabel, nat>, ep: nat, me: Writer, r: Rid)
    requires ValidSchema(schema)
    ensures Advanced(chains, LabelsIn(LabelsOf(schema, rec), {}), chains)
    ensures EntriesFor(chains, LabelsIn(LabelsOf(schema, rec), {}), ep, me, r) == map[]
    ensures LabelsIn(LabelsOf(schema, rec), schema.Keys) == LabelsOf(schema, rec)
  {
    hide Dyadic.LevelsFor;
  }

  lemma BlobFirst(chains: map<ChainLabel, nat>, labels: set<ChainLabel>, ep: nat, me: Writer, r: Rid, rec: Record)
    ensures map[Rec(r) := Blob(rec)] + EntriesFor(chains, labels, ep, me, r) == EntriesFor(chains, labels, ep, me,
            r)[Rec(r) := Blob(rec)]
  {
  }

  // ------------------------------------------------------------ refinement of the insert step

  /** The owner's counters say how long its own chains of its epoch are. */
  ghost predicate CountersTrue(w: World, chains: map<ChainLabel, nat>, ep: nat, me: Writer) {
    forall l: ChainLabel :: l.Of? ==> CountAt(chains, l) == |w.Log(Index(l, ep, me))|
  }

  /** The world one insert leads to. */
  ghost function InsertedWorld(schema: Schema, w: World, ep: nat, me: Writer, r: Rid, rec: Record): World
    requires ValidSchema(schema)
  {
    var chains := RecordChains(schema, rec, ep, me);
    w.(net := Compaction.Filled(w.net, NextSlots(w.log, chains), r)[Rec(r) := Blob(rec)],
       table := w.table.(inserted := w.table.inserted[r := rec]),
       log := Appended(w.log, chains, r))
  }

  lemma LabelsAreChains(schema: Schema, rec: Record, ep: nat, me: Writer, l: ChainLabel)
    requires ValidSchema(schema)
    ensures l in LabelsOf(schema, rec) <==> Index(l, ep, me) in RecordChains(schema, rec, ep, me)
    ensures l in LabelsOf(schema, rec) ==> l.Of?
  {
    hide Dyadic.LevelsFor;
  }

  lemma ChainsAreIndex(schema: Schema, rec: Record, ep: nat, me: Writer, c: Chain)
    requires ValidSchema(schema) && c in RecordChains(schema, rec, ep, me)
    ensures c.Index? && c == Index(c.w, ep, me)
  {
    hide Dyadic.LevelsFor;
  }

  /** Slots computed from true counters are the next free ones. */
  lemma SlotsAreNext(schema: Schema, w: World, chains: map<ChainLabel, nat>, ep: nat, me: Writer, rec: Record, r: Rid)
    requires ValidSchema(schema) && CountersTrue(w, chains, ep, me)
    ensures EntriesFor(chains, LabelsOf(schema, rec), ep, me, r).Keys == NextSlots(w.log,
            RecordChains(schema, rec, ep, me))
  {
    hide LabelsOf, RecordChains;
    var labels, cs := LabelsOf(schema, rec), RecordChains(schema, rec, ep, me);
    forall l ensures l in labels <==> Index(l, ep, me) in cs {
      LabelsAreChains(schema, rec, ep, me, l);
    }
    forall l | l in labels ensures SlotAfter(chains, ep, me, l) in NextSlots(w.log, cs) {
      LabelsAreChains(schema, rec, ep, me, l);
      assert Index(l, ep, me) in cs;
    }
    forall k | k in NextSlots(w.log, cs) ensures k in EntriesFor(chains, labels, ep, me, r) {
      var c :| c in cs && k == Link(c, (if c in w.log then |w.log[c]| else 0) + 1);
      ChainsAreIndex(schema, rec, ep, me, c);
      LabelsAreChains(schema, rec, ep, me, c.w);
      assert k == SlotAfter(chains, ep, me, c.w);
    }
  }

  lemma InsertRefines(schema: Schema, w: World, chains: map<ChainLabel, nat>, ep: nat, me: Writer, r: Rid, rec: Record,
                      chains': map<ChainLabel, nat>, puts: Net)
    requires ValidSchema(schema) && MayWrite(w, me, ep) && r !in w.table.inserted && r !in w.table.deleted
    requires CountersTrue(w, chains, ep, me) && Advanced(chains, LabelsOf(schema, rec), chains')
    requires puts == EntriesFor(chains, LabelsOf(schema, rec), ep, me, r)[Rec(r) := Blob(rec)]
    ensures var w' := InsertedWorld(schema, w, ep, me, r, rec);
            Insert(schema, w, w', me, ep, r, rec) && w'.net == w.net + puts && CountersTrue(w', chains', ep, me)
  {
    hide LabelsOf, RecordChains, EntriesFor, NextSlots;
    var w' := InsertedWorld(schema, w, ep, me, r, rec);
    SlotsAreNext(schema, w, chains, ep, me, rec, r);
    NetAfter(w.net, chains, LabelsOf(schema, rec), ep, me, r, rec, puts);
    forall l: ChainLabel | l.Of?
      ensures CountAt(chains', l) == |w'.Log(Index(l, ep, me))|
    {
      LabelsAreChains(schema, rec, ep, me, l);
    }
  }

  lemma NetAfter(net: Net, chains: map<ChainLabel, nat>, labels: set<ChainLabel>, ep: nat, me: Writer, r: Rid,
                 rec: Record, puts: Net)
    requires puts == EntriesFor(chains, labels, ep, me, r)[Rec(r) := Blob(rec)]
    ensures Compaction.Filled(net, EntriesFor(chains, labels, ep, me, r).Keys, r)[Rec(r) := Blob(rec)] == net + puts
  {
  }

  /** A step by which a writer writes into an epoch, or a ciphertext goes. */
  ghost predicate Write(schema: Schema, w: World, w': World, ep: nat)
    requires ValidSchema(schema)
  {
    || (exists u, r, rec :: Insert(schema, w, w', u, ep, r, rec))
    || (exists u, r :: Bury(w, w', u, ep, r))
    || (exists r :: Erase(w, w', r))
  }

  lemma WriteIsStep(schema: Schema, w: World, w': World, ep: nat)
    requires ValidSchema(schema) && Write(schema, w, w', ep)
    ensures Step(schema, w, w')
  {
    hide Insert, Bury, Erase;
  }

  /** A stretch of such steps from one world to another. */
  ghost predicate Steps(schema: Schema, trace: seq<World>, ep: nat)
    requires ValidSchema(schema)
  {
    trace != [] && forall k :: 0 <= k < |trace| - 1 ==> Write(schema, trace[k], trace[k + 1], ep)
  }

  lemma StepsOn(schema: Schema, trace: seq<World>, w': World, ep: nat)
    requires ValidSchema(schema) && Steps(schema, trace, ep) && Write(schema, trace[|trace| - 1], w', ep)
    ensures Steps(schema, trace + [w'], ep)
  {
    hide Write;
  }

  function InsertedOf(recs: seq<(Rid, Record)>, n: nat): map<Rid, Record>
    requires n <= |recs|
  {
    if n == 0 then map[] else InsertedOf(recs, n - 1)[recs[n - 1].0 := recs[n - 1].1]
  }

  lemma {:induction false} InsertedOnlyThose(recs: seq<(Rid, Record)>, n: nat, r: Rid)
    requires n <= |recs| && r in InsertedOf(recs, n)
    ensures exists k :: 0 <= k < n && recs[k].0 == r
  {
    if r != recs[n - 1].0 {
      InsertedOnlyThose(recs, n - 1, r);
    }
  }

  /** New ids: distinct, and never used before. */
  ghost predicate FreshIds(w: World, recs: seq<(Rid, Record)>) {
    && (forall i, j :: 0 <= i < j < |recs| ==> recs[i].0 != recs[j].0)
    && (forall i :: 0 <= i < |recs| ==> recs[i].0 !in w.table.inserted && recs[i].0 !in w.table.deleted)
  }

  /** Index entries and ciphertexts, and nothing for the system chains. */
  ghost predicate NoSystem(puts: Net) {
    forall k :: k in puts ==> k.Rec? || k.chain.Index?
  }

  lemma EntriesNoSystem(chains: map<ChainLabel, nat>, labels: set<ChainLabel>, ep: nat, me: Writer, r: Rid, rec: Record)
    ensures NoSystem(EntriesFor(chains, labels, ep, me, r)[Rec(r) := Blob(rec)])
  {
  }

  lemma BothNoSystem(puts: Net, more: Net)
    requires NoSystem(puts) && NoSystem(more)
    ensures NoSystem(puts + more)
  {
  }

  /** The world after some inserts: their writes, their records, and counters that are true again. */
  ghost predicate InsertsTo(w: World, at: World, recs: seq<(Rid, Record)>, n: nat, ep: nat, me: Writer,
                            chains: map<ChainLabel, nat>, puts: Net)
    requires n <= |recs|
  {
    && at == w.(net := w.net + puts, table := w.table.(inserted := w.table.inserted + InsertedOf(recs, n)),
                log := at.log)
    && CountersTrue(at, chains, ep, me) && NoSystem(puts) && at.Log(Index(Tomb, ep, me)) == w.Log(Index(Tomb, ep, me))
  }

  lemma NoTombAppended(schema: Schema, w: World, ep: nat, me: Writer, r: Rid, rec: Record)
    requires ValidSchema(schema)
    ensures InsertedWorld(schema, w, ep, me, r, rec).Log(Index(Tomb, ep, me)) == w.Log(Index(Tomb, ep, me))
  {
    hide Dyadic.LevelsFor;
  }

  lemma Joined<K, V>(a: map<K, V>, b: map<K, V>, c: map<K, V>, k: K, v: V)
    ensures a + b + c == a + (b + c) && (a + b)[k := v] == a + b[k := v]
  {
  }

  lemma InsertsOn(schema: Schema, w: World, at: World, recs: seq<(Rid, Record)>, n: nat, ep: nat, me: Writer,
                  chains: map<ChainLabel, nat>, puts: Net, chains': map<ChainLabel, nat>, more: Net)
    requires ValidSchema(schema) && n < |recs| && InsertsTo(w, at, recs, n, ep, me, chains, puts)
    requires MayWrite(w, me, ep) && FreshIds(w, recs)
    requires Advanced(chains, LabelsOf(schema, recs[n].1), chains')
    requires more == EntriesFor(chains, LabelsOf(schema, recs[n].1), ep, me, recs[n].0)[Rec(recs[n].0) :=
             Blob(recs[n].1)]
    ensures var next := InsertedWorld(schema, at, ep, me, recs[n].0, recs[n].1);
            InsertsTo(w, next, recs, n + 1, ep, me, chains', puts + more) && Write(schema, at, next, ep)
  {
    hide Write, LabelsOf, InsertedWorld, CountersTrue, Advanced, EntriesFor, MayWrite, Insert, NoSystem;
    var (r, rec) := recs[n];
    if r in InsertedOf(recs, n) {
      InsertedOnlyThose(recs, n, r);
    }
    SameWriters(w, at, me, ep);
    EntriesNoSystem(chains, LabelsOf(schema, rec), ep, me, r, rec);
    BothNoSystem(puts, more);
    InsertRefines(schema, at, chains, ep, me, r, rec, chains', more);
    var next := InsertedWorld(schema, at, ep, me, r, rec);
    InsertIsWrite(schema, at, next, me, ep, r, rec);
    NextWorld(schema, at, ep, me, r, rec);
    NoTombAppended(schema, at, ep, me, r, rec);
    Joined(w.net, puts, more, Rec(r), Blob(rec));
    Joined(w.table.inserted, InsertedOf(recs, n), map[], r, rec);
  }

  /** The batch so far: a stretch of steps, one per record, whose writes are the puts collected. */
  ghost predicate BatchAt(schema: Schema, w: World, recs: seq<(Rid, Record)>, n: nat, ep: nat, me: Writer,
                          trace: seq<World>, chains: map<ChainLabel, nat>, puts: Net)
    requires ValidSchema(schema) && n <= |recs|
  {
    Steps(schema, trace, ep) && trace[0] == w && InsertsTo(w, trace[|trace| - 1], recs, n, ep, me, chains, puts)
  }

  lemma BatchStarts(schema: Schema, w: World, recs: seq<(Rid, Record)>, ep: nat, me: Writer,
                    chains: map<ChainLabel, nat>)
    requires ValidSchema(schema) && CountersTrue(w, chains, ep, me)
    ensures BatchAt(schema, w, recs, 0, ep, me, [w], chains, map[])
  {
    hide Write, CountersTrue;
    assert w.net + map[] == w.net && w.table.inserted + map[] == w.table.inserted;
  }

  lemma BatchNext(schema: Schema, w: World, recs: seq<(Rid, Record)>, n: nat, ep: nat, me: Writer,
                  trace: seq<World>, chains: map<ChainLabel, nat>, puts: Net, chains': map<ChainLabel, nat>, more: Net)
    returns (next: World)
    requires ValidSchema(schema) && n < |recs| && BatchAt(schema, w, recs, n, ep, me, trace, chains, puts)
    requires MayWrite(w, me, ep) && FreshIds(w, recs)
    requires Advanced(chains, LabelsOf(schema, recs[n].1), chains')
    requires more == EntriesFor(chains, LabelsOf(schema, recs[n].1), ep, me, recs[n].0)[Rec(recs[n].0) :=
             Blob(recs[n].1)]
    ensures BatchAt(schema, w, recs, n + 1, ep, me, trace + [next], chains', puts + more)
  {
    hide Write, LabelsOf, InsertedWorld, Advanced, EntriesFor, MayWrite, InsertsTo, FreshIds;
    var at := trace[|trace| - 1];
    InsertsOn(schema, w, at, recs, n, ep, me, chains, puts, chains', more);
    next := InsertedWorld(schema, at, ep, me, recs[n].0, recs[n].1);
    StepsOn(schema, trace, next, ep);
  }

  /** Insert a batch. The counters move before the write goes out. When it is durable, the network has taken one
      insert step per record and the counters are still true; the steps are there in any case. */
  method InsertMany(o: Owner, net: Net, recs: seq<(Rid, Record)>, durable: bool, ghost w: World)
    returns (net': Net, puts: Net, ghost trace: seq<World>)
    requires ValidSchema(o.schema) && net == w.net
    requires MayWrite(w, o.me, o.st.epoch) && CountersTrue(w, o.st.chains, o.st.epoch, o.me) && FreshIds(w, recs)
    modifies o`st
    ensures o.st == old(o.st).(chains := o.st.chains)
    ensures Steps(o.schema, trace, o.st.epoch) && trace[0] == w
    ensures var w' := trace[|trace| - 1];
            && w' == w.(net := w'.net, table := w.table.(inserted := w.table.inserted + InsertedOf(recs, |recs|)),
                        log := w'.log)
            && CountersTrue(w', o.st.chains, o.st.epoch, o.me)
            && w'.Log(OwnTomb(o.st.epoch, o.me)) == w.Log(OwnTomb(o.st.epoch, o.me))
            && w'.net == w.net + puts && net' == if durable then w'.net else net
    ensures NoSystem(puts)
  {
    hide Steps, LabelsOf, CountersTrue, Advanced, EntriesFor, MayWrite, BatchAt, FreshIds;
    var ep, chains := o.st.epoch, o.st.chains;
    puts := map[];
    trace := [w];
    BatchStarts(o.schema, w, recs, ep, o.me, chains);
    for n := 0 to |recs|
      invariant BatchAt(o.schema, w, recs, n, ep, o.me, trace, chains, puts) && o.st == old(o.st)
    {
      ghost var before := chains;
      var more;
      chains, more := AppendRecord(o.schema, recs[n].1, ep, o.me, recs[n].0, chains);
      ghost var next := BatchNext(o.schema, w, recs, n, ep, o.me, trace, before, puts, chains, more);
      puts, trace := puts + more, trace + [next];
    }
    BatchDone(o.schema, w, recs, ep, o.me, trace, chains, puts);
    o.st := o.st.(chains := chains);
    net' := if durable then net + puts else net;
  }

  lemma BatchDone(schema: Schema, w: World, recs: seq<(Rid, Record)>, ep: nat, me: Writer,
                  trace: seq<World>, chains: map<ChainLabel, nat>, puts: Net)
    requires ValidSchema(schema) && BatchAt(schema, w, recs, |recs|, ep, me, trace, chains, puts)
    ensures Steps(schema, trace, ep) && trace != [] && trace[0] == w && NoSystem(puts)
    ensures var w' := trace[|trace| - 1];
            && w' == w.(net := w.net + puts, table := w.table.(inserted := w.table.inserted + InsertedOf(recs, |recs|)),
                        log := w'.log)
            && CountersTrue(w', chains, ep, me) && w'.Log(OwnTomb(ep, me)) == w.Log(OwnTomb(ep, me))
  {
    hide Write, CountersTrue;
  }

  lemma SameWriters(w: World, at: World, me: Writer, ep: nat)
    requires at == w.(net := at.net, table := at.table, log := at.log)
    ensures MayWrite(w, me, ep) == MayWrite(at, me, ep)
  {
  }

  lemma InsertIsWrite(schema: Schema, w: World, w': World, u: Writer, ep: nat, r: Rid, rec: Record)
    requires ValidSchema(schema) && Insert(schema, w, w', u, ep, r, rec)
    ensures Write(schema, w, w', ep)
  {
    hide Insert;
  }

  lemma NextWorld(schema: Schema, w: World, ep: nat, me: Writer, r: Rid, rec: Record)
    requires ValidSchema(schema)
    ensures var w' := InsertedWorld(schema, w, ep, me, r, rec);
            w' == w.(net := w'.net, table := w.table.(inserted := w.table.inserted[r := rec]), log := w'.log)
  {
  }

  // ------------------------------------------------------------ a write that failed

  /** Why the counters must not move for a write that did not land: after a failed insert the next successful one
      leaves a hole in exactly those chains, of the ones nothing has been deleted from, that the two records share. */
  lemma FailedPutLeavesHoles(schema: Schema, w: World, chains: map<ChainLabel, nat>, ep: nat, me: Writer,
                             failed: Record,
                             chains': map<ChainLabel, nat>, r: Rid, rec: Record, puts: Net, l: ChainLabel)
    requires ValidSchema(schema) && Rendered(w.net, w.log, w.missing) && forall i: nat ::
               Link(Index(l, ep, me), i) !in w.missing
    requires CountersTrue(w, chains, ep, me) && Advanced(chains, LabelsOf(schema, failed), chains')
    requires puts == EntriesFor(chains', LabelsOf(schema, rec), ep, me, r)[Rec(r) := Blob(rec)]
    requires l in LabelsOf(schema, rec)
    ensures Dense(w.net + puts, Index(l, ep, me)) <==> l !in LabelsOf(schema, failed)
  {
    hide LabelsOf, Rendered;
    var c, net' := Index(l, ep, me), w.net + puts;
    var n := CountAt(chains, l);
    LabelsAreChains(schema, rec, ep, me, l);
    OwnChain(w, c);
    forall i: nat ensures Link(c, i) in net' <==> 1 <= i <= n || i == CountAt(chains', l) + 1 {
      OnlySlot(chains', LabelsOf(schema, rec), ep, me, l, i);
    }
    if l in LabelsOf(schema, failed) {
      assert Link(c, n + 2) in net' && Link(c, n + 1) !in net';
    } else {
      assert DenseTo(net', c, n + 1);
    }
  }

  lemma OwnChain(w: World, c: Chain)
    requires Rendered(w.net, w.log, w.missing) && c.Index? && forall i: nat :: Link(c, i) !in w.missing
    ensures forall i: nat :: Link(c, i) in w.net <==> 1 <= i <= |w.Log(c)|
  {
  }

  lemma OnlySlot(chains: map<ChainLabel, nat>, labels: set<ChainLabel>, ep: nat, me: Writer, l: ChainLabel, i: nat)
    ensures Link(Index(l, ep, me), i) in SlotsFor(chains, labels, ep, me) <==>
              l in labels && i == CountAt(chains, l) + 1
  {
  }

  // ------------------------------------------------------------ deleting

  function OwnTomb(ep: nat, me: Writer): Chain {
    Index(Tomb, ep, me)
  }

  function TombCount(st: State, ep: nat, me: Writer): nat {
    if OwnTomb(ep, me) in st.tombCounts then st.tombCounts[OwnTomb(ep, me)] else 0
  }

  /** The world one tombstone leads to. */
  ghost function BuriedWorld(w: World, ep: nat, me: Writer, r: Rid): World {
    w.(net := w.net[Link(OwnTomb(ep, me), |w.Log(OwnTomb(ep, me))| + 1) := Entry(r)],
       table := w.table.(deleted := w.table.deleted + {r}),
       log := w.log[OwnTomb(ep, me) := w.Log(OwnTomb(ep, me)) + [r]])
  }

  lemma AppendToOne(log: map<Chain, seq<Rid>>, c: Chain, r: Rid)
    ensures var was := if c in log then log[c] else [];
            && NextSlots(log, {c}) == {Link(c, |was| + 1)} && Appended(log, {c}, r) == log[c := was + [r]]
  {
  }

  lemma FillOne(net: Net, k: Key, r: Rid)
    ensures Compaction.Filled(net, {k}, r) == net[k := Entry(r)]
  {
  }

  lemma BuriedIsBury(w: World, ep: nat, me: Writer, r: Rid)
    requires MayWrite(w, me, ep)
    ensures Bury(w, BuriedWorld(w, ep, me, r), me, ep, r)
  {
    hide MayWrite, NextSlots, Appended, Compaction.Filled;
    var c := OwnTomb(ep, me);
    AppendToOne(w.log, c, r);
    FillOne(w.net, Link(c, |w.Log(c)| + 1), r);
  }

  lemma BuryIsWrite(schema: Schema, w: World, ep: nat, me: Writer, r: Rid)
    requires ValidSchema(schema) && MayWrite(w, me, ep)
    ensures Write(schema, w, BuriedWorld(w, ep, me, r), ep)
  {
    hide MayWrite, BuriedWorld, Bury;
    BuriedIsBury(w, ep, me, r);
  }

  lemma EraseIsWrite(schema: Schema, w: World, r: Rid, ep: nat)
    requires ValidSchema(schema) && r in w.table.deleted
    ensures Write(schema, w, w.(net := w.net - {Rec(r)}), ep)
  {
    assert Erase(w, w.(net := w.net - {Rec(r)}), r);
  }

  function BlobKeys(rids: seq<Rid>, n: nat, reached: set<Rid>): set<Key>
    requires n <= |rids|
  {
    set j | 0 <= j < n && rids[j] in reached :: Rec(rids[j])
  }

  function Taken(rids: seq<Rid>, n: nat): set<Rid>
    requires n <= |rids|
  {
    set j | 0 <= j < n :: rids[j]
  }

  ghost predicate DeletesAt(schema: Schema, w: World, rids: seq<Rid>, n: nat, ep: nat, me: Writer, trace: seq<World>,
                            puts: Net)
    requires ValidSchema(schema) && n <= |rids|
  {
    Steps(schema, trace, ep) && trace[0] == w && DeletesTo(w, trace[|trace| - 1], rids, n, ep, me, puts)
  }

  /** The world after some tombstones. */
  ghost predicate DeletesTo(w: World, at: World, rids: seq<Rid>, n: nat, ep: nat, me: Writer, puts: Net)
    requires n <= |rids|
  {
    && at == w.(net := w.net + puts, table := w.table.(deleted := w.table.deleted + Taken(rids, n)), log := at.log)
    && TombsGrown(w, at, rids, n, ep, me) && TombKeys(puts, ep, me)
  }

  /** The owner's tombstone chain has grown by the ids, and no other chain has. */
  ghost predicate TombsGrown(w: World, at: World, rids: seq<Rid>, n: nat, ep: nat, me: Writer)
    requires n <= |rids|
  {
    && at.Log(OwnTomb(ep, me)) == w.Log(OwnTomb(ep, me)) + rids[..n]
    && forall c :: c != OwnTomb(ep, me) ==> at.Log(c) == w.Log(c)
  }

  ghost predicate TombKeys(puts: Net, ep: nat, me: Writer) {
    forall k :: k in puts ==> k.Link? && k.chain == OwnTomb(ep, me)
  }

  lemma TombsGrow(w: World, at: World, rids: seq<Rid>, n: nat, ep: nat, me: Writer)
    requires n < |rids| && TombsGrown(w, at, rids, n, ep, me)
    ensures TombsGrown(w, BuriedWorld(at, ep, me, rids[n]), rids, n + 1, ep, me)
  {
    assert rids[..n] + [rids[n]] == rids[..n + 1];
    assert w.Log(OwnTomb(ep, me)) + rids[..n] + [rids[n]] == w.Log(OwnTomb(ep, me)) + rids[..n + 1];
  }

  lemma DeletesOn(w: World, at: World, rids: seq<Rid>, n: nat, ep: nat, me: Writer, puts: Net)
    requires n < |rids| && DeletesTo(w, at, rids, n, ep, me, puts)
    ensures DeletesTo(w, BuriedWorld(at, ep, me, rids[n]), rids, n + 1, ep, me,
                      puts[Link(OwnTomb(ep, me), |w.Log(OwnTomb(ep, me))| + n + 1) := Entry(rids[n])])
  {
    hide TombsGrown;
    TombsGrow(w, at, rids, n, ep, me);
    GrownLength(w, at, rids, n, ep, me);
    assert Taken(rids, n + 1) == Taken(rids, n) + {rids[n]};
    Joined(w.net, puts, map[], Link(OwnTomb(ep, me), |w.Log(OwnTomb(ep, me))| + n + 1), Entry(rids[n]));
    assert w.table.deleted + Taken(rids, n) + {rids[n]} == w.table.deleted + Taken(rids, n + 1);
  }

  lemma DeletesNext(schema: Schema, w: World, rids: seq<Rid>, n: nat, ep: nat, me: Writer, trace: seq<World>, puts: Net)
    returns (next: World)
    requires ValidSchema(schema) && n < |rids| && MayWrite(w, me, ep)
             && DeletesAt(schema, w, rids, n, ep, me, trace, puts)
    ensures DeletesAt(schema, w, rids, n + 1, ep, me, trace + [next],
                      puts[Link(OwnTomb(ep, me), |w.Log(OwnTomb(ep, me))| + n + 1) := Entry(rids[n])])
  {
    hide Write, DeletesTo, MayWrite, BuriedWorld;
    var at := trace[|trace| - 1];
    DeletesOn(w, at, rids, n, ep, me, puts);
    StillMayWrite(w, at, rids, n, ep, me, puts);
    next := BuriedWorld(at, ep, me, rids[n]);
    BuryIsWrite(schema, at, ep, me, rids[n]);
    StepsOn(schema, trace, next, ep);
  }

  lemma StillMayWrite(w: World, at: World, rids: seq<Rid>, n: nat, ep: nat, me: Writer, puts: Net)
    requires n <= |rids| && DeletesTo(w, at, rids, n, ep, me, puts)
    ensures MayWrite(at, me, ep) == MayWrite(w, me, ep)
  {
  }

  lemma GrownLength(w: World, at: World, rids: seq<Rid>, n: nat, ep: nat, me: Writer)
    requires n <= |rids| && TombsGrown(w, at, rids, n, ep, me)
    ensures |at.Log(OwnTomb(ep, me))| == |w.Log(OwnTomb(ep, me))| + n
  {
  }

  /** Ciphertexts go after the tombstones: a stretch of erasing steps. */
  lemma {:induction false} Erasures(schema: Schema, w: World, rids: seq<Rid>, n: nat, reached: set<Rid>, ep: nat)
    returns (trace: seq<World>)
    requires ValidSchema(schema) && n <= |rids| && Taken(rids, n) <= w.table.deleted
    ensures Steps(schema, trace, ep) && trace[0] == w
    ensures trace[|trace| - 1] == w.(net := w.net - BlobKeys(rids, n, reached))
  {
    hide Write;
    if n == 0 {
      trace := [w];
      assert w.net - BlobKeys(rids, 0, reached) == w.net;
    } else {
      assert Taken(rids, n) == Taken(rids, n - 1) + {rids[n - 1]};
      trace := Erasures(schema, w, rids, n - 1, reached, ep);
      if rids[n - 1] in reached {
        var at := trace[|trace| - 1];
        EraseIsWrite(schema, at, rids[n - 1], ep);
        StepsOn(schema, trace, at.(net := at.net - {Rec(rids[n - 1])}), ep);
        trace := trace + [at.(net := at.net - {Rec(rids[n - 1])})];
        assert BlobKeys(rids, n, reached) == BlobKeys(rids, n - 1, reached) + {Rec(rids[n - 1])};
        assert w.net - BlobKeys(rids, n - 1, reached) - {Rec(rids[n - 1])} == w.net - BlobKeys(rids, n, reached);
      } else {
        assert BlobKeys(rids, n, reached) == BlobKeys(rids, n - 1, reached);
      }
    }
  }

  lemma StepsJoin(schema: Schema, a: seq<World>, b: seq<World>, ep: nat)
    requires ValidSchema(schema) && Steps(schema, a, ep) && Steps(schema, b, ep) && a[|a| - 1] == b[0]
    ensures Steps(schema, a + b[1..], ep) && (a + b[1..])[|a + b[1..]| - 1] == b[|b| - 1] && (a + b[1..])[0] == a[0]
  {
    hide Write;
    forall k | 0 <= k < |a + b[1..]| - 1 ensures Write(schema, (a + b[1..])[k], (a + b[1..])[k + 1], ep) {
      if k >= |a| - 1 {
        var j := k - (|a| - 1);
        assert Write(schema, b[j], b[j + 1], ep);
      }
    }
  }

  /** Delete a batch: tombstones first, then, as far as they are reached, the ciphertexts. Unlike an insert's, the
      counter moves only once the tombstones are durable; a failed call changes nothing. */
  method DeleteMany(o: Owner, net: Net, rids: seq<Rid>, durable: bool, reached: set<Rid>, ghost w: World)
    returns (net': Net, puts: Net, ghost trace: seq<World>)
    requires ValidSchema(o.schema) && net == w.net && MayWrite(w, o.me, o.st.epoch)
    requires TombCount(o.st, o.st.epoch, o.me) == |w.Log(OwnTomb(o.st.epoch, o.me))|
    modifies o`st
    ensures !durable ==> net' == net && o.st == old(o.st)
    ensures durable ==>
              && Steps(o.schema, trace, o.st.epoch) && trace[0] == w
              && var w' := trace[|trace| - 1];
                 && net' == w'.net
                 && w' == w.(net := w'.net, log := w'.log,
                             table := w.table.(deleted := w.table.deleted + Taken(rids, |rids|)))
                 && net' == net + puts - BlobKeys(rids, |rids|, reached)
                 && TombCount(o.st, o.st.epoch, o.me) == |w'.Log(OwnTomb(o.st.epoch, o.me))|
                 && TombsGrown(w, w', rids, |rids|, o.st.epoch, o.me)
                 && (forall r :: r in Taken(rids, |rids|) ==> r in o.st.tombRids && (r in reached ==> Rec(r) !in net'))
    ensures durable ==>
              o.st == old(o.st).(tombCounts :=
                                 old(o.st).tombCounts[OwnTomb(o.st.epoch, o.me) := TombCount(o.st, o.st.epoch, o.me)],
                                           tombRids := old(o.st).tombRids + Taken(rids, |rids|))
    ensures TombKeys(puts, o.st.epoch, o.me)
  {
    hide Steps, MayWrite, DeletesAt;
    var ep, base := o.st.epoch, TombCount(o.st, o.st.epoch, o.me);
    puts := map[];
    trace := [w];
    DeletesStart(o.schema, w, rids, ep, o.me);
    for n := 0 to |rids|
      invariant DeletesAt(o.schema, w, rids, n, ep, o.me, trace, puts) && o.st == old(o.st)
    {
      ghost var next := DeletesNext(o.schema, w, rids, n, ep, o.me, trace, puts);
      puts := puts[Link(OwnTomb(ep, o.me), base + n + 1) := Entry(rids[n])];
      trace := trace + [next];
    }
    if !durable {
      net' := net;
      DeletesKeys(o.schema, w, rids, ep, o.me, trace, puts);
      return;
    }
    DeletesKeys(o.schema, w, rids, ep, o.me, trace, puts);
    o.st := o.st.(tombCounts := o.st.tombCounts[OwnTomb(ep, o.me) := base + |rids|],
                  tombRids := o.st.tombRids + Taken(rids, |rids|));
    net' := net + puts - BlobKeys(rids, |rids|, reached);
    trace := DeletesDone(o.schema, w, rids, ep, o.me, trace, puts, reached);
    GrownLength(w, trace[|trace| - 1], rids, |rids|, ep, o.me);
  }

  lemma DeletesStart(schema: Schema, w: World, rids: seq<Rid>, ep: nat, me: Writer)
    requires ValidSchema(schema)
    ensures DeletesAt(schema, w, rids, 0, ep, me, [w], map[])
  {
    hide Write;
    assert w.net + map[] == w.net && w.table.deleted + Taken(rids, 0) == w.table.deleted;
  }

  lemma DeletesKeys(schema: Schema, w: World, rids: seq<Rid>, ep: nat, me: Writer, trace: seq<World>, puts: Net)
    requires ValidSchema(schema) && DeletesAt(schema, w, rids, |rids|, ep, me, trace, puts)
    ensures TombKeys(puts, ep, me)
  {
    hide Steps;
  }

  lemma DeletesDone(schema: Schema, w: World, rids: seq<Rid>, ep: nat, me: Writer, trace: seq<World>, puts: Net,
                    reached: set<Rid>)
    returns (full: seq<World>)
    requires ValidSchema(schema) && DeletesAt(schema, w, rids, |rids|, ep, me, trace, puts)
    ensures Steps(schema, full, ep) && full != [] && full[0] == w
    ensures var w' := full[|full| - 1];
            && w' == w.(net := w.net + puts - BlobKeys(rids, |rids|, reached), log := w'.log,
                        table := w.table.(deleted := w.table.deleted + Taken(rids, |rids|)))
            && TombsGrown(w, w', rids, |rids|, ep, me)
  {
    hide Write;
    var at := trace[|trace| - 1];
    var tail := Erasures(schema, at, rids, |rids|, reached, ep);
    StepsJoin(schema, trace, tail, ep);
    full := trace + tail[1..];
  }

  /** A stretch of steps keeps the protocol's invariant, so whatever inserts and deletes do, readers see the table. */
  lemma {:induction false} StepsKeep(schema: Schema, trace: seq<World>, k: nat, ep: nat)
    requires ValidSchema(schema) && Steps(schema, trace, ep) && Inv(schema, trace[0]) && k < |trace|
    ensures Inv(schema, trace[k])
  {
    hide Inv, Step, Write;
    if k > 0 {
      StepsKeep(schema, trace, k - 1, ep);
      WriteIsStep(schema, trace[k - 1], trace[k], ep);
      StepKeeps(schema, trace[k - 1], trace[k]);
    }
  }
}
