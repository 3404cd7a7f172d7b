/** Every step of the compaction protocol keeps its invariant, and so every run does. */
module CompactionProof {
  import opened Basics
  import opened Chains
  import opened Index
  import opened Query
  import opened Compaction
  import Dyadic

  // ------------------------------------------------------------ system chains

  ghost predicate SameChain(net: Net, net': Net, c: Chain) {
    forall i: nat :: (Link(c, i) in net <==> Link(c, i) in net') && (Link(c, i) in net ==>
                                                                     net[Link(c, i)] == net'[Link(c, i)])
  }

  ghost predicate SameLinks(net: Net, net': Net) {
    forall c: Chain, i: nat ::
      (Link(c, i) in net <==> Link(c, i) in net') && (Link(c, i) in net ==> net[Link(c, i)] == net'[Link(c, i)])
  }

  lemma DenseEnd(net: Net, c: Chain, end: nat)
    requires DenseTo(net, c, end)
    ensures Dense(net, c) && EndOf(net, c) == end
  {
    var e := EndOf(net, c);
    assert Link(c, end + 1) in net <==> end + 1 <= e;
    assert Link(c, e + 1) in net <==> e + 1 <= end;
  }

  lemma SameEnd(net: Net, net': Net, c: Chain)
    requires SameChain(net, net', c) && Dense(net, c)
    ensures Dense(net', c) && EndOf(net', c) == EndOf(net, c)
  {
    assert DenseTo(net', c, EndOf(net, c));
    DenseEnd(net', c, EndOf(net, c));
  }

  lemma {:induction false} SameMarks(net: Net, net': Net, n: nat)
    requires forall i: nat :: i <= n ==> (Link(EpochChain, i) in net <==> Link(EpochChain, i) in net')
    requires forall i: nat :: i <= n && Link(EpochChain, i) in net ==>
               net[Link(EpochChain, i)] == net'[Link(EpochChain, i)]
    ensures MarksOf(net, n) == MarksOf(net', n)
  {
    if n > 0 {
      SameMarks(net, net', n - 1);
    }
  }

  lemma {:induction false} SameNames(net: Net, net': Net, n: nat)
    requires forall i: nat :: i <= n ==> (Link(RegistryChain, i) in net <==> Link(RegistryChain, i) in net')
    requires forall i: nat :: i <= n && Link(RegistryChain, i) in net ==>
               net[Link(RegistryChain, i)] == net'[Link(RegistryChain, i)]
    ensures NamesOf(net, n) == NamesOf(net', n)
  {
    if n > 0 {
      SameNames(net, net', n - 1);
    }
  }

  /** Steps that touch neither system chain. */
  lemma SystemKept(w: World, w': World)
    requires SystemTrue(w)
    requires SameChain(w.net, w'.net, EpochChain) && SameChain(w.net, w'.net, RegistryChain)
    requires w'.epoch == w.epoch && w'.SealedMax() == w.SealedMax() && w'.writers == w.writers
             && w'.walkers == w.walkers
    requires w'.compactor == w.compactor && (w.phase.Idle? <==> w'.phase.Idle?)
    ensures SystemTrue(w')
  {
    SameEnd(w.net, w'.net, EpochChain);
    SameEnd(w.net, w'.net, RegistryChain);
    SameMarks(w.net, w'.net, EndOf(w.net, EpochChain));
    SameNames(w.net, w'.net, EndOf(w.net, RegistryChain));
  }

  // ------------------------------------------------------------ appends

  /** All chains of an append are index chains of one writer in one epoch. */
  ghost predicate OneWriter(chains: set<Chain>, ep: nat, u: Writer) {
    forall c :: c in chains ==> c.Index? && c.epoch == ep && c.writer == u
  }

  lemma AppendRendered(net: Net, log: map<Chain, seq<Rid>>, missing: set<Key>, chains: set<Chain>, r: Rid)
    requires Rendered(net, log, missing) && forall c :: c in chains ==> c.Index?
    requires NextSlots(log, chains) !! missing
    ensures Rendered(Filled(net, NextSlots(log, chains), r), Appended(log, chains, r), missing)
  {
    var net', log' := Filled(net, NextSlots(log, chains), r), Appended(log, chains, r);
    forall c: Chain, i: nat | c.Index?
      ensures Link(c, i) in net' <==> c in log' && 1 <= i <= |log'[c]| && Link(c, i) !in missing
      ensures Link(c, i) in net' && c in log' && 1 <= i <= |log'[c]| ==> net'[Link(c, i)] == Entry(log'[c][i - 1])
    {
      var n := if c in log then |log[c]| else 0;
      assert Link(c, i) in NextSlots(log, chains) <==> c in chains && i == n + 1;
      assert c in chains && i == n + 1 ==> Link(c, i) !in missing;
    }
  }

  lemma AppendIn(log: map<Chain, seq<Rid>>, chains: set<Chain>, r: Rid, ws: set<Writer>, l: ChainLabel, ep: int, x: Rid)
    requires In(log, ws, l, ep, x)
    ensures In(Appended(log, chains, r), ws, l, ep, x)
  {
    var u :| u in ws && ep >= 0 && Index(l, ep, u) in log && x in log[Index(l, ep, u)];
    assert x in Appended(log, chains, r)[Index(l, ep, u)];
  }

  lemma AppendedIn(log: map<Chain, seq<Rid>>, chains: set<Chain>, r: Rid, ws: set<Writer>, l: ChainLabel, ep: nat,
                   u: Writer)
    requires u in ws && Index(l, ep, u) in chains
    ensures In(Appended(log, chains, r), ws, l, ep, r)
  {
    assert r in Appended(log, chains, r)[Index(l, ep, u)];
  }

  /** Slots past the end of a chain have never been filled. */
  lemma NextSlotsFree(w: World, chains: set<Chain>)
    requires MissingWhere(w)
    ensures NextSlots(w.log, chains) !! w.missing
  {
    forall c | c in chains ensures Link(c, (if c in w.log then |w.log[c]| else 0) + 1) !in w.missing {
      assert |w.Log(c)| == if c in w.log then |w.log[c]| else 0;
    }
  }

  lemma AppendKeepsMissing(w: World, w': World, chains: set<Chain>, r: Rid)
    requires MissingWhere(w) && w' == w.(net := w'.net, table := w'.table, log := Appended(w.log, chains, r))
    ensures MissingWhere(w')
  {
    forall c ensures |w.Log(c)| <= |w'.Log(c)| {
    }
  }

  lemma AppendKeepsRendered(w: World, w': World, chains: set<Chain>, u: Writer, ep: nat, r: Rid)
    requires Rendered(w.net, w.log, w.missing) && MissingWhere(w) && MayWrite(w, u, ep) && OneWriter(chains, ep, u)
    requires SameLinks(Filled(w.net, NextSlots(w.log, chains), r), w'.net)
    requires w'.log == Appended(w.log, chains, r) && w'.missing == w.missing
    ensures Rendered(w'.net, w'.log, w'.missing)
  {
    NextSlotsFree(w, chains);
    AppendRendered(w.net, w.log, w.missing, chains, r);
  }

  lemma AppendKeepsOwned(w: World, w': World, chains: set<Chain>, u: Writer, ep: nat, r: Rid)
    requires Owned(w) && MayWrite(w, u, ep) && OneWriter(chains, ep, u)
    requires w' == w.(net := w'.net, table := w'.table, log := Appended(w.log, chains, r))
    ensures Owned(w')
  {
  }

  lemma AppendKeepsSystem(w: World, w': World, chains: set<Chain>, r: Rid)
    requires SystemTrue(w) && forall c :: c in chains ==> c.Index?
    requires SameLinks(Filled(w.net, NextSlots(w.log, chains), r), w'.net)
    requires w' == w.(net := w'.net, table := w'.table, log := w'.log)
    ensures SystemTrue(w')
  {
    forall k | k in NextSlots(w.log, chains) ensures k.Link? && k.chain.Index? {
    }
    SystemKept(w, w');
  }

  // ------------------------------------------------------------ inserts and deletes

  lemma RecordChainsOf(schema: Schema, rec: Record, ep: nat, u: Writer)
    requires ValidSchema(schema)
    ensures OneWriter(RecordChains(schema, rec, ep, u), ep, u)
    ensures forall l :: Labelled(schema, rec, l) <==> Index(l, ep, u) in RecordChains(schema, rec, ep, u)
  {
    forall l | Labelled(schema, rec, l) ensures Index(l, ep, u) in RecordChains(schema, rec, ep, u) {
      assert l == Of(l.field, l.node);
    }
  }

  /** An id stays where it is listed, above or below. */
  lemma AppendKeepsIn(w: World, w': World, chains: set<Chain>, r: Rid, l: ChainLabel, x: Rid)
    requires w'.log == Appended(w.log, chains, r)
    ensures In(w.log, w.writers, l, w.epoch, x) ==> In(w'.log, w.writers, l, w.epoch, x)
    ensures In(w.log, w.writers, l, w.epoch - 1, x) ==> In(w'.log, w.writers, l, w.epoch - 1, x)
    ensures In(w.log, w.writers - {w.compactor}, l, w.epoch, x) ==> In(w'.log, w.writers - {w.compactor}, l, w.epoch, x)
  {
    hide In, Appended;
    if In(w.log, w.writers, l, w.epoch, x) { AppendIn(w.log, chains, r, w.writers, l, w.epoch, x); }
    if In(w.log, w.writers, l, w.epoch - 1, x) { AppendIn(w.log, chains, r, w.writers, l, w.epoch - 1, x); }
    if In(w.log, w.writers - {w.compactor}, l, w.epoch,
          x) { AppendIn(w.log, chains, r, w.writers - {w.compactor}, l, w.epoch, x); }
  }

  lemma LeftAppended(log: map<Chain, seq<Rid>>, drained: map<Chain, seq<Rid>>, chains: set<Chain>, r: Rid, low: int,
                     x: Rid)
    requires x != r || forall c :: c in chains ==> c.Index? && c.w == Tomb
    ensures Left(log, drained, low, x) <==> Left(Appended(log, chains, r), drained, low, x)
  {
    hide Appended, HeldIn;
    forall e: nat ensures LeftAt(log, drained, e, x) <==> LeftAt(Appended(log, chains, r), drained, e, x) {
      HeldAppended(log, chains, r, e, x);
    }
  }

  /** Drain walks have read nothing that has not been written. */
  lemma DrainedIsHeld(w: World, e: int, r: Rid)
    requires DrainedTrue(w)
    ensures HeldIn(w.drained, e, r) ==> HeldIn(w.log, e, r)
  {
    if l, u :| Holds(w.drained, l, e, u, r) {
      assert Holds(w.log, l, e, u, r);
    }
  }

  lemma FreshUnread(schema: Schema, w: World, e: int, r: Rid)
    requires DrainedTrue(w) && LogTrue(schema, w.log, w.table) && r !in w.table.inserted
    ensures !HeldIn(w.log, e, r) && !HeldIn(w.drained, e, r)
  {
    hide LogTrue, Holds;
    DrainedIsHeld(w, e, r);
    forall l, u ensures !Holds(w.log, l, e, u, r) {
      FreshNowhere(schema, w.log, w.table, l, e, u, r);
    }
  }

  /** A record inserted below the newest epoch counts as left behind there until a drain walk reads it. */
  lemma InsertLeft(schema: Schema, w: World, w': World, u: Writer, ep: nat, r: Rid, rec: Record, l: ChainLabel,
                   low: int)
    requires ValidSchema(schema) && DrainedTrue(w) && LogTrue(schema, w.log, w.table)
             && Insert(schema, w, w', u, ep, r, rec)
    requires Labelled(schema, rec, l) && ep < low
    ensures Left(w'.log, w'.drained, low, r)
  {
    hide Labelled, DrainedTrue, LogTrue, RecordChains, Appended, Filled, NextSlots;
    RecordChainsOf(schema, rec, ep, u);
    HoldsAppended(w.log, RecordChains(schema, rec, ep, u), r, l, ep, u, r);
    LabelledIsOf(schema, rec, l);
    FreshUnread(schema, w, ep, r);
    assert Holds(w'.log, l, ep, u, r);
    assert LeftAt(w'.log, w'.drained, ep, r);
  }

  lemma LabelledIsOf(schema: Schema, rec: Record, l: ChainLabel)
    requires Labelled(schema, rec, l)
    ensures l.Of?
  {
  }

  /** The two halves of completeness, for one record. */
  ghost predicate OnTopOrLeft(w: World, l: ChainLabel, r: Rid) {
    In(w.log, w.writers, l, w.epoch, r) || Left(w.log, w.drained, w.epoch, r)
  }

  ghost predicate BelowOrLeft(w: World, l: ChainLabel, r: Rid) {
    || In(w.log, w.writers, l, w.epoch - 1, r) || In(w.log, w.writers - {w.compactor}, l, w.epoch, r)
    || Left(w.log, w.drained, w.epoch - 1, r)
  }

  lemma AppendKeepsFound(w: World, w': World, chains: set<Chain>, r: Rid, l: ChainLabel, x: Rid)
    requires w' == w.(net := w'.net, table := w'.table, log := Appended(w.log, chains, r))
    requires x != r || forall c :: c in chains ==> c.Index? && c.w == Tomb
    ensures OnTopOrLeft(w, l, x) ==> OnTopOrLeft(w', l, x)
    ensures BelowOrLeft(w, l, x) ==> BelowOrLeft(w', l, x)
  {
    hide In, Left, Appended;
    AppendKeepsIn(w, w', chains, r, l, x);
    LeftAppended(w.log, w.drained, chains, r, w.epoch, x);
    LeftAppended(w.log, w.drained, chains, r, w.epoch - 1, x);
  }

  lemma InsertFound(schema: Schema, w: World, w': World, u: Writer, ep: nat, r: Rid, rec: Record, l: ChainLabel)
    requires ValidSchema(schema) && DrainedTrue(w) && LogTrue(schema, w.log, w.table)
             && Insert(schema, w, w', u, ep, r, rec)
    requires Labelled(schema, rec, l)
    ensures OnTopOrLeft(w', l, r) && (!w.phase.Idle? ==> BelowOrLeft(w', l, r))
  {
    hide In, Left, Appended, Labelled, RecordChains, DrainedTrue, LogTrue, Filled, NextSlots;
    var chains := RecordChains(schema, rec, ep, u);
    RecordChainsOf(schema, rec, ep, u);
    AppendedIn(w.log, chains, r, w.writers, l, ep, u);
    if ep < w.epoch {
      InsertLeft(schema, w, w', u, ep, r, rec, l, w.epoch);
    }
    if ep < w.epoch - 1 {
      InsertLeft(schema, w, w', u, ep, r, rec, l, w.epoch - 1);
    }
    if u != w.compactor {
      AppendedIn(w.log, chains, r, w.writers - {w.compactor}, l, ep, u);
    }
  }

  lemma InsertComplete(schema: Schema, w: World, w': World, u: Writer, ep: nat, r: Rid, rec: Record)
    requires ValidSchema(schema) && Complete(schema, w) && Insert(schema, w, w', u, ep, r, rec)
    requires DrainedTrue(w) && LogTrue(schema, w.log, w.table)
    ensures Complete(schema, w')
  {
    hide Labelled, In, Left, Filled, NextSlots, Appended, RecordChains, DrainedTrue, LogTrue;
    var chains := RecordChains(schema, rec, ep, u);
    forall l, x | LiveFindable(schema, w'.table, l, x)
      ensures w.phase.Idle? || w.phase.Deleting? || w.phase.Rewriting? ==> OnTopOrLeft(w', l, x)
      ensures w.phase.Draining? || w.phase.Walked? || w.phase.Rewriting? ==> BelowOrLeft(w', l, x)
    {
      if x == r {
        InsertFound(schema, w, w', u, ep, r, rec, l);
      } else {
        assert LiveFindable(schema, w.table, l, x);
        AppendKeepsFound(w, w', chains, r, l, x);
      }
    }
  }

  /** What an append adds to the label chains. */
  lemma HoldsAppended(log: map<Chain, seq<Rid>>, chains: set<Chain>, r: Rid, l: ChainLabel, ep: int, u: Writer, x: Rid)
    ensures Holds(Appended(log, chains, r), l, ep, u, x) <==>
              Holds(log, l, ep, u, x) || (l.Of? && ep >= 0 && Index(l, ep, u) in chains && x == r)
  {
  }

  lemma BuriedAppended(log: map<Chain, seq<Rid>>, chains: set<Chain>, r: Rid, ep: int, x: Rid)
    ensures BuriedIn(log, ep, x) ==> BuriedIn(Appended(log, chains, r), ep, x)
    ensures x != r || (forall c :: c in chains ==> c.Index? && c.w.Of?) ==>
              (BuriedIn(Appended(log, chains, r), ep, x) ==> BuriedIn(log, ep, x))
  {
    if u :| BuriedBy(log, ep, u, x) {
      assert BuriedBy(Appended(log, chains, r), ep, u, x);
    }
    if (x != r || forall c :: c in chains ==> c.Index? && c.w.Of?) && BuriedIn(Appended(log, chains, r), ep, x) {
      var u :| BuriedBy(Appended(log, chains, r), ep, u, x);
      assert BuriedBy(log, ep, u, x);
    }
  }

  /** Where an id other than the appended one is listed does not change; nor does an append to tombstone chains list
      it. */
  lemma HeldAppended(log: map<Chain, seq<Rid>>, chains: set<Chain>, r: Rid, ep: int, x: Rid)
    requires x != r || forall c :: c in chains ==> c.Index? && c.w == Tomb
    ensures HeldIn(Appended(log, chains, r), ep, x) <==> HeldIn(log, ep, x)
  {
    hide Appended, Holds;
    forall l, u ensures Holds(Appended(log, chains, r), l, ep, u, x) <==> Holds(log, l, ep, u, x) {
      HoldsAppended(log, chains, r, l, ep, u, x);
    }
  }

  lemma LapsedAppended(w: World, w': World, chains: set<Chain>, r: Rid, low: int, x: Rid)
    requires w' == w.(net := w'.net, table := w'.table, log := Appended(w.log, chains, r))
    ensures LapsedBelow(w, low, x) ==> LapsedBelow(w', low, x)
  {
    hide Appended, BuriedIn, HeldIn;
    if e: nat :| e < low && LapsedAt(w, e, x) {
      BuriedAppended(w.log, chains, r, e, x);
      var above: nat :| above > e && HeldIn(w.log, above, x);
      HeldStays(w.log, chains, r, above, x);
      assert LapsedAt(w', e, x);
    }
  }

  lemma HeldStays(log: map<Chain, seq<Rid>>, chains: set<Chain>, r: Rid, ep: int, x: Rid)
    ensures HeldIn(log, ep, x) ==> HeldIn(Appended(log, chains, r), ep, x)
  {
    hide Appended, Holds;
    if l, u :| Holds(log, l, ep, u, x) {
      HoldsAppended(log, chains, r, l, ep, u, x);
    }
  }

  lemma DeadAppended(w: World, w': World, chains: set<Chain>, r: Rid, x: Rid)
    requires w' == w.(net := w'.net, table := w'.table, log := Appended(w.log, chains, r))
    requires x != r || forall c :: c in chains ==> c.Index? && c.w == Tomb
    ensures (DeadBelow(w, x) ==> DeadBelow(w', x)) && (DeadTop(w, x) ==> DeadTop(w', x))
  {
    hide Appended, BuriedIn, HeldIn, LapsedBelow;
    HeldAppended(w.log, chains, r, w.epoch, x);
    HeldAppended(w.log, chains, r, w.epoch - 1, x);
    BuriedAppended(w.log, chains, r, w.epoch, x);
    BuriedAppended(w.log, chains, r, w.epoch - 1, x);
    LapsedAppended(w, w', chains, r, w.epoch, x);
    LapsedAppended(w, w', chains, r, w.epoch - 1, x);
  }

  lemma AppendKeepsDrained(w: World, w': World, chains: set<Chain>, r: Rid)
    requires DrainedTrue(w) && w' == w.(net := w'.net, table := w'.table, log := Appended(w.log, chains, r))
    ensures DrainedTrue(w')
  {
    forall c | c in w.drained ensures c in w'.log && w.drained[c] <= w'.log[c] {
    }
  }

  /** A fresh record is held in the epoch it is written into and nowhere else. */
  lemma InsertHeld(schema: Schema, w: World, w': World, u: Writer, ep: nat, r: Rid, rec: Record, e: int)
    requires ValidSchema(schema) && DrainedTrue(w) && LogTrue(schema, w.log, w.table)
             && Insert(schema, w, w', u, ep, r, rec)
    ensures HeldIn(w'.log, e, r) ==> e == ep
    ensures !HeldIn(w.drained, e, r)
  {
    hide DrainedTrue, LogTrue, RecordChains, Appended, Filled, NextSlots, Holds;
    RecordChainsOf(schema, rec, ep, u);
    FreshUnread(schema, w, e, r);
    if l, v :| Holds(w'.log, l, e, v, r) {
      HoldsAppended(w.log, RecordChains(schema, rec, ep, u), r, l, e, v, r);
    }
  }

  lemma InsertCarried(schema: Schema, w: World, w': World, u: Writer, ep: nat, r: Rid, rec: Record)
    requires ValidSchema(schema) && Carried(w) && LogTrue(schema, w.log, w.table)
             && Insert(schema, w, w', u, ep, r, rec)
    ensures Carried(w')
  {
    hide DrainedTrue, LogTrue, RecordChains, Appended, Filled, NextSlots, HeldIn;
    var chains := RecordChains(schema, rec, ep, u);
    AppendKeepsDrained(w, w', chains, r);
    forall e: nat, x ensures HeldIn(w'.log, e, x) ==> if x == r then e == ep else HeldIn(w.log, e, x) {
      if x == r {
        InsertHeld(schema, w, w', u, ep, r, rec, e);
      } else {
        HeldAppended(w.log, chains, r, e, x);
      }
    }
    forall e: nat ensures !DroppedAt(w', e, r) {
      InsertHeld(schema, w, w', u, ep, r, rec, e);
    }
    assert forall e: nat, x :: DroppedAt(w', e, x) ==> DroppedAt(w, e, x);
  }

  lemma BuryCarried(w: World, w': World, u: Writer, ep: nat, r: Rid)
    requires Carried(w) && Bury(w, w', u, ep, r)
    ensures Carried(w')
  {
    hide DrainedTrue, Appended, Filled, NextSlots, HeldIn;
    var chains := {Index(Tomb, ep, u)};
    AppendKeepsDrained(w, w', chains, r);
    forall e: nat, x ensures HeldIn(w'.log, e, x) <==> HeldIn(w.log, e, x) {
      HeldAppended(w.log, chains, r, e, x);
    }
    assert forall e: nat, x :: DroppedAt(w', e, x) ==> DroppedAt(w, e, x);
  }

  lemma InsertTables(schema: Schema, w: World, w': World, u: Writer, ep: nat, r: Rid, rec: Record)
    requires ValidSchema(schema) && Insert(schema, w, w', u, ep, r, rec)
    requires BlobsTrue(w.net, w.table) && LogTrue(schema, w.log, w.table)
    ensures BlobsTrue(w'.net, w'.table) && LogTrue(schema, w'.log, w'.table)
    ensures SameLinks(Filled(w.net, NextSlots(w.log, RecordChains(schema, rec, ep, u)), r), w'.net)
  {
    hide Labelled, Appended, RecordChains;
    var chains := RecordChains(schema, rec, ep, u);
    RecordChainsOf(schema, rec, ep, u);
    forall c, x | c in w'.log && x in w'.log[c]
      ensures c.Index? && EntryTrue(schema, w'.table, c.w, x)
    {
      AppendedEntry(w.log, chains, r, c, x);
      TombUnlabelled(schema, rec, c);
      assert c in chains ==> c == Index(c.w, ep, u);
    }
  }

  lemma AppendedEntry(log: map<Chain, seq<Rid>>, chains: set<Chain>, r: Rid, c: Chain, x: Rid)
    requires c in Appended(log, chains, r) && x in Appended(log, chains, r)[c]
    ensures (c in log && x in log[c]) || (c in chains && x == r)
  {
  }

  lemma TombUnlabelled(schema: Schema, rec: Record, c: Chain)
    ensures c.Index? && Labelled(schema, rec, c.w) ==> c.w != Tomb
  {
  }

  lemma InsertKeeps(schema: Schema, w: World, w': World, u: Writer, ep: nat, r: Rid, rec: Record)
    requires ValidSchema(schema) && Inv(schema, w) && Insert(schema, w, w', u, ep, r, rec)
    ensures Inv(schema, w')
  {
    hide Rendered, BlobsTrue, LogTrue, Owned, Complete, DeadBuried, DrainedTrue, Traced, Dropped, WalkedRight, Appended,
         NextSlots, RecordChains, Filled, MarksOf, NamesOf, Dense, Built, MissingWhere;
    var chains := RecordChains(schema, rec, ep, u);
    InsertBuilt(schema, w, w', u, ep, r, rec);
    RecordChainsOf(schema, rec, ep, u);
    InsertTables(schema, w, w', u, ep, r, rec);
    AppendKeepsSystem(w, w', chains, r);
    AppendKeepsRendered(w, w', chains, u, ep, r);
    AppendKeepsOwned(w, w', chains, u, ep, r);
    AppendKeepsMissing(w, w', chains, r);
    SameWalk(schema, w, w');
    InsertComplete(schema, w, w', u, ep, r, rec);
    InsertDead(schema, w, w', u, ep, r, rec);
    InsertCarried(schema, w, w', u, ep, r, rec);
  }

  lemma InsertDead(schema: Schema, w: World, w': World, u: Writer, ep: nat, r: Rid, rec: Record)
    requires ValidSchema(schema) && DeadBuried(w) && Insert(schema, w, w', u, ep, r, rec)
    ensures DeadBuried(w')
  {
    hide DeadBelow, DeadTop, Appended, RecordChains, Filled, NextSlots;
    forall x | x in w'.table.deleted
      ensures (DeadBelow(w, x) ==> DeadBelow(w', x)) && (DeadTop(w, x) ==> DeadTop(w', x))
    {
      DeadAppended(w, w', RecordChains(schema, rec, ep, u), r, x);
    }
  }

  lemma BuryKeeps(schema: Schema, w: World, w': World, u: Writer, ep: nat, r: Rid)
    requires Inv(schema, w) && Bury(w, w', u, ep, r)
    ensures Inv(schema, w')
  {
    hide Rendered, Owned, WalkedRight, NextSlots, MarksOf, NamesOf, Dense, Complete, DeadBuried, Traced, Dropped,
         DrainedTrue, Labelled, LogTrue, Filled, Built, MissingWhere;
    var chains := {Index(Tomb, ep, u)};
    BuryBuilt(schema, w, w', u, ep, r);
    assert OneWriter(chains, ep, u);
    BuryTables(schema, w, w', u, ep, r);
    AppendKeepsSystem(w, w', chains, r);
    AppendKeepsRendered(w, w', chains, u, ep, r);
    AppendKeepsOwned(w, w', chains, u, ep, r);
    AppendKeepsMissing(w, w', chains, r);
    SameWalk(schema, w, w');
    BuryComplete(schema, w, w', u, ep, r);
    BuryDead(schema, w, w', u, ep, r);
    BuryCarried(w, w', u, ep, r);
  }

  lemma BuryTables(schema: Schema, w: World, w': World, u: Writer, ep: nat, r: Rid)
    requires Bury(w, w', u, ep, r) && BlobsTrue(w.net, w.table) && LogTrue(schema, w.log, w.table)
    ensures BlobsTrue(w'.net, w'.table) && LogTrue(schema, w'.log, w'.table)
    ensures SameLinks(Filled(w.net, NextSlots(w.log, {Index(Tomb, ep, u)}), r), w'.net)
  {
    hide Labelled, Appended;
    forall c, x | c in w'.log && x in w'.log[c]
      ensures c.Index? && EntryTrue(schema, w'.table, c.w, x)
    {
      AppendedEntry(w.log, {Index(Tomb, ep, u)}, r, c, x);
    }
  }

  lemma BuryComplete(schema: Schema, w: World, w': World, u: Writer, ep: nat, r: Rid)
    requires Complete(schema, w) && Bury(w, w', u, ep, r)
    ensures Complete(schema, w')
  {
    hide Labelled, In, Left, Filled, NextSlots, Appended;
    forall l, x | LiveFindable(schema, w'.table, l, x)
      ensures LiveFindable(schema, w.table, l, x)
      ensures OnTopOrLeft(w, l, x) ==> OnTopOrLeft(w', l, x)
      ensures BelowOrLeft(w, l, x) ==> BelowOrLeft(w', l, x)
    {
      AppendKeepsFound(w, w', {Index(Tomb, ep, u)}, r, l, x);
    }
  }

  lemma BuryDead(schema: Schema, w: World, w': World, u: Writer, ep: nat, r: Rid)
    requires DeadBuried(w) && Bury(w, w', u, ep, r)
    ensures DeadBuried(w')
  {
    hide DeadBelow, DeadTop, Appended, Filled, NextSlots;
    forall x | x != r ensures (DeadBelow(w, x) ==> DeadBelow(w', x)) && (DeadTop(w, x) ==> DeadTop(w', x)) {
      DeadAppended(w, w', {Index(Tomb, ep, u)}, r, x);
    }
    JustBuried(w, w', u, ep, r);
  }

  /** A record deleted in an old epoch is not listed above it, or its tombstone lapses. */
  lemma JustBuried(w: World, w': World, u: Writer, ep: nat, r: Rid)
    requires Bury(w, w', u, ep, r)
    ensures DeadBelow(w', r) && DeadTop(w', r)
  {
    hide HeldIn, Appended, Filled, NextSlots;
    AppendedToTomb(w.log, ep, u, r);
    if HeldAbove(w'.log, ep, r) {
      assert LapsedAt(w', ep, r);
    }
    forall x: nat | x > ep && HeldIn(w'.log, x, r) ensures HeldAbove(w'.log, ep, r) {
    }
  }

  /** No tombstone lapses that a rewrite has gone by. */
  lemma LapsedIsNotDropped(w: World, e: nat, r: Rid)
    requires Dropped(w) && LapsedAt(w, e, r)
    ensures !DroppedAt(w, e, r)
  {
    hide HeldIn, BuriedIn;
  }

  lemma AppendedToTomb(log: map<Chain, seq<Rid>>, ep: nat, u: Writer, r: Rid)
    ensures BuriedIn(Appended(log, {Index(Tomb, ep, u)}, r), ep, r)
  {
    assert BuriedBy(Appended(log, {Index(Tomb, ep, u)}, r), ep, u, r);
  }

  // ------------------------------------------------------------ ciphertexts, registry, markers

  lemma EraseKeeps(schema: Schema, w: World, w': World, r: Rid)
    requires Inv(schema, w) && Erase(w, w', r)
    ensures Inv(schema, w')
  {
    hide LogTrue, In, Left, WalkedRight, MarksOf, NamesOf, Dense, LiveFindable, Carried, DeadBelow, DeadTop;
    SystemKept(w, w');
    SameWalk(schema, w, w');
    SameCarried(w, w');
    SameDead(w, w');
  }

  /** Steps that neither append nor drain nor lay out a rewrite. */
  lemma SameCarried(w: World, w': World)
    requires Carried(w) && w'.log == w.log && w'.drained == w.drained && w'.heard == w.heard && w.epoch <= w'.epoch
    requires w'.epoch > w.epoch || (w'.walkers == w.walkers && (w.phase.Idle? ==> w'.phase.Idle?))
    requires w'.epoch > w.epoch || (w'.phase.Draining? ==> w.phase.Draining?)
    requires w'.epoch > w.epoch || (w'.phase.Walked? ==> w.phase.Draining? || w.phase.Walked?)
    ensures Carried(w')
  {
    hide HeldIn;
    forall e: nat, r ensures DroppedAt(w', e, r) <==> DroppedAt(w, e, r) {
    }
  }

  lemma SameDead(w: World, w': World)
    requires w'.log == w.log && w'.drained == w.drained && w'.heard == w.heard
    ensures forall low: int, r :: LapsedBelow(w, low, r) <==> LapsedBelow(w', low, r)
    ensures w'.epoch == w.epoch ==> forall r :: (DeadBelow(w, r) <==> DeadBelow(w', r)) && (DeadTop(w, r) <==>
              DeadTop(w', r))
  {
    hide HeldIn, BuriedIn;
    forall e: nat, r ensures LapsedAt(w, e, r) <==> LapsedAt(w', e, r) {
    }
  }

  lemma {:induction false} NextMark(net: Net, n: nat, mark: Item)
    requires DenseTo(net, EpochChain, n)
    ensures var net' := net[Link(EpochChain, n + 1) := mark];
            && Dense(net', EpochChain) && EndOf(net', EpochChain) == n + 1
            && MarksOf(net', n + 1) == AfterMark(MarksOf(net, n), mark)
  {
    var net' := net[Link(EpochChain, n + 1) := mark];
    assert DenseTo(net', EpochChain, n + 1);
    DenseEnd(net', EpochChain, n + 1);
    SameMarks(net, net', n);
  }

  lemma NextName(net: Net, n: nat, u: Writer)
    requires DenseTo(net, RegistryChain, n)
    ensures var net' := net[Link(RegistryChain, n + 1) := Name(u)];
            && Dense(net', RegistryChain) && EndOf(net', RegistryChain) == n + 1
            && NamesOf(net', n + 1) == NamesOf(net, n) + {u}
  {
    var net' := net[Link(RegistryChain, n + 1) := Name(u)];
    assert DenseTo(net', RegistryChain, n + 1);
    DenseEnd(net', RegistryChain, n + 1);
    SameNames(net, net', n);
  }

  lemma InMore(log: map<Chain, seq<Rid>>, ws: set<Writer>, ws': set<Writer>, l: ChainLabel, ep: int, r: Rid)
    requires In(log, ws, l, ep, r) && ws <= ws'
    ensures In(log, ws', l, ep, r)
  {
  }

  lemma RegisterKeeps(schema: Schema, w: World, w': World, u: Writer)
    requires Inv(schema, w) && Register(w, w', u)
    ensures Inv(schema, w')
  {
    hide LogTrue, In, Left, WalkedRight, MarksOf, NamesOf, LiveFindable, Carried, DeadBelow, DeadTop;
    SameCarried(w, w');
    SameDead(w, w');
    NextName(w.net, EndOf(w.net, RegistryChain), u);
    SameEnd(w.net, w'.net, EpochChain);
    SameMarks(w.net, w'.net, EndOf(w.net, EpochChain));
    forall l, x, ep | In(w.log, w.writers, l, ep, x) ensures In(w.log, w'.writers, l, ep, x) {
      InMore(w.log, w.writers, w'.writers, l, ep, x);
    }
    forall l, x, ep | In(w.log, w.writers - {w.compactor}, l, ep, x)
      ensures In(w.log, w'.writers - {w.compactor}, l, ep, x) {
      InMore(w.log, w.writers - {w.compactor}, w'.writers - {w.compactor}, l, ep, x);
    }
    assert WalkedRight(schema, w') by {
      SameWalk(schema, w, w');
    }
  }

  lemma SameWalk(schema: Schema, w: World, w': World)
    requires WalkedRight(schema, w)
    requires w'.drained == w.drained && w'.phase == w.phase && w'.epoch == w.epoch && w'.walkers == w.walkers
    ensures WalkedRight(schema, w')
  {
  }

  lemma OpenKeeps(schema: Schema, w: World, w': World, c: Writer, walkers: set<Writer>)
    requires Inv(schema, w) && Open(w, w', c, walkers)
    ensures Inv(schema, w')
  {
    hide LogTrue, In, Left, MarksOf, NamesOf, LiveFindable, DeadBelow, DeadTop, Carried;
    NextMark(w.net, EndOf(w.net, EpochChain), Opened(w.epoch + 1));
    SameEnd(w.net, w'.net, RegistryChain);
    SameNames(w.net, w'.net, EndOf(w.net, RegistryChain));
    SameCarried(w, w');
    forall r | r in w'.table.deleted ensures DeadBelow(w', r) {
      assert DeadTop(w, r);
      OpenDead(w, w', r);
    }
    OpenApart(w);
  }

  lemma OpenApart(w: World)
    requires Owned(w)
    ensures Apart(w.log, w.epoch + 1)
  {
    var next := w.epoch + 1;
    forall l, u, r ensures !Holds(w.log, l, next, u, r) {
      assert r !in w.Log(Index(l, next, u));
    }
  }

  /** No record is listed in an epoch that has only just been opened. */
  lemma OpenDead(w: World, w': World, r: Rid)
    requires Owned(w) && DeadTop(w, r)
             && w' == w.(net := w'.net, epoch := w.epoch + 1, phase := w'.phase, compactor := w'.compactor,
                         walkers := w'.walkers)
    ensures DeadBelow(w', r)
  {
    hide BuriedIn, LapsedBelow, HeldIn;
    NoneAbove(w, w.epoch + 1, r);
    SameDead(w, w');
  }

  lemma NoneAbove(w: World, ep: int, r: Rid)
    requires Owned(w) && ep > w.epoch
    ensures !HeldIn(w.log, ep, r)
  {
    forall l, u ensures !Holds(w.log, l, ep, u, r) {
      assert r !in w.Log(Index(l, Max(ep, 0), u));
    }
  }

  lemma SealKeeps(schema: Schema, w: World, w': World)
    requires Inv(schema, w) && Seal(w, w')
    ensures Inv(schema, w')
  {
    hide LogTrue, In, Left, MarksOf, NamesOf, LiveFindable, Carried, DeadBelow, DeadTop;
    NextMark(w.net, EndOf(w.net, EpochChain), Sealed(w.epoch - 1));
    SameEnd(w.net, w'.net, RegistryChain);
    SameNames(w.net, w'.net, EndOf(w.net, RegistryChain));
    SameCarried(w, w');
    SameDead(w, w');
  }

  // ------------------------------------------------------------ the drain walk

  /** A drain walk adds what the epoch's known writers list, and nothing else. */
  lemma WalkHolds(w: World, w': World, l: ChainLabel, e: int, u: Writer, r: Rid)
    requires w.epoch > 0 && w'.drained == w.drained + Drain(w.log, w.epoch - 1, w.walkers) && DrainedTrue(w)
             && w.phase.Draining?
    ensures Holds(w'.drained, l, e, u, r) <==>
              if e == w.Below() then u in w.walkers && Holds(w.log, l, e, u, r) else Holds(w.drained, l, e, u, r)
  {
  }

  lemma WalkHeld(w: World, w': World, e: int, r: Rid)
    requires w.epoch > 0 && w'.drained == w.drained + Drain(w.log, w.epoch - 1, w.walkers) && DrainedTrue(w)
             && w.phase.Draining?
    ensures e != w.epoch - 1 ==> (HeldIn(w'.drained, e, r) <==> HeldIn(w.drained, e, r))
    ensures HeldIn(w.drained, e, r) ==> HeldIn(w'.drained, e, r)
    ensures HeldIn(w'.drained, w.epoch - 1, r) <==> exists l, u :: u in w.walkers && Holds(w.log, l, w.Below(), u, r)
  {
    hide Holds, DrainedTrue, Drain;
    forall l, u, x: int
      ensures Holds(w'.drained, l, x, u, r) <==>
                if x == w.Below() then u in w.walkers && Holds(w.log, l, x, u, r) else Holds(w.drained, l, x, u, r)
    {
      WalkHolds(w, w', l, x, u, r);
    }
    if l, u :| Holds(w.drained, l, e, u, r) {
      DrainedAbove(w, l, e, u, r);
      assert Holds(w'.drained, l, e, u, r);
    }
    if l, u :| Holds(w'.drained, l, e, u, r) {
      if e == w.Below() {
        assert u in w.walkers && Holds(w.log, l, w.Below(), u, r);
      } else {
        assert Holds(w.drained, l, e, u, r);
      }
    }
    if l, u :| Holds(w'.drained, l, w.Below(), u, r) {
      assert u in w.walkers && Holds(w.log, l, w.Below(), u, r);
    }
    if l, u :| u in w.walkers && Holds(w.log, l, w.Below(), u, r) {
      assert Holds(w'.drained, l, w.Below(), u, r);
    }
  }

  lemma DrainedAbove(w: World, l: ChainLabel, e: int, u: Writer, r: Rid)
    requires DrainedTrue(w) && w.phase.Draining? && Holds(w.drained, l, e, u, r)
    ensures e < w.epoch - 1
  {
  }

  lemma WalkCarried(schema: Schema, w: World, w': World, entries: map<ChainLabel, set<Rid>>)
    requires Carried(w) && Walk(schema, w, w', entries)
    ensures Carried(w')
  {
    hide HeldIn, Contents, Drain;
    WalkDrains(schema, w, w', entries);
    forall e: nat, r
      ensures HeldIn(w.drained, e, r) ==> HeldIn(w'.drained, e, r)
      ensures DroppedAt(w', e, r) ==> DroppedAt(w, e, r)
    {
      WalkHeld(w, w', e, r);
    }
  }

  lemma WalkDrains(schema: Schema, w: World, w': World, entries: map<ChainLabel, set<Rid>>)
    requires DrainedTrue(w) && Walk(schema, w, w', entries)
    ensures DrainedTrue(w')
  {
    hide Contents;
  }

  lemma CarriedParts(w: World)
    requires Carried(w)
    ensures DrainedTrue(w) && Traced(w) && Dropped(w)
  {
    hide DrainedTrue, Traced, Dropped;
  }

  lemma WalkContents(w: World, w': World, l: ChainLabel)
    requires w.epoch > 0 && w'.drained == w.drained + Drain(w.log, w.epoch - 1, w.walkers) && DrainedTrue(w)
             && w.phase.Draining? && l.Of?
    ensures Contents(w'.drained, l, w.epoch - 1, w.walkers) == Contents(w.log, l, w.epoch - 1, w.walkers)
  {
  }

  lemma WalkBuilt(schema: Schema, w: World, w': World, entries: map<ChainLabel, set<Rid>>)
    requires Built(schema, w) && DrainedTrue(w) && Walk(schema, w, w', entries)
    ensures Built(schema, w')
  {
    hide Holds, Contents, Drain, DrainedTrue, Findable, Once;
    forall l, l', e, u, r | Holds(w'.drained, l, e, u, r) && r in w.table.inserted
        && Findable(schema, w.table.inserted[r], l')
      ensures Holds(w'.drained, l', e, u, r)
    {
      WalkHolds(w, w', l, e, u, r);
      WalkHolds(w, w', l', e, u, r);
    }
  }

  /** What lies below the epoch being drained stands as it was. */
  lemma WalkBelow(w: World, w': World, r: Rid)
    requires w.epoch > 0 && w.phase.Draining? && DrainedTrue(w)
             && w' == w.(phase := w'.phase, drained := w.drained + Drain(w.log, w.epoch - 1, w.walkers))
    ensures Left(w.log, w.drained, w.epoch - 1, r) <==> Left(w'.log, w'.drained, w.epoch - 1, r)
    ensures LapsedBelow(w, w.epoch - 1, r) <==> LapsedBelow(w', w.epoch - 1, r)
  {
    hide HeldIn, BuriedIn, Drain, DrainedTrue;
    forall e: nat | e < w.epoch - 1
      ensures LeftAt(w.log, w.drained, e, r) <==> LeftAt(w'.log, w'.drained, e, r)
    {
      WalkHeld(w, w', e, r);
    }
    forall e: nat ensures LapsedAt(w, e, r) <==> LapsedAt(w', e, r) {
    }
  }

  lemma WalkKeeps(schema: Schema, w: World, w': World, entries: map<ChainLabel, set<Rid>>)
    requires Inv(schema, w) && Walk(schema, w, w', entries)
    ensures Inv(schema, w')
  {
    hide LogTrue, In, Left, MarksOf, NamesOf, LiveFindable, Rendered, Contents, Dense, Built, Carried, HeldIn, BuriedIn,
         LapsedBelow, Drain, ReachedLabel;
    CarriedParts(w);
    WalkBuilt(schema, w, w', entries);
    WalkCarried(schema, w, w', entries);
    var below := w.epoch - 1;
    forall r
      ensures Left(w.log, w.drained, below, r) <==> Left(w'.log, w'.drained, below, r)
      ensures LapsedBelow(w, below, r) <==> LapsedBelow(w', below, r)
    {
      WalkBelow(w, w', r);
    }
    forall l: ChainLabel | l.Of?
      ensures Contents(w'.drained, l, w.epoch - 1, w.walkers) == Contents(w.log, l, w.epoch - 1, w.walkers) {
      WalkContents(w, w', l);
    }
    ReachedIsOf(schema);
  }

  lemma ReachedIsOf(schema: Schema)
    ensures forall l :: ReachedLabel(schema, l) ==> l.Of?
  {
  }

  /** The drain walk leaves nothing live behind if and only if every writer that has written something live below the
      newest epoch is among those the compactor knows. */
  lemma WalkMisses(schema: Schema, w: World, w': World, entries: map<ChainLabel, set<Rid>>)
    requires Inv(schema, w) && Walk(schema, w, w', entries)
    ensures (forall l, u, r :: LiveFindable(schema, w.table, l, r) && Holds(w.log, l, w.Below(), u, r) ==>
             HeldIn(w'.drained, w.Below(), r))
            <==> forall l, u, r :: LiveFindable(schema, w.table, l, r) && Holds(w.log, l, w.Below(), u, r) ==>
                u in w.walkers
  {
    hide SystemTrue, Rendered, BlobsTrue, LogTrue, Owned, MissingWhere, Complete, DeadBuried, WalkedRight, LiveFindable,
         Closed, Once, Apart, Traced, Dropped, DrainedTrue, Drain, Holds, Contents, ReachedLabel;
    forall l, u, r | Holds(w.log, l, w.Below(), u, r) ensures HeldIn(w'.drained, w.Below(), r) <==> u in w.walkers {
      WalkHeld(w, w', w.epoch - 1, r);
      if k, v :| v in w.walkers && Holds(w.log, k, w.Below(), v, r) {
        assert u == v;
      }
    }
  }

  // ------------------------------------------------------------ the rewrite

  lemma ReachesFindable(schema: Schema, rec: Record, l: ChainLabel)
    requires ValidSchema(schema) && Findable(schema, rec, l)
    ensures ReachedLabel(schema, l)
  {
    var s, v := schema[l.field], rec[l.field];
    var d := l.node;
    Dyadic.LevelsForContains(v, s.bits, s.mlvl, d);
    Dyadic.IndexOfValue(s.bits, d.level, v);
    assert d == Dyadic.Label(d.level, d.index);
    Dyadic.LeafInDomain(s.bits, d.level, v);
  }

  lemma PlanLogAt(plan: map<ChainLabel, seq<Rid>>, ep: nat, c: Writer, x: Chain)
    ensures x in PlanLog(plan, ep, c) <==> x.Index? && x.epoch == ep && x.writer == c && x.w in plan
    ensures x in PlanLog(plan, ep, c) ==> PlanLog(plan, ep, c)[x] == plan[x.w]
  {
    if x.Index? && x.epoch == ep && x.writer == c && x.w in plan {
      assert x == Index(x.w, ep, c);
    }
  }

  lemma LayoutParts(w: World, w': World, tombs: set<Rid>, plan: map<ChainLabel, seq<Rid>>)
    requires Layout(w, w', tombs, plan)
    ensures w.phase.Walked? && w.epoch > 0 && Plan(w.phase.entries, tombs, plan)
    ensures w'.net == w.net && w'.table == w.table && w'.phase == Rewriting && w'.drained == w.drained
    ensures w'.epoch == w.epoch && w'.compactor == w.compactor && w'.writers == w.writers && w'.walkers == w.walkers
    ensures w'.log == w.log + PlanLog(plan, w.epoch, w.compactor)
            && w'.missing == w.missing + PlanSlots(plan, w.epoch, w.compactor)
    ensures w'.heard == w.heard[w.epoch - 1 := tombs]
  {
    hide Gone, Plan, PlanLog, PlanSlots;
  }

  lemma LayoutRendered(w: World, w': World, tombs: set<Rid>, plan: map<ChainLabel, seq<Rid>>)
    requires Rendered(w.net, w.log, w.missing) && Owned(w) && Layout(w, w', tombs, plan)
    ensures Rendered(w'.net, w'.log, w'.missing)
  {
    hide Layout, PlanLog, Plan, Contents;
    LayoutParts(w, w', tombs, plan);
    forall c: Chain, i: nat | c.Index?
      ensures Link(c, i) in w'.net <==> c in w'.log && 1 <= i <= |w'.log[c]| && Link(c, i) !in w'.missing
      ensures Link(c, i) in w'.net && c in w'.log && 1 <= i <= |w'.log[c]| ==>
                w'.net[Link(c, i)] == Entry(w'.log[c][i - 1])
    {
      PlanLogAt(plan, w.epoch, w.compactor, c);
      if c in PlanLog(plan, w.epoch, w.compactor) {
        assert c == Index(c.w, w.epoch, w.compactor);
        assert c in w.log ==> w.log[c] == [];
      }
    }
  }

  lemma PlanAt(entries: map<ChainLabel, set<Rid>>, tombs: set<Rid>, plan: map<ChainLabel, seq<Rid>>, l: ChainLabel,
               r: Rid)
    requires Plan(entries, tombs, plan)
    ensures r in Laid(plan, l) <==> l in entries && r in entries[l] && r !in tombs
  {
    if l in entries {
      var laid := set x | x in Laid(plan, l);
      assert laid == entries[l] - tombs;
      assert r in Laid(plan, l) <==> r in laid;
    }
  }

  lemma LayoutTables(schema: Schema, w: World, w': World, tombs: set<Rid>, plan: map<ChainLabel, seq<Rid>>)
    requires LogTrue(schema, w.log, w.table) && WalkedRight(schema, w) && Layout(w, w', tombs, plan) && DrainedTrue(w)
    requires forall l :: l in plan ==> l != Tomb
    ensures LogTrue(schema, w'.log, w'.table)
  {
    hide Layout, PlanLog, PlanSlots, EntryTrue;
    LayoutParts(w, w', tombs, plan);
    forall c, x | c in w'.log && x in w'.log[c]
      ensures c.Index? && EntryTrue(schema, w.table, c.w, x)
    {
      PlanLogAt(plan, w.epoch, w.compactor, c);
      if c in PlanLog(plan, w.epoch, w.compactor) {
        PlanAt(w.phase.entries, tombs, plan, c.w, x);
        assert x in Contents(w.drained, c.w, w.epoch - 1, w.walkers);
        var u :| u in w.walkers && Index(c.w, w.epoch - 1, u) in w.drained
            && x in w.drained[Index(c.w, w.epoch - 1, u)];
        assert x in w.log[Index(c.w, w.epoch - 1, u)];
      } else {
        assert c in w.log && x in w.log[c];
      }
    }
  }

  lemma LayoutOwned(w: World, w': World, tombs: set<Rid>, plan: map<ChainLabel, seq<Rid>>)
    requires Owned(w) && SystemTrue(w) && Layout(w, w', tombs, plan)
    ensures Owned(w')
  {
    hide Layout, PlanLog, PlanSlots, Plan, Contents, MarksOf, NamesOf, Dense;
    LayoutParts(w, w', tombs, plan);
    forall c | c in w'.log && w'.log[c] != []
      ensures c.Index? && c.writer in w.writers && c.epoch <= w.epoch
    {
      PlanLogAt(plan, w.epoch, w.compactor, c);
    }
  }

  /** What a live record's entry below has come to once the rewrite is laid out: the walk has read it and it is
      carried over, or it is left behind. */
  lemma LaidFound(schema: Schema, w: World, w': World, tombs: set<Rid>, plan: map<ChainLabel, seq<Rid>>, l: ChainLabel,
                  u: Writer, r: Rid)
    requires ValidSchema(schema) && Built(schema, w) && Owned(w) && WalkedRight(schema, w) && DrainedTrue(w)
             && Layout(w, w', tombs, plan)
    requires LiveFindable(schema, w.table, l, r) && r !in tombs && Holds(w.log, l, w.epoch - 1, u, r)
             && w.compactor in w.writers
    ensures LeftAt(w'.log, w'.drained, w.epoch - 1, r) || In(w'.log, w'.writers, l, w'.epoch, r)
  {
    hide Layout, PlanLog, PlanSlots, Findable, Contents, Owned, WalkedRight, Once, Apart, Plan;
    LayoutParts(w, w', tombs, plan);
    ReachesFindable(schema, w.table.inserted[r], l);
    PlanLogAt(plan, w.epoch, w.compactor, Index(l, w.epoch - 1, u));
    assert Holds(w'.log, l, w.epoch - 1, u, r);
    assert HeldIn(w'.log, w.Below(), r);
    if HeldIn(w.drained, w.Below(), r) {
      var k, v :| Holds(w.drained, k, w.Below(), v, r);
      assert Holds(w.drained, l, w.Below(), v, r);
      DrainedWalked(w, l, v, r);
      HeldIsWalked(schema, w, tombs, plan, l, v, r);
      PlanLogAt(plan, w.epoch, w.compactor, Index(l, w.epoch, w.compactor));
      assert r in w'.log[Index(l, w.epoch, w.compactor)];
    }
  }

  lemma DrainedWalked(w: World, l: ChainLabel, u: Writer, r: Rid)
    requires DrainedTrue(w) && !w.phase.Idle? && Holds(w.drained, l, w.Below(), u, r)
    ensures u in w.walkers
  {
  }

  lemma LayoutCompleteTop(schema: Schema, w: World, w': World, tombs: set<Rid>, plan: map<ChainLabel, seq<Rid>>)
    requires ValidSchema(schema) && SystemTrue(w) && Owned(w) && Built(schema, w) && DrainedTrue(w)
    requires CompleteBelow(schema, w) && WalkedRight(schema, w) && Layout(w, w', tombs, plan)
    ensures CompleteTop(schema, w')
  {
    hide Layout, PlanLog, PlanSlots, MarksOf, NamesOf, Dense, LiveFindable, Contents, Built, DrainedTrue, Owned,
         WalkedRight, Left, HeldIn, Plan;
    LayoutParts(w, w', tombs, plan);
    forall l, r | LiveFindable(schema, w'.table, l, r)
      ensures In(w'.log, w'.writers, l, w'.epoch, r) || Left(w'.log, w'.drained, w'.epoch, r)
    {
      assert LiveFindable(schema, w.table, l, r);
      if In(w.log, w.writers - {w.compactor}, l, w.epoch, r) {
        OthersUntouched(w, w', tombs, plan, l, r);
      } else if Left(w.log, w.drained, w.epoch - 1, r) {
        LaidLeft(w, w', tombs, plan, r);
        LeftFurther(w'.log, w'.drained, w.epoch - 1, w.epoch, r);
      } else {
        LaidGone(w, w', tombs, plan);
        NotGone(schema, w, tombs, l, r);
        LiveIsOf(schema, w.table, l, r);
        var u :| u in w.writers && Index(l, w.epoch - 1, u) in w.log && r in w.log[Index(l, w.epoch - 1, u)];
        LaidFound(schema, w, w', tombs, plan, l, u, r);
        LeftHere(w'.log, w'.drained, w.epoch, w.epoch - 1, r);
      }
    }
  }

  lemma LiveIsOf(schema: Schema, table: Table, l: ChainLabel, r: Rid)
    requires LiveFindable(schema, table, l, r)
    ensures l.Of?
  {
  }

  lemma LaidGone(w: World, w': World, tombs: set<Rid>, plan: map<ChainLabel, seq<Rid>>)
    requires Layout(w, w', tombs, plan)
    ensures Gone(w, tombs)
  {
    hide Gone, Plan, PlanLog, PlanSlots;
  }

  lemma NotGone(schema: Schema, w: World, ids: set<Rid>, l: ChainLabel, r: Rid)
    requires Gone(w, ids) && w.phase.Walked? && LiveFindable(schema, w.table, l, r)
             && !Left(w.log, w.drained, w.epoch - 1, r)
    ensures r !in ids
  {
    hide Left, Findable;
  }

  lemma LeftHere(log: map<Chain, seq<Rid>>, drained: map<Chain, seq<Rid>>, low: int, e: nat, r: Rid)
    requires e < low
    ensures LeftAt(log, drained, e, r) ==> Left(log, drained, low, r)
  {
  }

  lemma LeftFurther(log: map<Chain, seq<Rid>>, drained: map<Chain, seq<Rid>>, low: int, low': int, r: Rid)
    requires Left(log, drained, low, r) && low <= low'
    ensures Left(log, drained, low', r)
  {
    hide LeftAt;
  }

  lemma LaidLeft(w: World, w': World, tombs: set<Rid>, plan: map<ChainLabel, seq<Rid>>, r: Rid)
    requires Owned(w) && Layout(w, w', tombs, plan)
    ensures Left(w.log, w.drained, w.epoch - 1, r) <==> Left(w'.log, w'.drained, w.epoch - 1, r)
  {
    hide Layout, PlanLog, PlanSlots, HeldIn, Owned, Plan;
    LayoutParts(w, w', tombs, plan);
    forall e: nat | e < w.epoch - 1 ensures LeftAt(w.log, w.drained, e, r) <==> LeftAt(w'.log, w'.drained, e, r) {
      LaidHeldBelow(w, w', tombs, plan, e, r);
    }
  }

  lemma LaidHeldBelow(w: World, w': World, tombs: set<Rid>, plan: map<ChainLabel, seq<Rid>>, ep: int, r: Rid)
    requires Owned(w) && Layout(w, w', tombs, plan) && ep != w.epoch
    ensures HeldIn(w'.log, ep, r) <==> HeldIn(w.log, ep, r)
  {
    hide Layout, PlanLog, PlanSlots, Plan, Owned;
    LayoutParts(w, w', tombs, plan);
    forall l, u ensures Holds(w'.log, l, ep, u, r) <==> Holds(w.log, l, ep, u, r) {
      if ep >= 0 {
        PlanLogAt(plan, w.epoch, w.compactor, Index(l, ep, u));
      }
    }
  }

  lemma OthersUntouched(w: World, w': World, tombs: set<Rid>, plan: map<ChainLabel, seq<Rid>>, l: ChainLabel, r: Rid)
    requires Layout(w, w', tombs, plan) && In(w.log, w.writers - {w.compactor}, l, w.epoch, r)
    ensures In(w'.log, w'.writers - {w.compactor}, l, w.epoch, r) && In(w'.log, w'.writers, l, w.epoch, r)
  {
    hide Layout, PlanLog, PlanSlots;
    LayoutParts(w, w', tombs, plan);
    var u :| u in w.writers - {w.compactor} && Index(l, w.epoch, u) in w.log && r in w.log[Index(l, w.epoch, u)];
    PlanLogAt(plan, w.epoch, w.compactor, Index(l, w.epoch, u));
    assert r in w'.log[Index(l, w.epoch, u)];
  }

  lemma BelowUntouched(w: World, w': World, tombs: set<Rid>, plan: map<ChainLabel, seq<Rid>>, l: ChainLabel, r: Rid)
    requires Layout(w, w', tombs, plan) && In(w.log, w.writers, l, w.epoch - 1, r)
    ensures In(w'.log, w'.writers, l, w.epoch - 1, r)
  {
    hide Layout, PlanLog, PlanSlots;
    LayoutParts(w, w', tombs, plan);
    var u :| u in w.writers && w.epoch - 1 >= 0 && Index(l, w.epoch - 1, u) in w.log
        && r in w.log[Index(l, w.epoch - 1, u)];
    PlanLogAt(plan, w.epoch, w.compactor, Index(l, w.epoch - 1, u));
    assert r in w'.log[Index(l, w.epoch - 1, u)];
  }

  /** The walk takes in label chains only. */
  lemma PlanHasNoTomb(schema: Schema, w: World, tombs: set<Rid>, plan: map<ChainLabel, seq<Rid>>)
    requires w.phase.Walked? && w.epoch > 0 && WalkedRight(schema, w) && Plan(w.phase.entries, tombs, plan)
    ensures forall l :: l in plan ==> l.Of?
  {
  }

  lemma NotWalking(schema: Schema, w: World)
    requires !w.phase.Walked?
    ensures WalkedRight(schema, w)
  {
  }

  lemma LayoutCompleteBelow(schema: Schema, w: World, w': World, tombs: set<Rid>, plan: map<ChainLabel, seq<Rid>>)
    requires Owned(w) && CompleteBelow(schema, w) && Layout(w, w', tombs, plan)
    ensures CompleteBelow(schema, w')
  {
    hide Layout, PlanLog, PlanSlots, In, Left, LiveFindable, Plan, Owned;
    LayoutParts(w, w', tombs, plan);
    forall l, r | LiveFindable(schema, w'.table, l, r)
      ensures BelowOrLeft(w', l, r)
    {
      LaidLeft(w, w', tombs, plan, r);
      if In(w.log, w.writers, l, w.epoch - 1, r) {
        BelowUntouched(w, w', tombs, plan, l, r);
      } else if In(w.log, w.writers - {w.compactor}, l, w.epoch, r) {
        OthersUntouched(w, w', tombs, plan, l, r);
      }
    }
  }

  lemma LayoutKeeps(schema: Schema, w: World, w': World, tombs: set<Rid>, plan: map<ChainLabel, seq<Rid>>)
    requires ValidSchema(schema) && Inv(schema, w) && Layout(w, w', tombs, plan)
    ensures Inv(schema, w')
  {
    hide Layout, PlanLog, PlanSlots, LogTrue, CompleteTop, CompleteBelow, Rendered, Dense, Contents, WalkedRight,
         MarksOf, NamesOf, Owned, Built, DeadBuried, Carried, MissingWhere, Plan;
    LayoutParts(w, w', tombs, plan);
    CarriedParts(w);
    SystemKept(w, w');
    PlanHasNoTomb(schema, w, tombs, plan);
    LayoutBuilt(schema, w, w', tombs, plan);
    NotWalking(schema, w');
    LayoutRendered(w, w', tombs, plan);
    LayoutTables(schema, w, w', tombs, plan);
    LayoutOwned(w, w', tombs, plan);
    LayoutCompleteTop(schema, w, w', tombs, plan);
    LayoutCompleteBelow(schema, w, w', tombs, plan);
    LayoutDead(schema, w, w', tombs, plan);
    LayoutCarried(schema, w, w', tombs, plan);
    LayoutMissing(w, w', tombs, plan);
  }

  lemma LayoutMissing(w: World, w': World, tombs: set<Rid>, plan: map<ChainLabel, seq<Rid>>)
    requires MissingWhere(w) && Owned(w) && Layout(w, w', tombs, plan) && forall l :: l in plan ==> l.Of?
    ensures MissingWhere(w')
  {
    hide Layout, PlanLog, Plan, Contents;
    LayoutParts(w, w', tombs, plan);
    forall c
      ensures |w.Log(c)| <= |w'.Log(c)| && (c.Index? && c.epoch == w.epoch && c.writer == w.compactor && c.w in plan ==>
                                            w'.Log(c) == plan[c.w]) {
      PlanLogAt(plan, w.epoch, w.compactor, c);
    }
  }

  /** The rewrite lists in the newest epoch only what the one below lists. */
  lemma LayoutDead(schema: Schema, w: World, w': World, tombs: set<Rid>, plan: map<ChainLabel, seq<Rid>>)
    requires DeadBuried(w) && Owned(w) && WalkedRight(schema, w) && DrainedTrue(w) && Layout(w, w', tombs, plan)
             && forall l :: l in plan ==> l.Of?
    ensures DeadBuried(w')
  {
    hide Layout, PlanLog, PlanSlots, DeadBelow, Contents, WalkedRight, Owned, DrainedTrue, Plan;
    LayoutParts(w, w', tombs, plan);
    forall r | r in w'.table.deleted ensures DeadBelow(w', r) {
      assert DeadBelow(w, r);
      LaidDead(schema, w, w', tombs, plan, r);
    }
  }

  /** The rewrite carries over only what the walk has read, and nothing of that whose tombstone it has heard. */
  lemma LayoutCarried(schema: Schema, w: World, w': World, tombs: set<Rid>, plan: map<ChainLabel, seq<Rid>>)
    requires Carried(w) && Owned(w) && WalkedRight(schema, w) && Built(schema, w) && Layout(w, w', tombs, plan)
             && forall l :: l in plan ==> l.Of?
    ensures Carried(w')
  {
    hide Layout, PlanLog, PlanSlots, HeldIn, WalkedRight, Owned, Built, Plan, DrainedTrue;
    LayoutParts(w, w', tombs, plan);
    LayoutDrained(w, w', tombs, plan);
    forall e: nat, e': nat, r | e < e' && HeldIn(w'.log, e, r) && HeldIn(w'.log, e', r)
      ensures HeldIn(w'.drained, e, r) {
      LaidTraced(schema, w, w', tombs, plan, e, e', r);
    }
    forall e: nat, e': nat, r | e < e' && DroppedAt(w', e, r) ensures !HeldIn(w'.log, e', r) {
      LaidDropped(schema, w, w', tombs, plan, e, e', r);
    }
  }

  lemma LayoutDrained(w: World, w': World, tombs: set<Rid>, plan: map<ChainLabel, seq<Rid>>)
    requires DrainedTrue(w) && Owned(w) && Layout(w, w', tombs, plan)
    ensures DrainedTrue(w')
  {
    hide Layout, PlanLog, PlanSlots, Plan;
    LayoutParts(w, w', tombs, plan);
    forall c | c in w.drained ensures c in w'.log && w.drained[c] <= w'.log[c] {
      PlanLogAt(plan, w.epoch, w.compactor, c);
    }
  }

  lemma LaidTraced(schema: Schema, w: World, w': World, tombs: set<Rid>, plan: map<ChainLabel, seq<Rid>>, e: nat,
                   e': nat, r: Rid)
    requires DrainedTrue(w) && Traced(w) && Owned(w) && WalkedRight(schema, w) && Layout(w, w', tombs, plan)
             && forall l :: l in plan ==> l.Of?
    requires e < e' && HeldIn(w'.log, e, r) && HeldIn(w'.log, e', r)
    ensures HeldIn(w.drained, e, r)
  {
    hide Layout, PlanLog, PlanSlots, HeldIn, WalkedRight, Owned, Plan, DrainedTrue;
    LayoutParts(w, w', tombs, plan);
    LaidNone(w, w', tombs, plan, e', r);
    LaidHeldBelow(w, w', tombs, plan, e, r);
    if e' != w.epoch {
      LaidHeldBelow(w, w', tombs, plan, e', r);
    } else if !HeldIn(w.log, w.epoch, r) {
      LaidHeld(schema, w, w', tombs, plan, w.epoch, r);
      DrainedIsHeld(w, w.epoch - 1, r);
    }
  }

  lemma LaidNone(w: World, w': World, tombs: set<Rid>, plan: map<ChainLabel, seq<Rid>>, ep: int, r: Rid)
    requires Owned(w) && Layout(w, w', tombs, plan) && HeldIn(w'.log, ep, r)
    ensures ep <= w.epoch
  {
    hide Layout, PlanLog, PlanSlots, HeldIn, Plan, Owned;
    LayoutParts(w, w', tombs, plan);
    if ep > w.epoch {
      LaidHeldBelow(w, w', tombs, plan, ep, r);
      NoneAbove(w, ep, r);
    }
  }

  lemma LaidDropped(schema: Schema, w: World, w': World, tombs: set<Rid>, plan: map<ChainLabel, seq<Rid>>, e: nat,
                    e': nat, r: Rid)
    requires DrainedTrue(w) && Traced(w) && Dropped(w) && Owned(w) && WalkedRight(schema, w) && Built(schema, w)
    requires Layout(w, w', tombs, plan) && forall l :: l in plan ==> l.Of?
    requires e < e' && DroppedAt(w', e, r)
    ensures !HeldIn(w'.log, e', r)
  {
    hide Layout, PlanLog, PlanSlots, HeldIn, WalkedRight, Owned, Plan, DrainedTrue, Once, Closed, OneHome, Apart,
         Traced;
    LayoutParts(w, w', tombs, plan);
    if HeldIn(w'.log, e', r) {
      LaidNone(w, w', tombs, plan, e', r);
      if e == w.epoch - 1 {
        DrainedIsHeld(w, e, r);
        NotBoth(schema, w, r);
        LaidHeld(schema, w, w', tombs, plan, w.epoch, r);
      } else {
        assert DroppedAt(w, e, r);
        if e' == w.epoch {
          LaidHeld(schema, w, w', tombs, plan, w.epoch, r);
          DrainedIsHeld(w, w.epoch - 1, r);
          DroppedLow(w, e);
        } else {
          LaidHeldBelow(w, w', tombs, plan, e', r);
        }
      }
    }
  }

  lemma DroppedLow(w: World, e: nat)
    requires DrainedTrue(w) && e in w.heard
    ensures w.phase.Walked? ==> e + 1 < w.epoch
  {
  }

  lemma NotBoth(schema: Schema, w: World, r: Rid)
    requires Built(schema, w) && w.phase.Walked? && HeldIn(w.log, w.epoch - 1, r)
    ensures !HeldIn(w.log, w.epoch, r)
  {
    hide Holds, Once, Closed, OneHome;
    var l, u :| Holds(w.log, l, w.epoch - 1, u, r);
  }

  lemma LaidBuried(w: World, w': World, tombs: set<Rid>, plan: map<ChainLabel, seq<Rid>>, ep: int, r: Rid)
    requires Layout(w, w', tombs, plan) && forall l :: l in plan ==> l.Of?
    ensures BuriedIn(w'.log, ep, r) <==> BuriedIn(w.log, ep, r)
  {
    hide Layout, PlanLog, PlanSlots, Contents, Plan;
    LayoutParts(w, w', tombs, plan);
    forall u ensures BuriedBy(w'.log, ep, u, r) <==> BuriedBy(w.log, ep, u, r) {
      if ep >= 0 {
        PlanLogAt(plan, w.epoch, w.compactor, Index(Tomb, ep, u));
      }
    }
  }

  lemma LaidDead(schema: Schema, w: World, w': World, tombs: set<Rid>, plan: map<ChainLabel, seq<Rid>>, r: Rid)
    requires Owned(w) && WalkedRight(schema, w) && DrainedTrue(w) && Layout(w, w', tombs, plan) && forall l ::
               l in plan ==> l.Of?
    requires DeadBelow(w, r)
    ensures DeadBelow(w', r)
  {
    hide Contents, WalkedRight, BuriedIn, HeldIn, Layout, LapsedBelow, Owned, DrainedTrue;
    LayoutShape(w, w', tombs, plan);
    LaidBuried(w, w', tombs, plan, w.epoch, r);
    LaidBuried(w, w', tombs, plan, w.epoch - 1, r);
    LaidHeld(schema, w, w', tombs, plan, w.epoch, r);
    LaidHeldBelow(w, w', tombs, plan, w.epoch - 1, r);
    DrainedIsHeld(w, w.epoch - 1, r);
    LaidLapsed(w, w', tombs, plan, r);
  }

  lemma LayoutShape(w: World, w': World, tombs: set<Rid>, plan: map<ChainLabel, seq<Rid>>)
    requires Layout(w, w', tombs, plan)
    ensures w'.epoch == w.epoch
  {
    hide Layout, PlanLog, PlanSlots;
    LayoutParts(w, w', tombs, plan);
  }

  /** What the newest epoch lists once the rewrite is laid out: what it listed before, and what the walk has read
      below it as far as that has no tombstone. */
  lemma LaidHeld(schema: Schema, w: World, w': World, tombs: set<Rid>, plan: map<ChainLabel, seq<Rid>>, ep: int, r: Rid)
    requires Owned(w) && WalkedRight(schema, w) && Layout(w, w', tombs, plan) && forall l :: l in plan ==> l.Of?
    ensures HeldIn(w.log, ep, r) ==> HeldIn(w'.log, ep, r)
    ensures HeldIn(w'.log, w.epoch, r) ==>
              HeldIn(w.log, w.epoch, r) || (HeldIn(w.drained, w.epoch - 1, r) && r !in tombs)
  {
    hide Contents, Holds, WalkedRight, Layout, Owned;
    LaidTop(w, w', tombs, plan, ep, r);
    if l, u :| Holds(w'.log, l, w.epoch, u, r) {
      HoldsLaid(w, w', tombs, plan, l, w.epoch, u, r);
      if u == w.compactor {
        var v := LaidFromBelow(schema, w, w', tombs, plan, l, r);
      }
    }
  }

  lemma LaidLapsed(w: World, w': World, tombs: set<Rid>, plan: map<ChainLabel, seq<Rid>>, r: Rid)
    requires Owned(w) && Layout(w, w', tombs, plan) && forall l :: l in plan ==> l.Of?
    ensures LapsedBelow(w, w.epoch - 1, r) ==> LapsedBelow(w', w.epoch - 1, r)
  {
    hide Layout, PlanLog, PlanSlots, Contents, BuriedIn, HeldIn, Plan;
    LayoutParts(w, w', tombs, plan);
    if e: nat :| e < w.epoch - 1 && LapsedAt(w, e, r) {
      LaidBuried(w, w', tombs, plan, e, r);
      var x: nat :| x > e && HeldIn(w.log, x, r);
      LaidTop(w, w', tombs, plan, x, r);
      assert LapsedAt(w', e, r);
    }
  }

  /** Nothing listed before the rewrite is laid out is lost by it. */
  lemma LaidTop(w: World, w': World, tombs: set<Rid>, plan: map<ChainLabel, seq<Rid>>, ep: int, r: Rid)
    requires Owned(w) && Layout(w, w', tombs, plan) && forall l :: l in plan ==> l.Of?
    ensures HeldIn(w.log, ep, r) ==> HeldIn(w'.log, ep, r)
  {
    hide Layout, PlanLog, PlanSlots, Contents, Plan;
    LayoutParts(w, w', tombs, plan);
    if l, u :| Holds(w.log, l, ep, u, r) {
      PlanLogAt(plan, w.epoch, w.compactor, Index(l, ep, u));
      assert w.log[Index(l, ep, u)] != [];
      assert Holds(w'.log, l, ep, u, r);
    }
  }

  lemma RewriteKeeps(schema: Schema, w: World, w': World, c: Chain, i: nat)
    requires Inv(schema, w) && Rewrite(w, w', c, i)
    ensures Inv(schema, w')
  {
    hide LogTrue, In, Left, LiveFindable, Dense, Contents, WalkedRight, MarksOf, NamesOf, DeadBelow, DeadTop, Carried;
    SystemKept(w, w');
    SameCarried(w, w');
    SameDead(w, w');
    NotWalking(schema, w');
  }

  lemma BeginDeleteKeeps(schema: Schema, w: World, w': World)
    requires Inv(schema, w) && BeginDelete(w, w')
    ensures Inv(schema, w')
  {
    hide LogTrue, In, Left, LiveFindable, Dense, Contents, MarksOf, NamesOf, Rendered, DeadBelow, DeadTop, Carried;
    SameCarried(w, w');
    CarriedParts(w);
    SameDead(w, w');
    forall r | r in w'.table.deleted ensures DeadTop(w', r) {
      assert DeadBelow(w, r);
      DeleteDead(w, r);
    }
  }

  /** Once the rewrite is in place, a record whose only tombstone is in the old epoch is not listed in the new one, or
      the tombstone is about to lapse. */
  lemma DeleteDead(w: World, r: Rid)
    requires w.epoch > 0 && DeadBelow(w, r)
    ensures DeadTop(w, r)
  {
    hide BuriedIn, HeldIn;
    if HeldIn(w.log, w.epoch, r) && BuriedIn(w.log, w.epoch - 1, r) {
      assert LapsedAt(w, w.epoch - 1, r);
    } else if e: nat :| e < w.epoch - 1 && LapsedAt(w, e, r) {
      assert e < w.epoch;
    }
  }

  lemma RemoveKeeps(schema: Schema, w: World, w': World, c: Chain, i: nat)
    requires Inv(schema, w) && Remove(w, w', c, i)
    ensures Inv(schema, w')
  {
    hide LogTrue, In, Left, LiveFindable, Dense, Contents, WalkedRight, MarksOf, NamesOf, DeadBelow, DeadTop, Carried;
    SystemKept(w, w');
    SameCarried(w, w');
    SameDead(w, w');
    NotWalking(schema, w');
  }

  // ------------------------------------------------------------ how epochs are built

  lemma FreshNowhere(schema: Schema, log: map<Chain, seq<Rid>>, table: Table, l: ChainLabel, ep: int, u: Writer, r: Rid)
    requires LogTrue(schema, log, table) && r !in table.inserted
    ensures !Holds(log, l, ep, u, r)
  {
  }

  lemma OnceAppended(log: map<Chain, seq<Rid>>, chains: set<Chain>, r: Rid)
    requires Once(log)
    requires forall c :: c in chains && c.Index? && c.w.Of? && c in log ==> r !in log[c]
    ensures Once(Appended(log, chains, r))
  {
  }

  lemma InsertBuilt(schema: Schema, w: World, w': World, u: Writer, ep: nat, r: Rid, rec: Record)
    requires ValidSchema(schema) && Built(schema, w) && LogTrue(schema, w.log, w.table) && DrainedTrue(w)
             && Insert(schema, w, w', u, ep, r, rec)
    ensures Built(schema, w')
  {
    hide Appended, Holds, RecordChains, Filled, NextSlots, Once, LogTrue, Findable, DrainedTrue;
    var chains := RecordChains(schema, rec, ep, u);
    InsertHomes(schema, w, w', u, ep, r, rec);
    assert Once(w'.log) by {
      FreshInNoChain(schema, w.log, w.table, r);
      OnceAppended(w.log, chains, r);
    }
    forall l, l', e, v, x | Holds(w'.log, l, e, v, x) && x in w'.table.inserted
        && Findable(schema, w'.table.inserted[x], l')
      ensures Holds(w'.log, l', e, v, x)
    {
      HoldsAppended(w.log, chains, r, l, e, v, x);
      HoldsAppended(w.log, chains, r, l', e, v, x);
      FreshNowhere(schema, w.log, w.table, l, e, v, r);
      FindableLabelled(schema, w'.table.inserted[x], l');
      RecordChainsOf(schema, rec, ep, u);
    }
    forall l, l', e, v, x | Holds(w'.drained, l, e, v, x) && x in w'.table.inserted
        && Findable(schema, w'.table.inserted[x], l')
      ensures Holds(w'.drained, l', e, v, x)
    {
      FreshUnread(schema, w, e, r);
      assert HeldIn(w.drained, e, x);
    }
  }

  lemma FindableLabelled(schema: Schema, rec: Record, l: ChainLabel)
    requires Findable(schema, rec, l)
    ensures Labelled(schema, rec, l) && l.Of?
  {
  }

  lemma FreshInNoChain(schema: Schema, log: map<Chain, seq<Rid>>, table: Table, r: Rid)
    requires LogTrue(schema, log, table) && r !in table.inserted
    ensures forall c :: c in log && c.Index? && c.w.Of? ==> r !in log[c]
  {
  }

  /** A fresh record has one home, and only in the epoch it is inserted in. */
  lemma InsertHomes(schema: Schema, w: World, w': World, u: Writer, ep: nat, r: Rid, rec: Record)
    requires ValidSchema(schema) && Built(schema, w) && LogTrue(schema, w.log, w.table)
             && Insert(schema, w, w', u, ep, r, rec)
    ensures OneHome(w'.log)
    ensures w.phase.Draining? || w.phase.Walked? ==> Apart(w'.log, w'.epoch)
  {
    hide Appended, Holds, RecordChains, Filled, NextSlots, Once, LogTrue, Closed;
    var chains := RecordChains(schema, rec, ep, u);
    RecordChainsOf(schema, rec, ep, u);
    forall l, e, v, x | Holds(w'.log, l, e, v, x)
      ensures if x == r then e == ep && v == u else Holds(w.log, l, e, v, x)
    {
      HoldsAppended(w.log, chains, r, l, e, v, x);
      FreshNowhere(schema, w.log, w.table, l, e, v, r);
    }
  }

  lemma BuryBuilt(schema: Schema, w: World, w': World, u: Writer, ep: nat, r: Rid)
    requires Built(schema, w) && Bury(w, w', u, ep, r)
    ensures Built(schema, w')
  {
    hide Appended, Holds, Filled, NextSlots, Findable, Once;
    OnceAppended(w.log, {Index(Tomb, ep, u)}, r);
    forall l, e, v, x ensures Holds(w'.log, l, e, v, x) <==> Holds(w.log, l, e, v, x) {
      HoldsAppended(w.log, {Index(Tomb, ep, u)}, r, l, e, v, x);
    }
  }

  lemma HoldsLaid(w: World, w': World, tombs: set<Rid>, plan: map<ChainLabel, seq<Rid>>, l: ChainLabel, ep: int,
                  u: Writer, x: Rid)
    requires Layout(w, w', tombs, plan) && Owned(w) && forall k :: k in plan ==> k.Of?
    ensures Holds(w'.log, l, ep, u, x) <==>
              if ep == w.epoch && u == w.compactor then l in plan && x in plan[l] else Holds(w.log, l, ep, u, x)
  {
    hide Layout, PlanLog, PlanSlots;
    LayoutParts(w, w', tombs, plan);
    if ep >= 0 {
      PlanLogAt(plan, w.epoch, w.compactor, Index(l, ep, u));
    }
  }

  /** What is rewritten was listed below. */
  lemma LaidFromBelow(schema: Schema, w: World, w': World, tombs: set<Rid>, plan: map<ChainLabel, seq<Rid>>,
                      l: ChainLabel, x: Rid)
    returns (u: Writer)
    requires Layout(w, w', tombs, plan) && WalkedRight(schema, w) && l in plan && x in plan[l]
    ensures u in w.walkers && Holds(w.drained, l, w.epoch - 1, u, x) && x !in tombs
  {
    hide Layout, PlanLog, PlanSlots;
    LayoutParts(w, w', tombs, plan);
    PlanAt(w.phase.entries, tombs, plan, l, x);
    assert x in Contents(w.drained, l, w.epoch - 1, w.walkers);
    u :| u in w.walkers && Index(l, w.epoch - 1, u) in w.drained && x in w.drained[Index(l, w.epoch - 1, u)];
  }

  lemma LayoutBuilt(schema: Schema, w: World, w': World, tombs: set<Rid>, plan: map<ChainLabel, seq<Rid>>)
    requires ValidSchema(schema) && Layout(w, w', tombs, plan) && Built(schema, w) && Owned(w) && WalkedRight(schema, w)
             && DrainedTrue(w)
    requires forall k :: k in plan ==> k.Of?
    ensures Built(schema, w')
  {
    hide Layout, PlanLog, PlanSlots, Holds, Findable, Contents, WalkedRight, Owned, DrainedTrue;
    LayoutParts(w, w', tombs, plan);
    LayoutOnce(w, w', tombs, plan);
    forall l, l', ep, u, u', r | Holds(w'.log, l, ep, u, r) && Holds(w'.log, l', ep, u', r) ensures u == u' {
      LayoutHome(schema, w, w', tombs, plan, l, l', ep, u, u', r);
    }
    forall l, l', ep, u, r | Holds(w'.log, l, ep, u, r) && r in w'.table.inserted
        && Findable(schema, w'.table.inserted[r], l')
      ensures Holds(w'.log, l', ep, u, r)
    {
      HoldsLaid(w, w', tombs, plan, l, ep, u, r);
      HoldsLaid(w, w', tombs, plan, l', ep, u, r);
      if ep == w.epoch && u == w.compactor {
        var v := LaidFromBelow(schema, w, w', tombs, plan, l, r);
        assert Holds(w.drained, l', w.epoch - 1, v, r);
        ReachesFindable(schema, w.table.inserted[r], l');
        HeldIsWalked(schema, w, tombs, plan, l', v, r);
      }
    }
  }

  lemma HeldIsWalked(schema: Schema, w: World, tombs: set<Rid>, plan: map<ChainLabel, seq<Rid>>, l: ChainLabel,
                     v: Writer, r: Rid)
    requires w.phase.Walked? && w.epoch > 0 && WalkedRight(schema, w) && Plan(w.phase.entries, tombs, plan)
    requires ReachedLabel(schema, l) && v in w.walkers && Holds(w.drained, l, w.epoch - 1, v, r) && r !in tombs
    ensures l in plan && r in plan[l]
  {
    assert r in Contents(w.drained, l, w.epoch - 1, w.walkers);
    PlanAt(w.phase.entries, tombs, plan, l, r);
  }

  lemma LayoutOnce(w: World, w': World, tombs: set<Rid>, plan: map<ChainLabel, seq<Rid>>)
    requires Layout(w, w', tombs, plan) && Once(w.log)
    ensures Once(w'.log)
  {
    hide Layout, PlanLog, PlanSlots;
    LayoutParts(w, w', tombs, plan);
    forall c | c in w'.log && c.Index? && c.w.Of? ensures NoDuplicates(w'.log[c]) {
      PlanLogAt(plan, w.epoch, w.compactor, c);
    }
  }

  lemma DrainedHolds(w: World, l: ChainLabel, e: int, u: Writer, r: Rid)
    requires DrainedTrue(w) && Holds(w.drained, l, e, u, r)
    ensures Holds(w.log, l, e, u, r)
  {
  }

  lemma LayoutHome(schema: Schema, w: World, w': World, tombs: set<Rid>, plan: map<ChainLabel, seq<Rid>>,
                   l: ChainLabel, l': ChainLabel, ep: int, u: Writer, u': Writer, r: Rid)
    requires Layout(w, w', tombs, plan) && Built(schema, w) && Owned(w) && WalkedRight(schema, w) && DrainedTrue(w)
    requires forall k :: k in plan ==> k.Of?
    requires Holds(w'.log, l, ep, u, r) && Holds(w'.log, l', ep, u', r)
    ensures u == u'
  {
    hide Layout, PlanLog, PlanSlots, Holds, Contents, WalkedRight, Owned, Closed, Once, DrainedTrue;
    LayoutParts(w, w', tombs, plan);
    HoldsLaid(w, w', tombs, plan, l, ep, u, r);
    HoldsLaid(w, w', tombs, plan, l', ep, u', r);
    if ep == w.epoch && u == w.compactor && u' != w.compactor {
      var v := LaidFromBelow(schema, w, w', tombs, plan, l, r);
      DrainedHolds(w, l, w.epoch - 1, v, r);
    } else if ep == w.epoch && u' == w.compactor && u != w.compactor {
      var v := LaidFromBelow(schema, w, w', tombs, plan, l', r);
      DrainedHolds(w, l', w.epoch - 1, v, r);
    }
  }

  /** Under a label that queries reach, the rewrite carries over exactly what the walk has read there, less the
      tombstones that have come back. */
  lemma LayoutForgets(schema: Schema, w: World, w': World, tombs: set<Rid>, plan: map<ChainLabel, seq<Rid>>,
                      l: ChainLabel, r: Rid)
    requires Inv(schema, w) && Layout(w, w', tombs, plan) && ReachedLabel(schema, l)
    ensures Holds(w'.log, l, w.epoch, w.compactor, r) <==>
              (exists u :: u in w.walkers && Holds(w.drained, l, w.epoch - 1, u, r)) && r !in tombs
  {
    hide Layout, PlanLog, PlanSlots, Built, LogTrue, Rendered, Complete, DeadBuried, SystemTrue, Contents, Carried;
    LayoutParts(w, w', tombs, plan);
    PlanHasNoTomb(schema, w, tombs, plan);
    HoldsLaid(w, w', tombs, plan, l, w.epoch, w.compactor, r);
    PlanAt(w.phase.entries, tombs, plan, l, r);
    if Holds(w'.log, l, w.epoch, w.compactor, r) {
      var u := LaidFromBelow(schema, w, w', tombs, plan, l, r);
    }
    if u :| u in w.walkers && Holds(w.drained, l, w.epoch - 1, u, r) {
      HoldsContents(w, l, u, r);
    }
  }

  lemma HoldsContents(w: World, l: ChainLabel, u: Writer, r: Rid)
    requires w.epoch > 0 && u in w.walkers && Holds(w.drained, l, w.epoch - 1, u, r)
    ensures r in Contents(w.drained, l, w.epoch - 1, w.walkers)
  {
  }

  /** A record the walk has come upon under a label that queries reach. */
  ghost predicate Read(schema: Schema, w: World, r: Rid) {
    exists l, u :: ReachedLabel(schema, l) && u in w.walkers && Holds(w.drained, l, w.epoch - 1, u, r)
  }

  /** A record the rewrite lists under a label that queries reach. */
  ghost predicate Rewritten(schema: Schema, w': World, r: Rid) {
    exists l :: ReachedLabel(schema, l) && Holds(w'.log, l, w'.epoch, w'.compactor, r)
  }

  lemma RewrittenIff(schema: Schema, w: World, w': World, tombs: set<Rid>, plan: map<ChainLabel, seq<Rid>>, r: Rid)
    requires Inv(schema, w) && Layout(w, w', tombs, plan)
    ensures Rewritten(schema, w', r) <==> Read(schema, w, r) && r !in tombs
  {
    hide Inv, Holds, Layout, ReachedLabel;
    LayoutSame(w, w', tombs, plan);
    forall l | ReachedLabel(schema, l)
      ensures Holds(w'.log, l, w.epoch, w.compactor, r) <==>
                (exists u :: u in w.walkers && Holds(w.drained, l, w.epoch - 1, u, r)) && r !in tombs
    {
      LayoutForgets(schema, w, w', tombs, plan, l, r);
    }
  }

  /** The rewrite uncovers no deleted record, by carrying it over without its tombstone below, if and only if every
      record it has read that has such a tombstone is among the tombstones that have come back. */
  lemma LayoutUncovers(schema: Schema, w: World, w': World, tombs: set<Rid>, plan: map<ChainLabel, seq<Rid>>)
    requires Inv(schema, w) && Layout(w, w', tombs, plan)
    ensures (forall r :: BuriedIn(w.log, w.epoch - 1, r) ==> !Rewritten(schema, w', r))
            <==> forall r :: BuriedIn(w.log, w.epoch - 1, r) && Read(schema, w, r) ==> r in tombs
  {
    hide Inv, BuriedIn, Layout, Rewritten, Read;
    forall r ensures Rewritten(schema, w', r) <==> Read(schema, w, r) && r !in tombs {
      RewrittenIff(schema, w, w', tombs, plan, r);
    }
  }

  /** A live record with an entry in the epoch that is rewritten. */
  ghost predicate LiveBelow(schema: Schema, w: World, r: Rid) {
    exists l, u :: LiveFindable(schema, w.table, l, r) && Holds(w.log, l, w.Below(), u, r)
  }

  /** The rewrite leaves nothing live behind if and only if its walk has come upon all that is live there. */
  lemma LayoutLoses(schema: Schema, w: World, w': World, tombs: set<Rid>, plan: map<ChainLabel, seq<Rid>>)
    requires Inv(schema, w) && Layout(w, w', tombs, plan)
    ensures (forall r :: LiveBelow(schema, w, r) ==> Rewritten(schema, w', r)) <==>
              forall r :: LiveBelow(schema, w, r) ==> Read(schema, w, r)
  {
    hide Inv, Layout, Rewritten, Read, LiveBelow;
    forall r | LiveBelow(schema, w, r) ensures Rewritten(schema, w', r) <==> Read(schema, w, r) {
      RewrittenIff(schema, w, w', tombs, plan, r);
      LiveIsNotGone(schema, w, w', tombs, plan, r);
    }
  }

  lemma LiveIsNotGone(schema: Schema, w: World, w': World, tombs: set<Rid>, plan: map<ChainLabel, seq<Rid>>, r: Rid)
    requires Inv(schema, w) && Layout(w, w', tombs, plan) && LiveBelow(schema, w, r)
    ensures r !in tombs
  {
    hide Inv, Layout, Findable, World.Lost, Gone, Plan, PlanLog, PlanSlots;
    LaidGone(w, w', tombs, plan);
    LayoutParts(w, w', tombs, plan);
    var l, u :| LiveFindable(schema, w.table, l, r) && Holds(w.log, l, w.Below(), u, r);
    assert HeldIn(w.log, w.Below(), r);
    if r in w.Lost() {
      LostIsNowhere(schema, w, r, w.Below());
    }
    if r in tombs {
      GoneIs(w, tombs, r);
    }
  }

  lemma GoneIs(w: World, ids: set<Rid>, r: Rid)
    requires Gone(w, ids) && r in ids
    ensures r in w.table.deleted || r in w.Lost()
  {
    hide World.Lost;
  }

  lemma LayoutSame(w: World, w': World, tombs: set<Rid>, plan: map<ChainLabel, seq<Rid>>)
    requires Layout(w, w', tombs, plan)
    ensures w.epoch > 0 && w'.epoch == w.epoch && w'.compactor == w.compactor
  {
    hide Layout, PlanLog, PlanSlots;
    LayoutParts(w, w', tombs, plan);
  }

  // ------------------------------------------------------------ runs

  lemma InitInv(schema: Schema, w: World)
    requires Init(w)
    ensures Inv(schema, w)
  {
    assert DenseTo(w.net, EpochChain, 0) && DenseTo(w.net, RegistryChain, 0);
    DenseEnd(w.net, EpochChain, 0);
    DenseEnd(w.net, RegistryChain, 0);
  }

  lemma StepKeeps(schema: Schema, w: World, w': World)
    requires ValidSchema(schema) && Inv(schema, w) && Step(schema, w, w')
    ensures Inv(schema, w')
  {
    hide Inv, Insert, Bury, Erase, Register, Open, Walk, Layout, Rewrite, BeginDelete, Remove, Seal;
    if u, ep, r, rec :| Insert(schema, w, w', u, ep, r, rec) {
      InsertKeeps(schema, w, w', u, ep, r, rec);
    } else if u, ep, r :| Bury(w, w', u, ep, r) {
      BuryKeeps(schema, w, w', u, ep, r);
    } else if r :| Erase(w, w', r) {
      EraseKeeps(schema, w, w', r);
    } else if u :| Register(w, w', u) {
      RegisterKeeps(schema, w, w', u);
    } else if c, walkers :| Open(w, w', c, walkers) {
      OpenKeeps(schema, w, w', c, walkers);
    } else if entries :| Walk(schema, w, w', entries) {
      WalkKeeps(schema, w, w', entries);
    } else if tombs, plan :| Layout(w, w', tombs, plan) {
      LayoutKeeps(schema, w, w', tombs, plan);
    } else if c, i :| Rewrite(w, w', c, i) {
      RewriteKeeps(schema, w, w', c, i);
    } else if BeginDelete(w, w') {
      BeginDeleteKeeps(schema, w, w');
    } else if c, i :| Remove(w, w', c, i) {
      RemoveKeeps(schema, w, w', c, i);
    } else {
      SealKeeps(schema, w, w');
    }
  }

  /** A run: every world follows from the one before it by one step of some process. */
  ghost predicate Run(schema: Schema, ws: seq<World>)
    requires ValidSchema(schema)
  {
    ws != [] && Init(ws[0]) && forall k :: 0 <= k < |ws| - 1 ==> Step(schema, ws[k], ws[k + 1])
  }

  lemma {:induction false} RunKeeps(schema: Schema, ws: seq<World>, k: nat)
    requires ValidSchema(schema) && Run(schema, ws) && k < |ws|
    ensures Inv(schema, ws[k])
  {
    if k == 0 {
      InitInv(schema, ws[0]);
    } else {
      RunKeeps(schema, ws, k - 1);
      StepKeeps(schema, ws[k - 1], ws[k]);
    }
  }

}
