/** What readers keep, and what they are told, while the protocol moves on under them: the caches of an owner that
    started with nothing stay right from step to step, and so do its answers, through any number of compactions. */
module Readers {
  import opened Basics
  import opened Chains
  import opened Index
  import opened Query
  import opened Compaction
  import opened CompactionProof
  import Dyadic

  // ------------------------------------------------------------ how one world follows another

  /** A system chain only grows at its end. */
  ghost predicate Extends(net: Net, net': Net, c: Chain) {
    && Dense(net, c) && Dense(net', c) && EndOf(net, c) <= EndOf(net', c)
    && forall i: nat :: 1 <= i <= EndOf(net, c) ==> net'[Link(c, i)] == net[Link(c, i)]
  }

  /** What has ever been appended stays appended. */
  ghost predicate LogsGrow(w: World, w': World) {
    forall c :: w.Log(c) <= w'.Log(c)
  }

  /** A tombstone's slot, once empty again, is never filled again. */
  ghost predicate TombsStay(w: World, w': World) {
    forall c: Chain, i: nat :: c.Index? && c.w == Tomb && i <= |w.Log(c)| && Link(c, i) in w'.net ==>
        Link(c, i) in w.net
  }

  ghost predicate TableGrows(t: Table, t': Table) {
    && t.deleted <= t'.deleted
    && forall r :: r in t.inserted ==> r in t'.inserted && t'.inserted[r] == t.inserted[r]
  }

  ghost predicate Onward(w: World, w': World) {
    && LogsGrow(w, w') && TombsStay(w, w') && TableGrows(w.table, w'.table)
    && Extends(w.net, w'.net, EpochChain) && Extends(w.net, w'.net, RegistryChain)
  }

  /** And what is left behind stays behind. */
  ghost predicate Follows(w: World, w': World) {
    Onward(w, w') && w.Lost() <= w'.Lost()
  }

  lemma SameExtends(net: Net, net': Net, c: Chain)
    requires SameChain(net, net', c) && Dense(net, c)
    ensures Extends(net, net', c)
  {
    SameEnd(net, net', c);
  }

  lemma OneMore(net: Net, c: Chain, item: Item)
    requires Dense(net, c)
    ensures Extends(net, net[Link(c, EndOf(net, c) + 1) := item], c)
  {
    var net' := net[Link(c, EndOf(net, c) + 1) := item];
    assert DenseTo(net', c, EndOf(net, c) + 1);
    DenseEnd(net', c, EndOf(net, c) + 1);
  }

  lemma SameLogs(w: World, w': World)
    requires w'.log == w.log && w'.table == w.table
    requires forall k: Key :: k.Link? && k.chain.Index? && k.chain.w == Tomb && k in w'.net ==> k in w.net
    ensures LogsGrow(w, w') && TombsStay(w, w') && TableGrows(w.table, w'.table)
  {
  }

  lemma AppendGrows(w: World, w': World, chains: set<Chain>, r: Rid)
    requires w'.log == Appended(w.log, chains, r)
    ensures LogsGrow(w, w')
  {
  }

  lemma AppendPastEnd(log: map<Chain, seq<Rid>>, chains: set<Chain>)
    ensures forall k :: k in NextSlots(log, chains) ==>
              k.Link? && k.chain in chains && k.i == (if k.chain in log then |log[k.chain]| else 0) + 1
  {
  }

  lemma AppendFollows(w: World, w': World, chains: set<Chain>, r: Rid)
    requires forall c :: c in chains ==> c.Index?
    requires SystemTrue(w) && SameLinks(Filled(w.net, NextSlots(w.log, chains), r), w'.net)
    requires w'.log == Appended(w.log, chains, r) && TableGrows(w.table, w'.table)
    ensures Onward(w, w')
  {
    hide MarksOf, NamesOf, NextSlots, Appended, LogsGrow, Extends, TableGrows;
    AppendGrows(w, w', chains, r);
    AppendPastEnd(w.log, chains);
    SameExtends(w.net, w'.net, EpochChain);
    SameExtends(w.net, w'.net, RegistryChain);
  }

  lemma LayoutFollows(w: World, w': World, tombs: set<Rid>, plan: map<ChainLabel, seq<Rid>>)
    requires Owned(w) && Layout(w, w', tombs, plan)
    ensures LogsGrow(w, w') && TombsStay(w, w') && w'.net == w.net && w'.table == w.table
  {
    hide Layout, Plan, PlanLog, PlanSlots;
    LayoutParts(w, w', tombs, plan);
    forall c ensures w.Log(c) <= w'.Log(c) {
      PlanLogAt(plan, w.epoch, w.compactor, c);
    }
  }

  /** A step other than an append, and the system chains. */
  lemma QuietFollows(w: World, w': World)
    requires SystemTrue(w) && LogsGrow(w, w') && TombsStay(w, w') && TableGrows(w.table, w'.table)
    requires SameChain(w.net, w'.net, EpochChain) && SameChain(w.net, w'.net, RegistryChain)
    ensures Onward(w, w')
  {
    hide MarksOf, NamesOf, LogsGrow, TombsStay, TableGrows;
    SameExtends(w.net, w'.net, EpochChain);
    SameExtends(w.net, w'.net, RegistryChain);
  }

  lemma RegisterFollows(w: World, w': World, u: Writer)
    requires SystemTrue(w) && Register(w, w', u)
    ensures Onward(w, w')
  {
    hide MarksOf, NamesOf;
    SameLogs(w, w');
    OneMore(w.net, RegistryChain, Name(u));
    SameExtends(w.net, w'.net, EpochChain);
  }

  lemma MarkFollows(w: World, w': World, mark: Item)
    requires SystemTrue(w) && w'.net == w.net[Link(EpochChain, EndOf(w.net, EpochChain) + 1) := mark]
    requires w'.log == w.log && w'.table == w.table
    ensures Onward(w, w')
  {
    hide MarksOf, NamesOf;
    SameLogs(w, w');
    OneMore(w.net, EpochChain, mark);
    SameExtends(w.net, w'.net, RegistryChain);
  }

  lemma RewriteFollows(w: World, w': World, c: Chain, i: nat)
    requires MissingWhere(w) && Rewrite(w, w', c, i)
    ensures forall k: Key :: k.Link? && k.chain.Index? && k.chain.w == Tomb && k in w'.net ==> k in w.net
  {
  }

  lemma StepOnward(schema: Schema, w: World, w': World)
    requires ValidSchema(schema) && Inv(schema, w) && Step(schema, w, w')
    ensures Onward(w, w')
  {
    hide Inv, Onward, Insert, Bury, Erase, Register, Open, Walk, Layout, Rewrite, BeginDelete, Remove, Seal;
    InvSystem(schema, w);
    if u, ep, r, rec :| Insert(schema, w, w', u, ep, r, rec) {
      InsertOnward(schema, w, w', u, ep, r, rec);
    } else if u, ep, r :| Bury(w, w', u, ep, r) {
      BuryOnward(w, w', u, ep, r);
    } else if u :| Register(w, w', u) {
      RegisterFollows(w, w', u);
    } else if c, walkers :| Open(w, w', c, walkers) {
      OpenOnward(w, w', c, walkers);
    } else if Seal(w, w') {
      SealOnward(w, w');
    } else {
      OtherOnward(schema, w, w');
    }
  }

  lemma InvSystem(schema: Schema, w: World)
    requires Inv(schema, w)
    ensures SystemTrue(w)
  {
    hide SystemTrue;
  }

  lemma InsertOnward(schema: Schema, w: World, w': World, u: Writer, ep: nat, r: Rid, rec: Record)
    requires ValidSchema(schema) && Inv(schema, w) && Insert(schema, w, w', u, ep, r, rec)
    ensures Onward(w, w')
  {
    hide Built, Rendered, BlobsTrue, Owned, MissingWhere, Complete, DeadBuried, Carried, WalkedRight, SystemTrue,
         Onward,
         RecordChains, Labelled, NextSlots, Appended, LogTrue;
    InsertTables(schema, w, w', u, ep, r, rec);
    RecordChainsOf(schema, rec, ep, u);
    AppendFollows(w, w', RecordChains(schema, rec, ep, u), r);
  }

  lemma BuryOnward(w: World, w': World, u: Writer, ep: nat, r: Rid)
    requires SystemTrue(w) && Bury(w, w', u, ep, r)
    ensures Onward(w, w')
  {
    hide SystemTrue, Onward, NextSlots, Appended;
    AppendFollows(w, w', {Index(Tomb, ep, u)}, r);
  }

  lemma OpenOnward(w: World, w': World, c: Writer, walkers: set<Writer>)
    requires SystemTrue(w) && Open(w, w', c, walkers)
    ensures Onward(w, w')
  {
    hide SystemTrue, Onward, Dense;
    MarkFollows(w, w', Opened(w.epoch + 1));
  }

  lemma SealOnward(w: World, w': World)
    requires SystemTrue(w) && Seal(w, w')
    ensures Onward(w, w')
  {
    hide SystemTrue, Onward, Dense;
    MarkFollows(w, w', Sealed(w.epoch - 1));
  }

  lemma OtherOnward(schema: Schema, w: World, w': World)
    requires ValidSchema(schema) && Inv(schema, w)
    requires
      || (exists r :: Erase(w, w', r)) || (exists entries :: Walk(schema, w, w', entries))
      || (exists tombs, plan :: Layout(w, w', tombs, plan)) || (exists c, i :: Rewrite(w, w', c, i))
      || BeginDelete(w, w') || (exists c, i :: Remove(w, w', c, i))
    ensures Onward(w, w')
  {
    hide Built, Rendered, BlobsTrue, Complete, DeadBuried, Carried, WalkedRight, SystemTrue, Onward, LogsGrow,
         TombsStay, Owned, MissingWhere, LogTrue, Layout, Walk, Erase, Rewrite, Remove, BeginDelete;
    if tombs, plan :| Layout(w, w', tombs, plan) {
      LayoutFollows(w, w', tombs, plan);
      QuietFollows(w, w');
    } else if c, i :| Rewrite(w, w', c, i) {
      RewriteOnward(w, w', c, i);
    } else if c, i :| Remove(w, w', c, i) {
      RemoveOnward(w, w', c, i);
    } else if r :| Erase(w, w', r) {
      EraseOnward(w, w', r);
    } else {
      StillOnward(schema, w, w');
    }
  }

  lemma RewriteOnward(w: World, w': World, c: Chain, i: nat)
    requires SystemTrue(w) && MissingWhere(w) && Rewrite(w, w', c, i)
    ensures Onward(w, w')
  {
    hide SystemTrue, Onward, LogsGrow, TombsStay, MissingWhere;
    RewriteFollows(w, w', c, i);
    SameLogs(w, w');
    QuietFollows(w, w');
  }

  lemma RemoveOnward(w: World, w': World, c: Chain, i: nat)
    requires SystemTrue(w) && Remove(w, w', c, i)
    ensures Onward(w, w')
  {
    hide SystemTrue, Onward, LogsGrow, TombsStay;
    SameLogs(w, w');
    QuietFollows(w, w');
  }

  lemma EraseOnward(w: World, w': World, r: Rid)
    requires SystemTrue(w) && Erase(w, w', r)
    ensures Onward(w, w')
  {
    hide SystemTrue, Onward, LogsGrow, TombsStay;
    SameLogs(w, w');
    QuietFollows(w, w');
  }

  lemma StillOnward(schema: Schema, w: World, w': World)
    requires SystemTrue(w) && (BeginDelete(w, w') || exists entries :: Walk(schema, w, w', entries))
    ensures Onward(w, w')
  {
    hide SystemTrue, Onward, LogsGrow, TombsStay, Contents, Drain, ReachedLabel;
    SameLogs(w, w');
    QuietFollows(w, w');
  }

  lemma HeldGrows(w: World, w': World, e: int, r: Rid)
    requires LogsGrow(w, w')
    ensures HeldIn(w.log, e, r) ==> HeldIn(w'.log, e, r)
  {
    if l, u :| Holds(w.log, l, e, u, r) {
      assert r in w.Log(Index(l, e, u)) && w.Log(Index(l, e, u)) <= w'.Log(Index(l, e, u));
      assert Holds(w'.log, l, e, u, r);
    }
  }

  lemma LostGrows(w: World, w': World)
    requires LogsGrow(w, w') && TableGrows(w.table, w'.table) && Settled(w, w')
    ensures w.Lost() <= w'.Lost()
  {
    hide HeldIn, LogsGrow;
    forall r | r in w.Lost() ensures r in w'.Lost() {
      var e: nat :| e < w.Lowest() && LeftAt(w.log, w.drained, e, r);
      HeldGrows(w, w', e, r);
      assert LeftAt(w'.log, w'.drained, e, r);
    }
  }

  /** A step drains nothing in the epochs below those that are read whole. */
  ghost predicate Settled(w: World, w': World) {
    && w.Lowest() <= w'.Lowest()
    && forall e: nat, r :: e < w.Lowest() ==> (HeldIn(w'.drained, e, r) <==> HeldIn(w.drained, e, r))
  }

  lemma StepSettled(schema: Schema, w: World, w': World)
    requires ValidSchema(schema) && Inv(schema, w) && Step(schema, w, w')
    ensures Settled(w, w')
  {
    hide Inv, RecordChains, NextSlots, Appended, HeldIn, Walk, Layout, Rewrite, BeginDelete, Remove, Seal, Filled,
         Dense;
    if u, ep, r, rec :| Insert(schema, w, w', u, ep, r, rec) {
    } else if u, ep, r :| Bury(w, w', u, ep, r) {
    } else if r :| Erase(w, w', r) {
    } else if u :| Register(w, w', u) {
    } else if c, walkers :| Open(w, w', c, walkers) {
    } else {
      OwnSettled(schema, w, w');
    }
  }

  lemma OwnSettled(schema: Schema, w: World, w': World)
    requires ValidSchema(schema) && Inv(schema, w)
    requires
      || (exists entries :: Walk(schema, w, w', entries)) || (exists tombs, plan :: Layout(w, w', tombs, plan))
      || (exists c, i :: Rewrite(w, w', c, i)) || BeginDelete(w, w') || (exists c, i :: Remove(w, w', c, i))
           || Seal(w, w')
    ensures Settled(w, w')
  {
    hide Inv, Settled, Layout, Walk, Rewrite, Remove, BeginDelete, Seal;
    if tombs, plan :| Layout(w, w', tombs, plan) {
      LayoutSettled(w, w', tombs, plan);
    } else if entries :| Walk(schema, w, w', entries) {
      WalkSettled(schema, w, w', entries);
    } else if c, i :| Rewrite(w, w', c, i) {
      RewriteSettled(w, w', c, i);
    } else if c, i :| Remove(w, w', c, i) {
      RemoveSettled(w, w', c, i);
    } else {
      DeletionSettled(w, w');
    }
  }

  lemma LayoutSettled(w: World, w': World, tombs: set<Rid>, plan: map<ChainLabel, seq<Rid>>)
    requires Layout(w, w', tombs, plan)
    ensures Settled(w, w')
  {
    hide HeldIn, Layout, PlanLog, PlanSlots, Plan;
    LayoutParts(w, w', tombs, plan);
  }

  lemma RewriteSettled(w: World, w': World, c: Chain, i: nat)
    requires Rewrite(w, w', c, i)
    ensures Settled(w, w')
  {
    hide HeldIn;
  }

  lemma RemoveSettled(w: World, w': World, c: Chain, i: nat)
    requires Remove(w, w', c, i)
    ensures Settled(w, w')
  {
    hide HeldIn;
  }

  lemma DeletionSettled(w: World, w': World)
    requires BeginDelete(w, w') || Seal(w, w')
    ensures Settled(w, w')
  {
    hide HeldIn, Dense;
  }

  lemma WalkSettled(schema: Schema, w: World, w': World, entries: map<ChainLabel, set<Rid>>)
    requires Inv(schema, w) && Walk(schema, w, w', entries)
    ensures Settled(w, w')
  {
    hide Built, Rendered, BlobsTrue, Owned, MissingWhere, Complete, DeadBuried, DrainedTrue, Traced, Dropped,
         WalkedRight, SystemTrue, LogTrue, HeldIn, Contents, Drain, ReachedLabel;
    forall e: nat, r | e < w.Lowest() ensures HeldIn(w'.drained, e, r) <==> HeldIn(w.drained, e, r) {
      WalkHeld(w, w', e, r);
    }
  }

  lemma StepFollows(schema: Schema, w: World, w': World)
    requires ValidSchema(schema) && Inv(schema, w) && Step(schema, w, w')
    ensures Follows(w, w')
  {
    hide Inv, Step, Extends, TombsStay, LogsGrow, TableGrows, HeldIn;
    StepOnward(schema, w, w');
    StepSettled(schema, w, w');
    LostGrows(w, w');
  }

  lemma StandingGrows(w: World, w': World)
    requires TableGrows(w.table, w'.table) && w.Lost() <= w'.Lost()
    ensures TableGrows(w.Standing(), w'.Standing())
  {
  }

  // ------------------------------------------------------------ warm caches

  /** Caches an owner may have: true prefixes of the system chains, counters no higher than the chains ever were, and
      all tombstones that were counted, whatever has been deleted from the network since. */
  ghost predicate Warm(w: World, st: State, me: Writer) {
    Synced(w.net, st) && CountedWithin(st, me, LogLen(w)) && TombsSeen(w.net, st, w.Standing())
  }

  /** An owner that has only just been set up. */
  lemma FreshIsWarm(schema: Schema, w: World, me: Writer)
    requires Inv(schema, w)
    ensures Warm(w, State(0, 0, -1, 0, [], map[], map[], map[], {}), me)
  {
    hide Built, Rendered, BlobsTrue, Owned, MissingWhere, Complete, DeadBuried, Carried, WalkedRight, LogTrue;
  }

  lemma SyncedFollows(net: Net, net': Net, st: State)
    requires Synced(net, st) && Extends(net, net', EpochChain) && Extends(net, net', RegistryChain)
    ensures Synced(net', st)
  {
    SameMarks(net, net', st.epochLen);
    SameNames(net, net', st.regLen);
  }

  /** Warm caches stay warm from step to step. */
  lemma WarmFollows(schema: Schema, w: World, w': World, st: State, me: Writer)
    requires Inv(schema, w) && Inv(schema, w') && Follows(w, w') && Warm(w, st, me)
    ensures Warm(w', st, me)
  {
    hide Built, BlobsTrue, Owned, MissingWhere, Complete, DeadBuried, Carried, WalkedRight, LogTrue, SystemTrue, Synced,
         Extends;
    SyncedFollows(w.net, w'.net, st);
    StandingGrows(w, w');
    forall c, i: nat | c in st.tombCounts && 1 <= i <= st.tombCounts[c] && Link(c, i) in w'.net
        && w'.net[Link(c, i)].Entry?
      ensures w'.net[Link(c, i)].rid in st.tombRids
    {
      assert w.Log(c) <= w'.Log(c) && i <= |w.Log(c)|;
      assert w.net[Link(c, i)] == Entry(w.Log(c)[i - 1]);
    }
    forall c ensures LogLen(w)(c) <= LogLen(w')(c) {
    }
  }

  lemma {:induction false} WarmOverRun(schema: Schema, ws: seq<World>, j: nat, k: nat, st: State, me: Writer)
    requires ValidSchema(schema) && Run(schema, ws) && j <= k < |ws| && Warm(ws[j], st, me)
    ensures Warm(ws[k], st, me)
    decreases k
  {
    hide Inv, Warm, Step, Init;
    if j < k {
      WarmOverRun(schema, ws, j, k - 1, st, me);
      RunKeeps(schema, ws, k - 1);
      RunKeeps(schema, ws, k);
      StepFollows(schema, ws[k - 1], ws[k]);
      WarmFollows(schema, ws[k - 1], ws[k], st, me);
    }
  }

  /** At every moment of every run, through any number of compactions, an owner with warm caches can trust them. */
  lemma WarmIsTrusted(schema: Schema, w: World, st: State, me: Writer)
    requires ValidSchema(schema) && Inv(schema, w)
    ensures Warm(w, st, me) <==> Trusted(schema, w.net, w.Standing(), st, me, LogLen(w))
  {
    hide Synced, CountedWithin, TombsSeen, Inv, Faithful, TrueEpochs, TrueReaders, Dense;
    ReadersSeeTable(schema, w, me);
    if Synced(w.net, st) {
      SystemCurrent(w.net, st, me, LogLen(w));
    }
  }

  // ------------------------------------------------------------ a session

  /** A deleted record that is still shown has a tombstone any reader is sure to find. */
  ghost predicate Hidden(schema: Schema, w: World, me: Writer) {
    && Dense(w.net, EpochChain) && Dense(w.net, RegistryChain)
    && DeadHidden(schema, w.net, w.table, NetView(w.net, me, LogLen(w)), {})
  }

  /** What an owner is told at a moment of a run: all that is live, was not left behind and satisfies the query;
      beside that at most deleted records that are still shown, and of those only ones whose tombstones have lapsed,
      unless the deletion of an epoch has got to its tombstones; and records left behind at most while their epoch is
      being deleted. Where nothing live has been left behind and all tombstones of records still shown are sure to be
      found, it is the answer. */
  ghost predicate Honest(schema: Schema, w: World, me: Writer, preds: seq<Predicate>, rows: map<Rid, Record>) {
    && KnownFields(schema, preds) && Nearly(schema, w.Standing(), preds, rows)
    && (forall r :: r in rows && r in w.table.deleted ==> Shown(schema, w.net, w.table, w.Epochs(), w.writers, r))
    && ((w.phase.Deleting? ==> TombsThere(w, w.epoch - 1)) ==> forall r :: r in rows && r in w.table.deleted ==>
        Lapsed(w, r))
    && (forall r :: r in rows && r in w.Lost() ==> w.phase.Deleting?)
    && (Hidden(schema, w, me) && NoneLost(schema, w) ==> Answer(schema, w.table, preds, rows))
  }

  /** A tombstone any reader is sure to find now. */
  ghost predicate PlainlyDead(w: World, me: Writer, r: Rid) {
    && Dense(w.net, EpochChain) && Dense(w.net, RegistryChain)
    && Listed(w.net, NetView(w.net, me, LogLen(w)), Tomb, r)
  }

  /** One query of a session: when in the run it is asked, for what, and which keys' replicas are silent then. */
  datatype Asked = Asked(at: nat, preds: seq<Predicate>, silent: set<Key>)

  ghost predicate Askable(ws: seq<World>, a: Asked) {
    && a.at < |ws| && LinksSpeak(ws[a.at].net, a.silent)
    && forall i, j :: 0 <= i < j < |a.preds| ==> a.preds[i].field != a.preds[j].field
  }

  lemma ToldIsHonest(schema: Schema, w: World, me: Writer, preds: seq<Predicate>, before: State, after: State,
                     rows: map<Rid, Record>)
    requires ValidSchema(schema) && Inv(schema, w) && KnownFields(schema, preds)
    requires Dense(w.net, EpochChain) && Dense(w.net, RegistryChain)
    requires Told(schema, w.net, w.Standing(), preds, NetView(w.net, me, LogLen(w)), before, after, rows)
    ensures Honest(schema, w, me, preds, rows)
    ensures forall r :: r in rows ==> r !in after.tombRids
    ensures forall r :: PlainlyDead(w, me, r) ==> r in after.tombRids
  {
    hide Built, Rendered, BlobsTrue, Owned, MissingWhere, Complete, DeadBuried, Carried, WalkedRight, SystemTrue,
         LogTrue, Nearly, Answer, Listed, Dense, Names, TrueEpochs, TrueReaders, Lapsed, TombsThere;
    ReadersSeeTable(schema, w, me);
    var v := NetView(w.net, me, LogLen(w));
    if w.writers == {} {
      NobodyShown(schema, w, v.eps, v.ws);
    }
    forall r | r in rows && r in w.Standing().deleted
      ensures Shown(schema, w.net, w.Standing(), w.Epochs(), w.writers, r)
      ensures r in w.table.deleted ==> Shown(schema, w.net, w.table, w.Epochs(), w.writers, r)
      ensures r in w.Lost() ==> w.phase.Deleting?
    {
      StandingShown(schema, w, v.eps, v.ws, r);
      if r in w.Lost() {
        LostShown(schema, w, r);
      }
    }
    if Hidden(schema, w, me) && NoneLost(schema, w) {
      HiddenStands(schema, w, v, before.tombRids);
      StandingAnswer(schema, w, preds, rows);
    }
    if w.phase.Deleting? ==> TombsThere(w, w.epoch - 1) {
      forall r | r in rows && r in w.table.deleted ensures Lapsed(w, r) {
        ShownOnWalk(schema, w, r);
      }
    }
  }

  lemma StandingShown(schema: Schema, w: World, eps: set<nat>, ws: set<Writer>, r: Rid)
    requires Shown(schema, w.net, w.Standing(), eps, ws, r)
    ensures r in w.table.deleted ==> Shown(schema, w.net, w.table, eps, ws, r)
    ensures r !in w.table.deleted ==> exists l :: LiveFindable(schema, w.table, l, r)
  {
    hide Findable;
    var c: Chain, i: nat :| Names(w.net, eps, ws, c, i, r) && Findable(schema, w.table.inserted[r], c.w);
    if r !in w.table.deleted {
      assert LiveFindable(schema, w.table, c.w, r);
    }
  }

  /** A record left behind is come upon only while its epoch is being deleted. */
  lemma LostShown(schema: Schema, w: World, r: Rid)
    requires Inv(schema, w) && r in w.Lost() && Shown(schema, w.net, w.Standing(), w.Epochs(), w.writers, r)
    ensures w.phase.Deleting?
  {
    hide Built, SystemTrue, BlobsTrue, LogTrue, Owned, Complete, DeadBuried, Carried, WalkedRight, MissingWhere, Dense;
    var c: Chain, i: nat :| Names(w.net, w.Epochs(), w.writers, c, i, r) && Findable(schema, w.table.inserted[r], c.w);
    assert w.log[c][i - 1] in w.log[c];
    assert c == Index(c.w, c.epoch, c.writer) && Holds(w.log, c.w, c.epoch, c.writer, r);
    if !w.phase.Deleting? {
      LostIsNowhere(schema, w, r, c.epoch);
    }
  }

  lemma HiddenStands(schema: Schema, w: World, v: View, seen: set<Rid>)
    requires DeadHidden(schema, w.net, w.table, v, {}) && NoneLost(schema, w)
    ensures DeadHidden(schema, w.net, w.Standing(), v, seen)
  {
    hide Shown, Listed, LiveFindable;
    forall r | Shown(schema, w.net, w.Standing(), v.eps, v.ws, r) ensures Listed(w.net, v, Tomb, r) {
      StandingShown(schema, w, v.eps, v.ws, r);
      assert r in w.Standing().deleted by { ShownIsGone(schema, w.net, w.Standing(), v.eps, v.ws, r); }
    }
  }

  lemma ShownIsGone(schema: Schema, net: Net, table: Table, eps: set<nat>, ws: set<Writer>, r: Rid)
    requires Shown(schema, net, table, eps, ws, r)
    ensures r in table.deleted
  {
  }

  /** Where nothing live was left behind, what stands is the table. */
  lemma StandingAnswer(schema: Schema, w: World, preds: seq<Predicate>, rows: map<Rid, Record>)
    requires ValidSchema(schema) && KnownFields(schema, preds) && NoneLost(schema, w)
    ensures Answer(schema, w.Standing(), preds, rows) <==> Answer(schema, w.table, preds, rows)
  {
    hide Satisfies, Findable;
    forall r | w.table.Live(r) && SatisfiesAll(schema, w.table.inserted[r], preds) ensures w.Standing().Live(r) {
      assert preds[0] in preds;
      var d := SatisfierLabelled(schema, w.table.inserted[r], preds[0]);
      assert LiveFindable(schema, w.table, Of(preds[0].field, d), r);
    }
  }

  lemma ShownOnWalk(schema: Schema, w: World, r: Rid)
    requires Inv(schema, w) && Shown(schema, w.net, w.table, w.Epochs(), w.writers, r) && (w.phase.Deleting? ==>
               TombsThere(w, w.epoch - 1))
    ensures Lapsed(w, r) || Listed(w.net, ReaderView(w, w.Epochs(), w.writers), Tomb, r)
  {
    hide Inv, Shown, Listed, Lapsed, TombsThere;
    if !Lapsed(w, r) {
      DeadOnWalk(schema, w, r);
    }
  }

  lemma NobodyShown(schema: Schema, w: World, eps: set<nat>, ws: set<Writer>)
    requires Inv(schema, w) && w.writers == {}
    ensures forall r :: !Shown(schema, w.net, w.table, eps, ws, r) && !Shown(schema, w.net, w.Standing(), eps, ws, r)
  {
    hide Inv, Findable;
    NobodyWrote(schema, w);
  }

  /** Every answer so far is honest, questions everybody heard were answered, and nothing came back whose tombstone an
      earlier answered question could not miss. */
  ghost predicate HonestSoFar(schema: Schema, ws: seq<World>, me: Writer, asked: seq<Asked>,
                              told: seq<Result<map<Rid, Record>, QueryError>>)
    requires |told| <= |asked| && forall j :: 0 <= j < |asked| ==> asked[j].at < |ws|
  {
    && (forall j :: 0 <= j < |told| ==> told[j] != Failure(Unstable))
    && (forall j :: 0 <= j < |told| && asked[j].silent == {} && KnownFields(schema, asked[j].preds) ==>
        told[j].Success?)
    && (forall j :: 0 <= j < |told| && told[j].Success? ==>
        Honest(schema, ws[asked[j].at], me, asked[j].preds, told[j].value))
    && (forall i, j, r :: 0 <= i < j < |told| && told[i].Success? && told[j].Success? ==>
          PlainlyDead(ws[asked[i].at], me, r) ==> r !in told[j].value)
  }

  /** Every tombstone an answered question could not miss has been taken in. */
  ghost predicate TakenIn(ws: seq<World>, me: Writer, asked: seq<Asked>,
                          told: seq<Result<map<Rid, Record>, QueryError>>, seen: set<Rid>)
    requires |told| <= |asked| && forall j :: 0 <= j < |asked| ==> asked[j].at < |ws|
  {
    forall i, r :: 0 <= i < |told| && told[i].Success? && PlainlyDead(ws[asked[i].at], me, r) ==> r in seen
  }

  lemma OneMoreTold(schema: Schema, ws: seq<World>, me: Writer, asked: seq<Asked>,
                    told: seq<Result<map<Rid, Record>, QueryError>>,
                    r: Result<map<Rid, Record>, QueryError>, seen: set<Rid>, seen': set<Rid>)
    requires |told| < |asked| && forall j :: 0 <= j < |asked| ==> asked[j].at < |ws|
    requires HonestSoFar(schema, ws, me, asked, told) && TakenIn(ws, me, asked, told, seen) && seen <= seen'
    requires var a, w := asked[|told|], ws[asked[|told|].at];
             && r != Failure(Unstable) && (a.silent == {} && KnownFields(schema, a.preds) ==> r.Success?)
             && (r.Success? ==> Honest(schema, w, me, a.preds, r.value)
                                && (forall x :: x in r.value ==> x !in seen') && forall x :: PlainlyDead(w, me, x) ==>
                                     x in seen')
    ensures HonestSoFar(schema, ws, me, asked, told + [r]) && TakenIn(ws, me, asked, told + [r], seen')
  {
    hide Honest, PlainlyDead;
  }

  /** One question. */
  method Ask(o: Owner, net: Net, a: Asked, ghost ws: seq<World>, ghost now: nat)
    returns (r: Result<map<Rid, Record>, QueryError>)
    requires ValidSchema(o.schema) && Run(o.schema, ws)
    requires now <= a.at < |ws| && net == ws[a.at].net && Askable(ws, a) && Warm(ws[now], o.st, o.me)
    modifies o`st
    ensures Warm(ws[a.at], o.st, o.me) && old(o.st).tombRids <= o.st.tombRids
    ensures r != Failure(Unstable) && (a.silent == {} && KnownFields(o.schema, a.preds) ==> r.Success?)
    ensures r.Success? ==> && Honest(o.schema, ws[a.at], o.me, a.preds, r.value)
                           && (forall x :: x in r.value ==> x !in o.st.tombRids)
                           && forall x :: PlainlyDead(ws[a.at], o.me, x) ==> x in o.st.tombRids
  {
    hide Warm, Inv, Trusted, Told, Honest, PlainlyDead, LinksSpeak, Step, Init, CountersExact, KeptAnswer;
    ghost var w := ws[a.at];
    WarmOverRun(o.schema, ws, now, a.at, o.st, o.me);
    RunKeeps(o.schema, ws, a.at);
    WarmIsTrusted(o.schema, w, o.st, o.me);
    ghost var before := o.st;
    r := o.QueryMulti(net, a.preds, a.silent, w.Standing(), LogLen(w));
    WarmIsTrusted(o.schema, w, o.st, o.me);
    if r.Success? {
      ReadersSeeTable(o.schema, w, o.me);
      ToldIsHonest(o.schema, w, o.me, a.preds, before, o.st, r.value);
    }
  }

  /** An owner that starts with nothing and asks at any moments of any run, while others insert, delete and compact:
      every answer that comes back is honest, whatever deletions went on between the questions; and once a tombstone
      could not be missed by an answered question, the record never comes back. */
  method Session(schema: Schema, me: Writer, ghost ws: seq<World>, nets: seq<Net>, asked: seq<Asked>)
    returns (told: seq<Result<map<Rid, Record>, QueryError>>)
    requires ValidSchema(schema) && Run(schema, ws)
    requires |nets| == |ws| && forall k :: 0 <= k < |ws| ==> nets[k] == ws[k].net
    requires forall j :: 0 <= j < |asked| ==> asked[j].at < |ws| && Askable(ws, asked[j])
    requires forall i, j :: 0 <= i < j < |asked| ==> asked[i].at <= asked[j].at
    ensures |told| == |asked| && HonestSoFar(schema, ws, me, asked, told)
  {
    hide Warm, Inv, Honest, PlainlyDead, Askable, Step, Init;
    told := [];
    var o := new Owner(schema, me);
    ghost var now: nat := 0;
    RunKeeps(schema, ws, 0);
    FreshIsWarm(schema, ws[0], me);
    for n := 0 to |asked|
      invariant |told| == n && o.schema == schema && o.me == me && fresh(o)
      invariant now < |ws| && Warm(ws[now], o.st, me) && forall j :: n <= j < |asked| ==> now <= asked[j].at
      invariant HonestSoFar(schema, ws, me, asked, told) && TakenIn(ws, me, asked, told, o.st.tombRids)
    {
      ghost var seen := o.st.tombRids;
      var r := Ask(o, nets[asked[n].at], asked[n], ws, now);
      OneMoreTold(schema, ws, me, asked, told, r, seen, o.st.tombRids);
      now := asked[n].at;
      told := told + [r];
    }
  }

  // ------------------------------------------------------------ when answers are exact

  /** A pass of an owner with warm caches, with every growth heard of and every ciphertext answered. */
  ghost predicate FullPass(schema: Schema, w: World, st: State, me: Writer, preds: seq<Predicate>, got: Net,
                           ends: map<Chain, nat>, blobs: Net)
    requires ValidSchema(schema)
  {
    && Warm(w, st, me) && KnownFields(schema, preds) && SystemStill(w.net, st)
    && PassRead(schema, w.net, preds, st, me, got, ends)
    && BlobsRead(schema, w.net, preds, st, me, got, ends, blobs, {})
  }

  /** Whoever asks, whatever they ask: the answer. */
  ghost predicate AlwaysExact(schema: Schema, w: World, me: Writer)
    requires ValidSchema(schema)
  {
    forall st, preds, got, ends, blobs :: FullPass(schema, w, st, me, preds, got, ends, blobs) ==>
      Answer(schema, w.table, preds, RowsOf(schema, preds, PassCandidates(schema, preds, st, me, got, ends), blobs))
  }

  /** How far a chain can be followed without a gap. */
  ghost function FirstGap(net: Net, c: Chain, from: nat, bound: nat): (n: nat)
    requires from <= bound && Unbroken(net, c, 0, from)
    requires forall i: nat :: Link(c, i) in net ==> i <= bound
    ensures n <= bound && Unbroken(net, c, 0, n) && Link(c, n + 1) !in net
    decreases bound - from
  {
    if Link(c, from + 1) in net then FirstGap(net, c, from + 1, bound) else from
  }

  ghost function InSomeOrder(s: set<Writer>): (q: seq<Writer>)
    ensures forall u :: u in q <==> u in s
  {
    if s == {} then []
    else
      var u :| u in s;
      [u] + InSomeOrder(s - {u})
  }

  /** An owner that has counted every label chain to its end and no tombstone chain. */
  ghost function Forgetful(w: World, me: Writer): State
    requires Dense(w.net, EpochChain) && Dense(w.net, RegistryChain)
  {
    State(w.epoch, EndOf(w.net, EpochChain), w.SealedMax(), EndOf(w.net, RegistryChain), InSomeOrder(w.writers),
          map l | l in (set c | c in w.log && c.Index? :: c.w) :: |w.Log(Index(l, w.epoch, me))|,
          map c | c in w.log :: |w.log[c]|, map[], {})
  }

  lemma ForgetfulIsWarm(schema: Schema, w: World, me: Writer)
    requires Inv(schema, w)
    ensures Warm(w, Forgetful(w, me), me) && SystemStill(w.net, Forgetful(w, me))
    ensures w.writers != {} ==> Forgetful(w, me).Epochs() == w.Epochs() && Forgetful(w, me).Readers(me) == w.writers
  {
    hide Built, Rendered, BlobsTrue, Owned, MissingWhere, Complete, DeadBuried, Carried, WalkedRight, LogTrue, MarksOf,
         NamesOf;
    assert (set u | u in InSomeOrder(w.writers)) == w.writers;
    EndIsLast(w.net, EpochChain);
    EndIsLast(w.net, RegistryChain);
  }

  lemma ForgetfulCounts(w: World, me: Writer, c: Chain)
    requires Dense(w.net, EpochChain) && Dense(w.net, RegistryChain) && c.Index?
    ensures Forgetful(w, me).Count(me, c) == if c.w == Tomb then 0 else |w.Log(c)|
  {
    if c in w.log {
      assert c.w in (set c | c in w.log && c.Index? :: c.w);
    }
  }

  /** Where that owner's walk may stop: label chains at their ends, tombstone chains at their first gaps. */
  ghost function ForgetfulEnd(w: World, me: Writer, c: Chain): nat
    requires Capped(w.net, LogLen(w)) && Dense(w.net, EpochChain) && Dense(w.net, RegistryChain)
  {
    match c
    case Index(l, _, _) => if l == Tomb then FirstGap(w.net, c, 0, |w.Log(c)|) else |w.Log(c)|
    case _ => Forgetful(w, me).Count(me, c)
  }

  ghost function ForgetfulEnds(schema: Schema, w: World, me: Writer, preds: seq<Predicate>): map<Chain, nat>
    requires ValidSchema(schema) && KnownFields(schema, preds)
    requires Capped(w.net, LogLen(w)) && Dense(w.net, EpochChain) && Dense(w.net, RegistryChain)
  {
    map c | c in Touched(schema, preds, Forgetful(w, me), me) :: ForgetfulEnd(w, me, c)
  }

  lemma ForgetfulStop(w: World, me: Writer, c: Chain)
    requires Capped(w.net, LogLen(w)) && Dense(w.net, EpochChain) && Dense(w.net, RegistryChain) && c.Index?
    ensures var n := Forgetful(w, me).Count(me, c);
            if Link(c, n + 1) in w.net then StopsAt(w.net, c, n + 1, ForgetfulEnd(w, me, c))
            else ForgetfulEnd(w, me, c) == n
  {
    hide Forgetful, Dense;
    ForgetfulCounts(w, me, c);
    var n := ForgetfulEnd(w, me, c);
    assert n >= 1 && c.w == Tomb ==> Link(c, n) in w.net;
  }

  lemma ForgetfulPass(schema: Schema, w: World, me: Writer, preds: seq<Predicate>)
    requires ValidSchema(schema) && KnownFields(schema, preds)
    requires Capped(w.net, LogLen(w)) && Dense(w.net, EpochChain) && Dense(w.net, RegistryChain)
    ensures PassRead(schema, w.net, preds, Forgetful(w, me), me, w.net, ForgetfulEnds(schema, w, me, preds))
  {
    hide AllLabelChains, TombChains, Forgetful, Dense, StopsAt, ForgetfulEnd, Capped;
    var st := Forgetful(w, me);
    AreIndexChains(schema, preds, st.Epochs(), st.Readers(me));
    forall c | c in Touched(schema, preds, st, me) && c.Index?
      ensures if Link(c, st.Count(me, c) + 1) in w.net
              then StopsAt(w.net, c, st.Count(me, c) + 1, ForgetfulEnd(w, me, c))
              else ForgetfulEnd(w, me, c) == st.Count(me, c)
    {
      ForgetfulStop(w, me, c);
    }
  }

  /** Nothing but tombstones any reader is sure to find turns up on that walk. */
  lemma ForgetfulTombs(w: World, me: Writer, eps: set<nat>, ws: set<Writer>, ends: map<Chain, nat>, r: Rid)
    requires Capped(w.net, LogLen(w)) && Dense(w.net, EpochChain) && Dense(w.net, RegistryChain)
    requires r in Rids(w.net, TombChains(eps, ws), ends)
    requires forall c :: c in ends ==> ends[c] == ForgetfulEnd(w, me, c)
    ensures Listed(w.net, View(eps, ws, Uncounted(), LogLen(w)), Tomb, r)
  {
    hide Dense;
    var chains := TombChains(eps, ws);
    var k :| k in w.net && k.Link? && k.chain in chains && k.chain in ends && 1 <= k.i <= ends[k.chain]
        && w.net[k].Entry? && w.net[k].rid == r;
    assert k == Link(k.chain, k.i) && Names(w.net, eps, ws, k.chain, k.i, r) && Unbroken(w.net, k.chain, 0, k.i);
  }

  /** The query for exactly one interval of a field's tree. */
  function AskFor(schema: Schema, l: ChainLabel): Predicate
    requires l.Of? && l.field in schema
  {
    Between(l.field, Dyadic.Lo(schema[l.field].bits, l.node), Dyadic.Hi(schema[l.field].bits, l.node))
  }

  lemma AskedIsCovered(schema: Schema, rec: Record, c: Chain, eps: set<nat>, ws: set<Writer>)
    requires ValidSchema(schema) && OnWalk(c, eps, ws) && Findable(schema, rec, c.w)
    ensures c in LabelChains(schema, AskFor(schema, c.w), eps, ws)
    ensures PassesFilter(schema, rec, [AskFor(schema, c.w)])
  {
    var f, d := c.w.field, c.w.node;
    var s := schema[f];
    Dyadic.LevelsForContains(rec[f], s.bits, s.mlvl, d);
    Dyadic.CoverOfNode(s.bits, s.mlvl, Dyadic.Label(0, 0), d, rec[f]);
    assert c == Index(Of(f, d), c.epoch, c.writer);
  }

  /** A record that is still shown under a label is found by that owner asking for the label. */
  lemma ForgetfulFinds(schema: Schema, w: World, me: Writer, c: Chain, i: nat, r: Rid, eps: set<nat>, ws: set<Writer>,
                       ends: map<Chain, nat>, rec: Record)
    requires ValidSchema(schema) && Capped(w.net, LogLen(w)) && Dense(w.net, EpochChain) && Dense(w.net, RegistryChain)
    requires Names(w.net, eps, ws, c, i, r) && Findable(schema, rec, c.w)
    requires c in ends && ends[c] == ForgetfulEnd(w, me, c)
    ensures r in Rids(w.net, LabelChains(schema, AskFor(schema, c.w), eps, ws), ends)
  {
    hide Dense, LabelChains, Findable, Forgetful;
    AskedIsCovered(schema, rec, c, eps, ws);
    assert c.w.Of? by { FindableLabelled(schema, rec, c.w); }
    assert Link(c, i) in w.net && 1 <= i <= ends[c];
  }

  lemma ForgetfulCandidate(schema: Schema, w: World, me: Writer, c: Chain, i: nat, r: Rid, rec: Record,
                           preds: seq<Predicate>)
    requires ValidSchema(schema) && Capped(w.net, LogLen(w)) && Dense(w.net, EpochChain) && Dense(w.net, RegistryChain)
    requires Forgetful(w, me).Epochs() == w.Epochs() && Forgetful(w, me).Readers(me) == w.writers
    requires Names(w.net, w.Epochs(), w.writers, c, i, r) && Findable(schema, rec, c.w)
    requires !Listed(w.net, ReaderView(w, w.Epochs(), w.writers), Tomb, r)
    requires c.w.Of? && c.w.field in schema && preds == [AskFor(schema, c.w)]
    ensures r in PassCandidates(schema, preds, Forgetful(w, me), me, w.net, ForgetfulEnds(schema, w, me, preds))
  {
    hide Rids, Findable, LabelChains, TombChains, Forgetful, Dense, Listed, ForgetfulEnd, Capped;
    assert preds[0] == AskFor(schema, c.w) && forall p :: p in preds ==> p == preds[0];
    var st, ends := Forgetful(w, me), ForgetfulEnds(schema, w, me, preds);
    assert st.tombRids == {} by { ForgetfulHasNone(w, me); }
    AskedIsCovered(schema, rec, c, w.Epochs(), w.writers);
    assert c in AllLabelChains(schema, preds, w.Epochs(), w.writers);
    ForgetfulFinds(schema, w, me, c, i, r, w.Epochs(), w.writers, ends, rec);
    if r in Rids(w.net, TombChains(w.Epochs(), w.writers), ends) {
      ForgetfulTombs(w, me, w.Epochs(), w.writers, ends, r);
    }
  }

  lemma ForgetfulHasNone(w: World, me: Writer)
    requires Dense(w.net, EpochChain) && Dense(w.net, RegistryChain)
    ensures Forgetful(w, me).tombRids == {}
  {
  }

  /** So that owner gets a deleted record back that has no such tombstone. */
  lemma ForgetfulIsWrong(schema: Schema, w: World, me: Writer, r: Rid)
    requires ValidSchema(schema) && Inv(schema, w) && w.writers != {}
    requires Shown(schema, w.net, w.table, w.Epochs(), w.writers, r)
    requires !Listed(w.net, ReaderView(w, w.Epochs(), w.writers), Tomb, r)
    ensures !AlwaysExact(schema, w, me)
  {
    hide Inv, AlwaysExact, Findable, Listed;
    var c: Chain, i: nat :| Names(w.net, w.Epochs(), w.writers, c, i, r) && Findable(schema, w.table.inserted[r], c.w);
    FindableLabelled(schema, w.table.inserted[r], c.w);
    assert c.w.field in schema by { FieldKnown(schema, w.table.inserted[r], c.w); }
    ForgetfulGets(schema, w, me, c, i, r, [AskFor(schema, c.w)]);
  }

  lemma FieldKnown(schema: Schema, rec: Record, l: ChainLabel)
    requires Findable(schema, rec, l)
    ensures l.field in schema
  {
  }

  lemma ForgetfulGets(schema: Schema, w: World, me: Writer, c: Chain, i: nat, r: Rid, preds: seq<Predicate>)
    requires ValidSchema(schema) && Inv(schema, w) && w.writers != {}
    requires Shown(schema, w.net, w.table, w.Epochs(), w.writers, r)
    requires !Listed(w.net, ReaderView(w, w.Epochs(), w.writers), Tomb, r)
    requires Names(w.net, w.Epochs(), w.writers, c, i, r) && Findable(schema, w.table.inserted[r], c.w)
    requires c.w.Of? && c.w.field in schema && preds == [AskFor(schema, c.w)]
    ensures !AlwaysExact(schema, w, me)
  {
    hide Inv, Answer, Findable, PassesFilter, PassCandidates, Forgetful, ForgetfulEnd, Dense, Listed, PassRead, Warm,
         SystemStill, Faithful, Capped, RowsOf;
    ReadersSeeTable(schema, w, me);
    EntriesOnWalk(schema, w, w.Epochs());
    assert preds[0] == AskFor(schema, c.w) && forall p :: p in preds ==> p == preds[0];
    ForgetfulIsWarm(schema, w, me);
    ForgetfulCandidate(schema, w, me, c, i, r, w.table.inserted[r], preds);
    var st, ends := Forgetful(w, me), ForgetfulEnds(schema, w, me, preds);
    ForgetfulPass(schema, w, me, preds);
    AskedIsCovered(schema, w.table.inserted[r], c, w.Epochs(), w.writers);
    var cands := PassCandidates(schema, preds, st, me, w.net, ends);
    var blobs := BlobsFound(w.net, cands);
    BlobIs(schema, w, r);
    FoundIsRow(schema, w.net, preds, cands, r, w.table.inserted[r]);
    assert FullPass(schema, w, st, me, preds, w.net, ends, blobs);
    DeadIsNoAnswer(schema, w.table, preds, RowsOf(schema, preds, cands, blobs), r);
  }

  function BlobsFound(net: Net, cands: set<Rid>): Net {
    map k | k in (set x | x in cands :: Rec(x)) && k in net :: net[k]
  }

  lemma FoundIsRow(schema: Schema, net: Net, preds: seq<Predicate>, cands: set<Rid>, r: Rid, rec: Record)
    requires KnownFields(schema, preds) && r in cands && Rec(r) in net && net[Rec(r)] == Blob(rec)
             && PassesFilter(schema, rec, preds)
    ensures r in RowsOf(schema, preds, cands, BlobsFound(net, cands))
    ensures HonestRead(net, set x | x in cands :: Rec(x), BlobsFound(net, cands), {})
  {
    hide PassesFilter;
    assert Rec(r) in (set x | x in cands :: Rec(x));
  }

  lemma BlobIs(schema: Schema, w: World, r: Rid)
    requires Inv(schema, w) && Rec(r) in w.net
    ensures r in w.table.inserted && w.net[Rec(r)] == Blob(w.table.inserted[r])
  {
    hide Built, Rendered, Owned, MissingWhere, Complete, DeadBuried, Carried, WalkedRight, LogTrue, SystemTrue;
  }

  lemma DeadIsNoAnswer(schema: Schema, table: Table, preds: seq<Predicate>, rows: map<Rid, Record>, r: Rid)
    requires KnownFields(schema, preds) && r in rows && r in table.deleted
    ensures !Answer(schema, table, preds, rows)
  {
    assert !table.Live(r);
  }

  lemma HiddenIsExact(schema: Schema, w: World, st: State, me: Writer, preds: seq<Predicate>, got: Net,
                      ends: map<Chain, nat>, blobs: Net)
    requires ValidSchema(schema) && Inv(schema, w) && Hidden(schema, w, me) && NoneLost(schema, w)
    requires FullPass(schema, w, st, me, preds, got, ends, blobs)
    ensures Answer(schema, w.table, preds,
                   RowsOf(schema, preds, PassCandidates(schema, preds, st, me, got, ends), blobs))
  {
    hide Inv, Warm, Answer, Listed, Shown, BlobsRead, RowsOf, PassCandidates, Dense, SystemStill, Told, CountersExact,
         Reliable, TrueEpochs, TrueReaders, NoneLost;
    ReadersSeeTable(schema, w, me);
    WarmIsTrusted(schema, w, st, me);
    PassExact(schema, w.net, w.Standing(), st, me, NetView(w.net, me, LogLen(w)), preds, got, ends, blobs, {});
    ToldIsHonest(schema, w, me, preds, st, AfterPass(schema, preds, st, me, got, ends),
                 RowsOf(schema, preds, PassCandidates(schema, preds, st, me, got, ends), blobs));
  }

  /** What was left behind is in no slot that a walk reads. */
  lemma LostUnread(schema: Schema, w: World, p: Predicate, ws: set<Writer>, ends: map<Chain, nat>, r: Rid)
    requires ValidSchema(schema) && p.field in schema && Inv(schema, w) && r in w.Lost() && !w.phase.Deleting?
    ensures r !in Rids(w.net, LabelChains(schema, p, w.Epochs(), ws), ends)
  {
    hide Inv, World.Lost;
    var chains := LabelChains(schema, p, w.Epochs(), ws);
    if r in Rids(w.net, chains, ends) {
      var k :| k in w.net && k.Link? && k.chain in chains && w.net[k].Entry? && w.net[k].rid == r;
      assert k == Link(k.chain, k.i) && k.chain.Index? && k.chain.w.Of? && k.chain.epoch in w.Epochs();
      SlotIsHeld(schema, w, k.chain, k.i);
      LostIsNowhere(schema, w, r, k.chain.epoch);
    }
  }

  lemma UnreadIsNoCandidate(schema: Schema, preds: seq<Predicate>, st: State, me: Writer, got: Net,
                            ends: map<Chain, nat>, r: Rid)
    requires ValidSchema(schema) && KnownFields(schema, preds) && preds != []
             && Touched(schema, preds, st, me) <= ends.Keys
    requires preds[0].field in schema
             && r !in Rids(got, LabelChains(schema, preds[0], st.Epochs(), st.Readers(me)), ends)
    ensures r !in PassCandidates(schema, preds, st, me, got, ends)
  {
    hide LabelChains, Touched;
  }

  lemma SlotIsHeld(schema: Schema, w: World, c: Chain, i: nat)
    requires Inv(schema, w) && Link(c, i) in w.net && c.Index? && c.w.Of?
    ensures w.net[Link(c, i)].Entry? && HeldIn(w.log, c.epoch, w.net[Link(c, i)].rid)
  {
    hide Built, SystemTrue, BlobsTrue, LogTrue, Owned, Complete, DeadBuried, Carried, WalkedRight, MissingWhere, Dense;
    assert w.log[c][i - 1] in w.log[c];
    assert c == Index(c.w, c.epoch, c.writer) && Holds(w.log, c.w, c.epoch, c.writer, w.log[c][i - 1]);
  }

  /** So a query that asks for it goes without it. */
  lemma LostIsMissed(schema: Schema, w: World, me: Writer, l: ChainLabel, r: Rid)
    requires ValidSchema(schema) && Inv(schema, w) && !w.phase.Deleting? && LiveFindable(schema, w.table, l, r)
             && r in w.Lost()
    ensures !AlwaysExact(schema, w, me)
  {
    hide Inv, Answer, Findable, PassesFilter, PassCandidates, Forgetful, ForgetfulEnd, Dense, Listed, PassRead, Warm,
         SystemStill, Faithful, Capped, RowsOf, World.Lost;
    ReadersSeeTable(schema, w, me);
    EntriesOnWalk(schema, w, w.Epochs());
    assert w.writers != {} by {
      if w.writers == {} {
        NobodyWrote(schema, w);
      }
    }
    FieldKnown(schema, w.table.inserted[r], l);
    FindableLabelled(schema, w.table.inserted[r], l);
    var preds := [AskFor(schema, l)];
    assert preds[0] == AskFor(schema, l) && forall p :: p in preds ==> p == preds[0];
    ForgetfulIsWarm(schema, w, me);
    var st, ends := Forgetful(w, me), ForgetfulEnds(schema, w, me, preds);
    ForgetfulPass(schema, w, me, preds);
    LostUnread(schema, w, preds[0], w.writers, ends, r);
    UnreadIsNoCandidate(schema, preds, st, me, w.net, ends, r);
    var cands := PassCandidates(schema, preds, st, me, w.net, ends);
    var blobs := BlobsFound(w.net, cands);
    FoundIsHonest(w.net, cands);
    assert FullPass(schema, w, st, me, preds, w.net, ends, blobs);
    AskedForIsAnswer(schema, w.table, l, r);
    MissingIsNoAnswer(schema, w.table, preds, cands, blobs, r);
  }

  lemma FoundIsHonest(net: Net, cands: set<Rid>)
    ensures HonestRead(net, set x | x in cands :: Rec(x), BlobsFound(net, cands), {})
  {
  }

  lemma MissingIsNoAnswer(schema: Schema, table: Table, preds: seq<Predicate>, cands: set<Rid>, blobs: Net, r: Rid)
    requires KnownFields(schema, preds) && table.Live(r) && SatisfiesAll(schema, table.inserted[r], preds)
             && r !in cands
    ensures !Answer(schema, table, preds, RowsOf(schema, preds, cands, blobs))
  {
    hide SatisfiesAll, PassesFilter;
  }

  lemma AskedForIsAnswer(schema: Schema, table: Table, l: ChainLabel, r: Rid)
    requires ValidSchema(schema) && LiveFindable(schema, table, l, r) && l.Of? && l.field in schema
    ensures SatisfiesAll(schema, table.inserted[r], [AskFor(schema, l)])
  {
    assert [AskFor(schema, l)][0] == AskFor(schema, l);
    AskedIsCovered(schema, table.inserted[r], Index(l, 0, 0), {0}, {0});
  }

  /** Whatever a deletion under way has removed, as long as nothing live was left behind: queries by owners with warm
      caches are exact, whoever asks and whatever they ask, if and only if every deleted record that can still be come
      upon has a tombstone in front of which no slot is empty. */
  lemma ExactIffHidden(schema: Schema, w: World, me: Writer)
    requires ValidSchema(schema) && Inv(schema, w) && NoneLost(schema, w)
    ensures AlwaysExact(schema, w, me) <==> Hidden(schema, w, me)
  {
    hide Inv, Warm, Answer, Listed, Shown, BlobsRead, RowsOf, PassCandidates, Dense, SystemStill, TrueEpochs,
         TrueReaders, NoneLost;
    ReadersSeeTable(schema, w, me);
    if Hidden(schema, w, me) {
      forall st, preds, got, ends, blobs | FullPass(schema, w, st, me, preds, got, ends, blobs)
        ensures Answer(schema, w.table, preds,
                       RowsOf(schema, preds, PassCandidates(schema, preds, st, me, got, ends), blobs))
      {
        HiddenIsExact(schema, w, st, me, preds, got, ends, blobs);
      }
    } else {
      BareIsWrong(schema, w, me);
    }
  }

  lemma BareIsWrong(schema: Schema, w: World, me: Writer)
    requires ValidSchema(schema) && Inv(schema, w) && !Hidden(schema, w, me)
    ensures !AlwaysExact(schema, w, me)
  {
    hide Inv, AlwaysExact, Listed, Shown, Dense, TrueEpochs, TrueReaders;
    ReadersSeeTable(schema, w, me);
    if w.writers == {} {
      NobodyShown(schema, w, NetView(w.net, me, LogLen(w)).eps, NetView(w.net, me, LogLen(w)).ws);
    } else {
      var r :| Shown(schema, w.net, w.table, w.Epochs(), w.writers, r)
          && !Listed(w.net, ReaderView(w, w.Epochs(), w.writers), Tomb, r);
      ForgetfulIsWrong(schema, w, me, r);
    }
  }

  /** Outside the deletion of an epoch it takes both: nothing deleted shows without its tombstone, and nothing live
      was left behind. */
  lemma ExactIff(schema: Schema, w: World, me: Writer)
    requires ValidSchema(schema) && Inv(schema, w) && !w.phase.Deleting?
    ensures AlwaysExact(schema, w, me) <==> Hidden(schema, w, me) && NoneLost(schema, w)
  {
    hide Inv, AlwaysExact, Hidden, LiveFindable, World.Lost;
    if !Hidden(schema, w, me) {
      BareIsWrong(schema, w, me);
    } else if NoneLost(schema, w) {
      ExactIffHidden(schema, w, me);
    } else {
      var l, r :| LiveFindable(schema, w.table, l, r) && r in w.Lost();
      LostIsMissed(schema, w, me, l, r);
    }
  }

  /** Outside the deletion of an epoch, and during it as long as it has not reached the tombstones, every reader's
      answers are exact, but for records that were left behind and deleted ones whose tombstones have lapsed. */
  lemma ExactButForLapsed(schema: Schema, w: World, me: Writer)
    requires ValidSchema(schema) && Inv(schema, w) && NoneLapsed(schema, w) && NoneLost(schema, w)
    requires w.phase.Deleting? ==> TombsThere(w, w.epoch - 1)
    ensures Hidden(schema, w, me) && AlwaysExact(schema, w, me)
  {
    hide Inv, AlwaysExact, Shown, Listed, TombsThere, TrueEpochs, TrueReaders, NoneLost, Lapsed;
    ReadersSeeTable(schema, w, me);
    var v := NetView(w.net, me, LogLen(w));
    forall r | Shown(schema, w.net, w.table, v.eps, v.ws, r) ensures Listed(w.net, v, Tomb, r) {
      if w.writers == {} {
        NobodyShown(schema, w, v.eps, v.ws);
      } else {
        DeadOnWalk(schema, w, r);
      }
    }
    ExactIffHidden(schema, w, me);
  }

  /** From the complete rewrite on, while the old epoch is deleted and after it is sealed, the newest epoch alone
      suffices: it has all that is live and was not left behind, and the tombstones of all else it lists, lapsed ones
      aside. */
  lemma OldEpochDispensable(schema: Schema, w: World)
    requires Inv(schema, w) && (w.phase.Deleting? || w.phase.Idle?)
    ensures Faithful(schema, w.net, w.Standing(), ReaderView(w, {w.epoch}, w.writers))
    ensures forall r :: Shown(schema, w.net, w.table, {w.epoch}, w.writers, r) ==>
              LapsedBelow(w, w.epoch, r) || Listed(w.net, ReaderView(w, {w.epoch}, w.writers), Tomb, r)
  {
    hide Built, BlobsTrue, BlobsGenuine, BlobsServe, LogTrue, Owned, DeadBuried, Carried, WalkedRight, Rendered, Listed,
         In, Findable, Dense, MarksOf, NamesOf, EntriesTrue, Capped, Shown, LapsedBelow, Left;
    EntriesOnWalk(schema, w, {w.epoch});
    BlobsAreServed(schema, w);
    forall l, r | LiveFindable(schema, w.Standing(), l, r)
      ensures Listed(w.net, ReaderView(w, {w.epoch}, w.writers), l, r) {
      assert LiveFindable(schema, w.table, l, r) && !Left(w.log, w.drained, w.Lowest(), r);
      InIsListed(w, {w.epoch}, w.writers, l, w.epoch, r);
    }
    forall r | Shown(schema, w.net, w.table, {w.epoch}, w.writers, r) && !LapsedBelow(w, w.epoch, r)
      ensures Listed(w.net, ReaderView(w, {w.epoch}, w.writers), Tomb, r)
    {
      DeadOnTop(schema, w, r);
    }
  }
}
