/** Runs and reads on which the code does less than it promises. */
module Counterexamples {
  import opened Basics
  import opened Chains
  import opened Index
  import opened Query
  import opened Compaction
  import opened CompactionProof
  import opened Readers
  import Mirroring
  import Probes
  import Streaming
  import Dyadic

  // ------------------------------------------------------------ one field of one bit

  const BIT: Schema := map["f" := FieldSpec(1, 1, 0)]
  const ZERO: Record := map["f" := 0]
  const BIT_LABEL := Of("f", Dyadic.Label(1, 0))

  lemma ZeroLabels(l: ChainLabel)
    ensures ValidSchema(BIT)
    ensures Labelled(BIT, ZERO, l) <==> l == BIT_LABEL
    ensures Findable(BIT, ZERO, l) <==> l == BIT_LABEL
  {
    assert Dyadic.Width(1, 1) == Pow2(0) == 1 && Pow2(1) == 2 * Pow2(0);
    assert Dyadic.LevelsFor(0, 1, 1)[0] == Dyadic.Label(1, 0);
    if l.Of? {
      assert l == Of(l.field, l.node);
    }
  }

  lemma ZeroChains(ep: nat, u: Writer)
    ensures ValidSchema(BIT) && RecordChains(BIT, ZERO, ep, u) == {Index(BIT_LABEL, ep, u)}
  {
    hide Labelled, Findable;
    ZeroLabels(BIT_LABEL);
    RecordChainsOf(BIT, ZERO, ep, u);
    forall c | c in RecordChains(BIT, ZERO, ep, u) ensures c == Index(BIT_LABEL, ep, u) {
      assert c == Index(c.w, ep, u);
      ZeroLabels(c.w);
    }
  }

  // ------------------------------------------------------------ a run, step by step

  const BARE := World(map[], Table(map[], {}), map[], {}, 0, Idle, 0, {}, {}, map[], map[])

  /** A run that has come to a world which is, network aside, as given. */
  ghost predicate Reaches(ws: seq<World>, w: World, shape: World) {
    && ValidSchema(BIT) && Run(BIT, ws) && ws[|ws| - 1] == w && Inv(BIT, w) && w.(net := map[]) == shape
  }

  lemma Onwards(ws: seq<World>, w: World, w': World, shape: World) returns (ws': seq<World>)
    requires ValidSchema(BIT) && Run(BIT, ws) && ws[|ws| - 1] == w && Inv(BIT, w)
    requires Step(BIT, w, w') && w'.(net := map[]) == shape
    ensures Reaches(ws', w', shape)
  {
    hide Inv, Step, Init;
    ws' := ws + [w'];
    StepKeeps(BIT, w, w');
  }

  lemma Begin() returns (ws: seq<World>, w: World)
    ensures Reaches(ws, w, BARE)
  {
    hide Inv, Step;
    ZeroLabels(BIT_LABEL);
    w := BARE;
    ws := [w];
    InitInv(BIT, w);
  }

  lemma Registering(ws: seq<World>, w: World, shape: World, u: Writer) returns (ws': seq<World>, w': World, s: World)
    requires Reaches(ws, w, shape)
    ensures Reaches(ws', w', s) && s == shape.(writers := shape.writers + {u})
  {
    hide Run, Step;
    assert Dense(w.net, RegistryChain);
    w' := w.(net := w.net[Link(RegistryChain, EndOf(w.net, RegistryChain) + 1) := Name(u)], writers := w.writers + {u});
    assert Register(w, w', u);
    assert Step(BIT, w, w') by { StepsAre(w, w'); }
    s := w'.(net := map[]);
    ws' := Onwards(ws, w, w', s);
  }

  lemma StepsAre(w: World, w': World)
    requires ValidSchema(BIT)
    ensures forall u, ep, r, rec :: Insert(BIT, w, w', u, ep, r, rec) ==> Step(BIT, w, w')
    ensures forall u, ep, r :: Bury(w, w', u, ep, r) ==> Step(BIT, w, w')
    ensures forall u :: Register(w, w', u) ==> Step(BIT, w, w')
    ensures forall c, walkers :: Open(w, w', c, walkers) ==> Step(BIT, w, w')
    ensures forall entries :: Walk(BIT, w, w', entries) ==> Step(BIT, w, w')
    ensures forall tombs, plan :: Layout(w, w', tombs, plan) ==> Step(BIT, w, w')
    ensures forall c, i :: Rewrite(w, w', c, i) ==> Step(BIT, w, w')
    ensures forall c, i :: Remove(w, w', c, i) ==> Step(BIT, w, w')
    ensures BeginDelete(w, w') || Seal(w, w') ==> Step(BIT, w, w')
  {
    hide Insert, Bury, Register, Open, Walk, Layout, BeginDelete, Seal, Remove, Rewrite;
  }

  lemma Inserting(ws: seq<World>, w: World, shape: World, u: Writer, ep: nat, r: Rid)
    returns (ws': seq<World>, w': World, s: World)
    requires Reaches(ws, w, shape) && MayWrite(shape, u, ep) && r !in shape.table.inserted && r !in shape.table.deleted
    ensures Reaches(ws', w', s) && Rec(r) in w'.net
    ensures s == shape.(table := shape.table.(inserted := shape.table.inserted[r := ZERO]),
                        log := Appended(shape.log, {Index(BIT_LABEL, ep, u)}, r))
  {
    hide Run, Step, Inv;
    ZeroChains(ep, u);
    var chains := RecordChains(BIT, ZERO, ep, u);
    w' := w.(net := Filled(w.net, NextSlots(w.log, chains), r)[Rec(r) := Blob(ZERO)],
             table := w.table.(inserted := w.table.inserted[r := ZERO]),
             log := Appended(w.log, chains, r));
    assert Insert(BIT, w, w', u, ep, r, ZERO);
    assert Step(BIT, w, w') by { StepsAre(w, w'); }
    s := w'.(net := map[]);
    ws' := Onwards(ws, w, w', s);
  }

  lemma Burying(ws: seq<World>, w: World, shape: World, u: Writer, ep: nat, r: Rid)
    returns (ws': seq<World>, w': World, s: World)
    requires Reaches(ws, w, shape) && MayWrite(shape, u, ep)
    ensures Reaches(ws', w', s) && forall x :: Rec(x) in w.net ==> Rec(x) in w'.net
    ensures s == shape.(table := shape.table.(deleted := shape.table.deleted + {r}),
                        log := Appended(shape.log, {Index(Tomb, ep, u)}, r))
  {
    hide Run, Step, Inv;
    var chains := {Index(Tomb, ep, u)};
    w' := w.(net := Filled(w.net, NextSlots(w.log, chains), r),
             table := w.table.(deleted := w.table.deleted + {r}),
             log := Appended(w.log, chains, r));
    assert Bury(w, w', u, ep, r);
    assert Step(BIT, w, w') by { StepsAre(w, w'); }
    s := w'.(net := map[]);
    ws' := Onwards(ws, w, w', s);
  }

  lemma Opening(ws: seq<World>, w: World, shape: World, c: Writer, walkers: set<Writer>)
    returns (ws': seq<World>, w': World, s: World)
    requires Reaches(ws, w, shape) && shape.phase.Idle? && c in walkers && walkers <= shape.writers
    ensures Reaches(ws', w', s) && forall x :: Rec(x) in w.net ==> Rec(x) in w'.net
    ensures s == shape.(epoch := shape.epoch + 1, phase := Draining, compactor := c, walkers := walkers)
  {
    hide Run, Step;
    assert Dense(w.net, EpochChain);
    w' := w.(net := w.net[Link(EpochChain, EndOf(w.net, EpochChain) + 1) := Opened(w.epoch + 1)],
             epoch := w.epoch + 1, phase := Draining, compactor := c, walkers := walkers);
    assert Open(w, w', c, walkers);
    assert Step(BIT, w, w') by { StepsAre(w, w'); }
    s := w'.(net := map[]);
    ws' := Onwards(ws, w, w', s);
  }

  lemma Walking(ws: seq<World>, w: World, shape: World, entries: map<ChainLabel, set<Rid>>)
    returns (ws': seq<World>, w': World, s: World)
    requires Reaches(ws, w, shape) && shape.phase.Draining? && shape.epoch > 0
    requires forall l: ChainLabel :: l.Of? ==>
               (if l in entries then entries[l] else {}) == Contents(shape.log, l, shape.epoch - 1, shape.walkers)
    requires forall l :: l in entries ==> l.Of?
    ensures Reaches(ws', w', s) && w'.net == w.net
    ensures s == shape.(phase := Walked(entries),
                        drained := shape.drained + Drain(shape.log, shape.epoch - 1, shape.walkers))
  {
    hide Run, Step, Inv, Contents, Drain;
    w' := w.(phase := Walked(entries), drained := w.drained + Drain(w.log, w.epoch - 1, w.walkers));
    assert Walk(BIT, w, w', entries);
    assert Step(BIT, w, w') by { StepsAre(w, w'); }
    s := w'.(net := map[]);
    ws' := Onwards(ws, w, w', s);
  }

  lemma LayingOut(ws: seq<World>, w: World, shape: World, tombs: set<Rid>, plan: map<ChainLabel, seq<Rid>>)
    returns (ws': seq<World>, w': World, s: World)
    requires Reaches(ws, w, shape) && shape.phase.Walked? && shape.epoch > 0 && tombs <= shape.table.deleted
    requires Plan(shape.phase.entries, tombs, plan)
    ensures Reaches(ws', w', s) && w'.net == w.net
    ensures s == shape.(phase := Rewriting, log := shape.log + PlanLog(plan, shape.epoch, shape.compactor),
                        missing := shape.missing + PlanSlots(plan, shape.epoch, shape.compactor),
                            heard := shape.heard[shape.epoch - 1 := tombs])
  {
    hide Run, Step, Inv, Plan, PlanLog, PlanSlots, World.Lost;
    w' := w.(phase := Rewriting, log := w.log + PlanLog(plan, w.epoch, w.compactor),
             missing := w.missing + PlanSlots(plan, w.epoch, w.compactor), heard := w.heard[w.epoch - 1 := tombs]);
    assert Layout(w, w', tombs, plan);
    assert Step(BIT, w, w') by { StepsAre(w, w'); }
    s := w'.(net := map[]);
    ws' := Onwards(ws, w, w', s);
  }

  /** The rewrite has nothing to write when all that the walk has read has a tombstone that came back. */
  lemma LayingNothing(ws: seq<World>, w: World, shape: World, tombs: set<Rid>)
    returns (ws': seq<World>, w': World, s: World)
    requires Reaches(ws, w, shape) && shape.phase.Walked? && shape.epoch > 0 && tombs <= shape.table.deleted
    requires forall l :: l in shape.phase.entries ==> shape.phase.entries[l] <= tombs
    ensures Reaches(ws', w', s) && w'.net == w.net
    ensures s == shape.(phase := Rewriting, heard := shape.heard[shape.epoch - 1 := tombs])
  {
    hide Reaches;
    var plan: map<ChainLabel, seq<Rid>> := map[];
    assert PlanLog(plan, shape.epoch, shape.compactor) == map[] && PlanSlots(plan, shape.epoch, shape.compactor) == {};
    assert shape.log + map[] == shape.log && shape.missing + {} == shape.missing;
    ws', w', s := LayingOut(ws, w, shape, tombs, plan);
  }

  lemma Putting(ws: seq<World>, w: World, shape: World, c: Chain, i: nat) returns (ws': seq<World>, w': World, s: World)
    requires Reaches(ws, w, shape) && shape.phase.Rewriting? && Link(c, i) in shape.missing && c.Index?
             && c.epoch == shape.epoch
    requires c in shape.log && 1 <= i <= |shape.log[c]|
    ensures Reaches(ws', w', s) && s == shape.(missing := shape.missing - {Link(c, i)})
    ensures forall x :: Rec(x) in w.net ==> Rec(x) in w'.net
  {
    hide Run, Step, Inv;
    w' := w.(net := w.net[Link(c, i) := Entry(w.Log(c)[i - 1])], missing := w.missing - {Link(c, i)});
    assert Rewrite(w, w', c, i);
    assert Step(BIT, w, w') by { StepsAre(w, w'); }
    s := w'.(net := map[]);
    ws' := Onwards(ws, w, w', s);
  }

  lemma Clearing(ws: seq<World>, w: World, shape: World) returns (ws': seq<World>, w': World, s: World)
    requires Reaches(ws, w, shape) && shape.phase.Rewriting? && shape.epoch > 0 && shape.missing == {}
    ensures Reaches(ws', w', s) && s == shape.(phase := Deleting) && w'.net == w.net
  {
    hide Run, Step, Inv;
    w' := w.(phase := Deleting);
    assert BeginDelete(w, w');
    assert Step(BIT, w, w') by { StepsAre(w, w'); }
    s := w'.(net := map[]);
    ws' := Onwards(ws, w, w', s);
  }

  lemma Removing(ws: seq<World>, w: World, shape: World, c: Chain, i: nat)
    returns (ws': seq<World>, w': World, s: World)
    requires Reaches(ws, w, shape) && shape.phase.Deleting? && c.Index? && c.epoch + 1 == shape.epoch
             && 1 <= i <= |shape.Log(c)|
    ensures Reaches(ws', w', s) && s == shape.(missing := shape.missing + {Link(c, i)})
    ensures forall x :: Rec(x) in w.net ==> Rec(x) in w'.net
  {
    hide Run, Step, Inv;
    w' := w.(net := w.net - {Link(c, i)}, missing := w.missing + {Link(c, i)});
    assert w.Log(c) == shape.Log(c);
    assert Remove(w, w', c, i);
    assert Step(BIT, w, w') by { StepsAre(w, w'); }
    s := w'.(net := map[]);
    ws' := Onwards(ws, w, w', s);
  }

  lemma Sealing(ws: seq<World>, w: World, shape: World) returns (ws': seq<World>, w': World, s: World)
    requires Reaches(ws, w, shape) && shape.phase.Deleting? && shape.epoch > 0
    ensures Reaches(ws', w', s) && s == shape.(phase := Idle)
    ensures forall x :: Rec(x) in w.net ==> Rec(x) in w'.net
  {
    hide Run, Step;
    assert Dense(w.net, EpochChain);
    w' := w.(net := w.net[Link(EpochChain, EndOf(w.net, EpochChain) + 1) := Sealed(w.epoch - 1)], phase := Idle);
    assert Seal(w, w');
    assert Step(BIT, w, w') by { StepsAre(w, w'); }
    s := w'.(net := map[]);
    ws' := Onwards(ws, w, w', s);
  }

  lemma Reached(ws: seq<World>, w: World, shape: World)
    requires Reaches(ws, w, shape)
    ensures ValidSchema(BIT) && Run(BIT, ws) && ws != [] && ws[|ws| - 1] == w && Inv(BIT, w)
            && w.(net := map[]) == shape
  {
    hide Inv, Step;
  }

  lemma AppendedLone(log: map<Chain, seq<Rid>>, c: Chain, r: Rid)
    requires c !in log
    ensures Appended(log, {c}, r) == log[c := [r]]
  {
    var none: seq<Rid> := [];
    assert none + [r] == [r];
  }

  /** A record come upon whose tombstone is not sure to be found is returned to somebody. */
  lemma Uncovered(w: World, me: Writer, c: Chain)
    requires ValidSchema(BIT) && Inv(BIT, w) && Rec(0) in w.net && 0 in w.table.deleted && c.Index? && c.w == BIT_LABEL
    requires c in w.log && w.log[c] == [0] && Link(c, 1) !in w.missing && c.epoch in w.Epochs() && c.writer in w.writers
    requires forall ep, u :: ep in w.Epochs() && u in w.writers ==>
               Index(Tomb, ep, u) !in w.log || Link(Index(Tomb, ep, u), 1) in w.missing
    ensures !AlwaysExact(BIT, w, me)
  {
    hide Built, BlobsTrue, Owned, Complete, DeadBuried, Carried, WalkedRight, MissingWhere, AlwaysExact, MarksOf,
         NamesOf, Dense, Faithful, TrueEpochs, TrueReaders, SystemTrue, Findable, Labelled;
    ReadersSeeTable(BIT, w, me);
    assert 0 in w.log[c] && EntryTrue(BIT, w.table, BIT_LABEL, 0);
    OneBitIsFindable(w.table.inserted[0], BIT_LABEL);
    assert Names(w.net, w.Epochs(), w.writers, c, 1, 0);
    var v := NetView(w.net, me, LogLen(w));
    assert Shown(BIT, w.net, w.table, v.eps, v.ws, 0);
    NoTombListed(w);
    BareIsWrong(BIT, w, me);
  }

  lemma NoTombListed(w: World)
    requires Inv(BIT, w)
    requires forall ep, u :: ep in w.Epochs() && u in w.writers ==>
               Index(Tomb, ep, u) !in w.log || Link(Index(Tomb, ep, u), 1) in w.missing
    ensures !Listed(w.net, ReaderView(w, w.Epochs(), w.writers), Tomb, 0)
  {
    hide Built, BlobsTrue, Owned, Complete, DeadBuried, Carried, WalkedRight, MissingWhere, MarksOf, NamesOf, Dense,
         SystemTrue, LogTrue;
    forall c: Chain, i: nat | Names(w.net, w.Epochs(), w.writers, c, i, 0) && c.w == Tomb
      ensures !Unbroken(w.net, c, 0, i) {
      assert c == Index(Tomb, c.epoch, c.writer);
      assert Link(c, 1) !in w.net;
    }
  }

  lemma OneBitIsFindable(rec: Record, l: ChainLabel)
    requires l == BIT_LABEL && Labelled(BIT, rec, l)
    ensures Findable(BIT, rec, l)
  {
    assert Dyadic.Width(1, 1) == Pow2(0) == 1 && Pow2(1) == 2 * Pow2(0);
    Dyadic.LevelsForContains(rec["f"], 1, 1, l.node);
  }

  // ------------------------------------------------------------ tombstones that go first

  const FIRST := Index(BIT_LABEL, 0, 0)
  const GRAVE := Index(Tomb, 0, 0)

  /** Writer 0 inserts a record and deletes it; the removal of the ciphertext does not reach every replica. Then it
      opens the next epoch and drains the old one. */
  lemma DeletedAndDrained() returns (ws: seq<World>, w: World, s: World)
    ensures Reaches(ws, w, s) && Rec(0) in w.net
    ensures s == BARE.(table := Table(map[0 := ZERO], {0}), log := map[FIRST := [0], GRAVE := [0]], epoch := 1,
                       phase := Walked(map[BIT_LABEL := {0}]), writers := {0}, walkers := {0}, drained := s.drained)
  {
    hide Reaches, Contents, Appended, Drain;
    ws, w := Begin();
    ws, w, s := Registering(ws, w, BARE, 0);
    AppendedLone(map[], FIRST, 0);
    ws, w, s := Inserting(ws, w, s, 0, 0, 0);
    AppendedLone(map[FIRST := [0]], GRAVE, 0);
    ws, w, s := Burying(ws, w, s, 0, 0, 0);
    ws, w, s := Opening(ws, w, s, 0, {0});
    forall l: ChainLabel | l.Of? ensures Contents(s.log, l, 0, {0}) == if l in map[BIT_LABEL := {0}] then {0} else {} {
      LoneContents(s.log, l);
    }
    ws, w, s := Walking(ws, w, s, map[BIT_LABEL := {0}]);
  }

  lemma LoneContents(log: map<Chain, seq<Rid>>, l: ChainLabel)
    requires log == map[FIRST := [0], GRAVE := [0]] && l.Of?
    ensures Contents(log, l, 0, {0}) == if l == BIT_LABEL then {0} else {}
  {
    if l == BIT_LABEL {
      assert 0 in log[Index(l, 0, 0)];
    }
  }

  /** The tombstone is heard and the record dropped. The deletion of keys takes the tombstone first. */
  lemma TombstoneGoesFirst(me: Writer) returns (ws: seq<World>)
    ensures ValidSchema(BIT) && Run(BIT, ws) && ws[|ws| - 1].phase.Deleting? && !AlwaysExact(BIT, ws[|ws| - 1], me)
  {
    hide Reaches, Run, Inv, AlwaysExact;
    var w, s;
    ws, w, s := DeletedAndDrained();
    ws, w, s := LayingNothing(ws, w, s, {0});
    ws, w, s := Clearing(ws, w, s);
    ws, w, s := Removing(ws, w, s, GRAVE, 1);
    Reached(ws, w, s);
    Uncovered(w, me, FIRST);
  }

  /** The tombstone does not come back when tombstones are read for the rewrite, so that carries the record over; the
      old epoch is sealed, and the tombstone with it. */
  lemma TombstoneUnheard(me: Writer) returns (ws: seq<World>)
    ensures ValidSchema(BIT) && Run(BIT, ws) && ws[|ws| - 1].phase.Idle? && !AlwaysExact(BIT, ws[|ws| - 1], me)
  {
    hide Reaches, Run, Inv, AlwaysExact, PlanLog, PlanSlots;
    var w, s;
    ws, w, s := DeletedAndDrained();
    var c := Index(BIT_LABEL, 1, 0);
    PlanOne(s.log);
    ws, w, s := LayingOut(ws, w, s, {}, map[BIT_LABEL := [0]]);
    ws, w, s := Putting(ws, w, s, c, 1);
    assert s.missing == {};
    ws, w, s := Clearing(ws, w, s);
    ws, w, s := Sealing(ws, w, s);
    Reached(ws, w, s);
    Uncovered(w, me, c);
  }

  lemma PlanOne(log: map<Chain, seq<Rid>>)
    ensures var plan := map[BIT_LABEL := [0]];
            && Plan(map[BIT_LABEL := {0}], {}, plan) && PlanSlots(plan, 1, 0) == {Link(Index(BIT_LABEL, 1, 0), 1)}
            && log + PlanLog(plan, 1, 0) == log[Index(BIT_LABEL, 1, 0) := [0]]
  {
    var plan: map<ChainLabel, seq<Rid>> := map[BIT_LABEL := [0]];
    var c := Index(BIT_LABEL, 1, 0);
    assert PlanLog(plan, 1, 0) == map[c := [0]];
    assert Link(c, 1) in PlanSlots(plan, 1, 0);
    assert (set r | r in Laid(plan, BIT_LABEL)) == {0} by {
      assert Laid(plan, BIT_LABEL) == [0];
    }
  }

  /** Writer 1 inserts a record in the newer epoch while the older one is still being drained; writer 2, whose caches
      are older, deletes it in the older one. The rewrite has nothing of the record to drop, the older epoch is
      sealed, and its tombstone with it; the removal of the ciphertext did not reach every replica. */
  lemma StragglerBuries(me: Writer) returns (ws: seq<World>)
    ensures ValidSchema(BIT) && Run(BIT, ws) && ws[|ws| - 1].phase.Idle? && !AlwaysExact(BIT, ws[|ws| - 1], me)
  {
    hide Reaches, Run, Inv, Contents, AlwaysExact, Appended, Drain;
    var w, s;
    var c := Index(BIT_LABEL, 1, 1);
    ws, w := Begin();
    ws, w, s := Registering(ws, w, BARE, 0);
    ws, w, s := Registering(ws, w, s, 1);
    ws, w, s := Registering(ws, w, s, 2);
    ws, w, s := Opening(ws, w, s, 0, {0, 1, 2});
    AppendedLone(map[], c, 0);
    ws, w, s := Inserting(ws, w, s, 1, 1, 0);
    AppendedLone(map[c := [0]], Index(Tomb, 0, 2), 0);
    ws, w, s := Burying(ws, w, s, 2, 0, 0);
    forall l: ChainLabel | l.Of? ensures Contents(s.log, l, 0, {0, 1, 2}) == {} {
      NoContents(s.log, l, {0, 1, 2});
    }
    ws, w, s := Walking(ws, w, s, map[]);
    ws, w, s := LayingNothing(ws, w, s, {0});
    ws, w, s := Clearing(ws, w, s);
    ws, w, s := Sealing(ws, w, s);
    Reached(ws, w, s);
    Uncovered(w, me, c);
  }

  lemma NoContents(log: map<Chain, seq<Rid>>, l: ChainLabel, ws: set<Writer>)
    requires l.Of? && forall c :: c in log && c.Index? && c.w.Of? && c.writer in ws ==> c.epoch == 1
    ensures Contents(log, l, 0, ws) == {}
  {
  }

  // ------------------------------------------------------------ records left behind

  /** Once the walk has gone by with nothing found, and nothing is written any more, the old epoch is sealed. */
  lemma Finishing(ws: seq<World>, w: World, shape: World) returns (ws': seq<World>, w': World, s: World)
    requires Reaches(ws, w, shape) && shape.phase == Walked(map[]) && shape.epoch > 0 && shape.missing == {}
    ensures Reaches(ws', w', s) && s == shape.(phase := Idle, heard := s.heard)
  {
    hide Reaches;
    ws', w', s := LayingNothing(ws, w, shape, {});
    ws', w', s := Clearing(ws', w', s);
    ws', w', s := Sealing(ws', w', s);
  }

  const STRAY := Index(BIT_LABEL, 0, 1)

  /** A live record whose only entry lies in a sealed epoch, unread, is missed. */
  lemma LeftBehind(w: World, me: Writer)
    requires ValidSchema(BIT) && Inv(BIT, w) && w.phase.Idle? && w.epoch == 1 && w.table == Table(map[0 := ZERO], {})
    requires STRAY in w.log && w.log[STRAY] == [0] && forall c :: c in w.drained ==> w.drained[c] == []
    ensures LiveFindable(BIT, w.table, BIT_LABEL, 0) && 0 in w.Lost() && !AlwaysExact(BIT, w, me)
  {
    hide Inv, AlwaysExact;
    ZeroLabels(BIT_LABEL);
    assert Holds(w.log, BIT_LABEL, 0, 1, 0);
    assert LeftAt(w.log, w.drained, 0, 0);
    LostIsMissed(BIT, w, me, BIT_LABEL, 0);
  }

  /** The name of writer 1, which has inserted a record, does not come back from the registry: the compactor never
      walks its chains, and with the old epoch they are sealed away. */
  lemma WriterUnheard(me: Writer) returns (ws: seq<World>)
    ensures ValidSchema(BIT) && Run(BIT, ws) && ws[|ws| - 1].phase.Idle? && !AlwaysExact(BIT, ws[|ws| - 1], me)
    ensures LiveFindable(BIT, ws[|ws| - 1].table, BIT_LABEL, 0) && 0 in ws[|ws| - 1].Lost()
  {
    hide Reaches, Run, Inv, Contents, AlwaysExact, Appended, LiveFindable, World.Lost;
    var w, s;
    ws, w := Begin();
    ws, w, s := Registering(ws, w, BARE, 0);
    ws, w, s := Registering(ws, w, s, 1);
    AppendedLone(map[], STRAY, 0);
    ws, w, s := Inserting(ws, w, s, 1, 0, 0);
    ws, w, s := Opening(ws, w, s, 0, {0});
    forall l: ChainLabel | l.Of? ensures Contents(s.log, l, 0, {0}) == {} {
      NoContents(s.log, l, {0});
    }
    ws, w, s := Walking(ws, w, s, map[]);
    ws, w, s := Finishing(ws, w, s);
    Reached(ws, w, s);
    LeftBehind(w, me);
  }

  /** Writer 1 is known and walked, and inserts into the old epoch after the last walk has come by. */
  lemma WriterTooLate(me: Writer) returns (ws: seq<World>)
    ensures ValidSchema(BIT) && Run(BIT, ws) && ws[|ws| - 1].phase.Idle? && !AlwaysExact(BIT, ws[|ws| - 1], me)
    ensures LiveFindable(BIT, ws[|ws| - 1].table, BIT_LABEL, 0) && 0 in ws[|ws| - 1].Lost()
  {
    hide Reaches, Run, Inv, Contents, AlwaysExact, Appended, LiveFindable, World.Lost;
    var w, s;
    ws, w := Begin();
    ws, w, s := Registering(ws, w, BARE, 0);
    ws, w, s := Registering(ws, w, s, 1);
    ws, w, s := Opening(ws, w, s, 0, {0, 1});
    forall l: ChainLabel | l.Of? ensures Contents(s.log, l, 0, {0, 1}) == {} {
      NoContents(s.log, l, {0, 1});
    }
    ws, w, s := Walking(ws, w, s, map[]);
    AppendedLone(map[], STRAY, 0);
    ws, w, s := Inserting(ws, w, s, 1, 0, 0);
    ws, w, s := Finishing(ws, w, s);
    Reached(ws, w, s);
    LeftBehind(w, me);
  }

  // ------------------------------------------------------------ a growth nobody told of

  /** One record, inserted by writer 0 and nothing else. */
  ghost predicate OneRecord(w: World) {
    && Inv(BIT, w)
    && w.(net := map[]) == BARE.(table := Table(map[0 := ZERO], {}), log := map[FIRST := [0]], writers := {0})
  }

  lemma OneRecordIsReached() returns (ws: seq<World>, w: World)
    ensures ValidSchema(BIT) && Run(BIT, ws) && ws[|ws| - 1] == w && OneRecord(w)
  {
    hide Reaches, Run, Inv, Appended;
    var s;
    ws, w := Begin();
    ws, w, s := Registering(ws, w, BARE, 0);
    AppendedLone(map[], FIRST, 0);
    ws, w, s := Inserting(ws, w, s, 0, 0, 0);
    Reached(ws, w, s);
  }

  lemma OneLink(w: World)
    requires OneRecord(w)
    ensures DenseTo(w.net, Index(BIT_LABEL, 0, 0), 1)
    ensures forall c: Chain, i: nat :: Link(c, i) in w.net && c.Index? ==> c == Index(BIT_LABEL, 0, 0)
    ensures w.writers == {0} && w.Epochs() == {0}
  {
    hide Built, SystemTrue, BlobsTrue, LogTrue, Owned, Complete, DeadBuried, Carried, WalkedRight, MissingWhere;
  }

  lemma ZeroCover(p: Predicate)
    requires p == Between("f", 0, 0)
    ensures ValidSchema(BIT) && Index(BIT_LABEL, 0, 0) in LabelChains(BIT, p, {0}, {0}) && Satisfies(BIT, ZERO, p)
  {
    ZeroLabels(BIT_LABEL);
    assert Satisfies(BIT, ZERO, p);
    var d := SatisfierLabelled(BIT, ZERO, p);
    ZeroLabels(Of("f", d));
  }

  /** An owner that has counted nothing asks for the one record there is. If the probe of its chain goes unanswered,
      the query succeeds all the same, and has no rows. */
  method SilentProbe(o: Owner, ghost w: World, net: Net, p: Predicate) returns (r: Outcome, ghost unheard: set<Key>)
    requires o.schema == BIT && OneRecord(w) && net == w.net && p == Between("f", 0, 0)
    requires Warm(w, o.st, o.me) && SystemStill(net, o.st) && o.st.chains == map[] && o.st.remote == map[]
    modifies o`st
    ensures w.table.Live(0) && ValidSchema(BIT) && KnownFields(BIT, [p]) && SatisfiesAll(BIT, w.table.inserted[0], [p])
    ensures Link(Index(BIT_LABEL, 0, 0), 1) in unheard ==> r == Rows(map[])
  {
    hide Warm, Inv, LabelChains, Kept, ExactWhereHeard, RowsAre, Missed, TombsMoved, Satisfies, Dense, TrueEpochs,
         TrueReaders, Faithful;
    ZeroLabels(BIT_LABEL);
    OneLink(w);
    ZeroCover(p);
    assert [p][0] == p && forall q :: q in [p] ==> q == p;
    WarmIsTrusted(BIT, w, o.st, o.me);
    ReadersSeeTable(BIT, w, o.me);
    ghost var before := o.st;
    r, unheard := o.QueryOnce(net, [p], {Link(Index(BIT_LABEL, 0, 0), 1)}, w.table);
    if Link(Index(BIT_LABEL, 0, 0), 1) in unheard {
      UnheardIsEmpty(w, [p], before, o.st, o.me, unheard, r);
    }
  }

  lemma UnheardIsEmpty(w: World, preds: seq<Predicate>, before: State, after: State, me: Writer, unheard: set<Key>,
                       o: Outcome)
    requires OneRecord(w) && ValidSchema(BIT) && preds == [Between("f", 0, 0)] && KnownFields(BIT, preds)
    requires before.chains == map[] && before.remote == map[] && before.Epochs() == {0} && before.Readers(me) == {0}
    requires SystemStill(w.net, before) && Link(Index(BIT_LABEL, 0, 0), 1) in unheard
    requires o.Stale? ==> !SystemStill(w.net, before)
    requires o.Rows? ==>
               ExactWhereHeard(BIT, w.net, preds, before, after, me, unheard)
               && RowsAre(BIT, w.net, preds, before, after, me, o.rows)
    requires o.NotAnswered? ==>
               o.keys != {} && o.keys <= {Link(Index(BIT_LABEL, 0, 0), 1)} && forall k :: k in o.keys ==>
               k.Rec? || Owed(w.net, KnownCounts(before, me, Touched(BIT, preds, before, me)), unheard, k)
    ensures o == Rows(map[])
  {
    hide Inv, LabelChains, SystemStill;
    var c := Index(BIT_LABEL, 0, 0);
    OneLink(w);
    ZeroCover(preds[0]);
    var known := KnownCounts(before, me, Touched(BIT, preds, before, me));
    assert c in AllLabelChains(BIT, preds, {0}, {0});
    assert known[c] == 0;
    assert Missed(w.net, known, unheard, c);
    if o.Rows? {
      assert preds[0] in preds;
      AreIndexChains(BIT, preds, {0}, {0});
      var chains := LabelChains(BIT, preds[0], {0}, {0});
      forall x | x in chains ensures x.Index? {
        assert x in AllLabelChains(BIT, preds, {0}, {0});
      }
      forall r ensures r !in o.rows {
        NoneCounted(w, chains, after, me, r);
      }
    }
  }

  lemma NoneCounted(w: World, chains: set<Chain>, st: State, me: Writer, r: Rid)
    requires OneRecord(w) && st.Count(me, Index(BIT_LABEL, 0, 0)) == 0 && forall x :: x in chains ==> x.Index?
    ensures !Counted(w.net, chains, st, me, r)
  {
    hide Inv;
    OneLink(w);
  }

  // ------------------------------------------------------------ a marker nobody told of

  /** Two epochs have been opened after the first, and all but the newest sealed. */
  ghost predicate FourMarks(net: Net) {
    && DenseTo(net, EpochChain, 4)
    && net[Link(EpochChain, 1)] == Opened(1) && net[Link(EpochChain, 2)] == Sealed(0)
    && net[Link(EpochChain, 3)] == Opened(2) && net[Link(EpochChain, 4)] == Sealed(1)
  }

  lemma {:induction false} PastTheThird(net: Net, rounds: nat)
    requires FourMarks(net)
    ensures var s := SearchAt(net, EpochChain, 1, rounds);
            match rounds
            case 0 => s == Search(1, None, 1)
            case 1 => s == Search(2, None, 2)
            case 2 => s == Search(4, None, 4)
            case 3 => s == Search(4, Some(8), 4)
            case 4 => s == Search(4, Some(6), 4)
            case _ => s == Search(4, Some(5), 4)
  {
    if rounds > 0 {
      PastTheThird(net, rounds - 1);
    }
  }

  lemma ThirdUnasked(net: Net)
    requires FourMarks(net)
    ensures !SearchAsks(net, map[EpochChain := 1], Link(EpochChain, 3))
  {
    forall rounds: nat ensures !SearchAsksIn(net, map[EpochChain := 1], Link(EpochChain, 3), rounds) {
      PastTheThird(net, rounds);
    }
  }

  /** An owner that knows of the first marker reads on while the third is silent. The search does not ask for that
      slot, so the refresh succeeds; if the marker does not come back, the owner stays in an epoch that is sealed,
      with a count past the marker, and will not ask for it again. */
  method SilentMarker(o: Owner, net: Net) returns (ok: bool, ghost unread: set<Key>)
    requires ValidSchema(o.schema) && FourMarks(net) && Synced(net, o.st) && o.st.epochLen == 1
    modifies o`st
    ensures ok && o.st.epochLen == 4
    ensures Link(EpochChain, 3) in unread ==> o.st.epoch == 1 && !Synced(net, o.st)
  {
    assert old(o.st).epoch == 1 by { assert MarksOf(net, 1) == AfterMark(MarksOf(net, 0), Opened(1)); }
    ThirdUnasked(net);
    DenseEnd(net, EpochChain, 4);
    ok, unread := o.RefreshEpoch(net, {Link(EpochChain, 3)}, Table(map[], {}), Uncounted());
    if Link(EpochChain, 3) in unread {
      assert o.st.epoch == 1;
      assert !MarkWithin(net[Link(EpochChain, 3)], (o.st.epoch, o.st.sealedMax));
    }
  }

  // ------------------------------------------------------------ a tombstone nobody told of

  const TOMBS := Index(Tomb, 0, 0)

  /** One record, and three tombstones of one writer, the second of which is the record's; its ciphertext is still
      around. */
  ghost predicate ThreeTombs(w: World) {
    && Inv(BIT, w) && Rec(1) in w.net
    && w.(net := map[]) == BARE.(table := Table(map[1 := ZERO], {0, 1, 2}),
                                 log := map[FIRST := [1], TOMBS := [0, 1, 2]], writers := {0})
  }

  lemma TombsLogged()
    ensures Appended(map[], {Index(BIT_LABEL, 0, 0)}, 1) == map[Index(BIT_LABEL, 0, 0) := [1]]
    ensures Appended(map[Index(BIT_LABEL, 0, 0) := [1]], {TOMBS}, 0) == map[Index(BIT_LABEL, 0, 0) := [1], TOMBS := [0]]
    ensures Appended(map[Index(BIT_LABEL, 0, 0) := [1], TOMBS := [0]], {TOMBS}, 1) == map[Index(BIT_LABEL, 0, 0) := [1],
            TOMBS := [0, 1]]
    ensures Appended(map[Index(BIT_LABEL, 0, 0) := [1], TOMBS := [0, 1]], {TOMBS}, 2) == map[Index(BIT_LABEL, 0, 0) :=
            [1], TOMBS := [0, 1, 2]]
  {
    var none: seq<Rid> := [];
    assert none + [1] == [1] && none + [0] == [0] && [0] + [1] == [0, 1] && [0, 1] + [2] == [0, 1, 2];
  }

  lemma ThreeTombsAreReached() returns (ws: seq<World>, w: World)
    ensures ValidSchema(BIT) && Run(BIT, ws) && ws[|ws| - 1] == w && ThreeTombs(w)
  {
    hide Reaches, Run, Inv, Appended;
    TombsLogged();
    var s;
    ws, w := Begin();
    ws, w, s := Registering(ws, w, BARE, 0);
    ws, w, s := Inserting(ws, w, s, 0, 0, 1);
    ws, w, s := Burying(ws, w, s, 0, 0, 0);
    ws, w, s := Burying(ws, w, s, 0, 0, 1);
    ws, w, s := Burying(ws, w, s, 0, 0, 2);
    Reached(ws, w, s);
  }

  lemma TombLinks(w: World)
    requires ThreeTombs(w)
    ensures DenseTo(w.net, TOMBS, 3) && DenseTo(w.net, Index(BIT_LABEL, 0, 0), 1)
    ensures forall c: Chain, i: nat :: Link(c, i) in w.net && c.Index? && c.w == Tomb ==>
              c == TOMBS && 1 <= i <= 3 && w.net[Link(c, i)] == Entry(i - 1)
    ensures w.net[Link(Index(BIT_LABEL, 0, 0), 1)] == Entry(1) && w.net[Rec(1)] == Blob(ZERO)
    ensures w.writers == {0} && w.Epochs() == {0} && 1 in w.table.deleted
  {
    hide Built, SystemTrue, LogTrue, Owned, Complete, DeadBuried, Carried, WalkedRight, MissingWhere;
    assert w.log[TOMBS] == [0, 1, 2];
  }

  lemma {:induction false} PastTheSecond(net: Net, rounds: nat)
    requires DenseTo(net, TOMBS, 3)
    ensures var s := SearchAt(net, TOMBS, 0, rounds);
            match rounds
            case 0 => s == Search(0, None, 1)
            case 1 => s == Search(1, None, 2)
            case 2 => s == Search(3, None, 4)
            case 3 => s == Search(3, Some(7), 4)
            case 4 => s == Search(3, Some(5), 4)
            case _ => s == Search(3, Some(4), 4)
  {
    if rounds > 0 {
      PastTheSecond(net, rounds - 1);
    }
  }

  lemma SecondUnasked(net: Net, spec: map<Chain, nat>)
    requires DenseTo(net, TOMBS, 3) && TOMBS in spec && spec[TOMBS] == 0
    ensures !SearchAsks(net, spec, Link(TOMBS, 2))
  {
    forall rounds: nat ensures !SearchAsksIn(net, spec, Link(TOMBS, 2), rounds) {
      PastTheSecond(net, rounds);
    }
  }

  /** An owner that has seen no tombstone refreshes them while the second is silent: the search does not ask for that
      slot, so the refresh succeeds and counts it. */
  method PassedOver(o: Owner, ghost w: World, net: Net) returns (s: State, ghost unread: set<Key>)
    requires o.schema == BIT && ThreeTombs(w) && net == w.net && o.st.Epochs() == {0}
    requires o.st.tombCounts == map[] && o.st.tombRids == {}
    ensures s == o.st.(tombCounts := s.tombCounts, tombRids := s.tombRids) && TOMBS in s.tombCounts
            && s.tombCounts[TOMBS] == 3
    ensures Link(TOMBS, 2) in unread ==> 1 !in s.tombRids
  {
    hide Inv, Dense, Mirroring.TombHeard, SearchAsks, TombsSeen, Mirroring.TombsTaken, EntriesTrue;
    TombLinks(w);
    SecondUnasked(net, KnownCounts(o.st, o.me, TombChains({0}, {0})));
    var r;
    r, unread := Mirroring.RefreshTombs(net, o.st, o.me, {0}, {Link(TOMBS, 2)}, BIT, w.table);
    assert r.Success?;
    StopOfDense(net, TOMBS, 0, 3, r.value.tombCounts[TOMBS]);
    if Link(TOMBS, 2) in unread {
      SecondUnheard(w, unread);
    }
    s := r.value;
  }

  /** If the second tombstone does not come back then, a query that all replicas answer returns the deleted record. */
  method SilentTombstone(o: Owner, ghost w: World, net: Net, p: Predicate) returns (r: Outcome, ghost unread: set<Key>)
    requires o.schema == BIT && ThreeTombs(w) && net == w.net && p == Between("f", 0, 0)
    requires Warm(w, o.st, o.me) && SystemStill(net, o.st)
    requires o.st.chains == map[] && o.st.remote == map[] && o.st.tombCounts == map[] && o.st.tombRids == {}
    modifies o`st
    ensures 1 in w.table.deleted
    ensures Link(TOMBS, 2) in unread ==> r.Rows? && 1 in r.rows
  {
    hide Warm, Inv, LabelChains, Kept, ExactWhereHeard, RowsAre, Missed, TombsMoved, Satisfies, Dense, TrueEpochs,
         TrueReaders, Faithful;
    ZeroLabels(BIT_LABEL);
    TombLinks(w);
    assert [p][0] == p && forall q :: q in [p] ==> q == p;
    WarmIsTrusted(BIT, w, o.st, o.me);
    ReadersSeeTable(BIT, w, o.me);
    var s;
    s, unread := PassedOver(o, w, net);
    o.st := s;
    ghost var unheard;
    r, unheard := o.QueryOnce(net, [p], {}, w.table);
    if Link(TOMBS, 2) in unread {
      DeadComesBack(w, [p], s, o.st, o.me, unheard, r.rows);
    }
  }

  lemma SecondUnheard(w: World, unread: set<Key>)
    requires ThreeTombs(w) && Link(TOMBS, 2) in unread
    ensures !Mirroring.TombHeard(w.net, unread, 1)
  {
    hide Inv;
    TombLinks(w);
  }

  lemma DeadComesBack(w: World, preds: seq<Predicate>, before: State, after: State, me: Writer, unheard: set<Key>,
                      rows: map<Rid, Record>)
    requires ThreeTombs(w) && ValidSchema(BIT) && preds == [Between("f", 0, 0)] && KnownFields(BIT, preds)
             && unheard == {}
    requires before.chains == map[] && before.remote == map[] && before.Epochs() == {0} && before.Readers(me) == {0}
    requires TOMBS in before.tombCounts && before.tombCounts[TOMBS] == 3 && 1 !in before.tombRids
    requires TombsMoved(w.net, before, after, me) || after == before
    requires ExactWhereHeard(BIT, w.net, preds, before, after, me, unheard)
             && RowsAre(BIT, w.net, preds, before, after, me, rows)
    ensures 1 in rows
  {
    hide Inv, LabelChains;
    TombLinks(w);
    ZeroCover(preds[0]);
    var c := Index(BIT_LABEL, 0, 0);
    var known := KnownCounts(before, me, Touched(BIT, preds, before, me));
    assert c in AllLabelChains(BIT, preds, {0}, {0});
    assert known[c] == 0;
    assert CountedAt(w.net, LabelChains(BIT, preds[0], {0}, {0}), after, me, 1, c, 1);
    assert preds[0] in preds && forall q :: q in preds ==> q == preds[0];
    assert !NewTomb(w.net, before, me, 1);
  }

  // ------------------------------------------------------------ a slot nobody told of

  const ZEROS := Index(Of("f", Dyadic.Label(2, 0)), 0, 0)

  /** One record of two can be read, so one entry is predicted and two slots past it are probed, the first of them
      silent: the pass succeeds, and if that slot does not come back the chain is settled one entry short, and no
      later pass asks again. */
  method SilentSlot(net: Net) returns (r: Result<Probes.Guess, set<Key>>, ghost unheard: set<Key>)
    requires DenseTo(net, ZEROS, 2)
    ensures r.Success?
    ensures Link(ZEROS, 2) in unheard ==>
              ZEROS in r.value.lens && r.value.lens[ZEROS] == 1 && ZEROS in r.value.done
              && Probes.TreeChains(r.value.lens.Keys) && Probes.AllSettled(r.value)
  {
    hide Probes.Sees, Probes.Heard, DenseTo;
    var lens, unknown, silent := map[ZEROS := 1], map[0 := 1], {Link(ZEROS, 2)};
    var g := Probes.Guess(lens, {}, {}, map[]);
    Probes.StartsTracked(net, lens, unknown);
    assert Link(ZEROS, 2) !in Probes.EntryKeys(Probes.Active(g), lens);
    var grew;
    r, grew, unheard := Probes.Pass(net, g, unknown, silent, {}, lens, 0);
    if Link(ZEROS, 2) in unheard {
      SettledShort(net, unheard, lens, unknown, r.value);
    }
  }

  lemma SettledShort(net: Net, unheard: set<Key>, lens: map<Chain, nat>, unknown: map<Writer, nat>, g: Probes.Guess)
    requires DenseTo(net, ZEROS, 2) && lens == map[ZEROS := 1] && Link(ZEROS, 2) in unheard
    requires Probes.After(net, unheard, lens, unknown, 1, g)
    ensures g.lens.Keys == {ZEROS} && g.lens[ZEROS] == 1 && ZEROS in g.done
  {
    hide Probes.Fetched, Probes.SlackOf, Probes.Reach;
    assert !Probes.Mispredicted(net, lens, "f");
    assert Probes.TrackedOf(net, unheard, lens, unknown, 1, g, ZEROS);
    assert Probes.Sees(unheard, ZEROS, 1, Probes.SlackOf(unknown, ZEROS), 1, g.lens[ZEROS], ZEROS in g.done, 2);
    assert !Probes.Heard(unheard, ZEROS, 2);
  }

  // ------------------------------------------------------------ a value outside its domain

  /** The value two in a field of one bit: asked for everything up to two, a query looks under no label of the record.
      */
  lemma OutsideIsLost(rec: Record)
    requires rec == map["f" := 2]
    ensures ValidSchema(BIT) && BoundsOf(BIT, Between("f", 0, 2)) == (0, 2) && !Reachable(BIT, rec, Between("f", 0, 2))
  {
    ZeroLabels(BIT_LABEL);
    ReachableIff(BIT, rec, Between("f", 0, 2));
  }

  // ------------------------------------------------------------ a row nobody told of

  /** A stream over the one record's interval whose chain is counted to its end. If the entry does not come back, the
      batch succeeds without a row, though the record is live and belongs there. */
  method SilentStream(o: Owner, ghost w: World, net: Net, ghost p: Streaming.Plan)
    returns (r: Result<seq<Streaming.Row>, set<Key>>, ghost unheard: set<Key>)
    requires o.schema == BIT && OneRecord(w) && net == w.net && Streaming.Ready(BIT, w, o.st, o.me)
             && o.st.Count(o.me, FIRST) == 1
    requires p == Streaming.Plan(BIT, w.Standing(), [Between("f", 0, 0)], "f", Streaming.Unordered,
                                 [Dyadic.Label(1, 0)], 1)
    modifies o`st
    ensures p.Valid() && 0 in Streaming.Matching(p, p.units)
    ensures r.Success? && (Link(FIRST, 1) in unheard ==> r.value == [])
  {
    hide OneRecord, Streaming.Matching, World.Standing, Streaming.Ready, Streaming.BatchGives, Streaming.RowsFor,
         Streaming.Chunk, Streaming.ChunkChains, Streaming.BatchRows, Mirroring.Speaks, ReachedLabel, State.Count;
    OnePlan(w, p);
    OneChunk(w, o.st, o.me);
    NoSecond(w);
    ghost var st0 := o.st;
    ghost var missed;
    r, unheard, missed := Streaming.StreamBatch(o, net, [Between("f", 0, 0)], "f", Streaming.Unordered,
                                                [Dyadic.Label(1, 0)], 0, {Link(FIRST, 1)}, p, w);
    if Link(FIRST, 1) in unheard {
      ghost var rows :| Streaming.BatchGives(p, [Dyadic.Label(1, 0)], w, st0, o.st, o.me, {FIRST}, unheard, missed,
                                             rows)
                        && r.value == Streaming.RowsFor(p, 0, rows.Keys);
      NothingHeard(p, w, st0, o.st, o.me, unheard, missed, rows);
    }
  }

  lemma OnePlan(w: World, p: Streaming.Plan)
    requires OneRecord(w)
             && p == Streaming.Plan(BIT, w.Standing(), [Between("f", 0, 0)], "f", Streaming.Unordered,
                                    [Dyadic.Label(1, 0)], 1)
    ensures p.Valid() && 0 in Streaming.Matching(p, p.units) && Streaming.Chunk(p.units, 0, 1) == [Dyadic.Label(1, 0)]
    ensures forall d :: d in p.units ==> ReachedLabel(BIT, Of("f", d))
  {
    hide OneRecord, Streaming.Matching, World.Standing, ReachedLabel, Labelled, Findable;
    ZeroLabels(BIT_LABEL);
    assert p.Valid();
    ZeroReached();
    ZeroMatches(w, p);
    assert forall d :: d in p.units ==> d == Dyadic.Label(1, 0);
  }

  lemma NoSecond(w: World)
    requires OneRecord(w)
    ensures Link(FIRST, 2) !in w.net
  {
    hide Inv;
    OneLink(w);
  }

  lemma ZeroReached()
    ensures ReachedLabel(BIT, BIT_LABEL)
  {
  }

  lemma OneChunk(w: World, st: State, me: Writer)
    requires OneRecord(w) && Streaming.Ready(BIT, w, st, me)
    ensures Streaming.ChunkChains("f", [Dyadic.Label(1, 0)], st) == {FIRST}
  {
    hide Inv, Warm, Streaming.ShownSeen;
    assert st.Epochs() == {0} && Elements(st.writers) == {0};
    assert Elements([Dyadic.Label(1, 0)]) == {Dyadic.Label(1, 0)};
  }

  lemma ZeroMatches(w: World, p: Streaming.Plan)
    requires OneRecord(w) && p.Valid() && p.schema == BIT && p.table == w.Standing() && p.driver == "f"
    requires p.preds == [Between("f", 0, 0)] && p.units == [Dyadic.Label(1, 0)]
    ensures 0 in Streaming.Matching(p, p.units)
  {
    hide OneRecord, World.Standing, Labelled, Findable;
    ZeroLabels(BIT_LABEL);
    OneStands(w);
    ZeroContained();
    assert Dyadic.Contains(1, p.units[0], 0);
    assert PassesFilter(BIT, ZERO, p.preds);
  }

  lemma ZeroContained()
    ensures Dyadic.Contains(1, Dyadic.Label(1, 0), 0)
  {
    assert Dyadic.Width(1, 1) == Pow2(0) == 1;
  }

  lemma OneStands(w: World)
    requires OneRecord(w)
    ensures w.Standing().Live(0) && w.Standing().inserted[0] == ZERO
  {
    hide Inv;
  }

  lemma NothingHeard(p: Streaming.Plan, w: World, st: State, st': State, me: Writer, unheard: set<Key>,
                     missed: set<Key>, rows: map<Rid, Record>)
    requires OneRecord(w) && p.Valid() && Link(FIRST, 1) in unheard
    requires Streaming.BatchGives(p, [Dyadic.Label(1, 0)], w, st, st', me, {FIRST}, unheard, missed, rows)
    ensures rows == map[] && Streaming.RowsFor(p, 0, rows.Keys) == []
  {
    hide Inv, Streaming.Ready, Streaming.EndWhereHeard, Streaming.Matching, Streaming.Sorted;
    OneLink(w);
    forall r ensures r !in rows {
      assert !Streaming.CameBack(w.net, {FIRST}, st', me, unheard, r);
    }
    assert rows.Keys == {};
  }
}
