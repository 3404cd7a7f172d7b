/** The only writer's mirror (blindrange/mirror.py, and the write-through of Owner._put and Owner._delete in
    blindrange/client.py): once one pass has completed it stays current by its owner's own writes. */
module SoleWriter {
  import opened Basics
  import opened Chains
  import opened Index
  import opened Query
  import opened Compaction
  import opened CompactionProof
  import opened Readers
  import opened Mirroring
  import opened Writing

  // ------------------------------------------------------------ nothing goes amiss

  /** How far down a drain has left nothing to be read, and a rewrite no tombstone to be applied. */
  function ReadLow(w: World): int {
    if w.phase.Draining? then w.epoch - 1 else w.epoch
  }

  function DroppedLow(w: World): int {
    if w.phase.Draining? || w.phase.Walked? then w.epoch - 1 else w.epoch
  }

  /** No record was left behind and no tombstone has lapsed. */
  ghost predicate NothingAmiss(w: World) {
    forall r :: !Left(w.log, w.drained, ReadLow(w), r) && !LapsedBelow(w, DroppedLow(w), r)
  }

  /** A rewrite goes by every tombstone of what its walk has read. */
  ghost predicate HeardAll(w: World, tombs: set<Rid>) {
    forall r :: BuriedIn(w.log, w.epoch - 1, r) && HeldIn(w.drained, w.epoch - 1, r) ==> r in tombs
  }

  /** A step as the only writer takes it: it writes into the newest epoch, and knows its own tombstones. */
  ghost predicate Prompt(schema: Schema, w: World, w': World)
    requires ValidSchema(schema)
  {
    || Write(schema, w, w', w.epoch)
    || (exists u :: Register(w, w', u))
    || (exists c, walkers :: Open(w, w', c, walkers))
    || (exists entries :: Walk(schema, w, w', entries))
    || (exists tombs, plan :: Layout(w, w', tombs, plan) && HeardAll(w, tombs))
    || (exists c, i :: Rewrite(w, w', c, i))
    || BeginDelete(w, w')
    || (exists c, i :: Remove(w, w', c, i))
    || Seal(w, w')
  }

  lemma PromptIsStep(schema: Schema, w: World, w': World)
    requires ValidSchema(schema) && Prompt(schema, w, w')
    ensures Step(schema, w, w')
  {
    hide Write, Insert, Bury, Erase, Register, Open, Walk, Layout, HeardAll, Rewrite, BeginDelete, Remove, Seal;
    if Write(schema, w, w', w.epoch) {
      WriteIsStep(schema, w, w', w.epoch);
    }
  }

  lemma SoleInsertKeeps(schema: Schema, w: World, w': World, u: Writer, r: Rid, rec: Record)
    requires ValidSchema(schema) && LogTrue(schema, w.log, w.table) && Insert(schema, w, w', u, w.epoch, r, rec)
             && NothingAmiss(w)
    ensures NothingAmiss(w')
  {
    hide Appended, RecordChains, Filled, NextSlots, LogTrue, HeldIn, BuriedIn, Labelled, NothingAmiss;
    var chains := RecordChains(schema, rec, w.epoch, u);
    RecordsHaveNoTomb(schema, rec, w.epoch, u);
    forall x, e: int
      ensures HeldIn(w'.log, e, x) ==> HeldIn(w.log, e, x) || (x == r && e == w.epoch)
      ensures BuriedIn(w'.log, e, x) ==> BuriedIn(w.log, e, x)
      ensures !BuriedIn(w.log, e, r)
    {
      RecordChainsOf(schema, rec, w.epoch, u);
      OneWriterHeld(w.log, chains, r, w.epoch, u, e, x);
      BuriedAppended(w.log, chains, r, e, x);
      NotBuriedYet(schema, w.log, w.table, e, r);
    }
    StillNothing(w, w', r);
  }

  lemma OneWriterHeld(log: map<Chain, seq<Rid>>, chains: set<Chain>, r: Rid, ep: nat, u: Writer, e: int, x: Rid)
    requires OneWriter(chains, ep, u)
    ensures HeldIn(Appended(log, chains, r), e, x) ==> HeldIn(log, e, x) || (x == r && e == ep)
  {
    hide Appended, Holds;
    if l, v :| Holds(Appended(log, chains, r), l, e, v, x) {
      HoldsAppended(log, chains, r, l, e, v, x);
    }
  }

  /** Writes into the newest epoch, of ids not deleted yet or of tombstones. */
  lemma StillNothing(w: World, w': World, r: Rid)
    requires NothingAmiss(w) && w' == w.(net := w'.net, table := w'.table, log := w'.log)
    requires forall x, e: int :: HeldIn(w'.log, e, x) ==> HeldIn(w.log, e, x) || (x == r && e == w.epoch)
    requires forall x, e: int :: BuriedIn(w'.log, e, x) ==> BuriedIn(w.log, e, x) || e == w.epoch
    requires (forall e: int :: !BuriedIn(w.log, e, r)) || forall x, e: int :: HeldIn(w'.log, e, x) ==>
               HeldIn(w.log, e, x)
    ensures NothingAmiss(w')
  {
    hide HeldIn, BuriedIn;
    forall x ensures !Left(w'.log, w'.drained, ReadLow(w'), x) && !LapsedBelow(w', DroppedLow(w'), x) {
      assert !Left(w.log, w.drained, ReadLow(w), x) && !LapsedBelow(w, DroppedLow(w), x);
      forall e: nat | e < w.epoch
        ensures LeftAt(w'.log, w'.drained, e, x) ==> LeftAt(w.log, w.drained, e, x)
        ensures LapsedAt(w', e, x) ==> LapsedAt(w, e, x)
      {
        StillCovered(w, w', r, e, x);
      }
    }
  }

  lemma StillCovered(w: World, w': World, r: Rid, e: nat, x: Rid)
    requires w' == w.(net := w'.net, table := w'.table, log := w'.log) && e < w.epoch
    requires forall x, e: int :: HeldIn(w'.log, e, x) ==> HeldIn(w.log, e, x) || (x == r && e == w.epoch)
    requires forall x, e: int :: BuriedIn(w'.log, e, x) ==> BuriedIn(w.log, e, x) || e == w.epoch
    requires (forall e: int :: !BuriedIn(w.log, e, r)) || forall x, e: int :: HeldIn(w'.log, e, x) ==>
               HeldIn(w.log, e, x)
    ensures LapsedAt(w', e, x) ==> LapsedAt(w, e, x)
  {
    hide HeldIn, BuriedIn;
    if LapsedAt(w', e, x) {
      var above: nat :| above > e && HeldIn(w'.log, above, x);
      assert BuriedIn(w.log, e, x) && HeldIn(w.log, above, x);
    }
  }

  lemma RecordsHaveNoTomb(schema: Schema, rec: Record, ep: nat, u: Writer)
    requires ValidSchema(schema)
    ensures forall c :: c in RecordChains(schema, rec, ep, u) ==> c.Index? && c.w.Of?
  {
  }

  lemma NotBuriedYet(schema: Schema, log: map<Chain, seq<Rid>>, table: Table, ep: int, r: Rid)
    requires LogTrue(schema, log, table) && r !in table.deleted
    ensures !BuriedIn(log, ep, r)
  {
  }

  lemma SoleBuryKeeps(w: World, w': World, u: Writer, r: Rid)
    requires Bury(w, w', u, w.epoch, r) && NothingAmiss(w)
    ensures NothingAmiss(w')
  {
    hide Appended, Filled, NextSlots, HeldIn, NothingAmiss;
    var chains := {Index(Tomb, w.epoch, u)};
    forall x, e: int
      ensures HeldIn(w'.log, e, x) ==> HeldIn(w.log, e, x)
      ensures BuriedIn(w'.log, e, x) ==> BuriedIn(w.log, e, x) || e == w.epoch
    {
      HeldAppended(w.log, chains, r, e, x);
      if e != w.epoch {
        BuriedElsewhere(w.log, w.epoch, u, r, e, x);
      }
    }
    StillNothing(w, w', r);
  }

  lemma BuriedElsewhere(log: map<Chain, seq<Rid>>, ep: nat, u: Writer, r: Rid, e: int, x: Rid)
    requires e != ep
    ensures BuriedIn(Appended(log, {Index(Tomb, ep, u)}, r), e, x) ==> BuriedIn(log, e, x)
  {
    var log' := Appended(log, {Index(Tomb, ep, u)}, r);
    forall v ensures BuriedBy(log', e, v, x) ==> BuriedBy(log, e, v, x) {
    }
  }

  lemma SoleWriteKeeps(schema: Schema, w: World, w': World)
    requires ValidSchema(schema) && Inv(schema, w) && Write(schema, w, w', w.epoch) && NothingAmiss(w)
    ensures NothingAmiss(w')
  {
    hide Insert, Bury, NothingAmiss, Built, Rendered, BlobsTrue, Owned, MissingWhere, Complete, DeadBuried, Carried,
         WalkedRight, SystemTrue, LogTrue;
    if u, r, rec :| Insert(schema, w, w', u, w.epoch, r, rec) {
      SoleInsertKeeps(schema, w, w', u, r, rec);
    } else if u, r :| Bury(w, w', u, w.epoch, r) {
      SoleBuryKeeps(w, w', u, r);
    } else {
      SameNothing(w, w');
    }
  }

  /** Steps that neither append nor drain. */
  lemma SameNothing(w: World, w': World)
    requires NothingAmiss(w) && w'.log == w.log && w'.drained == w.drained
    requires ReadLow(w') == ReadLow(w) && DroppedLow(w') == DroppedLow(w)
    ensures NothingAmiss(w')
  {
    hide LeftAt, BuriedIn, HeldAbove;
    forall x ensures !Left(w'.log, w'.drained, ReadLow(w'), x) && !LapsedBelow(w', DroppedLow(w'), x) {
      assert !Left(w.log, w.drained, ReadLow(w), x) && !LapsedBelow(w, DroppedLow(w), x);
      forall e: nat ensures LapsedAt(w', e, x) <==> LapsedAt(w, e, x) {
      }
    }
  }

  /** The only writer's walk reads all there is. */
  lemma SoleWalkKeeps(schema: Schema, w: World, w': World, entries: map<ChainLabel, set<Rid>>, me: Writer)
    requires Inv(schema, w) && Walk(schema, w, w', entries) && w.writers <= {me} && NothingAmiss(w)
    ensures NothingAmiss(w')
  {
    hide Built, Rendered, BlobsTrue, MissingWhere, Complete, DeadBuried, WalkedRight, LogTrue, Owned, Traced, Dropped,
         DrainedTrue, Contents, Drain, HeldIn, BuriedIn, HeldAbove, MarksOf, NamesOf, Dense, ReachedLabel;
    forall x ensures !Left(w'.log, w'.drained, ReadLow(w'), x) && !LapsedBelow(w', DroppedLow(w'), x) {
      assert !Left(w.log, w.drained, ReadLow(w), x) && !LapsedBelow(w, DroppedLow(w), x);
      forall e: nat | e < w.epoch
        ensures LeftAt(w'.log, w'.drained, e, x) ==> e < w.epoch - 1 && LeftAt(w.log, w.drained, e, x) {
        WalkHeld(w, w', e, x);
        if e == w.epoch - 1 && HeldIn(w.log, e, x) {
          SoleIsWalked(w, x, me);
        }
      }
      forall e: nat ensures LapsedAt(w', e, x) <==> LapsedAt(w, e, x) {
      }
    }
  }

  lemma SoleIsWalked(w: World, r: Rid, me: Writer)
    requires Owned(w) && SystemTrue(w) && w.phase.Draining? && w.writers <= {me} && HeldIn(w.log, w.Below(), r)
    ensures exists l, u :: u in w.walkers && Holds(w.log, l, w.Below(), u, r)
  {
    hide MarksOf, NamesOf, Dense;
    var l, u :| Holds(w.log, l, w.Below(), u, r);
    assert w.log[Index(l, w.Below(), u)] != [] && u in w.writers;
    assert u in w.walkers && Holds(w.log, l, w.Below(), u, r);
  }

  /** The only writer has listed nothing in the newest epoch before its rewrite is laid out. */
  lemma SoleTopIsEmpty(w: World, r: Rid, me: Writer)
    requires Owned(w) && SystemTrue(w) && w.phase.Walked? && w.writers <= {me}
    ensures !HeldIn(w.log, w.epoch, r)
  {
    hide MarksOf, NamesOf, Dense;
    forall l, u ensures !Holds(w.log, l, w.epoch, u, r) {
      assert r !in w.Log(Index(l, w.epoch, u));
    }
  }

  lemma SoleLayoutKeeps(schema: Schema, w: World, w': World, tombs: set<Rid>, plan: map<ChainLabel, seq<Rid>>,
                        me: Writer)
    requires Inv(schema, w) && Layout(w, w', tombs, plan) && HeardAll(w, tombs) && w.writers <= {me} && NothingAmiss(w)
    ensures NothingAmiss(w')
  {
    hide Built, Rendered, BlobsTrue, MissingWhere, Complete, DeadBuried, LogTrue, Owned, SystemTrue, Traced, Dropped,
         DrainedTrue, WalkedRight, Layout, PlanLog, PlanSlots, Plan, HeldIn, BuriedIn;
    LayoutParts(w, w', tombs, plan);
    PlanHasNoTomb(schema, w, tombs, plan);
    forall x ensures !Left(w'.log, w'.drained, ReadLow(w'), x) && !LapsedBelow(w', DroppedLow(w'), x) {
      assert !Left(w.log, w.drained, ReadLow(w), x) && !LapsedBelow(w, DroppedLow(w), x);
      forall e: nat | e < w.epoch
        ensures LeftAt(w'.log, w'.drained, e, x) <==> LeftAt(w.log, w.drained, e, x)
        ensures LapsedAt(w', e, x) ==> e < w.epoch - 1 && LapsedAt(w, e, x)
      {
        LaidHeldBelow(w, w', tombs, plan, e, x);
        if LapsedAt(w', e, x) {
          SoleLaidLapse(schema, w, w', tombs, plan, me, e, x);
        }
      }
    }
  }

  lemma SoleLaidLapse(schema: Schema, w: World, w': World, tombs: set<Rid>, plan: map<ChainLabel, seq<Rid>>, me: Writer,
                      e: nat, r: Rid)
    requires Owned(w) && SystemTrue(w) && DrainedTrue(w) && WalkedRight(schema, w) && Layout(w, w', tombs, plan)
             && forall l :: l in plan ==> l.Of?
    requires HeardAll(w, tombs) && w.writers <= {me} && e < w.epoch && LapsedAt(w', e, r)
    ensures e < w.epoch - 1 && LapsedAt(w, e, r)
  {
    hide Owned, SystemTrue, DrainedTrue, WalkedRight, Layout, PlanLog, PlanSlots, Plan, HeldIn, BuriedIn;
    LayoutParts(w, w', tombs, plan);
    LaidBuried(w, w', tombs, plan, e, r);
    var above: nat :| above > e && HeldIn(w'.log, above, r);
    LaidNone(w, w', tombs, plan, above, r);
    if above == w.epoch {
      LaidHeld(schema, w, w', tombs, plan, w.epoch, r);
      SoleTopIsEmpty(w, r, me);
      DrainedIsHeld(w, w.epoch - 1, r);
      assert HeldIn(w.log, w.epoch - 1, r) && e != w.epoch - 1;
    } else {
      LaidHeldBelow(w, w', tombs, plan, above, r);
    }
  }

  lemma SoleStepKeeps(schema: Schema, w: World, w': World, me: Writer)
    requires ValidSchema(schema) && Inv(schema, w) && Prompt(schema, w, w') && w.writers <= {me} && NothingAmiss(w)
    ensures NothingAmiss(w')
  {
    hide Inv, NothingAmiss, Write, Walk, Layout, HeardAll, Register, Open, Rewrite, Remove, BeginDelete, Seal;
    if Write(schema, w, w', w.epoch) {
      SoleWriteKeeps(schema, w, w');
    } else if tombs, plan :| Layout(w, w', tombs, plan) && HeardAll(w, tombs) {
      SoleLayoutKeeps(schema, w, w', tombs, plan, me);
    } else if entries :| Walk(schema, w, w', entries) {
      SoleWalkKeeps(schema, w, w', entries, me);
    } else if c, walkers :| Open(w, w', c, walkers) {
      OpenSame(w, w', c, walkers);
    } else if u :| Register(w, w', u) {
      RegisterSame(w, w', u);
    } else if c, i :| Rewrite(w, w', c, i) || Remove(w, w', c, i) {
      KeySame(w, w', c, i);
    } else {
      PhaseSame(w, w');
    }
  }

  lemma OpenSame(w: World, w': World, c: Writer, walkers: set<Writer>)
    requires Open(w, w', c, walkers) && NothingAmiss(w)
    ensures NothingAmiss(w')
  {
    hide NothingAmiss, Dense;
    SameNothing(w, w');
  }

  lemma RegisterSame(w: World, w': World, u: Writer)
    requires Register(w, w', u) && NothingAmiss(w)
    ensures NothingAmiss(w')
  {
    hide NothingAmiss, Dense;
    SameNothing(w, w');
  }

  lemma KeySame(w: World, w': World, c: Chain, i: nat)
    requires (Rewrite(w, w', c, i) || Remove(w, w', c, i)) && NothingAmiss(w)
    ensures NothingAmiss(w')
  {
    hide NothingAmiss;
    SameNothing(w, w');
  }

  lemma PhaseSame(w: World, w': World)
    requires (BeginDelete(w, w') || Seal(w, w')) && NothingAmiss(w)
    ensures NothingAmiss(w')
  {
    hide NothingAmiss, Dense;
    SameNothing(w, w');
  }

  /** As long as only one writer has ever registered, and it goes by the newest epoch and its own tombstones, nothing
      is left behind and no tombstone lapses, however often it compacts. */
  lemma {:induction false} SoleNeverLapses(schema: Schema, ws: seq<World>, k: nat, me: Writer)
    requires ValidSchema(schema) && Run(schema, ws) && k < |ws| && ws[k].writers <= {me}
    requires forall j :: 0 <= j < |ws| - 1 ==> Prompt(schema, ws[j], ws[j + 1])
    ensures NothingAmiss(ws[k])
  {
    hide Inv, Step, Prompt, NothingAmiss;
    if k == 0 {
      NoLogNothingAmiss(ws[0]);
    } else {
      RunKeeps(schema, ws, k - 1);
      assert Step(schema, ws[k - 1], ws[k - 1 + 1]) && Prompt(schema, ws[k - 1], ws[k - 1 + 1]);
      WritersGrow(schema, ws[k - 1], ws[k]);
      SoleNeverLapses(schema, ws, k - 1, me);
      SoleStepKeeps(schema, ws[k - 1], ws[k], me);
    }
  }

  lemma NoLogNothingAmiss(w: World)
    requires w.log == map[]
    ensures NothingAmiss(w)
  {
    forall r ensures !Left(w.log, w.drained, ReadLow(w), r) && !LapsedBelow(w, DroppedLow(w), r) {
      forall e: int ensures !HeldIn(w.log, e, r) && !BuriedIn(w.log, e, r) {
      }
    }
  }

  lemma WritersGrow(schema: Schema, w: World, w': World)
    requires ValidSchema(schema) && Step(schema, w, w')
    ensures w.writers <= w'.writers
  {
    hide Insert, Bury, Erase, Register, Open, Walk, Layout, Rewrite, BeginDelete, Remove, Seal;
    if tombs, plan :| Layout(w, w', tombs, plan) {
      LayoutParts(w, w', tombs, plan);
    } else if u, ep, r, rec :| Insert(schema, w, w', u, ep, r, rec) {
      InsertWriters(schema, w, w', u, ep, r, rec);
    } else if u, ep, r :| Bury(w, w', u, ep, r) {
      BuryWriters(w, w', u, ep, r);
    } else if c, walkers :| Open(w, w', c, walkers) {
      OpenWriters(w, w', c, walkers);
    } else if c, i :| Rewrite(w, w', c, i) || Remove(w, w', c, i) {
      KeyWriters(w, w', c, i);
    } else {
      RestWriters(schema, w, w');
    }
  }

  lemma InsertWriters(schema: Schema, w: World, w': World, u: Writer, ep: nat, r: Rid, rec: Record)
    requires ValidSchema(schema) && Insert(schema, w, w', u, ep, r, rec)
    ensures w'.writers == w.writers
  {
    hide RecordChains, Appended, NextSlots, Filled;
  }

  lemma BuryWriters(w: World, w': World, u: Writer, ep: nat, r: Rid)
    requires Bury(w, w', u, ep, r)
    ensures w'.writers == w.writers
  {
    hide Appended, NextSlots, Filled;
  }

  lemma OpenWriters(w: World, w': World, c: Writer, walkers: set<Writer>)
    requires Open(w, w', c, walkers)
    ensures w'.writers == w.writers
  {
    hide Dense;
  }

  lemma KeyWriters(w: World, w': World, c: Chain, i: nat)
    requires Rewrite(w, w', c, i) || Remove(w, w', c, i)
    ensures w'.writers == w.writers
  {
  }

  lemma RestWriters(schema: Schema, w: World, w': World)
    requires
      || (exists r :: Erase(w, w', r)) || (exists u :: Register(w, w', u))
      || (exists entries :: Walk(schema, w, w', entries)) || BeginDelete(w, w') || Seal(w, w')
    ensures w.writers <= w'.writers
  {
    hide Dense, Contents, Drain, ReachedLabel;
  }

  // ------------------------------------------------------------ a mirror that stays current

  /** Every live record is in the copy, with an entry under each label a query can ask for. */
  ghost predicate LiveHeld(schema: Schema, w: World, kv: Net) {
    forall l, r :: LiveFindable(schema, w.table, l, r) ==> Rec(r) in kv && HeldUnder(w, kv, l, r)
  }

  ghost predicate HeldUnder(w: World, kv: Net, l: ChainLabel, r: Rid) {
    exists c: Chain, i: nat :: Names(kv, {w.epoch}, w.writers, c, i, r) && c.w == l
  }

  /** The owner's counters say how long each of its own chains is. */
  ghost predicate OwnCounted(w: World, st: State, me: Writer) {
    CountersTrue(w, st.chains, w.epoch, me) && TombCount(st, w.epoch, me) == |w.Log(OwnTomb(w.epoch, me))|
  }

  /** The owner is the only writer there is, between compactions, and knows it. */
  ghost predicate Alone(w: World, st: State, me: Writer) {
    && w.phase.Idle? && w.writers == {me} && NothingAmiss(w)
    && st.epoch == w.epoch && st.Epochs() == {w.epoch} && st.Readers(me) == {me}
  }

  /** The state the only writer's mirror is in from its first completed pass on. */
  ghost predicate SoleServes(schema: Schema, w: World, kv: Net, st: State, me: Writer) {
    && Alone(w, st, me) && OwnCounted(w, st, me)
    && SyncReady(w, kv, st, me) && SystemStill(kv, st) && LiveHeld(schema, w, kv)
  }

  /** What stands is the table. */
  lemma AllStands(w: World)
    requires NothingAmiss(w) && w.phase.Idle?
    ensures w.Lost() == {} && w.Standing() == w.table
  {
    hide Left, LapsedBelow;
    forall r ensures r !in w.Lost() {
      assert !Left(w.log, w.drained, ReadLow(w), r);
    }
    assert w.table.deleted + {} == w.table.deleted;
  }

  /** The owner goes by its own counters, which miss nothing. */
  ghost function SoleLow(w: World, me: Writer): Lengths {
    (c: Chain) => if c.Index? && c.epoch == w.epoch && c.writer == me then |w.Log(c)| else 0
  }

  ghost function SoleView(w: World, me: Writer): View {
    View({w.epoch}, {me}, SoleLow(w, me), LogLen(w))
  }

  lemma SoleCounts(w: World, st: State, me: Writer)
    requires st.epoch == w.epoch
    ensures CountedWithin(st, me, LogLen(w)) && CountedTo(st, me, SoleLow(w, me)) ==> OwnCounted(w, st, me)
    ensures OwnCounted(w, st, me) ==> CountedTo(st, me, SoleLow(w, me))
  {
    if CountedWithin(st, me, LogLen(w)) && CountedTo(st, me, SoleLow(w, me)) {
      forall l: ChainLabel ensures st.Count(me, Index(l, w.epoch, me)) == |w.Log(Index(l, w.epoch, me))| {
        CountIsWithin(st, me, LogLen(w), Index(l, w.epoch, me));
        assert SoleLow(w, me)(Index(l, w.epoch, me)) <= st.Count(me, Index(l, w.epoch, me));
      }
    }
    if OwnCounted(w, st, me) {
      forall c: Chain ensures SoleLow(w, me)(c) <= st.Count(me, c) {
        if c.Index? && c.epoch == w.epoch && c.writer == me {
          assert c == Index(c.w, w.epoch, me);
        }
      }
    }
  }

  lemma SoleLive(schema: Schema, w: World, kv: Net, me: Writer)
    requires w.writers == {me} && LinksLogged(w, kv) && LiveHeld(schema, w, kv)
    ensures LiveListed(schema, kv, w.table, SoleView(w, me)) && BlobsServe(schema, kv, w.table)
  {
    hide Findable;
    forall r, l | w.table.Live(r) && Findable(schema, w.table.inserted[r], l)
      ensures Listed(kv, SoleView(w, me), l, r) && Rec(r) in kv
    {
      assert LiveFindable(schema, w.table, l, r);
      var c: Chain, i: nat :| Names(kv, {w.epoch}, w.writers, c, i, r) && c.w == l;
      assert Unbroken(kv, c, SoleView(w, me).low(c), i);
    }
  }

  /** Deleted records the copy still shows have all been taken in. */
  lemma SoleHidden(schema: Schema, w: World, kv: Net, st: State, me: Writer, r: Rid)
    requires Inv(schema, w) && SoleServes(schema, w, kv, st, me) && Shown(schema, kv, w.table, {w.epoch}, {me}, r)
    ensures r in st.tombRids
  {
    hide Built, BlobsTrue, LogTrue, Complete, Carried, WalkedRight, HeldIn, LapsedBelow, Left, MarksOf, NamesOf, Dense,
         TombsThere, LiveHeld, CountersTrue, Shown, SystemCopied, BlobsGenuine, CountedWithin, World.Lost,
         World.Standing;
    AllStands(w);
    var ep := CopyShowsHeld(schema, w, kv, {w.epoch}, {me}, r);
    assert DeadTop(w, r) && !LapsedBelow(w, DroppedLow(w), r);
    var u :| BuriedBy(w.log, w.epoch, u, r);
    assert w.log[Index(Tomb, w.epoch, u)] != [];
    assert u == me;
    var c := OwnTomb(w.epoch, me);
    var j :| 0 <= j < |w.log[c]| && w.log[c][j] == r;
    assert Link(c, j + 1) in w.net && w.net[Link(c, j + 1)] == Entry(r);
  }

  lemma SoleServesView(schema: Schema, w: World, kv: Net, st: State, me: Writer)
    requires ValidSchema(schema) && Inv(schema, w) && SoleServes(schema, w, kv, st, me)
    ensures Serves(schema, w, kv, st, me, SoleView(w, me)) && NoTombsAhead(kv, st, me)
  {
    hide Inv, LiveListed, BlobsServe, EntriesTrue, Capped, CountersTrue, CountedWithin, CountedTo, TombsSeen, LiveHeld,
         SystemCopied, BlobsGenuine, MarksOf, NamesOf, Dense, NothingAmiss, World.Standing, World.Lost;
    SoleCounts(w, st, me);
    AllStands(w);
    SoleLive(schema, w, kv, me);
    LocalEntries(schema, w, kv, {w.epoch});
    forall c | c in TombChains(st.Epochs(), st.Readers(me)) ensures Link(c, st.Count(me, c) + 1) !in kv {
      assert c == OwnTomb(w.epoch, me);
    }
  }

  /** A query answered by the only writer's mirror alone gets exactly the answer, and leaves it as current as it was. */
  method SoleQuery(o: Owner, m: Mirror, preds: seq<Predicate>, ghost w: World)
    returns (r: Result<map<Rid, Record>, QueryError>)
    requires ValidSchema(o.schema) && Inv(o.schema, w) && KnownFields(o.schema, preds)
    requires forall i, j :: 0 <= i < j < |preds| ==> preds[i].field != preds[j].field
    requires SoleServes(o.schema, w, m.kv, o.st, o.me)
    modifies o`st
    ensures r.Success? && Answer(o.schema, w.table, preds, r.value)
    ensures forall rows :: Answer(o.schema, w.table, preds, rows) ==> r.value == rows
    ensures SoleServes(o.schema, w, m.kv, o.st, o.me)
  {
    hide Inv, Serves, NoTombsAhead, SyncReady, Shown, Nearly, Answer, LiveHeld, OwnCounted, NothingAmiss, SystemStill;
    SoleServesView(o.schema, w, m.kv, o.st, o.me);
    AllStands(w);
    ghost var st0 := o.st;
    SameLogsGrow(w);
    r := QueryMirror(o, m, preds, w, SoleView(w, o.me), w);
    SoleAgain(o.schema, w, m.kv, st0, o.st, o.me);
    forall x | x in r.value ensures x !in w.table.deleted {
      if x in w.table.deleted {
        SoleHidden(o.schema, w, m.kv, st0, o.me, x);
      }
    }
    NearlyIsAnswer(o.schema, w.table, preds, r.value);
    forall rows | Answer(o.schema, w.table, preds, rows) ensures r.value == rows {
      OneAnswer(o.schema, w.table, preds, r.value, rows);
    }
  }

  lemma SameLogsGrow(w: World)
    ensures LogsGrow(w, w)
  {
  }

  lemma SoleAgain(schema: Schema, w: World, kv: Net, st: State, st': State, me: Writer)
    requires SoleServes(schema, w, kv, st, me) && Serves(schema, w, kv, st', me, SoleView(w, me))
             && SyncReady(w, kv, st', me)
    requires st' == st.(chains := st'.chains, remote := st'.remote, tombCounts := st'.tombCounts,
                        tombRids := st'.tombRids)
    ensures SoleServes(schema, w, kv, st', me)
  {
    hide Faithful, LiveHeld, SyncReady, NothingAmiss, TombsSeen, ViewCurrent, CountedWithin, CountedTo, OwnCounted;
    SoleCounts(w, st', me);
  }

  // ------------------------------------------------------------ the first pass

  lemma PassHoldsLive(schema: Schema, w: World, kv: Net)
    requires ValidSchema(schema) && Inv(schema, w) && w.phase.Idle? && LinksLogged(w, kv) && NothingAmiss(w)
    requires forall ep :: ep in w.Epochs() ==> EpochCopied(schema, w, ep, w.writers, kv)
    ensures LiveHeld(schema, w, kv)
  {
    hide Inv, EpochCopied, LinksLogged, Findable, NothingAmiss, World.Standing, World.Lost;
    AllStands(w);
    LocalLive(schema, w, kv);
    forall l, r | LiveFindable(schema, w.table, l, r) ensures Rec(r) in kv && HeldUnder(w, kv, l, r) {
      assert Listed(kv, ReaderView(w, w.Epochs(), w.writers), l, r);
    }
  }

  /** A completed pass between compactions puts the only writer's mirror into the state in which it serves for good. */
  lemma PassServesSole(schema: Schema, w: World, kv: Net, st: State, me: Writer)
    requires ValidSchema(schema) && Inv(schema, w) && Passed(schema, w, kv, st, me)
    requires w.phase.Idle? && w.writers == {me} && NothingAmiss(w) && CountersTrue(w, st.chains, w.epoch, me)
    ensures SoleServes(schema, w, kv, st, me)
  {
    hide Inv, EpochCopied, LiveHeld, NothingAmiss, CountersTrue, TombsSeen, CountedWithin, SystemCopied, BlobsGenuine,
         MarksOf, NamesOf, Dense, LinksLogged, Reliable;
    SystemRead(schema, w, st, me);
    CopyIsReliable(schema, w, kv, st, me);
    PassHoldsLive(schema, w, kv);
    assert OwnTomb(w.epoch, me) in TombChains(w.Epochs(), w.writers);
  }

  /** The only writer's pass. */
  method SolePass(o: Owner, m: Mirror, net: Net, silent: set<Key>, now: real, duration: real, ghost w: World)
    returns (ok: bool)
    requires ValidSchema(o.schema) && net == w.net && Inv(o.schema, w) && SyncReady(w, m.kv, o.st, o.me)
             && LinksSpeak(net, silent)
    requires w.phase.Idle? && w.writers == {o.me} && NothingAmiss(w)
    requires o.st.epoch == w.epoch && CountersTrue(w, o.st.chains, w.epoch, o.me)
    modifies o`st, m
    ensures silent == {} ==> ok
    ensures ok && Speaks(w, silent) && (forall ep :: ep in w.Epochs() ==> Bounded(o.schema, w, ep)) ==>
              SoleServes(o.schema, w, m.kv, o.st, o.me)
  {
    hide Inv, SyncReady, LinksSpeak, Speaks, Bounded, NothingAmiss, Passed, EpochCopied, SoleServes;
    ghost var st0 := o.st;
    ok := SyncPass(o, m, net, silent, now, duration, w);
    if ok && Speaks(w, silent) && forall ep :: ep in w.Epochs() ==> Bounded(o.schema, w, ep) {
      PassKnows(o.schema, w, m.kv, o.st, o.me);
      forall l: ChainLabel | l.Of? ensures CountAt(o.st.chains, l) == |w.Log(Index(l, w.epoch, o.me))| {
        assert CountAt(st0.chains, l) == st0.Count(o.me, Index(l, w.epoch, o.me));
      }
      PassServesSole(o.schema, w, m.kv, o.st, o.me);
    }
  }

  lemma PassKnows(schema: Schema, w: World, kv: Net, st: State, me: Writer)
    requires Inv(schema, w) && Passed(schema, w, kv, st, me)
    ensures st.epoch == w.epoch
  {
    hide Inv, EpochCopied, TrueCopy, TombsExact, TombsSeen, CountedWithin, MarksOf, NamesOf, Dense;
    SystemRead(schema, w, st, me);
  }

  // ------------------------------------------------------------ its own writes

  lemma WriteSame(schema: Schema, w: World, w': World, ep: nat)
    requires ValidSchema(schema) && Write(schema, w, w', ep)
    ensures w'.epoch == w.epoch && w'.writers == w.writers
  {
    hide RecordChains, Appended, NextSlots, Filled;
  }

  /** What the owner had before its own steps is still right after them. */
  lemma {:induction false} SoleOverSteps(schema: Schema, trace: seq<World>, k: nat, kv: Net, st: State, me: Writer)
    requires ValidSchema(schema) && k < |trace| && Steps(schema, trace, trace[0].epoch) && Inv(schema, trace[0])
    requires trace[0].writers <= {me} && NothingAmiss(trace[0]) && SyncReady(trace[0], kv, st, me)
    ensures Inv(schema, trace[k]) && NothingAmiss(trace[k]) && SyncReady(trace[k], kv, st, me)
            && LogsGrow(trace[0], trace[k])
    ensures trace[k].epoch == trace[0].epoch && trace[k].writers == trace[0].writers
  {
    hide Inv, Step, Write, NothingAmiss, SyncReady, TombsStay, Extends, TableGrows, World.Lost;
    if k > 0 {
      SoleOverSteps(schema, trace, k - 1, kv, st, me);
      var w, w', ep := trace[k - 1], trace[k - 1 + 1], trace[0].epoch;
      assert Write(schema, w, w', ep);
      WriteIsStep(schema, w, w', ep);
      WriteSame(schema, w, w', ep);
      StepKeeps(schema, w, w');
      StepFollows(schema, w, w');
      ReadyFollows(schema, w, w', kv, st, me);
      SoleWriteKeeps(schema, w, w');
      LogsGrowOn(trace[0], w, w');
    } else {
      SameLogsGrow(trace[0]);
    }
  }

  lemma LogsGrowOn(w: World, w1: World, w': World)
    requires LogsGrow(w, w1) && LogsGrow(w1, w')
    ensures LogsGrow(w, w')
  {
    forall c ensures w.Log(c) <= w'.Log(c) {
      assert w.Log(c) <= w1.Log(c) <= w'.Log(c);
    }
  }

  /** A record that has become live was appended by these steps, and what they appended was written through. */
  lemma FreshHeld(schema: Schema, w: World, w': World, kv: Net, kv': Net, l: ChainLabel, r: Rid)
    requires Inv(schema, w) && Inv(schema, w') && LogsGrow(w, w') && w'.phase.Idle? && NothingAmiss(w')
    requires w'.epoch == w.epoch && w'.writers == w.writers
    requires forall c: Chain, i: nat :: c.Index? && Link(c, i) in w'.net && i > |w.Log(c)| ==>
               Link(c, i) in kv' && kv'[Link(c, i)] == w'.net[Link(c, i)]
    requires LiveFindable(schema, w'.table, l, r) && r !in w.table.inserted
    ensures HeldUnder(w', kv', l, r)
  {
    hide Built, SystemTrue, BlobsTrue, Owned, DeadBuried, Carried, WalkedRight, Labelled, Dense, Left, LapsedBelow;
    assert !Left(w'.log, w'.drained, ReadLow(w'), r);
    assert In(w'.log, w'.writers, l, w'.epoch, r);
    var u :| u in w'.writers && Index(l, w'.epoch, u) in w'.log && r in w'.log[Index(l, w'.epoch, u)];
    var c := Index(l, w'.epoch, u);
    var j :| 0 <= j < |w'.log[c]| && w'.log[c][j] == r;
    assert w.Log(c) <= w'.Log(c);
    if j < |w.Log(c)| {
      assert w.Log(c)[j] == r;
      FreshNowhere(schema, w.log, w.table, l, w.epoch, u, r);
    }
    assert Names(kv', {w'.epoch}, w'.writers, c, j + 1, r);
  }

  lemma LiveHeldOn(schema: Schema, w: World, w': World, kv: Net, kv': Net)
    requires Inv(schema, w) && Inv(schema, w') && LogsGrow(w, w') && w'.phase.Idle? && LiveHeld(schema, w, kv)
             && NothingAmiss(w')
    requires w'.epoch == w.epoch && w'.writers == w.writers && TableGrows(w.table, w'.table)
    requires forall c: Chain, i: nat :: c.Index? && Link(c, i) in w'.net && i > |w.Log(c)| ==>
               Link(c, i) in kv' && kv'[Link(c, i)] == w'.net[Link(c, i)]
    requires forall k: Key :: k.Link? && k in kv ==> k in kv' && kv'[k] == kv[k]
    requires forall r :: w'.table.Live(r) && (r in w.table.inserted ==> Rec(r) in kv) ==> Rec(r) in kv'
    ensures LiveHeld(schema, w', kv')
  {
    hide Inv, LogsGrow, Findable, NothingAmiss;
    forall l, r | LiveFindable(schema, w'.table, l, r) ensures Rec(r) in kv' && HeldUnder(w', kv', l, r) {
      if r in w.table.inserted {
        assert LiveFindable(schema, w.table, l, r);
        var c: Chain, i: nat :| Names(kv, {w.epoch}, w.writers, c, i, r) && c.w == l;
        assert Names(kv', {w'.epoch}, w'.writers, c, i, r);
      } else {
        FreshHeld(schema, w, w', kv, kv', l, r);
      }
    }
  }

  lemma SoleInserted(schema: Schema, w: World, w': World, kv: Net, puts: Net, st: State, st': State, me: Writer)
    requires ValidSchema(schema) && Inv(schema, w) && Inv(schema, w') && SoleServes(schema, w, kv, st, me)
    requires w' == w.(net := w.net + puts, table := w'.table, log := w'.log) && TableGrows(w.table, w'.table)
             && LogsGrow(w, w')
    requires SyncReady(w', kv, st, me) && NothingAmiss(w') && NoSystem(puts)
    requires st' == st.(chains := st'.chains) && CountersTrue(w', st'.chains, w'.epoch, me)
    requires w'.Log(OwnTomb(w.epoch, me)) == w.Log(OwnTomb(w.epoch, me))
    ensures SoleServes(schema, w', kv + puts, st', me)
  {
    hide Inv, NothingAmiss, LiveHeld, SyncReady, LogsGrow, SystemStill, CountersTrue, NoSystem;
    var kv' := kv + puts;
    ReadyTakes(schema, w', kv, st, me, puts);
    ReadyCounted(w', kv', st, st', me);
    StillAfter(kv, puts, st, st');
    assert LinksLogged(w', kv) && SystemCopied(w'.net, kv) by { ReadyCopy(w', kv, st, me); }
    InsertedLinks(schema, w, w', kv, puts);
    InsertedBlobs(schema, w, w', puts);
    LiveHeldOn(schema, w, w', kv, kv');
  }

  lemma ReadyCopy(w: World, kv: Net, st: State, me: Writer)
    requires SyncReady(w, kv, st, me)
    ensures LinksLogged(w, kv) && SystemCopied(w.net, kv)
  {
    hide Warm, LinksLogged, SystemCopied, BlobsGenuine, TombsSeen;
  }

  lemma ReadyCounted(w: World, kv: Net, st: State, st': State, me: Writer)
    requires SyncReady(w, kv, st, me) && st' == st.(chains := st'.chains) && st.epoch == w.epoch
             && CountersTrue(w, st'.chains, w.epoch, me)
    ensures SyncReady(w, kv, st', me)
  {
    hide TrueCopy, TombsSeen, MarksOf, NamesOf, Dense, Synced;
    OnlyCounters(w.net, w.Standing(), st, st');
    OnlyCounters(kv, w.Standing(), st, st');
  }

  lemma StillAfter(kv: Net, puts: Net, st: State, st': State)
    requires SystemStill(kv, st) && NoSystem(puts) && st'.epochLen == st.epochLen && st'.regLen == st.regLen
    ensures SystemStill(kv + puts, st')
  {
  }

  lemma InsertedLinks(schema: Schema, w: World, w': World, kv: Net, puts: Net)
    requires Inv(schema, w) && Inv(schema, w') && w'.net == w.net + puts && LinksLogged(w', kv)
             && SystemCopied(w'.net, kv) && NoSystem(puts)
    ensures forall c: Chain, i: nat :: c.Index? && Link(c, i) in w'.net && i > |w.Log(c)| ==>
              Link(c, i) in kv + puts && (kv + puts)[Link(c, i)] == w'.net[Link(c, i)]
    ensures forall k: Key :: k.Link? && k in kv ==> k in kv + puts && (kv + puts)[k] == kv[k]
  {
    hide Built, SystemTrue, BlobsTrue, LogTrue, Owned, MissingWhere, Complete, DeadBuried, Carried, WalkedRight;
    forall k: Key | k.Link? && k in kv ensures (kv + puts)[k] == kv[k] {
      if k in puts {
        assert k == Link(k.chain, k.i) && w'.net[k] == puts[k];
      }
    }
  }

  lemma InsertedBlobs(schema: Schema, w: World, w': World, puts: Net)
    requires Inv(schema, w) && Inv(schema, w') && w'.net == w.net + puts
    ensures forall r :: w'.table.Live(r) && r !in w.table.inserted ==> Rec(r) in puts
  {
    hide Built, SystemTrue, Rendered, LogTrue, Owned, MissingWhere, Complete, DeadBuried, Carried, WalkedRight;
  }

  /** An insert of the only writer, written through once it is durable: its mirror is as current as before. */
  method SoleInsert(o: Owner, m: Mirror, net: Net, recs: seq<(Rid, Record)>, durable: bool, ghost w: World)
    returns (net': Net, ghost w': World)
    requires ValidSchema(o.schema) && net == w.net && Inv(o.schema, w) && SoleServes(o.schema, w, m.kv, o.st, o.me)
             && FreshIds(w, recs)
    modifies o`st, m`kv
    ensures durable ==> && Inv(o.schema, w') && net' == w'.net && SoleServes(o.schema, w', m.kv, o.st, o.me)
                        && w'.table == w.table.(inserted := w.table.inserted + InsertedOf(recs, |recs|))
    ensures !durable ==> net' == net && m.kv == old(m.kv)
  {
    hide Inv, Steps, NothingAmiss, LiveHeld, SyncReady, SystemStill, FreshIds, LogsGrow, TombsStay, Extends,
         CountersTrue;
    ghost var st0 := o.st;
    var puts;
    ghost var trace;
    net', puts, trace := InsertMany(o, net, recs, durable, w);
    StepsStart(o.schema, trace, o.st.epoch);
    w' := trace[|trace| - 1];
    if durable {
      SoleOverSteps(o.schema, trace, |trace| - 1, m.kv, st0, o.me);
      FreshGrows(w, recs);
      SoleInserted(o.schema, w, w', m.kv, puts, st0, o.st, o.me);
      m.PutMany(puts);
    }
  }

  lemma StepsStart(schema: Schema, trace: seq<World>, ep: nat)
    requires ValidSchema(schema) && Steps(schema, trace, ep)
    ensures trace != []
  {
  }

  lemma FreshGrows(w: World, recs: seq<(Rid, Record)>)
    requires FreshIds(w, recs)
    ensures TableGrows(w.table, w.table.(inserted := w.table.inserted + InsertedOf(recs, |recs|)))
  {
    forall r | r in w.table.inserted ensures r !in InsertedOf(recs, |recs|) {
      if r in InsertedOf(recs, |recs|) {
        InsertedOnlyThose(recs, |recs|, r);
      }
    }
  }

  function RecKeys(rids: set<Rid>): set<Key> {
    set r | r in rids :: Rec(r)
  }

  /** Taking ciphertexts out of a copy leaves what it holds true. */
  lemma ReadyDrops(w: World, kv: Net, st: State, me: Writer, rids: set<Rid>)
    requires SyncReady(w, kv, st, me)
    ensures SyncReady(w, kv - RecKeys(rids), st, me)
  {
    hide Warm;
  }

  lemma GrownTombs(w: World, w': World, kv: Net, st: State, st': State, rids: seq<Rid>, me: Writer)
    requires TombsSeen(kv, st, w'.Standing()) && TombsGrown(w, w', rids, |rids|, w.epoch, me)
             && TombCount(st, w.epoch, me) == |w.Log(OwnTomb(w.epoch, me))|
    requires Taken(rids, |rids|) <= w'.table.deleted
    requires st' == st.(tombCounts := st.tombCounts[OwnTomb(w.epoch, me) := |w'.Log(OwnTomb(w.epoch, me))|],
                        tombRids := st.tombRids + Taken(rids, |rids|))
    requires forall i: nat :: Link(OwnTomb(w.epoch, me), i) in kv ==>
               1 <= i <= |w'.Log(OwnTomb(w.epoch, me))|
               && kv[Link(OwnTomb(w.epoch, me), i)] == Entry(w'.Log(OwnTomb(w.epoch, me))[i - 1])
    ensures TombsSeen(kv, st', w'.Standing())
  {
    var c := OwnTomb(w.epoch, me);
    var base := |w.Log(c)|;
    forall x, i: nat | x in st'.tombCounts && 1 <= i <= st'.tombCounts[x] && Link(x, i) in kv && kv[Link(x, i)].Entry?
      ensures kv[Link(x, i)].rid in st'.tombRids
    {
      if x == c && i > base {
        assert w'.Log(c)[i - 1] == rids[..|rids|][i - 1 - base] == rids[i - 1 - base];
      }
    }
  }

  /** All a world or a copy holds of the owner's tombstone chain is as it was appended. */
  lemma OwnTombLinks(schema: Schema, w: World, kv: Net, me: Writer)
    requires Inv(schema, w) && LinksLogged(w, kv)
    ensures forall i: nat :: Link(OwnTomb(w.epoch, me), i) in kv ==>
              1 <= i <= |w.Log(OwnTomb(w.epoch, me))|
              && kv[Link(OwnTomb(w.epoch, me), i)] == Entry(w.Log(OwnTomb(w.epoch, me))[i - 1])
    ensures forall i: nat :: Link(OwnTomb(w.epoch, me), i) in w.net ==>
              1 <= i <= |w.Log(OwnTomb(w.epoch, me))|
              && w.net[Link(OwnTomb(w.epoch, me), i)] == Entry(w.Log(OwnTomb(w.epoch, me))[i - 1])
  {
    hide Built, SystemTrue, BlobsTrue, LogTrue, Owned, MissingWhere, Complete, DeadBuried, Carried, WalkedRight;
  }

  lemma ReadyDeleted(schema: Schema, w: World, w': World, kv: Net, st: State, st': State, rids: seq<Rid>, me: Writer)
    requires Inv(schema, w') && w'.epoch == w.epoch && SyncReady(w', kv, st, me)
             && Taken(rids, |rids|) <= w'.table.deleted
    requires TombsGrown(w, w', rids, |rids|, w.epoch, me) && TombCount(st, w.epoch, me) == |w.Log(OwnTomb(w.epoch, me))|
    requires st' == st.(tombCounts := st.tombCounts[OwnTomb(w.epoch, me) := |w'.Log(OwnTomb(w.epoch, me))|],
                        tombRids := st.tombRids + Taken(rids, |rids|))
    ensures SyncReady(w', kv, st', me)
  {
    hide Inv, LinksLogged, SystemCopied, BlobsGenuine, TombsSeen, TombsGrown, Taken, MarksOf, NamesOf, Dense,
         World.Lost;
    OwnTombLinks(schema, w', kv, me);
    GrownTombs(w, w', kv, st, st', rids, me);
    GrownTombs(w, w', w'.net, st, st', rids, me);
  }

  lemma DeletedLinks(schema: Schema, w: World, w': World, kv: Net, puts: Net, gone: set<Key>, rids: set<Rid>)
    requires Inv(schema, w) && Inv(schema, w') && w'.net == w.net + puts - gone && LinksLogged(w', kv)
    requires (forall k :: k in puts ==> k.Link? && k.chain.Index?) && forall k :: k in gone ==> k.Rec?
    ensures Truthful(w'.net, puts)
    ensures forall c: Chain, i: nat :: c.Index? && Link(c, i) in w'.net && i > |w.Log(c)| ==>
              Link(c, i) in kv + puts - RecKeys(rids) && (kv + puts - RecKeys(rids))[Link(c, i)] == w'.net[Link(c, i)]
    ensures forall k: Key :: k.Link? && k in kv ==>
              k in kv + puts - RecKeys(rids) && (kv + puts - RecKeys(rids))[k] == kv[k]
  {
    hide Built, SystemTrue, BlobsTrue, LogTrue, Owned, MissingWhere, Complete, DeadBuried, Carried, WalkedRight;
    forall k: Key | k.Link? && k in kv ensures k in puts ==> puts[k] == kv[k] {
      assert k == Link(k.chain, k.i);
      if k in puts {
        assert w'.net[k] == puts[k];
      }
    }
  }

  lemma SameCounters(w: World, w': World, rids: seq<Rid>, chains: map<ChainLabel, nat>, me: Writer)
    requires TombsGrown(w, w', rids, |rids|, w.epoch, me) && CountersTrue(w, chains, w.epoch, me)
    ensures CountersTrue(w', chains, w.epoch, me)
  {
  }

  lemma StillWithout(kv: Net, puts: Net, rids: set<Rid>, st: State, st': State)
    requires SystemStill(kv, st) && (forall k :: k in puts ==> k.Link? && k.chain.Index?) && st'.epochLen == st.epochLen
               && st'.regLen == st.regLen
    ensures SystemStill(kv + puts - RecKeys(rids), st')
  {
  }

  lemma SoleDeleted(schema: Schema, w: World, w': World, kv: Net, puts: Net, gone: set<Key>, rids: seq<Rid>, st: State,
                    st': State, me: Writer)
    requires ValidSchema(schema) && Inv(schema, w) && Inv(schema, w') && SoleServes(schema, w, kv, st, me)
    requires w' == w.(net := w.net + puts - gone, table := w.table.(deleted := w.table.deleted + Taken(rids, |rids|)),
                      log := w'.log)
    requires LogsGrow(w, w') && SyncReady(w', kv, st, me) && NothingAmiss(w')
    requires TombKeys(puts, w.epoch, me) && (forall k :: k in gone ==>
                                             k.Rec?) && TombsGrown(w, w', rids, |rids|, w.epoch, me)
    requires st' == st.(tombCounts := st.tombCounts[OwnTomb(w.epoch, me) := |w'.Log(OwnTomb(w.epoch, me))|],
                        tombRids := st.tombRids + Taken(rids, |rids|))
    ensures SoleServes(schema, w', kv + puts - RecKeys(Taken(rids, |rids|)), st', me)
  {
    hide Inv, NothingAmiss, LiveHeld, SyncReady, LogsGrow, SystemStill, CountersTrue, TombsGrown, Taken;
    var kv' := kv + puts - RecKeys(Taken(rids, |rids|));
    assert LinksLogged(w', kv) by { ReadyCopy(w', kv, st, me); }
    DeletedLinks(schema, w, w', kv, puts, gone, Taken(rids, |rids|));
    ReadyTakes(schema, w', kv, st, me, puts);
    ReadyDrops(w', kv + puts, st, me, Taken(rids, |rids|));
    ReadyDeleted(schema, w, w', kv', st, st', rids, me);
    StillWithout(kv, puts, Taken(rids, |rids|), st, st');
    SameCounters(w, w', rids, st.chains, me);
    assert forall r :: w'.table.Live(r) && Rec(r) in kv ==> Rec(r) in kv';
    assert forall r :: w'.table.Live(r) ==> r in w.table.inserted;
    LiveHeldOn(schema, w, w', kv, kv');
  }

  /** A delete of the only writer: tombstones are written through once they are durable, and the ciphertexts leave the
      mirror with the network's, whichever of those were reached. */
  method SoleDelete(o: Owner, m: Mirror, net: Net, rids: seq<Rid>, durable: bool, reached: set<Rid>, ghost w: World)
    returns (net': Net, ghost w': World)
    requires ValidSchema(o.schema) && net == w.net && Inv(o.schema, w) && SoleServes(o.schema, w, m.kv, o.st, o.me)
    modifies o`st, m`kv
    ensures durable ==> && Inv(o.schema, w') && net' == w'.net && SoleServes(o.schema, w', m.kv, o.st, o.me)
                        && w'.table == w.table.(deleted := w.table.deleted + Taken(rids, |rids|))
    ensures !durable ==> net' == net && m.kv == old(m.kv) && o.st == old(o.st)
  {
    hide Inv, Steps, NothingAmiss, LiveHeld, SyncReady, SystemStill, LogsGrow, TombsStay, Extends, CountersTrue, Taken,
         TombsGrown;
    ghost var st0 := o.st;
    var puts;
    ghost var trace;
    net', puts, trace := DeleteMany(o, net, rids, durable, reached, w);
    w' := w;
    if durable {
      StepsStart(o.schema, trace, o.st.epoch);
      w' := trace[|trace| - 1];
      SoleOverSteps(o.schema, trace, |trace| - 1, m.kv, st0, o.me);
      GrownLength(w, w', rids, |rids|, w.epoch, o.me);
      BlobKeysAreRecs(rids, reached);
      SoleDeleted(o.schema, w, w', m.kv, puts, BlobKeys(rids, |rids|, reached), rids, st0, o.st, o.me);
      m.PutMany(puts);
      m.DeleteMany(set r | r in Taken(rids, |rids|) :: Rec(r));
    }
  }

  lemma BlobKeysAreRecs(rids: seq<Rid>, reached: set<Rid>)
    ensures forall k :: k in BlobKeys(rids, |rids|, reached) ==> k.Rec?
  {
  }
}
