/** A compaction as its compactor runs it (Owner.compact in blindrange/client.py): the announcement, the rewrite laid
    out from what the walk and the reading of the tombstones have brought, its writes, the deletion and the seal.
    Whatever does not come back, these are steps of the protocol, but for an announcement that goes by an old epoch.
    */
module Compacting {
  import opened Basics
  import opened Chains
  import opened Index
  import opened Query
  import opened Compaction
  import opened CompactionProof
  import opened Readers
  import opened Mirroring
  import opened Writing

  // ------------------------------------------------------------ the compactor's caches

  /** Along the protocol's steps counters stay within the chains, known names stay known, and warm caches stay warm. */
  lemma {:induction false} WarmAlong(schema: Schema, trace: seq<World>, st: State, me: Writer)
    requires ValidSchema(schema) && Goes(schema, trace) && Inv(schema, trace[0])
    ensures var first, last := trace[0], trace[|trace| - 1];
            && Inv(schema, last)
            && (CountedWithin(st, me, LogLen(first)) ==> CountedWithin(st, me, LogLen(last)))
            && (KnowsNames(first.net, st) ==> KnowsNames(last.net, st))
            && (Warm(first, st, me) ==> Warm(last, st, me))
    decreases |trace|
  {
    hide Inv, Warm, CountedWithin, KnowsNames, Step;
    if |trace| > 1 {
      var init := trace[..|trace| - 1];
      var w, w' := trace[|trace| - 2], trace[|trace| - 1];
      WarmAlong(schema, init, st, me);
      assert init[|init| - 1] == w && Step(schema, w, w');
      StepKeeps(schema, w, w');
      StepFollows(schema, w, w');
      if CountedWithin(st, me, LogLen(w)) {
        CountsFollow(w, w', st, me);
      }
      if KnowsNames(w.net, st) {
        NamesFollow(w, w', st);
      }
      if Warm(w, st, me) {
        WarmFollows(schema, w, w', st, me);
      }
    }
  }

  lemma CountsFollow(w: World, w': World, st: State, me: Writer)
    requires Follows(w, w') && CountedWithin(st, me, LogLen(w))
    ensures CountedWithin(st, me, LogLen(w'))
  {
    forall c ensures LogLen(w)(c) <= LogLen(w')(c) {
      assert w.Log(c) <= w'.Log(c);
    }
  }

  lemma NamesFollow(w: World, w': World, st: State)
    requires Follows(w, w') && KnowsNames(w.net, st)
    ensures KnowsNames(w'.net, st)
  {
    SameNames(w.net, w'.net, st.regLen);
  }

  // ------------------------------------------------------------ the announcement

  /** The system chains could not be read, or two epochs are being read already, or the epoch after some
      other has been announced, by a compactor that knows certain writers. */
  datatype Announced = Unread | InFlight | Made(from: nat, walkers: set<Writer>)

  ghost function OpenedWorld(w: World, me: Writer, walkers: set<Writer>): World
    requires Dense(w.net, EpochChain)
  {
    w.(net := w.net[Link(EpochChain, EndOf(w.net, EpochChain) + 1) := Opened(w.epoch + 1)],
       epoch := w.epoch + 1, phase := Draining, compactor := me, walkers := walkers)
  }

  /** Read the epoch chain and the registry, and announce the next epoch unless one is in flight. The writers known are
      registered ones, all of them if and only if every name that did not come back was known. The announcement is the
      opening step if and only if no marker that did not come back is higher than those read. */
  method Announce(o: Owner, net: Net, silent: set<Key>, ghost w: World)
    returns (r: Announced, net': Net, ghost unread: set<Key>, ghost unnamed: set<Key>)
    requires ValidSchema(o.schema) && net == w.net && Inv(o.schema, w) && Warm(w, o.st, o.me) && o.me in o.st.writers
    modifies o`st
    ensures unread + unnamed <= silent && (silent == {} ==> !r.Unread?)
    ensures !r.Made? ==> net' == net
    ensures r.Made? ==> && o.me in r.walkers && r.walkers <= w.writers
                        && (r.walkers == w.writers <==> NamesWithin(net, unnamed, o.st.writers))
    ensures r.Made? ==> && Dense(net, EpochChain)
                        && (OpensRight(w, o.me, r.walkers, net') <==>
                            MarksWithin(net, unread, (r.from, o.st.sealedMax)))
    ensures r.Made? ==> o.st.epoch == r.from + 1 && o.st.chains == map[] && (set u | u in o.st.writers) == r.walkers
    ensures r.Made? ==> CountedWithin(o.st, o.me, LogLen(w))
    ensures silent == {} ==> (r.InFlight? <==> !w.phase.Idle?) && (r.Made? <==> w.phase.Idle?)
    ensures r.Made? && OpensRight(w, o.me, r.walkers, net') ==>
              && Dense(net', EpochChain) && o.st.epochLen == EndOf(net', EpochChain) && o.st.sealedMax == w.epoch - 1
              && (Warm(OpenedWorld(w, o.me, r.walkers), o.st, o.me) <==> NamesWithin(net, unnamed, o.st.writers))
  {
    hide Inv, Warm, SearchAsks, OpenedHeard, MarksWithin, NamesWithin, MarksOf, NamesOf, Trusted, World.Standing,
         OpensRight, Synced, KnowsNames, Dense, Fewer, LinksSpeak, OpenedWorld, TrueEpochs, TrueReaders;
    unread, unnamed := {}, {};
    net' := net;
    SystemOf(o.schema, w, o.st, o.me);
    WarmIsTrusted(o.schema, w, o.st, o.me);
    var ok;
    ok, unread := o.RefreshEpoch(net, silent, w.Standing(), LogLen(w));
    if !ok {
      return Unread, net, unread, unnamed;
    }
    ghost var st1 := o.st;
    SameNamesKnown(net, old(o.st), st1);
    ok, unnamed := o.RefreshWriters(net, silent, w.Standing(), LogLen(w));
    if !ok {
      return Unread, net, unread, unnamed;
    }
    ghost var st2 := o.st;
    NothingUnread(o.schema, w, st1, unread);
    if o.st.sealedMax < o.st.epoch - 1 {
      return InFlight, net, unread, unnamed;
    }
    var slot, epoch := o.st.epochLen + 1, o.st.epoch + 1;
    net' := net[Link(EpochChain, slot) := Opened(epoch)];
    r := Made(o.st.epoch, set u | u in o.st.writers);
    WalkersRight(o.schema, w, o.st, r.walkers, unnamed);
    AnnouncedRight(o.schema, w, unread, st1, o.me, r.walkers, net');
    WarmIsTrusted(o.schema, w, st2, o.me);
    o.st := o.st.(epochLen := slot, epoch := epoch, chains := map[]);
    FewerCounted(w, old(o.st), o.st, o.me);
    if OpensRight(w, o.me, r.walkers, net') {
      AnnouncedWarm(o.schema, w, st2, o.st, o.me, r.walkers, net', unnamed);
    }
  }

  /** With everything heard, a second epoch is seen exactly while one is in flight. */
  lemma NothingUnread(schema: Schema, w: World, st: State, unread: set<Key>)
    requires Inv(schema, w) && st.epochLen == EndOf(w.net, EpochChain)
    requires Synced(w.net, st) <==> MarksWithin(w.net, unread, (st.epoch, st.sealedMax))
    ensures Synced(w.net, st) || unread != {}
    ensures Synced(w.net, st) ==> (st.sealedMax < st.epoch - 1 <==> !w.phase.Idle?)
  {
    hide Built, Rendered, BlobsTrue, LogTrue, Owned, MissingWhere, Complete, DeadBuried, Carried, WalkedRight, MarksOf,
         NamesOf;
  }

  /** The caches after the opening step are right exactly when all names have been heard or known. */
  lemma WarmOpened(schema: Schema, w: World, st: State, st': State, me: Writer, walkers: set<Writer>, unnamed: set<Key>)
    requires ValidSchema(schema) && Inv(schema, w) && Dense(w.net, EpochChain)
    requires Open(w, OpenedWorld(w, me, walkers), me, walkers)
    requires st' == st.(epochLen := EndOf(w.net, EpochChain) + 1, epoch := w.epoch + 1, chains := map[])
    requires st.epochLen == EndOf(w.net, EpochChain) && st.regLen == EndOf(w.net, RegistryChain)
    requires walkers == (set u | u in st.writers)
    requires walkers == w.writers <==> NamesWithin(w.net, unnamed, st.writers)
    requires walkers == w.writers ==> Warm(w, st, me)
    ensures Dense(OpenedWorld(w, me, walkers).net, EpochChain)
    ensures EndOf(OpenedWorld(w, me, walkers).net, EpochChain) == st'.epochLen
    ensures Warm(OpenedWorld(w, me, walkers), st', me) <==> NamesWithin(w.net, unnamed, st.writers)
  {
    hide Inv, NamesWithin, Synced, CountedWithin, TombsSeen, Open, World.Standing;
    var w' := OpenedWorld(w, me, walkers);
    OpenedSynced(schema, w, st, st', me, walkers);
    if walkers == w.writers {
      OpensByStep(schema, w, me, walkers);
      StepKeeps(schema, w, w');
      StepFollows(schema, w, w');
      WarmFollows(schema, w, w', st, me);
      OpenedWarm(w', st, st', me);
    }
  }

  lemma FewerCounted(w: World, st: State, st': State, me: Writer)
    requires Warm(w, st, me) && st'.chains == map[]
    requires Fewer(st'.tombCounts, st.tombCounts) && Fewer(st'.remote, st.remote)
    ensures CountedWithin(st', me, LogLen(w))
  {
    hide Synced, TombsSeen, World.Standing;
  }

  lemma AnnouncedWarm(schema: Schema, w: World, st: State, st': State, me: Writer, walkers: set<Writer>, net': Net,
                      unnamed: set<Key>)
    requires ValidSchema(schema) && Inv(schema, w) && Dense(w.net, EpochChain) && OpensRight(w, me, walkers, net')
    requires net' == w.net[Link(EpochChain, EndOf(w.net, EpochChain) + 1) := Opened(st.epoch + 1)]
    requires st' == st.(epochLen := EndOf(w.net, EpochChain) + 1, epoch := st.epoch + 1, chains := map[])
    requires st.epochLen == EndOf(w.net, EpochChain) && st.regLen == EndOf(w.net, RegistryChain)
    requires walkers == (set u | u in st.writers)
    requires walkers == w.writers <==> NamesWithin(w.net, unnamed, st.writers)
    requires walkers == w.writers ==> Warm(w, st, me)
    ensures Dense(net', EpochChain) && EndOf(net', EpochChain) == st'.epochLen
    ensures Warm(OpenedWorld(w, me, walkers), st', me) <==> NamesWithin(w.net, unnamed, st.writers)
  {
    hide Inv, NamesWithin, Warm, Open, OpensRight, OpenedWorld;
    OpensAt(w, me, walkers, net', st);
    WarmOpened(schema, w, st, st', me, walkers, unnamed);
  }

  lemma OpensAt(w: World, me: Writer, walkers: set<Writer>, net': Net, st: State)
    requires Dense(w.net, EpochChain) && OpensRight(w, me, walkers, net')
    requires net' == w.net[Link(EpochChain, EndOf(w.net, EpochChain) + 1) := Opened(st.epoch + 1)]
    ensures st.epoch == w.epoch && net' == OpenedWorld(w, me, walkers).net
            && Open(w, OpenedWorld(w, me, walkers), me, walkers)
  {
    assert net'[Link(EpochChain, EndOf(w.net, EpochChain) + 1)] == Opened(st.epoch + 1);
  }

  lemma OpensByStep(schema: Schema, w: World, me: Writer, walkers: set<Writer>)
    requires ValidSchema(schema) && Dense(w.net, EpochChain) && Open(w, OpenedWorld(w, me, walkers), me, walkers)
    ensures Step(schema, w, OpenedWorld(w, me, walkers))
  {
    hide Open, Insert, Bury, Erase, Register, Walk, Layout, Compaction.Rewrite, BeginDelete, Remove, Seal;
  }

  lemma OpenedWarm(w: World, st: State, st': State, me: Writer)
    requires Warm(w, st, me) && Synced(w.net, st')
    requires st' == st.(epochLen := st'.epochLen, epoch := st'.epoch, chains := map[])
    ensures Warm(w, st', me)
  {
    hide Synced, World.Standing;
  }

  /** The system part of the caches, one marker on. */
  lemma OpenedSynced(schema: Schema, w: World, st: State, st': State, me: Writer, walkers: set<Writer>)
    requires Inv(schema, w) && Dense(w.net, EpochChain) && walkers == (set u | u in st.writers)
    requires st.epochLen == EndOf(w.net, EpochChain) && st.regLen == EndOf(w.net, RegistryChain)
    requires st' == st.(epochLen := EndOf(w.net, EpochChain) + 1, epoch := w.epoch + 1, chains := map[])
    ensures var net' := OpenedWorld(w, me, walkers).net;
            && Dense(net', EpochChain) && EndOf(net', EpochChain) == st'.epochLen
            && (Synced(net', st') ==> walkers == w.writers)
            && (walkers == w.writers && Synced(w.net, st) ==> Synced(net', st'))
  {
    hide Built, Rendered, BlobsTrue, LogTrue, Owned, MissingWhere, Complete, DeadBuried, Carried, WalkedRight, MarksOf,
         NamesOf, Dense;
    MarkAdded(w.net, Opened(w.epoch + 1));
  }

  /** One more marker at the end of the epoch chain. */
  lemma MarkAdded(net: Net, mark: Item)
    requires Dense(net, EpochChain) && Dense(net, RegistryChain)
    ensures var n := EndOf(net, EpochChain); var net' := net[Link(EpochChain, n + 1) := mark];
            && Dense(net', EpochChain) && EndOf(net', EpochChain) == n + 1
            && MarksOf(net', n + 1) == AfterMark(MarksOf(net, n), mark)
            && Dense(net', RegistryChain) && EndOf(net', RegistryChain) == EndOf(net, RegistryChain)
            && forall m :: NamesOf(net', m) == NamesOf(net, m)
  {
    var n := EndOf(net, EpochChain);
    var net' := net[Link(EpochChain, n + 1) := mark];
    OneMore(net, EpochChain, mark);
    SameEnd(net, net', RegistryChain);
    SameMarks(net, net', n);
    assert DenseTo(net', EpochChain, n + 1);
    DenseEnd(net', EpochChain, n + 1);
    forall m ensures NamesOf(net', m) == NamesOf(net, m) {
      SameNames(net, net', m);
    }
  }

  /** The network is now what it is after the opening step. */
  ghost predicate OpensRight(w: World, me: Writer, walkers: set<Writer>, net': Net)
    requires Dense(w.net, EpochChain)
  {
    Open(w, OpenedWorld(w, me, walkers), me, walkers) && net' == OpenedWorld(w, me, walkers).net
  }

  lemma SystemOf(schema: Schema, w: World, st: State, me: Writer)
    requires Inv(schema, w) && Warm(w, st, me)
    ensures Synced(w.net, st) && KnowsNames(w.net, st) && Dense(w.net, EpochChain) && Dense(w.net, RegistryChain)
    ensures NamesOf(w.net, EndOf(w.net, RegistryChain)) == w.writers
  {
    hide Built, Rendered, BlobsTrue, LogTrue, Owned, MissingWhere, Complete, DeadBuried, Carried, WalkedRight,
         CountedWithin, TombsSeen, MarksOf, NamesOf;
  }

  lemma SameNamesKnown(net: Net, st: State, st': State)
    requires KnowsNames(net, st) && st'.regLen == st.regLen && st'.writers == st.writers
    ensures KnowsNames(net, st')
  {
    hide NamesOf, Dense;
  }

  lemma WalkersRight(schema: Schema, w: World, st: State, walkers: set<Writer>, unnamed: set<Key>)
    requires Dense(w.net, RegistryChain) && NamesOf(w.net, EndOf(w.net, RegistryChain)) == w.writers
    requires st.regLen == EndOf(w.net, RegistryChain) && (KnowsNames(w.net, st) <==>
                                                          NamesWithin(w.net, unnamed, st.writers))
    requires walkers == (set u | u in st.writers) && forall u :: u in st.writers ==> u in w.writers
    ensures walkers <= w.writers && (walkers == w.writers <==> NamesWithin(w.net, unnamed, st.writers))
  {
    hide NamesOf, NamesWithin, Dense;
  }

  lemma AnnouncedRight(schema: Schema, w: World, unread: set<Key>, st: State, me: Writer, walkers: set<Writer>,
                       net': Net)
    requires Inv(schema, w) && Dense(w.net, EpochChain) && me in walkers && walkers <= w.writers
    requires st.epochLen == EndOf(w.net, EpochChain) && (Synced(w.net, st) <==>
                                                         MarksWithin(w.net, unread, (st.epoch, st.sealedMax)))
    requires st.sealedMax >= st.epoch - 1 && KnowsNames(w.net, st)
    requires net' == w.net[Link(EpochChain, st.epochLen + 1) := Opened(st.epoch + 1)] && forall k :: k in unread ==>
               k.Link? && k.chain == EpochChain
    ensures OpensRight(w, me, walkers, net') <==> MarksWithin(w.net, unread, (st.epoch, st.sealedMax))
    ensures OpensRight(w, me, walkers, net') ==> st.sealedMax == w.epoch - 1
  {
    hide Built, Rendered, BlobsTrue, LogTrue, Owned, MissingWhere, Complete, DeadBuried, Carried, WalkedRight, MarksOf,
         NamesOf;
    var slot := Link(EpochChain, EndOf(w.net, EpochChain) + 1);
    if Synced(w.net, st) {
      assert (st.epoch, st.sealedMax) == (w.epoch, w.SealedMax());
    }
    if OpensRight(w, me, walkers, net') {
      assert net'[slot] == Opened(w.epoch + 1);
      forall k | k in unread && k in w.net ensures MarkWithin(w.net[k], (st.epoch, st.sealedMax)) {
        assert k == Link(EpochChain, k.i);
        MarksRise(w.net, 0, EndOf(w.net, EpochChain));
      }
    }
  }

  // ------------------------------------------------------------ the rewrite

  /** What is left under each label, in some order. */
  method LayOut(entries: map<ChainLabel, set<Rid>>, tombs: set<Rid>) returns (plan: map<ChainLabel, seq<Rid>>)
    ensures Plan(entries, tombs, plan)
  {
    plan := map[];
    var todo := entries.Keys;
    while todo != {}
      invariant todo <= entries.Keys && plan.Keys == entries.Keys - todo
      invariant forall l :: l in plan ==> NoDuplicates(plan[l]) && Elements(plan[l]) == entries[l] - tombs
      decreases todo
    {
      var l :| l in todo;
      var live := InTurn(entries[l] - tombs);
      plan := plan[l := live];
      todo := todo - {l};
    }
    forall l | l in entries ensures (set r | r in Laid(plan, l)) == entries[l] - tombs {
      assert Elements(plan[l]) == entries[l] - tombs;
    }
  }

  method InTurn(ids: set<Rid>) returns (s: seq<Rid>)
    ensures NoDuplicates(s) && Elements(s) == ids
  {
    s := [];
    var rest := ids;
    while rest != {}
      invariant NoDuplicates(s) && Elements(s) !! rest && Elements(s) + rest == ids
      decreases rest
    {
      var r :| r in rest;
      assert r !in s by {
        assert r !in Elements(s);
      }
      assert Elements(s + [r]) == Elements(s) + {r};
      s, rest := s + [r], rest - {r};
    }
  }

  /** The entries of a plan, as its compactor writes them. */
  function PutsFor(plan: map<ChainLabel, seq<Rid>>, ep: nat, me: Writer): Net {
    map k | k in PlanSlots(plan, ep, me) && k.Link? && k.chain.Index? && k.chain.w in plan
    && 1 <= k.i <= |plan[k.chain.w]|
      :: Entry(plan[k.chain.w][k.i - 1])
  }

  ghost function LaidWorld(w: World, tombs: set<Rid>, plan: map<ChainLabel, seq<Rid>>): World
    requires w.epoch > 0
  {
    w.(phase := Rewriting, log := w.log + PlanLog(plan, w.epoch, w.compactor),
       missing := w.missing + PlanSlots(plan, w.epoch, w.compactor), heard := w.heard[w.epoch - 1 := tombs])
  }

  /** Read the tombstones of the writers known, lay the rewrite out and write it. Whatever does not come back, that is
      the protocol's layout step, by the tombstones known and heard of, and its rewriting steps. */
  method Rewrite(o: Owner, net: Net, entries: map<ChainLabel, set<Rid>>, writers: set<Writer>, silent: set<Key>,
                 ghost w: World)
    returns (ok: bool, net': Net, counters: map<ChainLabel, nat>, ghost unread: set<Key>, ghost trace: seq<World>)
    requires ValidSchema(o.schema) && net == w.net && Inv(o.schema, w) && w.phase == Walked(entries) && w.epoch > 0
    requires o.me == w.compactor && writers == w.walkers && o.st.Epochs() == w.Epochs()
             && TombsSeen(net, o.st, w.Standing())
    modifies o`st
    ensures unread <= silent && (silent == {} ==> ok)
    ensures o.st == old(o.st).(tombCounts := o.st.tombCounts, tombRids := o.st.tombRids)
    ensures forall x :: x in o.st.tombRids ==> x in old(o.st).tombRids || TombHeard(net, unread, x)
    ensures ok ==> (TombsSeen(net, o.st, w.Standing()) <==> TombsTaken(net, unread, o.st.tombRids))
    ensures ok ==> |trace| >= 2 && trace[0] == w && Goes(o.schema, trace) && net' == trace[|trace| - 1].net
    ensures ok ==>
              (exists plan :: Layout(w, trace[1], o.st.tombRids, plan))
              && trace[|trace| - 1] == trace[1].(net := net', missing := w.missing)
    ensures ok ==> CountersTrue(trace[|trace| - 1], counters, w.epoch, o.me)
    ensures !ok ==> net' == net
    ensures CountedWithin(old(o.st), o.me, LogLen(w)) ==> CountedWithin(o.st, o.me, LogLen(w))
    ensures ok && Warm(w, old(o.st), o.me) && TombsTaken(net, unread, o.st.tombRids) ==>
              Warm(trace[|trace| - 1], o.st, o.me)
  {
    hide Inv, TombsSeen, TombsTaken, TombHeard, World.Standing, PutsFor, Plan, PlanLog, PlanSlots, SearchAsks,
         TombChains, StopsAt, LinksSpeak, EntriesTrue, Layout, Goes, CountedWithin, Warm;
    EntriesOnWalk(o.schema, w, w.Epochs());
    trace := [w];
    var tombs;
    tombs, unread := RefreshTombs(net, o.st, o.me, writers, silent, o.schema, w.Standing());
    if tombs.Failure? {
      return false, net, map[], unread, trace;
    }
    ghost var st0 := o.st;
    o.st := tombs.value;
    HeardAreGone(o.schema, w, st0, o.st, unread);
    SameEpoch(w, st0);
    var plan := LayOut(entries, o.st.tombRids);
    net' := net + PutsFor(plan, o.st.epoch, o.me);
    counters := map l | l in plan :: |plan[l]|;
    trace := RewriteGoes(o.schema, w, o.st.tombRids, plan);
    CountsAreTrue(o.schema, w, o.st.tombRids, plan, trace[1], trace[|trace| - 1], counters);
    TombsTracked(o.schema, w, st0, o.st, o.me, writers);
    WarmAlong(o.schema, trace, o.st, o.me);
    return true, net', counters, unread, trace;
  }

  /** Reading tombstones leaves the rest of the caches as it was, and counts no chain further than it goes. */
  lemma TombsTracked(schema: Schema, w: World, st: State, st': State, me: Writer, ws: set<Writer>)
    requires Inv(schema, w) && st' == st.(tombCounts := st'.tombCounts, tombRids := st'.tombRids)
    requires forall c :: c in TombChains(st.Epochs(), ws) ==>
               c in st'.tombCounts && StopsAt(w.net, c, st.Count(me, c), st'.tombCounts[c])
    requires forall c :: c in st'.tombCounts && c !in TombChains(st.Epochs(), ws) ==>
               c in st.tombCounts && st'.tombCounts[c] == st.tombCounts[c]
    ensures CountedWithin(st, me, LogLen(w)) ==> CountedWithin(st', me, LogLen(w))
    ensures Warm(w, st, me) && TombsSeen(w.net, st', w.Standing()) ==> Warm(w, st', me)
  {
    hide Inv, MarksOf, NamesOf, Dense, TombsSeen, World.Standing;
    if CountedWithin(st, me, LogLen(w)) {
      EntriesOnWalk(schema, w, {});
      forall c | c in st'.tombCounts ensures c.Index? && c.w == Tomb && st'.tombCounts[c] <= LogLen(w)(c) {
        if c in TombChains(st.Epochs(), ws) {
          CountIsWithin(st, me, LogLen(w), c);
        }
      }
    }
  }

  lemma SameEpoch(w: World, st: State)
    requires w.phase.Walked? && w.epoch > 0 && st.Epochs() == w.Epochs()
    ensures st.epoch == w.epoch
  {
    assert w.epoch in st.Epochs() && w.epoch - 1 in st.Epochs();
  }

  /** The compactor's counters say how long the chains of its rewrite are. */
  lemma CountsAreTrue(schema: Schema, w: World, tombs: set<Rid>, plan: map<ChainLabel, seq<Rid>>, w1: World, w': World,
                      counters: map<ChainLabel, nat>)
    requires Inv(schema, w) && Layout(w, w1, tombs, plan) && w'.log == w1.log && counters == map l | l in plan ::
               |plan[l]|
    ensures CountersTrue(w', counters, w.epoch, w.compactor)
  {
    hide Built, SystemTrue, Rendered, BlobsTrue, LogTrue, MissingWhere, Complete, DeadBuried, Carried, WalkedRight,
         Layout, Plan, PlanLog, PlanSlots;
    LayoutParts(w, w1, tombs, plan);
    forall l: ChainLabel | l.Of? ensures CountAt(counters, l) == |w'.Log(Index(l, w.epoch, w.compactor))| {
      PlanLogAt(plan, w.epoch, w.compactor, Index(l, w.epoch, w.compactor));
    }
  }

  lemma HeardAreGone(schema: Schema, w: World, st: State, st': State, unread: set<Key>)
    requires Inv(schema, w) && TombsSeen(w.net, st, w.Standing())
    requires forall x :: x in st'.tombRids ==> x in st.tombRids || TombHeard(w.net, unread, x)
    ensures Gone(w, st'.tombRids)
  {
    hide Inv, World.Lost;
    forall x | x in st'.tombRids && TombHeard(w.net, unread, x) ensures x in w.table.deleted {
      var c: Chain, i: nat :| Link(c, i) in w.net && Link(c, i) !in unread && w.net[Link(c, i)] == Entry(x) && c.Index?
          && c.w == Tomb;
      EntriesOnWalk(schema, w, {c.epoch});
    }
  }

  /** A stretch of the protocol's steps. */
  ghost predicate Goes(schema: Schema, trace: seq<World>)
    requires ValidSchema(schema)
  {
    trace != [] && forall k :: 0 <= k < |trace| - 1 ==> Step(schema, trace[k], trace[k + 1])
  }

  lemma GoesOn(schema: Schema, trace: seq<World>, w': World)
    requires ValidSchema(schema) && Goes(schema, trace) && Step(schema, trace[|trace| - 1], w')
    ensures Goes(schema, trace + [w'])
  {
    hide Step;
  }

  lemma GoesFurther(schema: Schema, a: seq<World>, b: seq<World>)
    requires ValidSchema(schema) && Goes(schema, a) && Goes(schema, b) && Step(schema, a[|a| - 1], b[0])
    ensures Goes(schema, a + b)
  {
    hide Step;
  }

  /** Slots of the newest epoch that have not been written yet. */
  ghost predicate Awaited(w: World, todo: set<Key>) {
    forall k :: k in todo ==>
        k in w.missing && k.Link? && k.chain.Index? && k.chain.epoch == w.epoch && 1 <= k.i <= |w.Log(k.chain)|
  }

  ghost function ItemAt(w: World, k: Key): Item {
    if k.Link? && 1 <= k.i <= |w.Log(k.chain)| then Entry(w.Log(k.chain)[k.i - 1]) else Entry(0)
  }

  ghost function Landed(w: World, todo: set<Key>): World {
    w.(net := w.net + map k | k in todo :: ItemAt(w, k), missing := w.missing - todo)
  }

  /** They are written one after another, in any order. */
  lemma {:induction false} LandAll(schema: Schema, w: World, todo: set<Key>) returns (trace: seq<World>)
    requires ValidSchema(schema) && w.phase.Rewriting? && Awaited(w, todo)
    ensures Goes(schema, trace) && trace[0] == w && trace[|trace| - 1] == Landed(w, todo)
    decreases |todo|
  {
    hide Step;
    if todo == {} {
      trace := [w];
      assert (map k | k in todo :: ItemAt(w, k)) == map[];
      assert w.net + map[] == w.net && w.missing - {} == w.missing;
    } else {
      var k :| k in todo;
      trace := LandAll(schema, w, todo - {k});
      var at := trace[|trace| - 1];
      LandOne(schema, w, todo, k, at);
      GoesOn(schema, trace, Landed(w, todo));
      trace := trace + [Landed(w, todo)];
    }
  }

  lemma LandOne(schema: Schema, w: World, todo: set<Key>, k: Key, at: World)
    requires ValidSchema(schema) && w.phase.Rewriting? && Awaited(w, todo) && k in todo && at == Landed(w, todo - {k})
    ensures Step(schema, at, Landed(w, todo))
  {
    var w' := Landed(w, todo);
    assert w'.net == at.net[k := ItemAt(w, k)];
    assert w'.missing == at.missing - {k};
    assert at.Log(k.chain) == w.Log(k.chain) && k == Link(k.chain, k.i);
    assert Compaction.Rewrite(at, w', k.chain, k.i);
  }

  lemma PlanIsAwaited(w: World, tombs: set<Rid>, plan: map<ChainLabel, seq<Rid>>)
    requires w.epoch > 0
    ensures var w' := LaidWorld(w, tombs, plan);
            && Awaited(w', PlanSlots(plan, w.epoch, w.compactor))
            && (map k | k in PlanSlots(plan, w.epoch, w.compactor) ::
                ItemAt(w', k)) == PutsFor(plan, w.epoch, w.compactor)
  {
    hide PlanLog;
    var w' := LaidWorld(w, tombs, plan);
    forall k | k in PlanSlots(plan, w.epoch, w.compactor)
      ensures k.Link? && k.chain.Index? && k.chain.epoch == w.epoch && k.chain.w in plan
              && w'.Log(k.chain) == plan[k.chain.w]
    {
      PlanLogAt(plan, w.epoch, w.compactor, k.chain);
    }
  }

  lemma RewriteGoes(schema: Schema, w: World, tombs: set<Rid>, plan: map<ChainLabel, seq<Rid>>)
    returns (trace: seq<World>)
    requires ValidSchema(schema) && Inv(schema, w) && w.phase.Walked? && w.epoch > 0 && Gone(w, tombs)
             && Plan(w.phase.entries, tombs, plan)
    ensures |trace| >= 2 && trace[0] == w && Goes(schema, trace) && Layout(w, trace[1], tombs, plan)
    ensures trace[|trace| - 1] == trace[1].(net := w.net + PutsFor(plan, w.epoch, w.compactor), missing := w.missing)
  {
    hide Inv, Gone, Plan, PlanLog, PlanSlots, PutsFor, Awaited, Goes, Step;
    var w' := LaidWorld(w, tombs, plan);
    PlanIsAwaited(w, tombs, plan);
    LaysOut(schema, w, tombs, plan);
    var slots := PlanSlots(plan, w.epoch, w.compactor);
    var tail := LandAll(schema, w', slots);
    PlanIsNew(schema, w, plan);
    assert w.missing + slots - slots == w.missing;
    StartsGoing(schema, w);
    GoesFurther(schema, [w], tail);
    trace := [w] + tail;
    assert tail != [] by { GoesSomewhere(schema, tail); }
  }

  lemma StartsGoing(schema: Schema, w: World)
    requires ValidSchema(schema)
    ensures Goes(schema, [w])
  {
  }

  lemma GoesSomewhere(schema: Schema, trace: seq<World>)
    requires ValidSchema(schema) && Goes(schema, trace)
    ensures trace != []
  {
    hide Step;
  }

  lemma LaysOut(schema: Schema, w: World, tombs: set<Rid>, plan: map<ChainLabel, seq<Rid>>)
    requires ValidSchema(schema) && w.phase.Walked? && w.epoch > 0 && Gone(w, tombs)
             && Plan(w.phase.entries, tombs, plan)
    ensures Layout(w, LaidWorld(w, tombs, plan), tombs, plan) && Step(schema, w, LaidWorld(w, tombs, plan))
  {
    hide Gone, Plan, PlanLog, PlanSlots, Insert, Bury, Erase, Register, Open, Walk, Compaction.Rewrite, BeginDelete,
         Remove, Seal;
  }

  lemma PlanIsNew(schema: Schema, w: World, plan: map<ChainLabel, seq<Rid>>)
    requires Inv(schema, w) && w.phase.Walked?
    ensures w.missing !! PlanSlots(plan, w.epoch, w.compactor)
  {
    hide Built, SystemTrue, Rendered, BlobsTrue, LogTrue, Owned, Complete, DeadBuried, Carried, WalkedRight;
  }

  // ------------------------------------------------------------ deletion and seal

  /** Keys of the epoch below the newest that were written once. */
  ghost predicate OldKeys(w: World, keys: set<Key>) {
    forall k :: k in keys ==> k.Link? && k.chain.Index? && k.chain.epoch + 1 == w.epoch && 1 <= k.i <= |w.Log(k.chain)|
  }

  /** They go one after another, in any order. */
  lemma {:induction false} RemoveAll(schema: Schema, w: World, keys: set<Key>) returns (trace: seq<World>)
    requires ValidSchema(schema) && w.phase.Deleting? && OldKeys(w, keys)
    ensures Goes(schema, trace) && trace[0] == w
            && trace[|trace| - 1] == w.(net := w.net - keys, missing := w.missing + keys)
    decreases |keys|
  {
    hide Step;
    if keys == {} {
      trace := [w];
      assert w.net - {} == w.net && w.missing + {} == w.missing;
    } else {
      var k :| k in keys;
      trace := RemoveAll(schema, w, keys - {k});
      var w' := w.(net := w.net - keys, missing := w.missing + keys);
      RemoveOne(schema, w, keys, k, trace[|trace| - 1], w');
      GoesOn(schema, trace, w');
      trace := trace + [w'];
    }
  }

  lemma RemoveOne(schema: Schema, w: World, keys: set<Key>, k: Key, at: World, w': World)
    requires ValidSchema(schema) && w.phase.Deleting? && OldKeys(w, keys) && k in keys
    requires at == w.(net := w.net - (keys - {k}), missing := w.missing + (keys - {k}))
    requires w' == w.(net := w.net - keys, missing := w.missing + keys)
    ensures Step(schema, at, w')
  {
    assert w'.net == at.net - {k} && w'.missing == at.missing + {k};
    assert k == Link(k.chain, k.i) && at.Log(k.chain) == w.Log(k.chain);
    assert Remove(at, w', k.chain, k.i);
  }

  /** Of two counters of each chain, the higher one. */
  function HigherCounts(a: map<ChainLabel, nat>, b: map<ChainLabel, nat>): map<ChainLabel, nat> {
    map l | l in a.Keys + b.Keys :: if CountAt(a, l) < CountAt(b, l) then CountAt(b, l) else CountAt(a, l)
  }

  /** Delete the old keys, as far as they are reached, and seal their epoch: the protocol's deleting steps and its
      seal. The compactor's counters are right for its next inserts; and its caches are warm, and its next query can
      trust them, exactly when it knew all writers its registry slots name and no seal yet to come. Tombstones it had
      missed do not matter any more: those of the new epoch are read anew, from the first on. */
  method Finish(o: Owner, net: Net, oldKeys: set<Key>, reached: set<Key>, counters: map<ChainLabel, nat>,
                ghost w: World)
    returns (net': Net, ghost trace: seq<World>)
    requires ValidSchema(o.schema) && net == w.net && Inv(o.schema, w) && w.phase.Rewriting? && OldKeys(w, oldKeys)
    requires forall k: Key :: k in w.missing && k.Link? && k.chain.Index? ==> k.chain.epoch != w.epoch
    requires o.st.epoch == w.epoch && Dense(net, EpochChain) && o.st.epochLen == EndOf(net, EpochChain)
    requires CountedWithin(o.st, o.me, LogLen(w))
    requires CountersTrue(w, counters, w.epoch, o.me)
    modifies o`st
    ensures Goes(o.schema, trace) && trace[0] == w
    ensures var w' := trace[|trace| - 1];
            && w' == w.(net := net', missing := w.missing + oldKeys * reached, phase := Idle)
            && CountersTrue(w', o.st.chains, o.st.epoch, o.me)
            && (Warm(w', o.st, o.me) <==> KnowsNames(net, old(o.st)) && old(o.st).sealedMax < w.epoch)
            && (Trusted(o.schema, net', w'.Standing(), o.st, o.me, LogLen(w')) <==> Warm(w', o.st, o.me))
    ensures net' == (net - oldKeys * reached)[Link(EpochChain, o.st.epochLen) := Sealed(w.epoch - 1)]
    ensures o.st.epoch == w.epoch && o.st.Epochs() == {w.epoch} && o.st.epochLen == EndOf(net, EpochChain) + 1
    ensures o.st.remote == map[] && o.st.tombCounts == map[] && o.st.tombRids == {}
    ensures o.st.regLen == old(o.st).regLen && o.st.writers == old(o.st).writers
  {
    hide Inv, CountersTrue, Goes, OldKeys, Warm, Trusted, CountedWithin, KnowsNames, HigherCounts, World.Standing;
    trace := FinishGoes(o.schema, w, oldKeys, oldKeys * reached);
    var slot, below := o.st.epochLen + 1, o.st.epoch - 1;
    net' := (net - oldKeys * reached)[Link(EpochChain, slot) := Sealed(below)];
    o.st := o.st.(epochLen := slot, sealedMax := Max(o.st.sealedMax, below),
                  chains := HigherCounts(o.st.chains, counters), remote := map[], tombCounts := map[], tombRids := {});
    SameCounters(w, trace[|trace| - 1], counters, o.me);
    HigherIsTrue(w, old(o.st), trace[|trace| - 1], counters, o.me);
    WarmAlong(o.schema, trace, old(o.st), o.me);
    OldLinks(w, oldKeys);
    FinishWarm(o.schema, w, trace[|trace| - 1], oldKeys * reached, old(o.st), o.st, o.me);
    WarmIsTrusted(o.schema, trace[|trace| - 1], o.st, o.me);
  }

  lemma OldLinks(w: World, keys: set<Key>)
    requires OldKeys(w, keys)
    ensures forall k :: k in keys ==> k.Link? && k.chain.Index?
  {
  }

  lemma HigherCount(a: map<ChainLabel, nat>, b: map<ChainLabel, nat>, l: ChainLabel)
    ensures CountAt(HigherCounts(a, b), l) == Max(CountAt(a, l), CountAt(b, l))
  {
  }

  lemma HigherIsTrue(w: World, st: State, w': World, counters: map<ChainLabel, nat>, me: Writer)
    requires CountedWithin(st, me, LogLen(w)) && st.epoch == w.epoch && w'.log == w.log
    requires CountersTrue(w, counters, w.epoch, me)
    ensures CountersTrue(w', HigherCounts(st.chains, counters), w.epoch, me)
  {
    hide HigherCounts;
    forall l: ChainLabel | l.Of?
      ensures CountAt(HigherCounts(st.chains, counters), l) == |w'.Log(Index(l, w.epoch, me))| {
      assert w'.Log(Index(l, w.epoch, me)) == w.Log(Index(l, w.epoch, me));
      HigherCount(st.chains, counters, l);
    }
  }

  /** After the seal nothing in the caches depends on what had been read of tombstones. */
  lemma FinishWarm(schema: Schema, w: World, w': World, gone: set<Key>, st: State, st': State, me: Writer)
    requires Inv(schema, w) && w.phase.Rewriting? && w.epoch > 0 && Dense(w.net, EpochChain)
    requires st.epoch == w.epoch && st.epochLen == EndOf(w.net, EpochChain)
    requires forall k :: k in gone ==> k.Link? && k.chain.Index?
    requires w'.net == (w.net - gone)[Link(EpochChain, EndOf(w.net, EpochChain) + 1) := Sealed(w.epoch - 1)]
    requires CountersTrue(w', st'.chains, st'.epoch, me)
    requires st' == st.(epochLen := st.epochLen + 1, sealedMax := Max(st.sealedMax, w.epoch - 1), chains := st'.chains,
                        remote := map[], tombCounts := map[], tombRids := {})
    ensures Warm(w', st', me) <==> KnowsNames(w.net, st) && st.sealedMax < w.epoch
  {
    hide Built, Rendered, BlobsTrue, LogTrue, Owned, MissingWhere, Complete, DeadBuried, Carried, WalkedRight, MarksOf,
         NamesOf, Dense;
    SameChainWithout(w.net, gone);
    MarkAdded(w.net - gone, Sealed(w.epoch - 1));
    forall l | l in st'.chains && l.Of? ensures st'.chains[l] <= LogLen(w')(Index(l, st'.epoch, me)) {
      assert CountAt(st'.chains, l) == |w'.Log(Index(l, st'.epoch, me))|;
    }
  }

  lemma SameChainWithout(net: Net, gone: set<Key>)
    requires Dense(net, EpochChain) && Dense(net, RegistryChain)
    requires forall k :: k in gone ==> k.Link? && k.chain.Index?
    ensures var net' := net - gone;
            && Dense(net', EpochChain) && EndOf(net', EpochChain) == EndOf(net, EpochChain)
            && Dense(net', RegistryChain) && EndOf(net', RegistryChain) == EndOf(net, RegistryChain)
            && forall n :: MarksOf(net', n) == MarksOf(net, n) && NamesOf(net', n) == NamesOf(net, n)
  {
    var net' := net - gone;
    SameEnd(net, net', EpochChain);
    SameEnd(net, net', RegistryChain);
    forall n ensures MarksOf(net', n) == MarksOf(net, n) && NamesOf(net', n) == NamesOf(net, n) {
      SameMarks(net, net', n);
      SameNames(net, net', n);
    }
  }

  lemma SameCounters(w: World, w': World, counters: map<ChainLabel, nat>, me: Writer)
    requires CountersTrue(w, counters, w.epoch, me) && w'.log == w.log
    ensures CountersTrue(w', counters, w.epoch, me)
  {
  }

  lemma FinishGoes(schema: Schema, w: World, oldKeys: set<Key>, gone: set<Key>) returns (trace: seq<World>)
    requires ValidSchema(schema) && Inv(schema, w) && w.phase.Rewriting? && OldKeys(w, oldKeys) && gone <= oldKeys
    requires forall k: Key :: k in w.missing && k.Link? && k.chain.Index? ==> k.chain.epoch != w.epoch
    ensures w.epoch > 0 && Dense(w.net, EpochChain) && Goes(schema, trace) && trace != [] && trace[0] == w
    ensures trace[|trace| - 1] == w.(net :=
                                     (w.net - gone)[Link(EpochChain, EndOf(w.net, EpochChain) + 1) :=
                                                    Sealed(w.epoch - 1)],
                                     missing := w.missing + gone, phase := Idle)
  {
    hide Built, Rendered, BlobsTrue, LogTrue, Owned, MissingWhere, Complete, DeadBuried, Carried, WalkedRight, MarksOf,
         NamesOf, Goes, Step;
    var w1 := w.(phase := Deleting);
    assert BeginDelete(w, w1);
    DeletesOn(schema, w, w1);
    var middle := RemoveAll(schema, w1, gone);
    StartsGoing(schema, w);
    GoesFurther(schema, [w], middle);
    GoesSomewhere(schema, middle);
    var w2 := middle[|middle| - 1];
    SameEpochs(w, gone, w2);
    var w3 := w2.(net := w2.net[Link(EpochChain, EndOf(w.net, EpochChain) + 1) := Sealed(w.epoch - 1)], phase := Idle);
    assert Seal(w2, w3);
    DeletesOn(schema, w2, w3);
    trace := [w] + middle;
    GoesOn(schema, trace, w3);
    trace := trace + [w3];
  }

  lemma SameEpochs(w: World, gone: set<Key>, w2: World)
    requires Dense(w.net, EpochChain) && w2.net == w.net - gone && forall k :: k in gone ==> k.Link? && k.chain.Index?
    ensures Dense(w2.net, EpochChain) && EndOf(w2.net, EpochChain) == EndOf(w.net, EpochChain)
  {
    SameEnd(w.net, w2.net, EpochChain);
  }

  lemma DeletesOn(schema: Schema, w: World, w': World)
    requires ValidSchema(schema) && (BeginDelete(w, w') || Seal(w, w'))
    ensures Step(schema, w, w')
  {
    hide BeginDelete, Seal, Insert, Bury, Erase, Register, Open, Walk, Layout, Compaction.Rewrite, Remove;
  }
}
