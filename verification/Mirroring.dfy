/** A local copy of one database's keys and the sync pass that completes it (blindrange/mirror.py, and
    Owner._mget, _sync_inner, _refresh_tombs, _put and _delete in blindrange/client.py).

    Once a pass has completed, queries answered by the copy alone are answered exactly. */
module Mirroring {
  import opened Basics
  import opened Chains
  import opened Index
  import opened Query
  import opened Compaction
  import opened CompactionProof
  import opened Readers
  import opened EpochWalk
  import opened Probes
  import opened Derivation
  import Dyadic

  // ------------------------------------------------------------ the mirror

  class Mirror {
    var kv: Net
    var completeOnce: bool
    var syncedAt: Option<real>
    var lastPass: real

    constructor ()
      ensures kv == map[] && !completeOnce && syncedAt == None && lastPass == 0.0
    {
      kv, completeOnce, syncedAt, lastPass := map[], false, None, 0.0;
    }

    function GetMany(keys: set<Key>): Net
      reads this`kv
    {
      map k | k in keys && k in kv :: kv[k]
    }

    method PutMany(pairs: Net)
      modifies this`kv
      ensures kv == old(kv) + pairs
    {
      kv := kv + pairs;
    }

    method DeleteMany(keys: set<Key>)
      modifies this`kv
      ensures kv == old(kv) - keys
    {
      kv := kv - keys;
    }

    method MarkSynced(now: real, duration: real)
      modifies this`completeOnce, this`syncedAt, this`lastPass
      ensures completeOnce && syncedAt == Some(now) && lastPass == duration
    {
      completeOnce, syncedAt, lastPass := true, Some(now), duration;
    }

    /** Whether a miss may be reported as absence: never before a pass has completed; then always for the
        only writer, and for several writers while the last pass is recent enough. */
    predicate Fresh(now: real, stale: real, singleWriter: bool)
      reads this
    {
      completeOnce
      && (singleWriter
          || (syncedAt.Some? && now - syncedAt.value < (if stale < 3.0 * lastPass then 3.0 * lastPass else stale)))
    }

    /** A read through the mirror. What the mirror lacks is absent once a pass has completed, if there is no other
        writer or the last pass is less than the window or three times its own duration ago; and it is looked up on
        the network in all other cases. */
    method Read(net: Net, keys: set<Key>, silent: set<Key>, now: real, stale: real, singleWriter: bool)
      returns (got: Net, unresolved: set<Key>)
      modifies this`kv
      ensures !old(completeOnce) ==> HonestRead(net + old(kv), keys, got, unresolved)
      ensures !singleWriter && old(syncedAt).None? ==> HonestRead(net + old(kv), keys, got, unresolved)
      ensures !singleWriter && old(syncedAt).Some?
              && now - old(syncedAt).value >= stale && now - old(syncedAt).value >= 3.0 * old(lastPass) ==>
                HonestRead(net + old(kv), keys, got, unresolved)
      ensures old(completeOnce)
              && (singleWriter
                  || (old(syncedAt).Some?
                      && (now - old(syncedAt).value < stale || now - old(syncedAt).value < 3.0 * old(lastPass)))) ==>
                kv == old(kv) && unresolved == {} && HonestRead(old(kv), keys, got, {})
      ensures unresolved <= silent * keys
      ensures forall k :: k in kv ==> if k in old(kv) then kv[k] == old(kv)[k] else k in net && kv[k] == net[k]
    {
      var local := GetMany(keys);
      var missing := keys - local.Keys;
      if missing == {} || Fresh(now, stale, singleWriter) {
        return local, {};
      }
      var found, bad := MGet(net, missing, silent);
      PutMany(found);
      return local + found, bad;
    }
  }

  // ------------------------------------------------------------ what a copy may hold

  /** Index entries as they were appended once, whether the network still has them or not. */
  ghost predicate LinksLogged(w: World, kv: Net) {
    forall c: Chain, i: nat :: c.Index? && Link(c, i) in kv ==>
        1 <= i <= |w.Log(c)| && kv[Link(c, i)] == Entry(w.Log(c)[i - 1])
  }

  ghost predicate SystemCopied(net: Net, kv: Net) {
    forall c: Chain, i: nat :: !c.Index? && Link(c, i) in kv ==> Link(c, i) in net && kv[Link(c, i)] == net[Link(c, i)]
  }

  /** All a copy holds was true once: it may hold what others have deleted from the network since. */
  ghost predicate TrueCopy(w: World, kv: Net) {
    LinksLogged(w, kv) && SystemCopied(w.net, kv) && BlobsGenuine(kv, w.table)
  }

  lemma CopyFollows(w: World, w': World, kv: Net)
    requires TrueCopy(w, kv) && Follows(w, w')
    ensures TrueCopy(w', kv)
  {
    hide TombsStay;
    forall c: Chain, i: nat | c.Index? && Link(c, i) in kv
      ensures 1 <= i <= |w'.Log(c)| && kv[Link(c, i)] == Entry(w'.Log(c)[i - 1])
    {
      assert w.Log(c) <= w'.Log(c);
    }
    forall c: Chain, i: nat | !c.Index? && Link(c, i) in kv
      ensures Link(c, i) in w'.net && kv[Link(c, i)] == w'.net[Link(c, i)]
    {
      assert c == EpochChain || c == RegistryChain;
      assert Link(c, i) in w.net && 1 <= i <= EndOf(w.net, c);
    }
  }

  lemma CopyTakes(w: World, kv: Net, more: Net)
    requires TrueCopy(w, kv) && Rendered(w.net, w.log, w.missing) && BlobsGenuine(w.net, w.table)
             && Truthful(w.net, more)
    ensures TrueCopy(w, kv + more)
  {
  }

  /** What a pass starts from: caches and a copy that were right once, and no tombstone in the copy that was counted
      and not taken in. */
  ghost predicate SyncReady(w: World, kv: Net, st: State, me: Writer) {
    Warm(w, st, me) && TrueCopy(w, kv) && TombsSeen(kv, st, w.Standing())
  }

  /** A fresh owner with an empty mirror is ready for its first pass. */
  lemma EmptyMirrorReady(w: World, st: State, me: Writer)
    requires Warm(w, st, me)
    ensures SyncReady(w, map[], st, me)
  {
    hide Synced, CountedWithin;
  }

  /** Whatever others do between two passes, a mirror stays ready for the next one. */
  lemma ReadyFollows(schema: Schema, w: World, w': World, kv: Net, st: State, me: Writer)
    requires Inv(schema, w) && Inv(schema, w') && Follows(w, w') && SyncReady(w, kv, st, me)
    ensures SyncReady(w', kv, st, me)
  {
    hide Inv, Warm, TrueCopy, LogsGrow, TombsStay, Extends;
    WarmFollows(schema, w, w', st, me);
    CopyFollows(w, w', kv);
  }

  lemma {:induction false} ReadyOverRun(schema: Schema, ws: seq<World>, j: nat, k: nat, kv: Net, st: State, me: Writer)
    requires ValidSchema(schema) && Run(schema, ws) && j <= k < |ws| && SyncReady(ws[j], kv, st, me)
    ensures SyncReady(ws[k], kv, st, me)
    decreases k
  {
    hide Inv, SyncReady, Step, Init;
    if j < k {
      ReadyOverRun(schema, ws, j, k - 1, kv, st, me);
      RunKeeps(schema, ws, k - 1);
      RunKeeps(schema, ws, k);
      StepFollows(schema, ws[k - 1], ws[k]);
      ReadyFollows(schema, ws[k - 1], ws[k], kv, st, me);
    }
  }

  // ------------------------------------------------------------ what a pass copies

  /** Chains of an epoch that can matter to a query are copied whole, and so are the records they name. */
  ghost predicate EpochCopied(schema: Schema, w: World, ep: nat, ws: set<Writer>, kv: Net) {
    && (forall c :: IndexChain(schema, ep, ws, c) && Readable(w.net, w.Log(c)) != {} ==>
        Fetched(w.net, kv, c, |w.Log(c)|))
    && (forall r, u :: u in ws && OnTop(schema, w.log, ep, u, r) && w.table.Live(r) ==> Rec(r) in kv)
  }

  ghost predicate IndexChain(schema: Schema, ep: nat, ws: set<Writer>, c: Chain) {
    c.Index? && c.epoch == ep && c.writer in ws && ReachedLabel(schema, c.w)
  }

  /** No chain holds more ids of unreadable records than a derivation can make up for. */
  ghost predicate Bounded(schema: Schema, w: World, ep: nat) {
    forall c: Chain :: c.Index? && c.epoch == ep && ReachedLabel(schema, c.w) ==> |Unreadable(w.net, w.Log(c))| <= 99
  }

  lemma AllHeard(net: Net, silent: set<Key>, unheard: set<Key>, c: Chain, end: nat)
    requires LinksSpeak(net, silent) && unheard <= silent && DenseTo(net, c, end)
    ensures Heard(unheard, c, end) && forall i: nat :: 1 <= i <= end ==> Link(c, i) in net && Link(c, i) !in unheard
  {
  }

  lemma ChainCopied(schema: Schema, w: World, ep: nat, ws: set<Writer>, unheard: set<Key>, missed: set<Key>, d: Derived,
                    c: Chain)
    requires ValidSchema(schema) && Rendered(w.net, w.log, w.missing) && Whole(w, ep)
    requires DerivedRight(schema, w, ep, ws, unheard, missed, d) && LinksSpeak(w.net, unheard + missed)
             && Bounded(schema, w, ep)
    requires IndexChain(schema, ep, ws, c) && Readable(w.net, w.Log(c)) != {}
    ensures Fetched(w.net, d.kv, c, |w.Log(c)|)
  {
    hide Rendered, Whole, Readable, Unreadable, LinksSpeak, Dense, DenseTo, SettledExact, IdsHeld, Stray;
    LabelsReached(schema);
    assert c == Index(c.w, ep, c.writer);
    if c.w.node.level == 1 {
      assert TopLabel(schema, c.w);
    } else if c.w.field !in d.fallback {
      LevelsPositive(schema, c.w);
      ChainAsLogged(w, c);
      AllHeard(w.net, unheard + missed, unheard, c, |w.Log(c)|);
      assert DeepChain(schema, ep, ws, c) && ExactWithin(w, c, unheard, d);
    } else {
      ChainAsLogged(w, c);
      forall i: nat | 1 <= i <= |w.Log(c)| ensures Link(c, i) in w.net && Link(c, i) in d.kv {
        assert InForest(schema, d.fallback, ep, ws, Link(c, i));
        AllHeard(w.net, unheard + missed, missed, c, |w.Log(c)|);
      }
    }
  }

  lemma LevelsPositive(schema: Schema, l: ChainLabel)
    ensures ReachedLabel(schema, l) ==> l.node.level >= 1
  {
  }

  lemma FetchedGrows(net: Net, kv: Net, kv': Net, c: Chain, len: nat)
    requires Fetched(net, kv, c, len) && kv.Keys <= kv'.Keys
    ensures Fetched(net, kv', c, len)
  {
  }

  /** Records of an epoch's first level have been fetched, if they were not there. */
  ghost predicate RecordsIn(schema: Schema, w: World, d: Derived, kv: Net) {
    forall r :: r in d.rids && w.table.Live(r) ==> Rec(r) in kv
  }

  lemma EpochIsCopied(schema: Schema, w: World, ep: nat, ws: set<Writer>, unheard: set<Key>, missed: set<Key>,
                      d: Derived, kv: Net)
    requires ValidSchema(schema) && Rendered(w.net, w.log, w.missing) && Whole(w, ep)
    requires DerivedRight(schema, w, ep, ws, unheard, missed, d) && LinksSpeak(w.net, unheard + missed)
             && Bounded(schema, w, ep)
    requires d.kv.Keys <= kv.Keys && RecordsIn(schema, w, d, kv)
    ensures EpochCopied(schema, w, ep, ws, kv)
  {
    hide Rendered, Whole, Readable, LinksSpeak, IndexChain, Fetched, OnTop, EndsHeld, TopExact, DeepExact, SettledExact,
         WalkedInstead, Stray, Bounded;
    forall c | IndexChain(schema, ep, ws, c) && Readable(w.net, w.Log(c)) != {}
      ensures Fetched(w.net, kv, c, |w.Log(c)|)
    {
      ChainCopied(schema, w, ep, ws, unheard, missed, d, c);
      FetchedGrows(w.net, d.kv, kv, c, |w.Log(c)|);
    }
  }

  lemma CopiedGrows(schema: Schema, w: World, ep: nat, ws: set<Writer>, kv: Net, kv': Net)
    requires EpochCopied(schema, w, ep, ws, kv) && kv.Keys <= kv'.Keys
    ensures EpochCopied(schema, w, ep, ws, kv')
  {
    hide Readable, IndexChain, OnTop, Fetched;
    forall c | IndexChain(schema, ep, ws, c) && Readable(w.net, w.Log(c)) != {}
      ensures Fetched(w.net, kv', c, |w.Log(c)|)
    {
      FetchedGrows(w.net, kv, kv', c, |w.Log(c)|);
    }
  }

  // ------------------------------------------------------------ caches

  /** Caches after an epoch was derived: own counters of the newest epoch only rise, the others are replaced. */
  function Noted(st: State, me: Writer, ends: map<Chain, nat>): State
    requires forall c :: c in ends ==> c.Index?
  {
    var own := set c | c in ends && c.writer == me && c.epoch == st.epoch;
    st.(chains := st.chains + map w | w in (set c | c in own :: c.w) && Index(w, st.epoch, me) in ends
                                :: Max(if w in st.chains then st.chains[w] else 0, ends[Index(w, st.epoch, me)]),
        remote := st.remote + map c | c in ends.Keys - own :: ends[c])
  }

  lemma NotedCounts(st: State, me: Writer, ends: map<Chain, nat>)
    requires forall c :: c in ends ==> c.Index?
    ensures var st' := Noted(st, me, ends);
            && st'.epoch == st.epoch && st'.tombCounts == st.tombCounts
            && (forall v :: v in st'.chains ==>
                  || (v in st.chains && st'.chains[v] == st.chains[v])
                  || (Index(v, st.epoch, me) in ends && st'.chains[v] == ends[Index(v, st.epoch, me)]))
            && (forall c :: c in st'.remote ==>
                  (c in st.remote && st'.remote[c] == st.remote[c]) || (c in ends && st'.remote[c] == ends[c]))
  {
  }

  lemma NotedWithin(st: State, me: Writer, ends: map<Chain, nat>, cap: Lengths)
    requires CountedWithin(st, me, cap) && forall c :: c in ends ==> c.Index? && ends[c] <= cap(c)
    ensures CountedWithin(Noted(st, me, ends), me, cap)
  {
    hide Noted;
    NotedCounts(st, me, ends);
  }

  /** A counter of the owner's own that was right stays right. */
  ghost predicate OwnKept(w: World, st: State, st': State, me: Writer) {
    st'.epoch == st.epoch ==>
      forall l: ChainLabel :: l.Of? && st.Count(me, Index(l, st.epoch, me)) == |w.Log(Index(l, st.epoch, me))| ==>
        st'.Count(me, Index(l, st.epoch, me)) == |w.Log(Index(l, st.epoch, me))|
  }

  lemma NotedOwn(st: State, me: Writer, ends: map<Chain, nat>, l: ChainLabel)
    requires l.Of? && forall c :: c in ends ==> c.Index?
    ensures var c := Index(l, st.epoch, me);
            Noted(st, me, ends).Count(me, c) == if c in ends then Max(st.Count(me, c), ends[c]) else st.Count(me, c)
  {
    var own := set c | c in ends && c.writer == me && c.epoch == st.epoch;
    assert Index(l, st.epoch, me) in own ==> l in (set c | c in own :: c.w);
  }

  lemma NotedOwnKept(w: World, st: State, me: Writer, ends: map<Chain, nat>)
    requires forall c :: c in ends ==> c.Index? && ends[c] <= |w.Log(c)|
    ensures OwnKept(w, st, Noted(st, me, ends), me)
  {
    hide Noted;
    NotedCounts(st, me, ends);
    forall l: ChainLabel | l.Of? && st.Count(me, Index(l, st.epoch, me)) == |w.Log(Index(l, st.epoch, me))|
      ensures Noted(st, me, ends).Count(me, Index(l, st.epoch, me)) == |w.Log(Index(l, st.epoch, me))|
    {
      NotedOwn(st, me, ends, l);
    }
  }

  lemma NotedKeeps(w: World, kv: Net, st: State, me: Writer, ends: map<Chain, nat>)
    requires SyncReady(w, kv, st, me) && forall c :: c in ends ==> c.Index? && ends[c] <= |w.Log(c)|
    ensures SyncReady(w, kv, Noted(st, me, ends), me) && OwnKept(w, st, Noted(st, me, ends), me)
  {
    hide TrueCopy, MarksOf, NamesOf, Dense, CountedWithin, OwnKept, Noted, TombsSeen, Synced;
    NotedWithin(st, me, ends, LogLen(w));
    NotedOwnKept(w, st, me, ends);
    NotedShape(st, me, ends);
    OnlyCounters(w.net, w.Standing(), st, Noted(st, me, ends));
    OnlyCounters(kv, w.Standing(), st, Noted(st, me, ends));
  }

  lemma NotedShape(st: State, me: Writer, ends: map<Chain, nat>)
    requires forall c :: c in ends ==> c.Index?
    ensures Noted(st, me, ends) == st.(chains := Noted(st, me, ends).chains, remote := Noted(st, me, ends).remote)
  {
  }

  /** Label counters are no concern of the system chains or the tombstones. */
  lemma OnlyCounters(net: Net, table: Table, st: State, st': State)
    requires st' == st.(chains := st'.chains, remote := st'.remote)
    ensures (Synced(net, st) ==> Synced(net, st')) && (TombsSeen(net, st, table) ==> TombsSeen(net, st', table))
  {
    hide MarksOf, NamesOf, Dense;
  }

  // ------------------------------------------------------------ tombstones

  /** Caches after tombstone chains were read to their ends. */
  function TombsLearned(st: State, tombs: set<Chain>, got: Net, ends: map<Chain, nat>): State
    requires tombs <= ends.Keys
  {
    st.(tombCounts := st.tombCounts + map c | c in tombs :: ends[c], tombRids := st.tombRids + Rids(got, tombs, ends))
  }

  function TombDelta(tombs: set<Chain>, known: map<Chain, nat>, ends: map<Chain, nat>): set<Key> {
    set c, i: nat | c in tombs && c in known && c in ends && known[c] < i <= ends[c] :: Link(c, i)
  }

  /** Every tombstone that did not come back is known from elsewhere. */
  ghost predicate TombsTaken(net: Net, unread: set<Key>, seen: set<Rid>) {
    forall k :: k in unread && k in net && net[k].Entry? ==> net[k].rid in seen
  }

  /** A tombstone somebody answered with. */
  ghost predicate TombHeard(net: Net, unread: set<Key>, r: Rid) {
    exists c: Chain, i: nat ::
        Link(c, i) in net && Link(c, i) !in unread && net[Link(c, i)] == Entry(r) && c.Index? && c.w == Tomb
  }

  lemma RidsAreHeard(net: Net, eps: set<nat>, ws: set<Writer>, keys: set<Key>, got: Net, bad: set<Key>,
                     ends: map<Chain, nat>, r: Rid)
    requires HonestRead(net, keys, got, bad) && got.Keys !! bad && r in Rids(got, TombChains(eps, ws), ends)
    ensures TombHeard(net, bad, r)
  {
    var k :| k in got && k.Link? && k.chain in TombChains(eps, ws) && got[k].Entry? && got[k].rid == r;
    assert k == Link(k.chain, k.i);
  }

  lemma DeltaSpeaks(net: Net, tombs: set<Chain>, known: map<Chain, nat>, ends: map<Chain, nat>, silent: set<Key>,
                    bad: set<Key>)
    requires LinksSpeak(net, silent) && bad <= silent * TombDelta(tombs, known, ends)
    ensures forall k :: k in bad ==> k !in net
  {
    forall k | k in bad ensures k !in net {
      assert k in TombDelta(tombs, known, ends);
    }
  }

  lemma TakenAreDead(schema: Schema, net: Net, table: Table, eps: set<nat>, ws: set<Writer>, got: Net,
                     ends: map<Chain, nat>, r: Rid)
    requires EntriesTrue(schema, net, table, eps) && Truthful(net, got) && r in Rids(got, TombChains(eps, ws), ends)
    ensures r in table.deleted
  {
    var k :| k in got && k.Link? && k.chain in TombChains(eps, ws) && got[k].Entry? && got[k].rid == r;
    assert k == Link(k.chain, k.i) && Link(k.chain, k.i) in net;
  }

  /** A tombstone the caches prove after the walk was seen before, or it is in the part that was asked for. */
  lemma CountedAfter(net: Net, st: State, me: Writer, eps: set<nat>, ws: set<Writer>, got: Net, ends: map<Chain, nat>,
                     bad: set<Key>,
                     table: Table, c: Chain, i: nat)
    requires var tombs := TombChains(eps, ws);
             && ends.Keys == tombs && HonestRead(net, TombDelta(tombs, KnownCounts(st, me, tombs), ends), got, bad)
             && c in TombsLearned(st, tombs, got, ends).tombCounts
             && 1 <= i <= TombsLearned(st, tombs, got, ends).tombCounts[c]
    requires TombsSeen(net, st, table) && Link(c, i) in net && net[Link(c, i)].Entry?
    ensures net[Link(c, i)].rid in TombsLearned(st, TombChains(eps, ws), got, ends).tombRids || Link(c, i) in bad
  {
    var tombs := TombChains(eps, ws);
    if c in tombs && i > st.Count(me, c) {
      assert Link(c, i) in TombDelta(tombs, KnownCounts(st, me, tombs), ends);
      if Link(c, i) in got {
        assert got[Link(c, i)] == net[Link(c, i)];
      }
    }
  }

  /** After the walk every counted tombstone has been taken in, if and only if those that did not come back had been. */
  lemma TombsSeenIff(schema: Schema, net: Net, table: Table, st: State, me: Writer, ws: set<Writer>, got: Net,
                     ends: map<Chain, nat>, bad: set<Key>)
    requires var tombs := TombChains(st.Epochs(), ws);
             && ends.Keys == tombs && HonestRead(net, TombDelta(tombs, KnownCounts(st, me, tombs), ends), got, bad)
             && bad <= TombDelta(tombs, KnownCounts(st, me, tombs), ends)
    requires TombsSeen(net, st, table) && EntriesTrue(schema, net, table, st.Epochs())
    ensures var st' := TombsLearned(st, TombChains(st.Epochs(), ws), got, ends);
            TombsSeen(net, st', table) <==> TombsTaken(net, bad, st'.tombRids)
  {
    hide TombChains, Rids, EntriesTrue, TombDelta, KnownCounts;
    var tombs := TombChains(st.Epochs(), ws);
    var st' := TombsLearned(st, tombs, got, ends);
    forall r | r in Rids(got, tombs, ends) ensures r in table.deleted {
      TakenAreDead(schema, net, table, st.Epochs(), ws, got, ends, r);
    }
    if TombsTaken(net, bad, st'.tombRids) {
      forall c, i: nat | c in st'.tombCounts && 1 <= i <= st'.tombCounts[c] && Link(c, i) in net
          && net[Link(c, i)].Entry?
        ensures net[Link(c, i)].rid in st'.tombRids
      {
        CountedAfter(net, st, me, st.Epochs(), ws, got, ends, bad, table, c, i);
      }
    }
    if TombsSeen(net, st', table) {
      forall k | k in bad && k in net && net[k].Entry? ensures net[k].rid in st'.tombRids {
        DeltaIsCounted(st, me, tombs, got, ends, k);
      }
    }
  }

  lemma DeltaIsCounted(st: State, me: Writer, tombs: set<Chain>, got: Net, ends: map<Chain, nat>, k: Key)
    requires ends.Keys == tombs && k in TombDelta(tombs, KnownCounts(st, me, tombs), ends)
    ensures k.Link? && k == Link(k.chain, k.i) && k.chain in TombsLearned(st, tombs, got, ends).tombCounts
    ensures 1 <= k.i <= TombsLearned(st, tombs, got, ends).tombCounts[k.chain]
  {
  }

  /** Read the tombstone chains past the cached counters. The counters move past tombstones that do not come back; the
      caches are right afterwards if and only if every one of those was known from elsewhere. */
  method RefreshTombs(net: Net, st: State, me: Writer, ws: set<Writer>, silent: set<Key>, ghost schema: Schema,
                      ghost table: Table)
    returns (r: Result<State, set<Key>>, ghost unread: set<Key>)
    ensures r.Failure? ==> r.error != {} && r.error <= silent
                           && forall k :: k in r.error ==>
                                SearchAsks(net, KnownCounts(st, me, TombChains(st.Epochs(), ws)), k)
    ensures r.Success? ==>
              r.value == st.(tombCounts := r.value.tombCounts, tombRids := r.value.tombRids)
              && st.tombRids <= r.value.tombRids
    ensures r.Success? ==> forall x :: x in r.value.tombRids ==> x in st.tombRids || TombHeard(net, unread, x)
    ensures r.Success? ==> forall c :: c in TombChains(st.Epochs(), ws) ==>
                             c in r.value.tombCounts && StopsAt(net, c, st.Count(me, c), r.value.tombCounts[c])
    ensures r.Success? ==> forall c :: c in r.value.tombCounts && c !in TombChains(st.Epochs(), ws) ==>
                             c in st.tombCounts && r.value.tombCounts[c] == st.tombCounts[c]
    ensures unread <= silent && (LinksSpeak(net, silent) ==> forall k :: k in unread ==> k !in net)
    ensures r.Success? && TombsSeen(net, st, table) && EntriesTrue(schema, net, table, st.Epochs()) ==>
              (TombsSeen(net, r.value, table) <==> TombsTaken(net, unread, r.value.tombRids))
  {
    hide TombChains, StopsAt, LinksSpeak, TombsSeen, TombsTaken, EntriesTrue, TombDelta, Rids, SearchAsks, TombHeard;
    var tombs := TombChains(st.Epochs(), ws);
    var known := KnownCounts(st, me, tombs);
    var found, _ := DiscoverEnds(net, known, silent);
    if found.Failure? {
      return Failure(found.error), {};
    }
    var ends := found.value;
    var got, bad := MGet(net, TombDelta(tombs, known, ends), silent);
    unread := bad;
    forall x | x in Rids(got, tombs, ends) ensures TombHeard(net, bad, x) {
      RidsAreHeard(net, st.Epochs(), ws, TombDelta(tombs, known, ends), got, bad, ends, x);
    }
    if LinksSpeak(net, silent) {
      DeltaSpeaks(net, tombs, known, ends, silent, bad);
    }
    if TombsSeen(net, st, table) && EntriesTrue(schema, net, table, st.Epochs()) {
      TombsSeenIff(schema, net, table, st, me, ws, got, ends, bad);
    }
    return Success(TombsLearned(st, tombs, got, ends)), unread;
  }

  lemma AbsentIsTaken(net: Net, unread: set<Key>, seen: set<Rid>)
    requires forall k :: k in unread ==> k !in net
    ensures TombsTaken(net, unread, seen)
  {
  }

  // ------------------------------------------------------------ what a completed pass is worth

  /** Nothing of the epochs a reader walks is being written or deleted by a compaction. */
  predicate Quiet(w: World) {
    w.phase.Idle? || w.phase.Draining? || w.phase.Walked?
  }

  lemma QuietIsWhole(schema: Schema, w: World, ep: nat)
    requires Inv(schema, w) && Quiet(w) && ep in w.Epochs()
    ensures Whole(w, ep)
  {
    hide Built, SystemTrue, Rendered, BlobsTrue, LogTrue, Owned, Complete, DeadBuried, Carried, WalkedRight;
  }

  /** Every tombstone a reader would find has been taken in. */
  ghost predicate TombsIn(w: World, st: State) {
    forall r :: Listed(w.net, ReaderView(w, w.Epochs(), w.writers), Tomb, r) ==> r in st.tombRids
  }

  /** Tombstone chains of the epochs read are counted to their ends. */
  ghost predicate TombsExact(w: World, st: State) {
    forall c :: c in TombChains(w.Epochs(), w.writers) ==> c in st.tombCounts && st.tombCounts[c] == |w.Log(c)|
  }

  lemma ExactTombsIn(schema: Schema, w: World, st: State)
    requires Inv(schema, w) && TombsSeen(w.net, st, w.Standing()) && TombsExact(w, st)
    ensures TombsIn(w, st)
  {
    hide Built, SystemTrue, BlobsTrue, LogTrue, Owned, Complete, DeadBuried, Carried, WalkedRight, MissingWhere;
    var eps := w.Epochs();
    forall r | Listed(w.net, ReaderView(w, eps, w.writers), Tomb, r) ensures r in st.tombRids {
      var c: Chain, i: nat :| Names(w.net, eps, w.writers, c, i, r) && c.w == Tomb && Unbroken(w.net, c, 0, i);
      assert c == Index(Tomb, c.epoch, c.writer) && c in TombChains(eps, w.writers);
    }
  }

  /** What a completed pass leaves behind: caches that are exact about the system and the tombstones, and the copy. */
  ghost predicate Passed(schema: Schema, w: World, kv: Net, st: State, me: Writer) {
    && SyncReady(w, kv, st, me) && TombsExact(w, st)
    && st.epochLen == EndOf(w.net, EpochChain) && st.regLen == EndOf(w.net, RegistryChain)
    && forall ep :: ep in w.Epochs() ==> EpochCopied(schema, w, ep, w.writers, kv)
  }

  /** Caches that have both system chains to their ends know the epochs and writers. */
  lemma SystemRead(schema: Schema, w: World, st: State, me: Writer)
    requires Inv(schema, w) && Synced(w.net, st)
    requires st.epochLen == EndOf(w.net, EpochChain) && st.regLen == EndOf(w.net, RegistryChain)
    ensures st.epoch == w.epoch && st.Epochs() == w.Epochs() && (set u | u in st.writers) == w.writers
    ensures st.Readers(me) == if w.writers == {} then {me} else w.writers
  {
    hide Built, Rendered, BlobsTrue, LogTrue, Owned, MissingWhere, Complete, DeadBuried, Carried, WalkedRight, MarksOf,
         NamesOf, DenseTo;
    if st.writers != [] {
      assert st.writers[0] in w.writers;
    }
  }

  /** A live record is listed under each findable label by a chain that names something readable. */
  lemma LiveIn(schema: Schema, w: World, l: ChainLabel, r: Rid) returns (c: Chain, i: nat)
    requires ValidSchema(schema) && Inv(schema, w) && LiveFindable(schema, w.Standing(), l, r)
    ensures c.Index? && c.w == l && c.epoch in w.Epochs() && c.writer in w.writers && ReachedLabel(schema, l)
    ensures Link(c, i) in w.net && w.net[Link(c, i)] == Entry(r) && r in Readable(w.net, w.Log(c))
            && Unbroken(w.net, c, 0, i)
    ensures Holds(w.log, l, c.epoch, c.writer, r)
  {
    hide Built, SystemTrue, Owned, Complete, DeadBuried, Carried, WalkedRight, MissingWhere, LogTrue, Dense, Labelled,
         ReachedLabel;
    LiveOnWalk(schema, w);
    var eps := w.Epochs();
    assert Listed(w.net, ReaderView(w, eps, w.writers), l, r);
    c, i :| Names(w.net, eps, w.writers, c, i, r) && c.w == l && Unbroken(w.net, c, 0, i);
    LabelledIsTree(schema, w.table.inserted[r]);
    InsideOrStray(schema, w.table.inserted[r], l);
    assert w.log[c][i - 1] in w.log[c];
    assert c == Index(l, c.epoch, c.writer);
  }

  lemma LiveListedLocally(schema: Schema, w: World, kv: Net, l: ChainLabel, r: Rid)
    requires ValidSchema(schema) && Inv(schema, w) && Quiet(w) && LinksLogged(w, kv)
    requires forall ep :: ep in w.Epochs() ==> EpochCopied(schema, w, ep, w.writers, kv)
    requires LiveFindable(schema, w.Standing(), l, r)
    ensures Listed(kv, ReaderView(w, w.Epochs(), w.writers), l, r) && Rec(r) in kv
  {
    hide Inv, Readable, Dense, DenseTo, ReachedLabel, Findable;
    var c, i := LiveIn(schema, w, l, r);
    QuietIsWhole(schema, w, c.epoch);
    InvFacts(schema, w);
    ChainAsLogged(w, c);
    assert IndexChain(schema, c.epoch, w.writers, c) && Fetched(w.net, kv, c, |w.Log(c)|);
    assert kv[Link(c, i)] == Entry(r) && Unbroken(kv, c, 0, i);
    assert Names(kv, w.Epochs(), w.writers, c, i, r);
    InTop(schema, w, c.epoch, l, c.writer, r);
  }

  /** Whoever lists a record findably lists it on level 1. */
  lemma InTop(schema: Schema, w: World, ep: nat, l: ChainLabel, u: Writer, r: Rid)
    requires ValidSchema(schema) && Inv(schema, w) && LiveFindable(schema, w.Standing(), l, r)
             && ReachedLabel(schema, l)
    requires Holds(w.log, l, ep, u, r)
    ensures OnTop(schema, w.log, ep, u, r)
  {
    hide SystemTrue, Rendered, BlobsTrue, LogTrue, Owned, MissingWhere, Complete, DeadBuried, Carried, WalkedRight,
         Labelled, ReachedLabel;
    var top := TopLabelOf(schema, w.table.inserted[r], l);
    assert Closed(schema, w.log, w.table);
    assert Holds(w.log, top, ep, u, r);
  }

  lemma LocalLive(schema: Schema, w: World, kv: Net)
    requires ValidSchema(schema) && Inv(schema, w) && Quiet(w) && LinksLogged(w, kv)
    requires forall ep :: ep in w.Epochs() ==> EpochCopied(schema, w, ep, w.writers, kv)
    ensures LiveListed(schema, kv, w.Standing(), ReaderView(w, w.Epochs(), w.writers))
            && BlobsServe(schema, kv, w.Standing())
  {
    hide Inv, EpochCopied, Listed, LinksLogged, Findable;
    forall r, l | w.Standing().Live(r) && Findable(schema, w.Standing().inserted[r], l)
      ensures Listed(kv, ReaderView(w, w.Epochs(), w.writers), l, r) && Rec(r) in kv
    {
      assert LiveFindable(schema, w.Standing(), l, r);
      LiveListedLocally(schema, w, kv, l, r);
    }
  }

  lemma LocalEntries(schema: Schema, w: World, kv: Net, eps: set<nat>)
    requires Inv(schema, w) && LinksLogged(w, kv)
    ensures EntriesTrue(schema, kv, w.Standing(), eps) && Capped(kv, LogLen(w))
  {
    hide Built, SystemTrue, Rendered, BlobsTrue, Owned, MissingWhere, Complete, DeadBuried, Carried, WalkedRight,
         EntryTrue, World.Standing;
    forall c: Chain, i: nat | Link(c, i) in kv && c.Index? && c.epoch in eps
      ensures kv[Link(c, i)].Entry? && EntryTrue(schema, w.Standing(), c.w, kv[Link(c, i)].rid)
    {
      assert w.log[c][i - 1] in w.log[c];
      EntryStands(schema, w, c.w, w.log[c][i - 1]);
    }
  }

  /** What a reader of the copy goes by: just what a reader of the network goes by. */
  ghost function LocalView(w: World, me: Writer): View {
    ReaderView(w, w.Epochs(), if w.writers == {} then {me} else w.writers)
  }

  /** The state in which a copy answers: under some view it is faithful to the table and the caches are reliable on
      it, and no system entry of it is past the caches. */
  ghost predicate Serves(schema: Schema, w: World, kv: Net, st: State, me: Writer, v: View) {
    Reliable(schema, kv, w.Standing(), st, me, v) && SystemStill(kv, st) && v.cap == LogLen(w)
  }

  /** After a completed pass the copy alone is as good as the network. */
  lemma CopyIsReliable(schema: Schema, w: World, kv: Net, st: State, me: Writer)
    requires ValidSchema(schema) && Inv(schema, w) && Quiet(w) && Passed(schema, w, kv, st, me)
    ensures Serves(schema, w, kv, st, me, LocalView(w, me))
  {
    hide Inv, EpochCopied, CountedWithin, TombsSeen, EntriesTrue, MarksOf, NamesOf, DenseTo, BlobsGenuine, Listed,
         TombsExact, Findable, LiveListed, BlobsServe, Capped, LinksLogged;
    SystemRead(schema, w, st, me);
    EndIsLast(w.net, EpochChain);
    EndIsLast(w.net, RegistryChain);
    LocalEntries(schema, w, kv, w.Epochs());
    LocalLive(schema, w, kv);
    GenuineStands(w, kv);
    if w.writers == {} {
      NobodyListed(schema, w, kv, me);
    }
  }

  lemma GenuineStands(w: World, kv: Net)
    ensures BlobsGenuine(kv, w.table) <==> BlobsGenuine(kv, w.Standing())
  {
  }

  lemma NobodyListed(schema: Schema, w: World, kv: Net, me: Writer)
    requires Inv(schema, w) && w.writers == {}
    ensures LiveListed(schema, kv, w.Standing(), LocalView(w, me))
  {
    hide Inv, Findable, Listed;
    NobodyWrote(schema, w);
    forall r, l | w.Standing().Live(r) ensures !Findable(schema, w.Standing().inserted[r], l) {
      assert !LiveFindable(schema, w.table, l, r);
    }
  }

  /** What the copy still shows of deleted records has had its tombstones taken in, but for those that have lapsed. */
  lemma HiddenInCopy(schema: Schema, w: World, kv: Net, st: State, ws: set<Writer>, r: Rid)
    requires Inv(schema, w) && Quiet(w) && LinksLogged(w, kv) && TombsSeen(w.net, st, w.Standing()) && TombsExact(w, st)
    requires Shown(schema, kv, w.Standing(), w.Epochs(), ws, r)
    ensures r in w.table.deleted && r !in w.Lost() && (r in st.tombRids || Lapsed(w, r))
  {
    hide Built, BlobsTrue, LogTrue, Owned, Complete, Carried, WalkedRight, Rendered, MissingWhere, Listed, HeldIn,
         BuriedIn, LapsedBelow, MarksOf, NamesOf, Dense, TombsThere, TombsSeen, TombsExact, World.Lost;
    ExactTombsIn(schema, w, st);
    var ep := CopyShowsHeld(schema, w, kv, w.Epochs(), ws, r);
    WholeHasTombs(w);
    if r in w.Lost() {
      LostIsNowhere(schema, w, r, ep);
    }
    assert if w.phase.Idle? then DeadTop(w, r) else DeadBelow(w, r);
    if BuriedIn(w.log, w.epoch, r) {
      BuriedIsListed(schema, w, w.Epochs(), w.epoch, r);
    } else if !Lapsed(w, r) {
      BuriedIsListed(schema, w, w.Epochs(), w.epoch - 1, r);
    }
  }

  lemma CopyShowsHeld(schema: Schema, w: World, kv: Net, eps: set<nat>, ws: set<Writer>, r: Rid) returns (ep: nat)
    requires LinksLogged(w, kv) && Shown(schema, kv, w.Standing(), eps, ws, r)
    ensures ep in eps && HeldIn(w.log, ep, r) && (r in w.table.deleted || r in w.Lost())
  {
    var c: Chain, i: nat :| Names(kv, eps, ws, c, i, r) && Findable(schema, w.table.inserted[r], c.w);
    assert w.log[c][i - 1] in w.log[c];
    assert c == Index(c.w, c.epoch, c.writer) && Holds(w.log, c.w, c.epoch, c.writer, r);
    ep := c.epoch;
  }

  // ------------------------------------------------------------ the pass

  /** Index and system entries answer, and so do the live records. */
  ghost predicate Speaks(w: World, silent: set<Key>) {
    LinksSpeak(w.net, silent) && forall r :: w.table.Live(r) ==> Rec(r) !in silent
  }

  lemma SpeaksLinks(w: World, silent: set<Key>)
    ensures Speaks(w, silent) ==> LinksSpeak(w.net, silent)
  {
  }

  lemma FewerSilent(net: Net, silent: set<Key>, fewer: set<Key>)
    requires LinksSpeak(net, silent) && fewer <= silent
    ensures LinksSpeak(net, fewer)
  {
  }

  lemma SpeaksLive(w: World, silent: set<Key>, bad: set<Key>)
    requires Speaks(w, silent) && bad <= silent
    ensures forall r :: w.table.Live(r) ==> Rec(r) !in bad
  {
  }

  lemma ReadyTakes(schema: Schema, w: World, kv: Net, st: State, me: Writer, more: Net)
    requires Inv(schema, w) && SyncReady(w, kv, st, me) && Truthful(w.net, more)
    ensures SyncReady(w, kv + more, st, me)
  {
    hide Built, SystemTrue, Rendered, LogTrue, Owned, MissingWhere, Complete, DeadBuried, Carried, WalkedRight,
         LinksLogged, SystemCopied, Synced, CountedWithin, BlobsGenuine;
    BlobsAreServed(schema, w);
    CopyTakes(w, kv, more);
  }

  /** After the fetch of what the mirror lacks every live record is there, if and only if each of those that did not
      come back belongs to a deleted one: this read is not refused. */
  lemma RecordsLandIff(schema: Schema, w: World, d: Derived, had: Net, got: Net, bad: set<Key>)
    requires BlobsTrue(w.net, w.table) && got.Keys !! bad && bad <= (set r | r in d.rids :: Rec(r)) - had.Keys
    requires HonestRead(w.net, (set r | r in d.rids :: Rec(r)) - had.Keys, got, bad)
    ensures RecordsIn(schema, w, d, had + got) <==> forall r :: w.table.Live(r) ==> Rec(r) !in bad
  {
    forall r | r in d.rids && w.table.Live(r) ensures Rec(r) in had + got <==> Rec(r) !in bad {
      assert Rec(r) in (set x | x in d.rids :: Rec(x));
    }
    forall r | Rec(r) in bad ensures r in d.rids {
    }
  }

  lemma EndsAreLogged(w: World, ep: nat, ws: set<Writer>, d: Derived)
    requires EndsHeld(w, ep, ws, d)
    ensures forall c :: c in d.ends ==> c.Index? && d.ends[c] <= |w.Log(c)|
  {
    hide Fetched;
  }

  /** One epoch of a pass: derive it, mirror its entries, and fetch the records the mirror lacks. */
  method SyncEpoch(o: Owner, m: Mirror, net: Net, ep: nat, ws: set<Writer>, silent: set<Key>, ghost w: World)
    returns (ok: bool)
    requires ValidSchema(o.schema) && net == w.net && Inv(o.schema, w) && Quiet(w) && ep in w.Epochs()
    requires SyncReady(w, m.kv, o.st, o.me)
    modifies o`st, m`kv
    ensures silent == {} ==> ok
    ensures o.st == old(o.st).(chains := o.st.chains, remote := o.st.remote)
    ensures SyncReady(w, m.kv, o.st, o.me) && OwnKept(w, old(o.st), o.st, o.me)
    ensures old(m.kv).Keys <= m.kv.Keys
    ensures ok && Speaks(w, silent) && Bounded(o.schema, w, ep) ==> EpochCopied(o.schema, w, ep, ws, m.kv)
  {
    hide Inv, SyncReady, OwnKept, Bounded, Whole, EpochCopied, EndsHeld, TopExact, DeepExact, SettledExact,
         WalkedInstead, IdsHeld, Derivation.Stray, Rendered, BlobsTrue, LogTrue, OneHome, BlobsGenuine, Speaks,
         LinksSpeak, Noted, RecordsIn, Closed;
    QuietIsWhole(o.schema, w, ep);
    InvFacts(o.schema, w);
    OwnSame(w, o.st, o.me);
    var derived;
    ghost var unheard, missed;
    derived, unheard, missed := DeriveEpoch(o.schema, net, ep, ws, silent, w);
    if derived.Failure? {
      return false;
    }
    var d := derived.value;
    EndsAreLogged(w, ep, ws, d);
    NotedKeeps(w, m.kv, o.st, o.me, d.ends);
    NotedShape(o.st, o.me, d.ends);
    o.st := Noted(o.st, o.me, d.ends);
    ReadyTakes(o.schema, w, m.kv, o.st, o.me, d.kv);
    m.PutMany(d.kv);
    var blobKeys := set r | r in d.rids :: Rec(r);
    var have := m.GetMany(blobKeys);
    var got, bad := MGet(net, blobKeys - have.Keys, silent);
    assert blobKeys - have.Keys == blobKeys - m.kv.Keys;
    ReadyTakes(o.schema, w, m.kv, o.st, o.me, got);
    if Speaks(w, silent) && Bounded(o.schema, w, ep) {
      RecordsLandIff(o.schema, w, d, m.kv, got, bad);
      SpeaksLive(w, silent, bad);
      SpeaksLinks(w, silent);
      FewerSilent(net, silent, unheard + missed);
      EpochIsCopied(o.schema, w, ep, ws, unheard, missed, d, m.kv + got);
    }
    m.PutMany(got);
    return true;
  }

  lemma OwnSame(w: World, st: State, me: Writer)
    ensures OwnKept(w, st, st, me)
  {
  }

  lemma OwnAlong(w: World, st: State, st': State, st'': State, me: Writer)
    requires OwnKept(w, st, st', me) && OwnKept(w, st', st'', me) && st'.epoch == st''.epoch
    ensures OwnKept(w, st, st'', me)
  {
  }

  /** Fewer counters, and later prefixes of the system chains, are as good. */
  lemma ReadySystem(w: World, kv: Net, st: State, st': State, me: Writer)
    requires SyncReady(w, kv, st, me) && Warm(w, st', me)
    requires st'.tombRids == st.tombRids && Fewer(st'.tombCounts, st.tombCounts)
    ensures SyncReady(w, kv, st', me)
    ensures st'.epoch == st.epoch && st'.chains == st.chains ==> OwnKept(w, st, st', me)
  {
    hide TrueCopy, Synced, CountedWithin;
  }

  /** The tombstone chains of a quiet network are read to their ends. */
  lemma TombsToEnd(schema: Schema, w: World, st: State, me: Writer, c: Chain, end: nat)
    requires Inv(schema, w) && Quiet(w) && CountedWithin(st, me, LogLen(w))
    requires c in TombChains(w.Epochs(), w.writers) && StopsAt(w.net, c, st.Count(me, c), end)
    ensures end == |w.Log(c)| && c.Index? && c.w == Tomb
    ensures forall i: nat :: 1 <= i <= |w.Log(c)| ==> Link(c, i) in w.net && w.net[Link(c, i)] == Entry(w.Log(c)[i - 1])
  {
    hide Inv, CountedWithin, Whole;
    QuietIsWhole(schema, w, c.epoch);
    InvFacts(schema, w);
    ChainAsLogged(w, c);
    CountIsWithin(st, me, LogLen(w), c);
    StopOfDense(w.net, c, st.Count(me, c), |w.Log(c)|, end);
  }

  /** What the copy holds of chains that are whole on the network has been taken in with them. */
  lemma CopySeen(w: World, kv: Net, st: State, st': State, chains: set<Chain>)
    requires LinksLogged(w, kv) && TombsSeen(kv, st, w.Standing()) && TombsSeen(w.net, st', w.Standing())
             && st.tombRids <= st'.tombRids
    requires forall c :: c in chains ==> c.Index? && c in st'.tombCounts && st'.tombCounts[c] == |w.Log(c)|
    requires forall c, i: nat :: c in chains && 1 <= i <= |w.Log(c)| ==>
               Link(c, i) in w.net && w.net[Link(c, i)] == Entry(w.Log(c)[i - 1])
    requires forall c :: c in st'.tombCounts && c !in chains ==>
               c in st.tombCounts && st'.tombCounts[c] == st.tombCounts[c]
    ensures TombsSeen(kv, st', w.Standing())
  {
    forall c, i: nat | c in st'.tombCounts && 1 <= i <= st'.tombCounts[c] && Link(c, i) in kv && kv[Link(c, i)].Entry?
      ensures kv[Link(c, i)].rid in st'.tombRids
    {
      if c in chains {
        assert kv[Link(c, i)] == w.net[Link(c, i)];
      }
    }
  }

  /** The tombstones' part of a pass. */
  lemma ReadyTombs(schema: Schema, w: World, kv: Net, st: State, st': State, me: Writer)
    requires Inv(schema, w) && Quiet(w) && SyncReady(w, kv, st, me) && TombsSeen(w.net, st', w.Standing())
             && st.Epochs() == w.Epochs()
    requires st' == st.(tombCounts := st'.tombCounts, tombRids := st'.tombRids) && st.tombRids <= st'.tombRids
    requires forall c :: c in TombChains(w.Epochs(), w.writers) ==>
               c in st'.tombCounts && StopsAt(w.net, c, st.Count(me, c), st'.tombCounts[c])
    requires forall c :: c in st'.tombCounts && c !in TombChains(w.Epochs(), w.writers) ==>
               c in st.tombCounts && st'.tombCounts[c] == st.tombCounts[c]
    ensures SyncReady(w, kv, st', me) && TombsExact(w, st') && OwnKept(w, st, st', me)
  {
    hide Inv, TombChains, StopsAt, SystemCopied, BlobsGenuine, MarksOf, NamesOf, Dense, DenseTo, TombsSeen, LinksLogged,
         OwnKept, SyncReady, TombsExact;
    assert CountedWithin(st, me, LogLen(w)) && LinksLogged(w, kv)
           && TombsSeen(kv, st, w.Standing()) by { ReadyParts(w, kv, st, me); }
    forall c | c in TombChains(w.Epochs(), w.writers)
      ensures st'.tombCounts[c] == |w.Log(c)| && c.Index? && c.w == Tomb
      ensures forall i: nat :: 1 <= i <= |w.Log(c)| ==>
                Link(c, i) in w.net && w.net[Link(c, i)] == Entry(w.Log(c)[i - 1])
    {
      TombsToEnd(schema, w, st, me, c, st'.tombCounts[c]);
    }
    CopySeen(w, kv, st, st', TombChains(w.Epochs(), w.writers));
    ReadyWithTombs(w, kv, st, st', me);
  }

  lemma ReadyParts(w: World, kv: Net, st: State, me: Writer)
    requires SyncReady(w, kv, st, me)
    ensures CountedWithin(st, me, LogLen(w)) && LinksLogged(w, kv) && TombsSeen(kv, st, w.Standing())
  {
    hide CountedWithin, LinksLogged, TombsSeen, Synced, SystemCopied, BlobsGenuine;
  }

  lemma ReadyWithTombs(w: World, kv: Net, st: State, st': State, me: Writer)
    requires SyncReady(w, kv, st, me) && TombsSeen(w.net, st', w.Standing()) && TombsSeen(kv, st', w.Standing())
    requires st' == st.(tombCounts := st'.tombCounts, tombRids := st'.tombRids)
    requires forall c :: c in TombChains(w.Epochs(), w.writers) ==>
               c in st'.tombCounts && st'.tombCounts[c] == |w.Log(c)| && c.Index? && c.w == Tomb
    requires forall c :: c in st'.tombCounts && c !in TombChains(w.Epochs(), w.writers) ==>
               c in st.tombCounts && st'.tombCounts[c] == st.tombCounts[c]
    ensures SyncReady(w, kv, st', me) && TombsExact(w, st') && OwnKept(w, st, st', me)
  {
    hide TrueCopy, TombsSeen, MarksOf, NamesOf, Dense, TombChains;
  }

  /** One reconcile pass. Whatever it comes to, the mirror is ready for the next one; if it completes, and the index
      entries and live records answered, the copy and the caches are what a reader needs. */
  method SyncPass(o: Owner, m: Mirror, net: Net, silent: set<Key>, now: real, duration: real, ghost w: World)
    returns (ok: bool)
    requires ValidSchema(o.schema) && net == w.net && Inv(o.schema, w) && Quiet(w)
    requires SyncReady(w, m.kv, o.st, o.me) && LinksSpeak(net, silent)
    modifies o`st, m
    ensures silent == {} ==> ok
    ensures ok ==> m.completeOnce && m.syncedAt == Some(now)
    ensures !ok ==> m.completeOnce == old(m.completeOnce) && m.syncedAt == old(m.syncedAt)
    ensures SyncReady(w, m.kv, o.st, o.me) && OwnKept(w, old(o.st), o.st, o.me)
    ensures ok && Speaks(w, silent) && (forall ep :: ep in w.Epochs() ==> Bounded(o.schema, w, ep)) ==>
              Passed(o.schema, w, m.kv, o.st, o.me)
  {
    hide Inv, Bounded, EpochCopied, Speaks, LinksSpeak, SyncReady, OwnKept, TombsExact, TombsSeen, Dense, MarksOf,
         NamesOf;
    ok := SyncSystem(o, net, silent, w, m.kv);
    if !ok {
      return false;
    }
    ghost var good := Speaks(w, silent) && forall ep :: ep in w.Epochs() ==> Bounded(o.schema, w, ep);
    ghost var st1 := o.st;
    var ws := set u | u in o.st.writers;
    ok := SyncEpochs(o, m, net, ws, silent, w);
    OwnAlong(w, old(o.st), st1, o.st, o.me);
    if !ok {
      return false;
    }
    ghost var st2 := o.st;
    var tombs, unread := RefreshTombs(net, o.st, o.me, ws, silent, o.schema, w.Standing());
    if tombs.Failure? {
      return false;
    }
    assert TombsSeen(w.net, tombs.value, w.Standing()) by {
      ReadySeen(w, m.kv, o.st, o.me);
      EntriesOnWalk(o.schema, w, w.Epochs());
      AbsentIsTaken(net, unread, tombs.value.tombRids);
    }
    ReadyTombs(o.schema, w, m.kv, o.st, tombs.value, o.me);
    o.st := tombs.value;
    OwnAlong(w, old(o.st), st2, o.st, o.me);
    m.MarkSynced(now, duration);
    if good {
      PassDone(o.schema, w, m.kv, o.st, o.me, ws);
    }
    return true;
  }

  lemma PassDone(schema: Schema, w: World, kv: Net, st: State, me: Writer, ws: set<Writer>)
    requires SyncReady(w, kv, st, me) && TombsExact(w, st) && ws == w.writers
    requires st.epochLen == EndOf(w.net, EpochChain) && st.regLen == EndOf(w.net, RegistryChain)
    requires forall ep :: ep in w.Epochs() ==> EpochCopied(schema, w, ep, ws, kv)
    ensures Passed(schema, w, kv, st, me)
  {
    hide SyncReady, TombsExact, EpochCopied, Dense;
  }

  lemma ReadySeen(w: World, kv: Net, st: State, me: Writer)
    requires SyncReady(w, kv, st, me)
    ensures TombsSeen(w.net, st, w.Standing()) && Synced(w.net, st)
  {
    hide TombsSeen, Synced;
  }

  /** The first part of a pass: both system chains, read to their ends. */
  method SyncSystem(o: Owner, net: Net, silent: set<Key>, ghost w: World, ghost kv: Net) returns (ok: bool)
    requires ValidSchema(o.schema) && net == w.net && Inv(o.schema, w) && SyncReady(w, kv, o.st, o.me)
             && LinksSpeak(net, silent)
    modifies o`st
    ensures silent == {} ==> ok
    ensures SyncReady(w, kv, o.st, o.me) && OwnKept(w, old(o.st), o.st, o.me)
    ensures ok ==> && Dense(w.net, EpochChain) && Dense(w.net, RegistryChain)
                   && o.st.epochLen == EndOf(w.net, EpochChain) && o.st.regLen == EndOf(w.net, RegistryChain)
                   && o.st.epoch == w.epoch && o.st.Epochs() == w.Epochs() && (set u | u in o.st.writers) == w.writers
  {
    hide Inv, LinksSpeak, SyncReady, OwnKept, TombsSeen, Dense, MarksOf, NamesOf, Trusted, CountedWithin, SearchAsks,
         OpenedHeard, MarksWithin, NamesWithin;
    ghost var st0 := o.st;
    OwnSame(w, o.st, o.me);
    ReadyTrusted(o.schema, w, kv, o.st, o.me);
    ghost var unread;
    ok, unread := o.RefreshWriters(net, silent, w.Standing(), LogLen(w));
    AbsentIsWithin(net, unread, (o.st.epoch, o.st.sealedMax), o.st.writers);
    TrustedReady(o.schema, w, kv, st0, o.st, o.me);
    OwnSystem(w, st0, o.st, o.st, o.me);
    if !ok {
      return;
    }
    ghost var st1 := o.st;
    ok, unread := o.RefreshEpoch(net, silent, w.Standing(), LogLen(w));
    AbsentIsWithin(net, unread, (o.st.epoch, o.st.sealedMax), o.st.writers);
    TrustedReady(o.schema, w, kv, st1, o.st, o.me);
    OwnSystem(w, st0, st1, o.st, o.me);
    if ok {
      SystemRead(o.schema, w, o.st, o.me);
    }
  }

  lemma OwnSystem(w: World, st: State, st1: State, st': State, me: Writer)
    requires st1 == st.(writers := st1.writers, regLen := st1.regLen)
    requires st'.epoch == st1.epoch ==> st'.chains == st1.chains
    ensures OwnKept(w, st, st1, me) && OwnKept(w, st, st', me)
  {
  }

  lemma ReadyTrusted(schema: Schema, w: World, kv: Net, st: State, me: Writer)
    requires ValidSchema(schema) && Inv(schema, w) && SyncReady(w, kv, st, me)
    ensures Trusted(schema, w.net, w.Standing(), st, me, LogLen(w)) && Synced(w.net, st)
  {
    hide Inv, Synced, Trusted;
    WarmIsTrusted(schema, w, st, me);
  }

  lemma TrustedReady(schema: Schema, w: World, kv: Net, st: State, st': State, me: Writer)
    requires ValidSchema(schema) && Inv(schema, w) && SyncReady(w, kv, st, me)
             && Trusted(schema, w.net, w.Standing(), st', me, LogLen(w))
    requires st'.tombRids == st.tombRids && Fewer(st'.tombCounts, st.tombCounts)
    ensures SyncReady(w, kv, st', me) && Synced(w.net, st')
  {
    hide Inv, Synced, Trusted, SyncReady, Fewer;
    WarmIsTrusted(schema, w, st', me);
    ReadySystem(w, kv, st, st', me);
  }

  /** The second part: every epoch there is to read. */
  method SyncEpochs(o: Owner, m: Mirror, net: Net, ws: set<Writer>, silent: set<Key>, ghost w: World) returns (ok: bool)
    requires ValidSchema(o.schema) && net == w.net && Inv(o.schema, w) && Quiet(w) && o.st.Epochs() == w.Epochs()
    requires SyncReady(w, m.kv, o.st, o.me)
    modifies o`st, m`kv
    ensures silent == {} ==> ok
    ensures o.st == old(o.st).(chains := o.st.chains, remote := o.st.remote)
    ensures SyncReady(w, m.kv, o.st, o.me) && OwnKept(w, old(o.st), o.st, o.me)
    ensures ok && Speaks(w, silent) && (forall ep :: ep in w.Epochs() ==> Bounded(o.schema, w, ep)) ==>
              forall ep :: ep in w.Epochs() ==> EpochCopied(o.schema, w, ep, ws, m.kv)
  {
    hide Inv, SyncReady, OwnKept, Bounded, EpochCopied, Speaks;
    var todo := o.st.Epochs();
    ghost var good := Speaks(w, silent) && forall ep :: ep in w.Epochs() ==> Bounded(o.schema, w, ep);
    ghost var done: set<nat> := {};
    OwnSame(w, o.st, o.me);
    while todo != {}
      invariant todo + done == w.Epochs()
      invariant o.st == old(o.st).(chains := o.st.chains, remote := o.st.remote)
      invariant SyncReady(w, m.kv, o.st, o.me) && OwnKept(w, old(o.st), o.st, o.me)
      invariant good ==> forall ep :: ep in done ==> EpochCopied(o.schema, w, ep, ws, m.kv)
      decreases todo
    {
      var ep :| ep in todo;
      ghost var kv0, st0 := m.kv, o.st;
      ok := SyncEpoch(o, m, net, ep, ws, silent, w);
      OwnAlong(w, old(o.st), st0, o.st, o.me);
      if !ok {
        return false;
      }
      if good {
        forall e | e in done ensures EpochCopied(o.schema, w, e, ws, m.kv) {
          CopiedGrows(o.schema, w, e, ws, kv0, m.kv);
        }
      }
      todo, done := todo - {ep}, done + {ep};
    }
    return true;
  }

  // ------------------------------------------------------------ queries from the copy alone

  /** A query has one answer. */
  lemma OneAnswer(schema: Schema, table: Table, preds: seq<Predicate>, rows: map<Rid, Record>, rows': map<Rid, Record>)
    requires KnownFields(schema, preds)
    requires Answer(schema, table, preds, rows) && Answer(schema, table, preds, rows')
    ensures rows == rows'
  {
    assert rows.Keys == rows'.Keys by {
      forall r ensures r in rows <==> r in rows' {
      }
    }
    forall r | r in rows ensures rows[r] == rows'[r] {
      assert table.Live(r);
    }
  }

  /** A query answered by a mirror that serves succeeds; it gets all that is live, and beside that at most deleted
      records the copy still shows and whose tombstones have not been taken in. The mirror goes on serving, and stays
      ready for its next pass, however far the network has moved on. */
  method QueryMirror(o: Owner, m: Mirror, preds: seq<Predicate>, ghost w: World, ghost v: View, ghost w': World)
    returns (r: Result<map<Rid, Record>, QueryError>)
    requires ValidSchema(o.schema) && KnownFields(o.schema, preds)
    requires forall i, j :: 0 <= i < j < |preds| ==> preds[i].field != preds[j].field
    requires Serves(o.schema, w, m.kv, o.st, o.me, v) && NoTombsAhead(m.kv, o.st, o.me)
    requires SyncReady(w', m.kv, o.st, o.me) && LogsGrow(w, w') && w.Standing().deleted <= w'.Standing().deleted
    modifies o`st
    ensures r.Success? && Nearly(o.schema, w.Standing(), preds, r.value)
    ensures forall x :: x in r.value && x in w.Standing().deleted ==>
              Shown(o.schema, m.kv, w.Standing(), v.eps, v.ws, x) && x !in old(o.st).tombRids
    ensures Serves(o.schema, w, m.kv, o.st, o.me, v) && NoTombsAhead(m.kv, o.st, o.me)
    ensures SyncReady(w', m.kv, o.st, o.me) && old(o.st).tombRids <= o.st.tombRids
    ensures o.st == old(o.st).(chains := o.st.chains, remote := o.st.remote, tombCounts := o.st.tombCounts,
                               tombRids := o.st.tombRids)
  {
    hide Reliable, Told, NoTombsAhead, TombsMoved, SyncReady, LogsGrow;
    ghost var st0 := o.st;
    r := o.QueryMulti(m.kv, preds, {}, w.Standing(), LogLen(w));
    assert LinksSpeak(m.kv, {});
    assert KeptAnswer(o.schema, m.kv, w.Standing(), preds, st0, o.st, o.me, r, v);
    ToldShows(o.schema, m.kv, w.Standing(), preds, v, st0, o.st, r.value);
    if o.st != st0 {
      AheadKept(m.kv, st0, o.st, o.me);
      ReadyAsked(o.schema, w, w', m.kv, st0, o.st, o.me, v);
    }
  }

  lemma ToldShows(schema: Schema, net: Net, table: Table, preds: seq<Predicate>, v: View, before: State, after: State,
                  rows: map<Rid, Record>)
    requires KnownFields(schema, preds) && Told(schema, net, table, preds, v, before, after, rows)
             && before.tombRids <= after.tombRids
    ensures Nearly(schema, table, preds, rows)
    ensures forall x :: x in rows && x in table.deleted ==>
              Shown(schema, net, table, v.eps, v.ws, x) && x !in before.tombRids
  {
    hide Nearly, Shown, Listed, Answer;
  }

  /** No tombstone chain the copy is read by goes on past its count. */
  ghost predicate NoTombsAhead(kv: Net, st: State, me: Writer) {
    forall c :: c in TombChains(st.Epochs(), st.Readers(me)) ==> Link(c, st.Count(me, c) + 1) !in kv
  }

  lemma AheadKept(kv: Net, st: State, st': State, me: Writer)
    requires NoTombsAhead(kv, st, me) && TombsMoved(kv, st, st', me)
    requires st' == st.(chains := st'.chains, remote := st'.remote, tombCounts := st'.tombCounts,
                        tombRids := st'.tombRids)
    ensures NoTombsAhead(kv, st', me)
    ensures forall c :: c in st'.tombCounts && c.Index? && c.w == Tomb ==> st'.tombCounts[c] == st.Count(me, c)
  {
  }

  lemma ReadyAsked(schema: Schema, w: World, w': World, kv: Net, st: State, st': State, me: Writer, v: View)
    requires SyncReady(w', kv, st, me) && LogsGrow(w, w') && w.Standing().deleted <= w'.Standing().deleted
             && st.tombRids <= st'.tombRids
    requires Reliable(schema, kv, w.Standing(), st', me, v) && v.cap == LogLen(w)
    requires st' == st.(chains := st'.chains, remote := st'.remote, tombCounts := st'.tombCounts,
                        tombRids := st'.tombRids)
    requires forall c :: c in st'.tombCounts && c.Index? && c.w == Tomb ==> st'.tombCounts[c] == st.Count(me, c)
    ensures SyncReady(w', kv, st', me)
  {
    hide TrueCopy, Faithful, MarksOf, NamesOf, Dense, CountedTo, ViewCurrent;
    assert forall c :: LogLen(w)(c) <= LogLen(w')(c) by {
      forall c ensures |w.Log(c)| <= |w'.Log(c)| {
      }
    }
  }

  /** A completed pass makes the mirror serve. */
  lemma PassServes(schema: Schema, w: World, kv: Net, st: State, me: Writer)
    requires ValidSchema(schema) && Inv(schema, w) && Quiet(w) && Passed(schema, w, kv, st, me)
    ensures Serves(schema, w, kv, st, me, LocalView(w, me)) && NoTombsAhead(kv, st, me)
    ensures forall r :: Shown(schema, kv, w.Standing(), LocalView(w, me).eps, LocalView(w, me).ws, r) ==>
              r in w.table.deleted && r !in w.Lost() && (r in st.tombRids || Lapsed(w, r))
  {
    hide Inv, Serves, Shown, EpochCopied, SystemCopied, BlobsGenuine, TombsSeen, CountedWithin, MarksOf, NamesOf, Dense,
         Lapsed;
    CopyIsReliable(schema, w, kv, st, me);
    SystemRead(schema, w, st, me);
    forall r | Shown(schema, kv, w.Standing(), LocalView(w, me).eps, LocalView(w, me).ws, r)
      ensures r in w.table.deleted && r !in w.Lost() && (r in st.tombRids || Lapsed(w, r))
    {
      HiddenInCopy(schema, w, kv, st, LocalView(w, me).ws, r);
    }
    forall c | c in TombChains(st.Epochs(), st.Readers(me)) ensures Link(c, st.Count(me, c) + 1) !in kv {
      if w.writers == {} {
        NobodyLogged(schema, w, c);
      }
    }
  }

  lemma NobodyLogged(schema: Schema, w: World, c: Chain)
    requires Inv(schema, w) && w.writers == {}
    ensures w.Log(c) == []
  {
    hide Built, SystemTrue, Rendered, BlobsTrue, LogTrue, MissingWhere, Complete, DeadBuried, Carried, WalkedRight;
  }

  // ------------------------------------------------------------ pass after pass

  /** A pass over one world of a run, and a query of the mirror some time later. */
  datatype Round = Round(at: nat, later: nat, silent: set<Key>, now: real, duration: real, preds: seq<Predicate>)

  ghost predicate InTime(schema: Schema, ws: seq<World>, rd: Round) {
    && rd.at <= rd.later < |ws| && Quiet(ws[rd.at]) && Speaks(ws[rd.at], rd.silent)
    && (forall ep :: ep in ws[rd.at].Epochs() ==> Bounded(schema, ws[rd.at], ep))
    && KnownFields(schema, rd.preds) && forall i, j :: 0 <= i < j < |rd.preds| ==>
         rd.preds[i].field != rd.preds[j].field
  }

  /** What the mirror tells: the table as it stood at its last pass, but for deleted records whose tombstones have
      lapsed. */
  ghost predicate MirrorHonest(schema: Schema, w: World, rd: Round, told: Option<map<Rid, Record>>) {
    && (rd.silent == {} ==> told.Some?)
    && (told.Some? ==> && KnownFields(schema, rd.preds) && Nearly(schema, w.Standing(), rd.preds, told.value)
                       && forall r :: r in told.value && r in w.Standing().deleted ==>
                            r in w.table.deleted && Lapsed(w, r))
  }

  /** One round; the mirror ends up ready for the next. */
  method MirrorRound(o: Owner, m: Mirror, ghost ws: seq<World>, net: Net, rd: Round)
    returns (told: Option<map<Rid, Record>>)
    requires ValidSchema(o.schema) && Run(o.schema, ws) && InTime(o.schema, ws, rd) && net == ws[rd.at].net
    requires SyncReady(ws[rd.at], m.kv, o.st, o.me)
    modifies o`st, m
    ensures MirrorHonest(o.schema, ws[rd.at], rd, told)
    ensures SyncReady(ws[rd.later], m.kv, o.st, o.me)
  {
    hide Inv, SyncReady, Step, Init, Nearly, Serves, Passed, NoTombsAhead, Speaks, Quiet, Bounded, Lapsed, Shown,
         LogsGrow, OwnKept;
    ghost var w, w' := ws[rd.at], ws[rd.later];
    RunKeeps(o.schema, ws, rd.at);
    SpeaksLinks(w, rd.silent);
    var ok := SyncPass(o, m, net, rd.silent, rd.now, rd.duration, w);
    ReadyOverRun(o.schema, ws, rd.at, rd.later, m.kv, o.st, o.me);
    if !ok {
      return None;
    }
    GrowsOverRun(o.schema, ws, rd.at, rd.later);
    PassServes(o.schema, w, m.kv, o.st, o.me);
    var r := QueryMirror(o, m, rd.preds, w, LocalView(w, o.me), w');
    return Some(r.value);
  }

  lemma {:induction false} GrowsOverRun(schema: Schema, ws: seq<World>, j: nat, k: nat)
    requires ValidSchema(schema) && Run(schema, ws) && j <= k < |ws|
    ensures LogsGrow(ws[j], ws[k]) && ws[j].Standing().deleted <= ws[k].Standing().deleted
    decreases k
  {
    hide Inv, Step, Init, TombsStay, Extends;
    if j < k {
      GrowsOverRun(schema, ws, j, k - 1);
      RunKeeps(schema, ws, k - 1);
      StepFollows(schema, ws[k - 1], ws[k]);
      forall c ensures ws[j].Log(c) <= ws[k].Log(c) {
        assert ws[j].Log(c) <= ws[k - 1].Log(c) <= ws[k].Log(c);
      }
    }
  }

  /** A mirror that starts empty, and passes over any worlds of any run with others writing, deleting and compacting
      in between: every pass ends in a mirror that serves, whatever the earlier ones have left in it, and what is
      answered from it later is the table as of the last pass. */
  method MirrorSession(schema: Schema, me: Writer, ghost ws: seq<World>, nets: seq<Net>, rounds: seq<Round>)
    returns (told: seq<Option<map<Rid, Record>>>)
    requires ValidSchema(schema) && Run(schema, ws)
    requires |nets| == |ws| && forall k :: 0 <= k < |ws| ==> nets[k] == ws[k].net
    requires forall j :: 0 <= j < |rounds| ==> rounds[j].at <= rounds[j].later < |ws| && InTime(schema, ws, rounds[j])
    requires forall i, j :: 0 <= i < j < |rounds| ==> rounds[i].later <= rounds[j].at
    ensures |told| == |rounds| && forall j :: 0 <= j < |rounds| ==>
              MirrorHonest(schema, ws[rounds[j].at], rounds[j], told[j])
  {
    hide Inv, SyncReady, Step, Init, MirrorHonest, InTime, Warm;
    told := [];
    var o := new Owner(schema, me);
    var m := new Mirror();
    ghost var now: nat := 0;
    RunKeeps(schema, ws, 0);
    FreshIsWarm(schema, ws[0], me);
    EmptyMirrorReady(ws[0], o.st, me);
    for n := 0 to |rounds|
      invariant |told| == n && o.schema == schema && o.me == me && fresh(o) && fresh(m)
      invariant now < |ws| && SyncReady(ws[now], m.kv, o.st, me) && forall j :: n <= j < |rounds| ==>
                  now <= rounds[j].at
      invariant forall j :: 0 <= j < n ==> MirrorHonest(schema, ws[rounds[j].at], rounds[j], told[j])
    {
      ReadyOverRun(schema, ws, now, rounds[n].at, m.kv, o.st, me);
      var t := MirrorRound(o, m, ws, nets[rounds[n].at], rounds[n]);
      now := rounds[n].later;
      told := told + [t];
    }
  }
}
