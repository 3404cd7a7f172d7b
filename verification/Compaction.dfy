/** Epoch compaction running beside other writers and readers (Owner.compact, insert_many and delete_many in
    blindrange/client.py), as a step relation on the network.

    A compactor announces epoch e on the epoch chain, walks epoch e - 1 once no straggler writes there any
    more, rewrites the surviving entries as its own chains of epoch e, deletes the keys of epoch e - 1 and
    seals it. Other registered writers insert and delete in epoch e all along. */
module Compaction {
  import opened Basics
  import opened Chains
  import opened Index
  import opened Query
  import Dyadic

  datatype Phase =
    | Idle
    | Draining
    | Walked(entries: map<ChainLabel, set<Rid>>)
    | Rewriting
    | Deleting

  /** The network, the table it stands for, and what the protocol has reached.

      log holds every index chain as its writer appended it; missing are the slots of log that are not on
      the network: not rewritten yet, or deleted already. walkers are the writers the compactor had read from the
      registry when it opened the newest epoch. drained holds the chains of compacted epochs as far as their last
      drain walk read them, and heard the tombstones each rewrite went by. */
  datatype World = World(
    net: Net, table: Table,
    log: map<Chain, seq<Rid>>, missing: set<Key>,
    epoch: nat, phase: Phase, compactor: Writer, writers: set<Writer>, walkers: set<Writer>,
    drained: map<Chain, seq<Rid>>, heard: map<nat, set<Rid>>)
  {
    function Log(c: Chain): seq<Rid> {
      if c in log then log[c] else []
    }

    /** Highest sealed epoch. */
    function SealedMax(): int {
      if phase.Idle? then epoch - 1 else epoch - 2
    }

    function Epochs(): set<nat> {
      EpochsOf(epoch, SealedMax())
    }

    /** The epoch below the newest. */
    function Below(): int {
      epoch - 1
    }

    /** The lowest epoch that readers still find whole. */
    function Lowest(): int {
      if phase.Deleting? then epoch else SealedMax() + 1
    }

    /** Records left behind in an epoch below that. */
    ghost function Lost(): set<Rid> {
      set r | r in table.inserted && Left(log, drained, Lowest(), r)
    }

    /** The table as far as readers are sure of it: what was left behind counts as gone. */
    ghost function Standing(): Table {
      Table(table.inserted, table.deleted + Lost())
    }

    /** Whether the epoch below the newest still holds all it ever held. */
    predicate OldWhole() {
      phase.Draining? || phase.Walked? || phase.Rewriting?
    }
  }

  // ------------------------------------------------------------ steps

  /** The chains one record is appended to. */
  function RecordChains(schema: Schema, rec: Record, ep: nat, u: Writer): set<Chain>
    requires ValidSchema(schema)
  {
    set f, d | f in schema && f in rec && d in Dyadic.LevelsFor(rec[f], schema[f].bits, schema[f].mlvl) ::
        Index(Of(f, d), ep, u)
  }

  /** Append one id to each of a set of chains. */
  function Appended(log: map<Chain, seq<Rid>>, chains: set<Chain>, r: Rid): map<Chain, seq<Rid>> {
    log + map c | c in chains :: (if c in log then log[c] else []) + [r]
  }

  /** The slots those appends fill. */
  function NextSlots(log: map<Chain, seq<Rid>>, chains: set<Chain>): set<Key> {
    set c | c in chains :: Link(c, (if c in log then |log[c]| else 0) + 1)
  }

  function Filled(net: Net, slots: set<Key>, r: Rid): Net {
    net + map k | k in slots :: Entry(r)
  }

  /** Who may write where: all registered writers but a busy compactor, and, since a writer goes by the epoch it has
      read last, in the newest epoch or any older one. */
  predicate MayWrite(w: World, u: Writer, ep: nat) {
    u in w.writers && ep <= w.epoch && (w.phase.Idle? || u != w.compactor)
  }

  ghost predicate Insert(schema: Schema, w: World, w': World, u: Writer, ep: nat, r: Rid, rec: Record)
    requires ValidSchema(schema)
  {
    var chains := RecordChains(schema, rec, ep, u);
    && MayWrite(w, u, ep) && r !in w.table.inserted && r !in w.table.deleted
    && w' == w.(net := Filled(w.net, NextSlots(w.log, chains), r)[Rec(r) := Blob(rec)],
                table := w.table.(inserted := w.table.inserted[r := rec]),
                log := Appended(w.log, chains, r))
  }

  /** First half of a delete: the tombstone. */
  ghost predicate Bury(w: World, w': World, u: Writer, ep: nat, r: Rid) {
    var chains := {Index(Tomb, ep, u)};
    && MayWrite(w, u, ep)
    && w' == w.(net := Filled(w.net, NextSlots(w.log, chains), r),
                table := w.table.(deleted := w.table.deleted + {r}),
                log := Appended(w.log, chains, r))
  }

  /** Second half: the ciphertext goes. */
  ghost predicate Erase(w: World, w': World, r: Rid) {
    r in w.table.deleted && w' == w.(net := w.net - {Rec(r)})
  }

  ghost predicate Register(w: World, w': World, u: Writer) {
    && Dense(w.net, RegistryChain)
    && w' == w.(net := w.net[Link(RegistryChain, EndOf(w.net, RegistryChain) + 1) := Name(u)],
                writers := w.writers + {u})
  }

  /** The compactor wins the next slot of the epoch chain. It knows itself and whichever other writers have come back
      from the registry. */
  ghost predicate Open(w: World, w': World, c: Writer, walkers: set<Writer>) {
    && w.phase.Idle? && c in walkers && walkers <= w.writers && Dense(w.net, EpochChain)
    && w' == w.(net := w.net[Link(EpochChain, EndOf(w.net, EpochChain) + 1) := Opened(w.epoch + 1)],
                epoch := w.epoch + 1, phase := Draining, compactor := c, walkers := walkers)
  }

  /** What a walk of an epoch finds under a label. */
  function Contents(log: map<Chain, seq<Rid>>, l: ChainLabel, ep: nat, ws: set<Writer>): set<Rid> {
    set u, r | u in ws && Index(l, ep, u) in log && r in log[Index(l, ep, u)] :: r
  }

  /** The label chains of one epoch's writers. */
  function Drain(log: map<Chain, seq<Rid>>, ep: nat, ws: set<Writer>): map<Chain, seq<Rid>> {
    map c | c in log && c.Index? && c.w.Of? && c.epoch == ep && c.writer in ws :: log[c]
  }

  /** The last drain walk. It reaches the labels inside the fields' domains; what is written below the newest epoch
      after it, or by a writer it does not know, escapes it. */
  ghost predicate Walk(schema: Schema, w: World, w': World, entries: map<ChainLabel, set<Rid>>) {
    && w.phase.Draining? && w.epoch > 0
    && (forall l: ChainLabel :: ReachedLabel(schema, l) ==>
          (if l in entries then entries[l] else {}) == Contents(w.log, l, w.epoch - 1, w.walkers))
    && (forall l :: l in entries ==> l.Of? && entries[l] <= Contents(w.log, l, w.epoch - 1, w.walkers))
    && w' == w.(phase := Walked(entries), drained := w.drained + Drain(w.log, w.epoch - 1, w.walkers))
  }

  ghost predicate ReachedLabel(schema: Schema, l: ChainLabel) {
    && l.Of? && l.field in schema && schema[l.field].mlvl <= schema[l.field].bits
    && Dyadic.Stored(schema[l.field].bits, schema[l.field].mlvl, l.node)
  }

  function Laid(plan: map<ChainLabel, seq<Rid>>, l: ChainLabel): seq<Rid> {
    if l in plan then plan[l] else []
  }

  /** The entries to be rewritten, label by label, each once in some order and without the tombstoned ones. */
  ghost predicate Plan(entries: map<ChainLabel, set<Rid>>, tombs: set<Rid>, plan: map<ChainLabel, seq<Rid>>) {
    && plan.Keys <= entries.Keys
    && (forall l :: l in plan ==> NoDuplicates(plan[l]))
    && forall l :: l in entries ==> (set r | r in Laid(plan, l)) == entries[l] - tombs
  }

  /** Chains and slots of a plan. */
  function PlanLog(plan: map<ChainLabel, seq<Rid>>, ep: nat, c: Writer): map<Chain, seq<Rid>> {
    map x | x in (set l | l in plan :: Index(l, ep, c)) && x.Index? && x.w in plan :: plan[x.w]
  }

  function PlanSlots(plan: map<ChainLabel, seq<Rid>>, ep: nat, c: Writer): set<Key> {
    set l, i: nat | l in plan && 1 <= i <= |plan[l]| :: Link(Index(l, ep, c), i)
  }

  /** Ids of records that readers have no more claim to. */
  ghost predicate Gone(w: World, ids: set<Rid>) {
    ids <= w.Standing().deleted
  }

  /** Tombstones are read once more, as far as they come back, and the rewrite is laid out; nothing of it is written
      yet. */
  ghost predicate Layout(w: World, w': World, tombs: set<Rid>, plan: map<ChainLabel, seq<Rid>>) {
    && w.phase.Walked? && w.epoch > 0 && Gone(w, tombs)
    && Plan(w.phase.entries, tombs, plan)
    && w' == w.(phase := Rewriting,
                log := w.log + PlanLog(plan, w.epoch, w.compactor),
                missing := w.missing + PlanSlots(plan, w.epoch, w.compactor),
                heard := w.heard[w.epoch - 1 := tombs])
  }

  /** One entry of the rewrite lands; chunks go out in parallel, so any order is possible. */
  ghost predicate Rewrite(w: World, w': World, c: Chain, i: nat) {
    && w.phase.Rewriting? && Link(c, i) in w.missing && c.Index? && c.epoch == w.epoch
    && 1 <= i <= |w.Log(c)|
    && w' == w.(net := w.net[Link(c, i) := Entry(w.Log(c)[i - 1])], missing := w.missing - {Link(c, i)})
  }

  /** The whole rewrite has been acknowledged. */
  ghost predicate BeginDelete(w: World, w': World) {
    && w.phase.Rewriting? && w.epoch > 0
    && (forall k: Key :: k in w.missing && k.Link? && k.chain.Index? ==> k.chain.epoch != w.epoch)
    && w' == w.(phase := Deleting)
  }

  /** One key of the old epoch is deleted. */
  ghost predicate Remove(w: World, w': World, c: Chain, i: nat) {
    && w.phase.Deleting? && c.Index? && c.epoch + 1 == w.epoch && 1 <= i <= |w.Log(c)|
    && w' == w.(net := w.net - {Link(c, i)}, missing := w.missing + {Link(c, i)})
  }

  /** The old epoch is sealed; deletion is best effort, so some of its keys may stay behind for good. */
  ghost predicate Seal(w: World, w': World) {
    && w.phase.Deleting? && w.epoch > 0 && Dense(w.net, EpochChain)
    && w' == w.(net := w.net[Link(EpochChain, EndOf(w.net, EpochChain) + 1) := Sealed(w.epoch - 1)], phase := Idle)
  }

  ghost predicate Step(schema: Schema, w: World, w': World)
    requires ValidSchema(schema)
  {
    || (exists u, ep, r, rec :: Insert(schema, w, w', u, ep, r, rec))
    || (exists u, ep, r :: Bury(w, w', u, ep, r))
    || (exists r :: Erase(w, w', r))
    || (exists u :: Register(w, w', u))
    || (exists c, walkers :: Open(w, w', c, walkers))
    || (exists entries :: Walk(schema, w, w', entries))
    || (exists tombs, plan :: Layout(w, w', tombs, plan))
    || (exists c, i :: Rewrite(w, w', c, i))
    || BeginDelete(w, w')
    || (exists c, i :: Remove(w, w', c, i))
    || Seal(w, w')
  }

  ghost predicate Init(w: World) {
    w == World(map[], Table(map[], {}), map[], {}, 0, Idle, w.compactor, {}, {}, map[], map[])
  }

  // ------------------------------------------------------------ the invariant

  ghost predicate SystemTrue(w: World) {
    && Dense(w.net, EpochChain) && MarksOf(w.net, EndOf(w.net, EpochChain)) == (w.epoch, w.SealedMax())
    && Dense(w.net, RegistryChain) && NamesOf(w.net, EndOf(w.net, RegistryChain)) == w.writers
    && w.walkers <= w.writers
    && (!w.phase.Idle? ==> w.epoch >= 1 && w.compactor in w.walkers)
  }

  /** The index on the network is the log without the missing slots. */
  ghost predicate Rendered(net: Net, log: map<Chain, seq<Rid>>, missing: set<Key>) {
    forall c: Chain, i: nat :: c.Index? ==>
      && (Link(c, i) in net <==> c in log && 1 <= i <= |log[c]| && Link(c, i) !in missing)
      && (Link(c, i) in net && c in log && 1 <= i <= |log[c]| ==> net[Link(c, i)] == Entry(log[c][i - 1]))
  }

  ghost predicate LogTrue(schema: Schema, log: map<Chain, seq<Rid>>, table: Table) {
    forall c, r :: c in log && r in log[c] ==> c.Index? && EntryTrue(schema, table, c.w, r)
  }

  /** Nobody but registered writers has chains, none beyond the newest epoch; a busy compactor's are empty there. */
  ghost predicate Owned(w: World) {
    forall c :: c in w.log && w.log[c] != [] ==>
      && c.Index? && c.writer in w.writers && c.epoch <= w.epoch
      && (w.phase.Draining? || w.phase.Walked? ==> !(c.epoch == w.epoch && c.writer == w.compactor))
  }

  ghost predicate MissingWhere(w: World) {
    forall c: Chain, i: nat :: Link(c, i) in w.missing ==>
      c.Index? && i <= |w.Log(c)| &&
      match w.phase
      case Idle => c.epoch < w.epoch
      case Draining => c.epoch + 1 < w.epoch
      case Walked(_) => c.epoch + 1 < w.epoch
      case Rewriting => c.epoch + 1 < w.epoch || (c.epoch == w.epoch && c.writer == w.compactor && c.w.Of?)
      case Deleting => c.epoch < w.epoch
  }

  /** An id some writer appended under a label in an epoch. */
  ghost predicate In(log: map<Chain, seq<Rid>>, ws: set<Writer>, l: ChainLabel, ep: int, r: Rid) {
    exists u :: u in ws && ep >= 0 && Index(l, ep, u) in log && r in log[Index(l, ep, u)]
  }

  ghost predicate LiveFindable(schema: Schema, table: Table, l: ChainLabel, r: Rid) {
    table.Live(r) && Findable(schema, table.inserted[r], l)
  }

  /** While the old epoch is being read, it and the other writers' new chains hold everything that was not left
      behind. */
  ghost predicate CompleteBelow(schema: Schema, w: World) {
    forall l, r :: LiveFindable(schema, w.table, l, r) ==>
      || In(w.log, w.writers, l, w.epoch - 1, r) || In(w.log, w.writers - {w.compactor}, l, w.epoch, r)
      || Left(w.log, w.drained, w.epoch - 1, r)
  }

  /** Once the rewrite is laid out, the newest epoch alone does. */
  ghost predicate CompleteTop(schema: Schema, w: World) {
    forall l, r :: LiveFindable(schema, w.table, l, r) ==>
      In(w.log, w.writers, l, w.epoch, r) || Left(w.log, w.drained, w.epoch, r)
  }

  ghost predicate Complete(schema: Schema, w: World) {
    && (w.phase.Idle? || w.phase.Deleting? || w.phase.Rewriting? ==> CompleteTop(schema, w))
    && (w.phase.Draining? || w.phase.Walked? || w.phase.Rewriting? ==> CompleteBelow(schema, w))
  }

  /** An id in a label's chain (tombstone chains aside). */
  ghost predicate Holds(log: map<Chain, seq<Rid>>, l: ChainLabel, ep: int, u: Writer, r: Rid) {
    l.Of? && ep >= 0 && Index(l, ep, u) in log && r in log[Index(l, ep, u)]
  }

  ghost predicate HeldIn(log: map<Chain, seq<Rid>>, ep: int, r: Rid) {
    exists l, u :: Holds(log, l, ep, u, r)
  }

  /** An id with a tombstone in an epoch. */
  ghost predicate BuriedIn(log: map<Chain, seq<Rid>>, ep: int, r: Rid) {
    exists u :: BuriedBy(log, ep, u, r)
  }

  ghost predicate BuriedBy(log: map<Chain, seq<Rid>>, ep: int, u: Writer, r: Rid) {
    ep >= 0 && Index(Tomb, ep, u) in log && r in log[Index(Tomb, ep, u)]
  }

  /** A record written into an epoch whose last drain walk did not come upon it: too late for it, or by a writer it did
      not know. */
  ghost predicate LeftAt(log: map<Chain, seq<Rid>>, drained: map<Chain, seq<Rid>>, e: nat, r: Rid) {
    HeldIn(log, e, r) && !HeldIn(drained, e, r)
  }

  ghost predicate Left(log: map<Chain, seq<Rid>>, drained: map<Chain, seq<Rid>>, low: int, r: Rid) {
    exists e: nat :: e < low && LeftAt(log, drained, e, r)
  }

  /** A record a rewrite dropped: the drain walk had read it, and the tombstones had come back with it. */
  ghost predicate DroppedAt(w: World, e: nat, r: Rid) {
    HeldIn(w.drained, e, r) && e in w.heard && r in w.heard[e]
  }

  ghost predicate HeldAbove(log: map<Chain, seq<Rid>>, e: nat, r: Rid) {
    exists x: nat :: x > e && HeldIn(log, x, r)
  }

  /** A tombstone that goes with its epoch while a newer one lists the record: it had not come back when that was
      rewritten, or it was written too late or for a record already there. */
  ghost predicate LapsedAt(w: World, e: nat, r: Rid) {
    BuriedIn(w.log, e, r) && HeldAbove(w.log, e, r)
  }

  ghost predicate LapsedBelow(w: World, low: int, r: Rid) {
    exists e: nat :: e < low && LapsedAt(w, e, r)
  }

  /** A record with such a tombstone in an epoch that is read no more. */
  ghost predicate Lapsed(w: World, r: Rid) {
    LapsedBelow(w, w.SealedMax() + 1, r)
  }

  ghost predicate DeadBelow(w: World, r: Rid) {
    HeldIn(w.log, w.epoch, r) || HeldIn(w.log, w.epoch - 1, r) ==>
      BuriedIn(w.log, w.epoch, r) || BuriedIn(w.log, w.epoch - 1, r) || LapsedBelow(w, w.epoch - 1, r)
  }

  ghost predicate DeadTop(w: World, r: Rid) {
    HeldIn(w.log, w.epoch, r) ==> BuriedIn(w.log, w.epoch, r) || LapsedBelow(w, w.epoch, r)
  }

  /** A deleted record that is still listed has a tombstone, lapsed ones aside: in the two newest epochs while there
      are two, and for the newest alone once the rewrite is in place. */
  ghost predicate DeadBuried(w: World) {
    forall r :: r in w.table.deleted ==>
      && (!w.phase.Idle? ==> DeadBelow(w, r))
      && (w.phase.Idle? || w.phase.Deleting? ==> DeadTop(w, r))
  }

  /** What drain walks have read was there and stays there; nothing of the epoch being drained before its last walk. */
  ghost predicate DrainedTrue(w: World) {
    && (forall c :: c in w.drained ==>
          && c in w.log && w.drained[c] <= w.log[c]
          && c.Index? && c.epoch < w.epoch && (w.phase.Draining? ==> c.epoch + 1 < w.epoch)
          && (!w.phase.Idle? && c.epoch + 1 == w.epoch ==> c.writer in w.walkers))
    && (forall e :: e in w.heard ==> e < w.epoch && (w.phase.Draining? || w.phase.Walked? ==> e + 1 < w.epoch))
  }

  /** Only what a drain walk read is carried into a newer epoch. */
  ghost predicate Traced(w: World) {
    forall e: nat, e': nat, r :: e < e' && HeldIn(w.log, e, r) && HeldIn(w.log, e', r) ==> HeldIn(w.drained, e, r)
  }

  /** What was dropped stays dropped, so no tombstone lapses that a rewrite has gone by. */
  ghost predicate Dropped(w: World) {
    forall e: nat, e': nat, r :: e < e' && DroppedAt(w, e, r) ==> !HeldIn(w.log, e', r)
  }

  ghost predicate Carried(w: World) {
    DrainedTrue(w) && Traced(w) && Dropped(w)
  }

  ghost predicate WalkedRight(schema: Schema, w: World) {
    w.phase.Walked? && w.epoch > 0 ==>
      && (forall l: ChainLabel :: ReachedLabel(schema, l) ==>
            (if l in w.phase.entries then w.phase.entries[l] else {}) == Contents(w.drained, l, w.epoch - 1, w.walkers))
      && (forall l :: l in w.phase.entries ==>
          l.Of? && w.phase.entries[l] <= Contents(w.drained, l, w.epoch - 1, w.walkers))
  }

  /** No label chain names an id twice. */
  ghost predicate Once(log: map<Chain, seq<Rid>>) {
    forall c :: c in log && c.Index? && c.w.Of? ==> NoDuplicates(log[c])
  }

  /** Whoever lists a record under one label lists it under all its findable ones, in the same epoch. */
  ghost predicate Closed(schema: Schema, log: map<Chain, seq<Rid>>, table: Table) {
    forall l, l', ep, u, r ::
      Holds(log, l, ep, u, r) && r in table.inserted && Findable(schema, table.inserted[r], l')
      ==> Holds(log, l', ep, u, r)
  }

  /** In one epoch a record is listed by one writer. */
  ghost predicate OneHome(log: map<Chain, seq<Rid>>) {
    forall l, l', ep, u, u', r :: Holds(log, l, ep, u, r) && Holds(log, l', ep, u', r) ==> u == u'
  }

  /** Nothing is listed both in an epoch and in the one below it. */
  ghost predicate Apart(log: map<Chain, seq<Rid>>, epoch: nat) {
    forall l, l', ep, ep', u, u', r ::
      Holds(log, l, ep, u, r) && Holds(log, l', ep', u', r) && ep' == epoch ==> ep + 1 != epoch
  }

  /** How inserts and rewrites build an epoch; before a rewrite is laid out no record is in both epochs. */
  ghost predicate Built(schema: Schema, w: World) {
    && Once(w.log) && Closed(schema, w.log, w.table) && Closed(schema, w.drained, w.table) && OneHome(w.log)
    && (w.phase.Draining? || w.phase.Walked? ==> Apart(w.log, w.epoch))
  }

  ghost predicate Inv(schema: Schema, w: World) {
    && Built(schema, w)
    && SystemTrue(w) && Rendered(w.net, w.log, w.missing) && BlobsTrue(w.net, w.table)
    && LogTrue(schema, w.log, w.table) && Owned(w) && MissingWhere(w)
    && Complete(schema, w) && DeadBuried(w) && Carried(w) && WalkedRight(schema, w)
  }

  // ------------------------------------------------------------ what the invariant means to a reader

  /** How long each chain has become; the log never shrinks, whatever is deleted from the network. */
  ghost function LogLen(w: World): Lengths {
    (c: Chain) => |w.Log(c)|
  }

  /** The view of a reader of some epochs that has counted nothing. */
  ghost function ReaderView(w: World, eps: set<nat>, ws: set<Writer>): View {
    View(eps, ws, Uncounted(), LogLen(w))
  }

  lemma LoggedIsUnbroken(net: Net, log: map<Chain, seq<Rid>>, missing: set<Key>, c: Chain, r: Rid) returns (i: nat)
    requires Rendered(net, log, missing) && c.Index? && c in log && r in log[c]
    requires forall j: nat :: Link(c, j) !in missing
    ensures Link(c, i) in net && net[Link(c, i)] == Entry(r) && Unbroken(net, c, 0, i)
  {
    var j :| 0 <= j < |log[c]| && log[c][j] == r;
    i := j + 1;
  }

  lemma InIsListed(w: World, eps: set<nat>, ws: set<Writer>, l: ChainLabel, ep: int, r: Rid)
    requires Rendered(w.net, w.log, w.missing) && ws <= w.writers
    requires In(w.log, ws, l, ep, r) && ep in eps
    requires forall u, j: nat :: u in ws ==> Link(Index(l, ep, u), j) !in w.missing
    ensures Listed(w.net, ReaderView(w, eps, w.writers), l, r)
  {
    var u :| u in ws && Index(l, ep, u) in w.log && r in w.log[Index(l, ep, u)];
    var i := LoggedIsUnbroken(w.net, w.log, w.missing, Index(l, ep, u), r);
    assert Names(w.net, eps, w.writers, Index(l, ep, u), i, r);
  }

  lemma LiveOnWalk(schema: Schema, w: World)
    requires Inv(schema, w)
    ensures LiveListed(schema, w.net, w.Standing(), ReaderView(w, w.Epochs(), w.writers))
  {
    hide Built, BlobsTrue, LogTrue, Owned, DeadBuried, Carried, WalkedRight, Rendered, Listed, In, Findable, Dense,
         MarksOf, NamesOf;
    forall l, r | LiveFindable(schema, w.Standing(), l, r)
      ensures Listed(w.net, ReaderView(w, w.Epochs(), w.writers), l, r)
    {
      assert LiveFindable(schema, w.table, l, r) && !Left(w.log, w.drained, w.Lowest(), r);
      if w.phase.Idle? || w.phase.Deleting? {
        InIsListed(w, w.Epochs(), w.writers, l, w.epoch, r);
      } else if In(w.log, w.writers, l, w.epoch - 1, r) {
        InIsListed(w, w.Epochs(), w.writers, l, w.epoch - 1, r);
      } else {
        InIsListed(w, w.Epochs(), w.writers - {w.compactor}, l, w.epoch, r);
      }
    }
  }

  lemma EntriesOnWalk(schema: Schema, w: World, eps: set<nat>)
    requires Inv(schema, w)
    ensures EntriesTrue(schema, w.net, w.table, eps) && EntriesTrue(schema, w.net, w.Standing(), eps)
            && Capped(w.net, LogLen(w))
  {
    hide Built, SystemTrue, BlobsTrue, Owned, Complete, WalkedRight, DeadBuried, Carried, MissingWhere, EntryTrue,
         Dense;
    forall c: Chain, i: nat | Link(c, i) in w.net && c.Index? && c.epoch in eps
      ensures w.net[Link(c, i)].Entry?
      ensures EntryTrue(schema, w.table, c.w, w.net[Link(c, i)].rid)
      ensures EntryTrue(schema, w.Standing(), c.w, w.net[Link(c, i)].rid)
    {
      assert w.log[c][i - 1] in w.log[c];
      EntryStands(schema, w, c.w, w.log[c][i - 1]);
    }
  }

  lemma EntryStands(schema: Schema, w: World, l: ChainLabel, r: Rid)
    requires EntryTrue(schema, w.table, l, r)
    ensures EntryTrue(schema, w.Standing(), l, r)
  {
  }

  /** In every state of the protocol a reader over the current epochs and writers sees all that is live and was not left
      behind, and nothing that is not true of the table. */
  lemma ReadersSeeTable(schema: Schema, w: World, me: Writer)
    requires Inv(schema, w)
    ensures Dense(w.net, EpochChain) && Dense(w.net, RegistryChain)
    ensures Faithful(schema, w.net, w.Standing(), NetView(w.net, me, LogLen(w)))
    ensures NetView(w.net, me, LogLen(w)).eps == w.Epochs()
    ensures NetView(w.net, me, LogLen(w)).ws == if w.writers == {} then {me} else w.writers
  {
    hide Built, Rendered, BlobsTrue, BlobsGenuine, BlobsServe, LogTrue, Owned, MissingWhere, EntriesTrue, WalkedRight,
         Listed, Findable, MarksOf, NamesOf, DenseTo, Capped, DeadBuried, Carried, Complete;
    LiveOnWalk(schema, w);
    EntriesOnWalk(schema, w, w.Epochs());
    BlobsAreServed(schema, w);
    if w.writers == {} {
      NobodyWrote(schema, w);
      forall r, l | w.Standing().Live(r) ensures !Findable(schema, w.table.inserted[r], l) {
        assert !LiveFindable(schema, w.table, l, r);
      }
    }
  }

  lemma BlobsAreServed(schema: Schema, w: World)
    requires BlobsTrue(w.net, w.table)
    ensures BlobsGenuine(w.net, w.table) && BlobsGenuine(w.net, w.Standing()) && BlobsServe(schema, w.net, w.Standing())
  {
  }

  lemma NobodyWrote(schema: Schema, w: World)
    requires Inv(schema, w) && w.writers == {}
    ensures forall l, r :: !LiveFindable(schema, w.table, l, r)
    ensures forall c: Chain, i: nat :: c.Index? ==> Link(c, i) !in w.net
  {
    hide Built, LiveFindable, BlobsTrue, LogTrue, DeadBuried, Carried, WalkedRight;
  }

  // ------------------------------------------------------------ records left behind

  /** No live record a query could ask for has been left behind. */
  ghost predicate NoneLost(schema: Schema, w: World) {
    forall l, r :: LiveFindable(schema, w.table, l, r) ==> r !in w.Lost()
  }

  /** What was left behind is in no epoch that is read, or will ever be again. */
  lemma LostIsNowhere(schema: Schema, w: World, r: Rid, ep: int)
    requires Inv(schema, w) && r in w.Lost() && ep >= w.Lowest()
    ensures !HeldIn(w.log, ep, r)
  {
    hide Built, SystemTrue, Rendered, BlobsTrue, LogTrue, Owned, MissingWhere, Complete, DeadBuried, WalkedRight,
         HeldIn, DrainedTrue, Dropped;
    var e: nat :| e < w.Lowest() && LeftAt(w.log, w.drained, e, r);
  }

  // ------------------------------------------------------------ deleted records

  /** No record a reader can come upon has a tombstone that has lapsed. */
  ghost predicate NoneLapsed(schema: Schema, w: World) {
    forall r :: Shown(schema, w.net, w.table, w.Epochs(), w.writers, r) ==> !Lapsed(w, r)
  }

  lemma ShownIsHeld(schema: Schema, w: World, eps: set<nat>, ws: set<Writer>, r: Rid) returns (ep: nat)
    requires Inv(schema, w) && Shown(schema, w.net, w.table, eps, ws, r)
    ensures ep in eps && HeldIn(w.log, ep, r) && r in w.table.deleted
  {
    hide Built, SystemTrue, BlobsTrue, LogTrue, Owned, Complete, DeadBuried, Carried, WalkedRight, MissingWhere, Dense;
    var c: Chain, i: nat :| Names(w.net, eps, ws, c, i, r) && Findable(schema, w.table.inserted[r], c.w);
    assert w.log[c][i - 1] in w.log[c];
    assert c == Index(c.w, c.epoch, c.writer) && Holds(w.log, c.w, c.epoch, c.writer, r);
    ep := c.epoch;
  }

  /** Tombstones of an epoch are all there until deletion gets to them. */
  ghost predicate TombsThere(w: World, ep: int) {
    forall u, j: nat :: ep >= 0 ==> Link(Index(Tomb, ep, u), j) !in w.missing
  }

  lemma BuriedIsListed(schema: Schema, w: World, eps: set<nat>, ep: int, r: Rid)
    requires Inv(schema, w) && BuriedIn(w.log, ep, r) && ep in eps && TombsThere(w, ep)
    ensures Listed(w.net, ReaderView(w, eps, w.writers), Tomb, r)
  {
    hide Built, SystemTrue, BlobsTrue, LogTrue, Complete, DeadBuried, Carried, WalkedRight, Rendered, Listed, Dense;
    var u :| BuriedBy(w.log, ep, u, r);
    assert w.log[Index(Tomb, ep, u)] != [];
    assert In(w.log, w.writers, Tomb, ep, r);
    InIsListed(w, eps, w.writers, Tomb, ep, r);
  }

  lemma WholeHasTombs(w: World)
    requires MissingWhere(w)
    ensures TombsThere(w, w.epoch) && (w.OldWhole() ==> TombsThere(w, w.epoch - 1))
  {
  }

  /** A deleted record a reader can come upon has a tombstone it is sure to find, unless that has lapsed, as long as no
      tombstone of the epochs read has been deleted: always, that is, but while an epoch is being deleted. */
  lemma DeadOnWalk(schema: Schema, w: World, r: Rid)
    requires Inv(schema, w) && Shown(schema, w.net, w.table, w.Epochs(), w.writers, r) && !Lapsed(w, r)
    requires w.phase.Deleting? ==> TombsThere(w, w.epoch - 1)
    ensures Listed(w.net, ReaderView(w, w.Epochs(), w.writers), Tomb, r)
  {
    hide Built, BlobsTrue, LogTrue, Owned, Complete, Carried, WalkedRight, Rendered, MissingWhere, Listed, HeldIn,
         BuriedIn, LapsedBelow, Shown, MarksOf, NamesOf, Dense, TombsThere;
    var ep := ShownIsHeld(schema, w, w.Epochs(), w.writers, r);
    WholeHasTombs(w);
    assert if w.phase.Idle? then DeadTop(w, r) else DeadBelow(w, r);
    if BuriedIn(w.log, w.epoch, r) {
      BuriedIsListed(schema, w, w.Epochs(), w.epoch, r);
    } else {
      BuriedIsListed(schema, w, w.Epochs(), w.epoch - 1, r);
    }
  }

  /** Once the rewrite is in place, the newest epoch has the tombstones of all that it lists, lapsed ones aside. */
  lemma DeadOnTop(schema: Schema, w: World, r: Rid)
    requires Inv(schema, w) && (w.phase.Deleting? || w.phase.Idle?)
    requires Shown(schema, w.net, w.table, {w.epoch}, w.writers, r) && !LapsedBelow(w, w.epoch, r)
    ensures Listed(w.net, ReaderView(w, {w.epoch}, w.writers), Tomb, r)
  {
    hide Built, BlobsTrue, LogTrue, Owned, Complete, Carried, WalkedRight, Rendered, MissingWhere, Listed, HeldIn,
         BuriedIn, LapsedBelow, Shown, MarksOf, NamesOf, Dense, TombsThere;
    var ep := ShownIsHeld(schema, w, {w.epoch}, w.writers, r);
    WholeHasTombs(w);
    assert DeadTop(w, r);
    BuriedIsListed(schema, w, {w.epoch}, w.epoch, r);
  }
}
