/** The owner's cached view and the speculative multi-predicate query
    (Owner.query_multi, _refresh_epoch_now, _refresh_writers_now and _epochs in blindrange/client.py). */
module Query {
  import opened Basics
  import opened Chains
  import opened Index
  import Dyadic

  // ------------------------------------------------------------ the answer, from what was read

  /** The record's values pass the final filter: every queried field it carries lies inside the range. */
  predicate PassesFilter(schema: Schema, rec: Record, preds: seq<Predicate>)
    requires KnownFields(schema, preds)
  {
    forall p :: p in preds && p.field in rec ==>
      var (a, b) := BoundsOf(schema, p); a <= rec[p.field] <= b
  }

  /** Record ids found under every predicate, less the tombstones; none without a predicate. */
  function Candidates(schema: Schema, preds: seq<Predicate>, eps: set<nat>, ws: set<Writer>, got: Net,
                      ends: map<Chain, nat>, tombs: set<Rid>): set<Rid>
    requires ValidSchema(schema) && KnownFields(schema, preds)
  {
    if preds == [] then {}
    else
      var first := Rids(got, LabelChains(schema, preds[0], eps, ws), ends);
      set r | r in first && r !in tombs
              && forall p :: p in preds ==> r in Rids(got, LabelChains(schema, p, eps, ws), ends)
  }

  /** Everything a walk must have established for its answer to be exact. */
  ghost predicate ReadWalk(net: Net, v: View, got: Net, known: map<Chain, nat>, ends: map<Chain, nat>,
                           chains: set<Chain>) {
    && chains <= ends.Keys && chains <= known.Keys
    && ReadUpTo(net, got, chains, ends)
    && forall c :: c in chains ==> StopsAt(net, c, known[c], ends[c]) && v.low(c) <= known[c]
  }

  /** What is found under a predicate carries the predicate's field, with a value of its domain, under a label that is
      asked for. */
  lemma FoundIsLabelled(schema: Schema, net: Net, table: Table, eps: set<nat>, ws: set<Writer>, got: Net,
                        ends: map<Chain, nat>, p: Predicate, r: Rid)
    requires ValidSchema(schema) && p.field in schema && EntriesTrue(schema, net, table, eps)
    requires forall k :: k in got ==> k in net && got[k] == net[k]
    requires r in Rids(got, LabelChains(schema, p, eps, ws), ends)
    ensures r in table.inserted && p.field in table.inserted[r]
    ensures Dyadic.InDomain(schema[p.field].bits, table.inserted[r][p.field])
    ensures exists c: Chain, i: nat :: Names(net, eps, ws, c, i, r) && Findable(schema, table.inserted[r], c.w)
  {
    var chains := LabelChains(schema, p, eps, ws);
    var k :| k in got && k.Link? && k.chain in chains && got[k].Entry? && got[k].rid == r;
    assert k == Link(k.chain, k.i) && Link(k.chain, k.i) in net;
    LabelledInDomain(schema, table.inserted[r], p, k.chain.w.node);
    assert Names(net, eps, ws, k.chain, k.i, r) && Findable(schema, table.inserted[r], k.chain.w);
  }

  lemma SatisfierFound(schema: Schema, net: Net, table: Table, v: View, got: Net,
                       known: map<Chain, nat>, ends: map<Chain, nat>, chains: set<Chain>, p: Predicate, r: Rid)
    requires ValidSchema(schema) && p.field in schema && LiveListed(schema, net, table, v) && Capped(net, v.cap)
    requires ReadWalk(net, v, got, known, ends, chains) && LabelChains(schema, p, v.eps, v.ws) <= chains
    requires table.Live(r) && Satisfies(schema, table.inserted[r], p)
    ensures r in Rids(got, LabelChains(schema, p, v.eps, v.ws), ends)
  {
    var d := SatisfierLabelled(schema, table.inserted[r], p);
    var w := Of(p.field, d);
    assert Listed(net, v, w, r);
    var c: Chain, i: nat :| Names(net, v.eps, v.ws, c, i, r) && c.w == w && Unbroken(net, c, v.low(c), i);
    assert c == Index(w, c.epoch, c.writer) && c in LabelChains(schema, p, v.eps, v.ws);
    ListedFound(net, got, chains, known, ends, c, i, r, v.low(c));
    assert got[Link(c, i)] == Entry(r);
  }

  /** What the final round returns: every live record that satisfies the predicates, and beside those at most deleted
      records that are still shown and whose tombstones have not been taken in. */
  lemma AnswerExact(schema: Schema, net: Net, table: Table, v: View,
                    preds: seq<Predicate>, got: Net, known: map<Chain, nat>, ends: map<Chain, nat>,
                    chains: set<Chain>, tombs: set<Rid>, rows: map<Rid, Record>)
    requires ValidSchema(schema) && KnownFields(schema, preds)
    requires Faithful(schema, net, table, v)
    requires ReadWalk(net, v, got, known, ends, chains)
    requires forall p :: p in preds ==> LabelChains(schema, p, v.eps, v.ws) <= chains
    requires tombs <= table.deleted
    requires forall r :: r in rows <==>
               r in Candidates(schema, preds, v.eps, v.ws, got, ends, tombs) && Rec(r) in net
               && net[Rec(r)].Blob? && PassesFilter(schema, net[Rec(r)].rec, preds)
    requires forall r :: r in rows ==> rows[r] == net[Rec(r)].rec
    ensures Nearly(schema, table, preds, rows)
    ensures forall r :: r in rows && r in table.deleted ==> Shown(schema, net, table, v.eps, v.ws, r) && r !in tombs
  {
    forall r | r in rows
      ensures r in table.inserted && preds != []
      ensures forall p :: p in preds ==> Satisfies(schema, table.inserted[r], p)
      ensures r in table.deleted ==> Shown(schema, net, table, v.eps, v.ws, r)
    {
      assert preds[0] in preds;
      FoundIsLabelled(schema, net, table, v.eps, v.ws, got, ends, preds[0], r);
      forall p | p in preds ensures Satisfies(schema, table.inserted[r], p) {
        FoundIsLabelled(schema, net, table, v.eps, v.ws, got, ends, p, r);
      }
    }
    forall r | table.Live(r) && SatisfiesAll(schema, table.inserted[r], preds)
      ensures r in rows
    {
      forall p | p in preds ensures r in Rids(got, LabelChains(schema, p, v.eps, v.ws), ends) {
        SatisfierFound(schema, net, table, v, got, known, ends, chains, p, r);
      }
      assert preds[0] in preds;
      var d := SatisfierLabelled(schema, table.inserted[r], preds[0]);
      assert Rec(r) in net && net[Rec(r)] == Blob(table.inserted[r]);
    }
  }

  // ------------------------------------------------------------ one speculative walk

  datatype WalkResult =
    | Done(got: Net, ends: map<Chain, nat>)
    | Grew
    | Refused(keys: set<Key>)

  /** A chain that has grown, and whose probe nobody answered: it is taken for one that has not. */
  ghost predicate Missed(net: Net, known: map<Chain, nat>, unheard: set<Key>, c: Chain) {
    c in known && Link(c, known[c] + 1) in net && Link(c, known[c] + 1) in unheard
  }

  ghost predicate AllHeard(net: Net, known: map<Chain, nat>, unheard: set<Key>) {
    forall c :: c in known ==> !Missed(net, known, unheard, c)
  }

  /** Entries past what was known have been read. */
  ghost predicate DeltaRead(net: Net, got: Net, chains: set<Chain>, known: map<Chain, nat>, ends: map<Chain, nat>) {
    forall c, i: nat :: c in chains && c in known && c in ends && known[c] < i <= ends[c] && Link(c, i) in net ==>
        Link(c, i) in got
  }

  ghost predicate Truthful(net: Net, got: Net) {
    forall k :: k in got ==> k in net && got[k] == net[k]
  }

  /** A chain whose growth was heard of stops where the search from there stops; any other keeps its known length. */
  ghost predicate StopsHeard(net: Net, chains: set<Chain>, known: map<Chain, nat>, ends: map<Chain, nat>,
                             unheard: set<Key>) {
    forall c :: c in chains && c in known && c in ends ==>
      if Link(c, known[c] + 1) in net && !Missed(net, known, unheard, c) then StopsAt(net, c, known[c] + 1, ends[c])
      else ends[c] == known[c]
  }

  lemma StopsCombined(net: Net, chains: set<Chain>, known: map<Chain, nat>, got: Net, keys: set<Key>, bad: set<Key>,
                      ends: map<Chain, nat>)
    requires chains <= known.Keys && ends.Keys == known.Keys
    requires HonestRead(net, keys, got, bad) && got.Keys !! bad && ProbeKeys(known) <= keys
    requires forall c :: c in known ==>
               if c in Grown(known, got) then StopsAt(net, c, known[c] + 1, ends[c]) else ends[c] == known[c]
    ensures StopsHeard(net, chains, known, ends, bad)
    ensures forall c :: c in known && c !in Grown(known, got) && Link(c, known[c] + 1) in net ==>
              Missed(net, known, bad, c)
  {
    hide StopsAt;
    forall c | c in known
      ensures c in Grown(known, got) ==> Link(c, known[c] + 1) in net && !Missed(net, known, bad, c)
      ensures c !in Grown(known, got) && Link(c, known[c] + 1) in net ==> Missed(net, known, bad, c)
    {
      assert Link(c, known[c] + 1) in ProbeKeys(known);
    }
  }

  /** On a gap-free chain that was not counted too far, the count after the walk is right if and only if the chain had
      not grown or somebody answered its probe. */
  lemma CountedIffHeard(net: Net, chains: set<Chain>, known: map<Chain, nat>, ends: map<Chain, nat>, unheard: set<Key>,
                        c: Chain, end: nat)
    requires StopsHeard(net, chains, known, ends, unheard) && c in chains && c in known && c in ends
    requires DenseTo(net, c, end) && known[c] <= end
    ensures ends[c] == end <==> !Missed(net, known, unheard, c)
  {
    assert Link(c, known[c] + 1) in net <==> known[c] + 1 <= end;
    if Link(c, known[c] + 1) in net && !Missed(net, known, unheard, c) {
      StopOfDense(net, c, known[c] + 1, end, ends[c]);
    }
  }

  lemma MissedStays(net: Net, chains: set<Chain>, known: map<Chain, nat>, ends: map<Chain, nat>, unheard: set<Key>,
                    c: Chain)
    requires StopsHeard(net, chains, known, ends, unheard) && c in chains && c in known && c in ends
             && Missed(net, known, unheard, c)
    ensures ends[c] == known[c]
  {
  }

  /** A walk on which every growth was heard of. */
  ghost predicate Stops(net: Net, chains: set<Chain>, known: map<Chain, nat>, ends: map<Chain, nat>) {
    StopsHeard(net, chains, known, ends, {})
  }

  lemma HeardStops(net: Net, chains: set<Chain>, known: map<Chain, nat>, ends: map<Chain, nat>, unheard: set<Key>)
    requires StopsHeard(net, chains, known, ends, unheard) && AllHeard(net, known, unheard)
    ensures Stops(net, chains, known, ends)
  {
    hide StopsAt;
  }

  lemma StopsAtEnds(net: Net, chains: set<Chain>, known: map<Chain, nat>, ends: map<Chain, nat>, c: Chain)
    requires Stops(net, chains, known, ends) && c in chains && c in known && c in ends
    ensures StopsAt(net, c, known[c], ends[c])
  {
  }

  /** Slots the counters prove, on the chains whose entries are enumerated. */
  function EnumKeys(labels: set<Chain>, known: map<Chain, nat>): set<Key> {
    set c, i: nat | c in labels && c in known && 1 <= i <= known[c] :: Link(c, i)
  }

  function ProbeKeys(known: map<Chain, nat>): set<Key> {
    set c | c in known :: Link(c, known[c] + 1)
  }

  /** Slots a search found beyond the probe. */
  function DeltaKeys(grown: set<Chain>, known: map<Chain, nat>, ends: map<Chain, nat>): set<Key> {
    set c, i: nat | c in grown && c in known && c in ends && known[c] + 2 <= i <= ends[c] :: Link(c, i)
  }

  function Grown(known: map<Chain, nat>, got: Net): set<Chain> {
    set c | c in known && Link(c, known[c] + 1) in got
  }

  /** Every slot up to the stops was asked for in one of the two rounds and answered. */
  lemma AllRead(net: Net, labels: set<Chain>, known: map<Chain, nat>, grown: set<Chain>, ends: map<Chain, nat>,
                got: Net, bad: set<Key>, rest: Net, unread: set<Key>)
    requires labels <= known.Keys && ends.Keys == known.Keys
    requires HonestRead(net, EnumKeys(labels, known) + ProbeKeys(known), got, bad)
             && EnumKeys(labels, known) * bad == {}
    requires HonestRead(net, DeltaKeys(grown, known, ends), rest, unread)
             && DeltaKeys(grown, known, ends) * unread == {}
    requires grown == Grown(known, got)
    requires forall c :: c in known && c !in grown ==> ends[c] == known[c]
    ensures ReadUpTo(net, got + rest, labels, ends)
    ensures DeltaRead(net, got + rest, known.Keys, known, ends)
    ensures Truthful(net, got + rest)
  {
    NoneInCommon(EnumKeys(labels, known), bad);
    NoneInCommon(DeltaKeys(grown, known, ends), unread);
    forall c, i: nat | c in known && known[c] < i <= ends[c] && Link(c, i) in net
      ensures Link(c, i) in got + rest
    {
      assert c in grown;
      if i > known[c] + 1 {
        assert Link(c, i) in DeltaKeys(grown, known, ends);
      }
    }
    forall c, i: nat | c in labels && 1 <= i <= known[c] && Link(c, i) in net
      ensures Link(c, i) in got + rest
    {
      assert Link(c, i) in EnumKeys(labels, known);
    }
  }

  /** Second half of the walk: gallop the chains that grew and fetch what lies beyond the probe. */
  method Catchup(net: Net, known: map<Chain, nat>, grown: set<Chain>, silent: set<Key>)
    returns (r: WalkResult, ghost unread: set<Key>)
    requires grown <= known.Keys
    ensures silent == {} ==> r.Done?
    ensures !r.Grew?
    ensures r.Refused? ==> r.keys != {} && r.keys <= silent && forall k :: k in r.keys ==> k.Link? && k.chain in grown
    ensures r.Done? ==>
              && r.ends.Keys == known.Keys
              && (forall c :: c in known ==>
                  if c in grown then StopsAt(net, c, known[c] + 1, r.ends[c]) else r.ends[c] == known[c])
              && HonestRead(net, DeltaKeys(grown, known, r.ends), r.got, unread)
              && DeltaKeys(grown, known, r.ends) * unread == {}
  {
    unread := {};
    if grown == {} {
      return Done(map[], known), {};
    }
    var found, _ := DiscoverEnds(net, map c | c in grown :: known[c] + 1, silent);
    if found.Failure? {
      return Refused(found.error), {};
    }
    var ends := known + found.value;
    var rest, missing := MGet(net, DeltaKeys(grown, known, ends), silent);
    if DeltaKeys(grown, known, ends) * missing != {} {
      return Refused(DeltaKeys(grown, known, ends) * missing), {};
    }
    return Done(rest, ends), missing;
  }

  /** A key a walk has to have: a slot its counter proves, or one of a chain that was heard to have grown. */
  ghost predicate Owed(net: Net, known: map<Chain, nat>, unheard: set<Key>, k: Key) {
    && k.Link? && k.chain in known
    && (k.i <= known[k.chain] || (Link(k.chain, known[k.chain] + 1) in net && !Missed(net, known, unheard, k.chain)))
  }

  lemma RefusedIsOwed(net: Net, labels: set<Chain>, known: map<Chain, nat>, got: Net, keys: set<Key>, bad: set<Key>)
    requires HonestRead(net, keys, got, bad) && got.Keys !! bad
    ensures forall k :: k in EnumKeys(labels, known) ==> Owed(net, known, bad, k)
    ensures forall k: Key :: k.Link? && k.chain in Grown(known, got) ==> Owed(net, known, bad, k)
  {
  }

  /** What was read beyond the label chains' proven slots lies beyond what was known. */
  ghost predicate ReadNew(got: Net, labels: set<Chain>, known: map<Chain, nat>) {
    forall k: Key :: k.Link? && k in got && k.chain !in labels ==> k.chain in known && k.i > known[k.chain]
  }

  lemma ReadIsNew(net: Net, labels: set<Chain>, known: map<Chain, nat>, grown: set<Chain>, ends: map<Chain, nat>,
                  got: Net, bad: set<Key>, rest: Net, unread: set<Key>)
    requires HonestRead(net, EnumKeys(labels, known) + ProbeKeys(known), got, bad)
    requires HonestRead(net, DeltaKeys(grown, known, ends), rest, unread)
    ensures ReadNew(got + rest, labels, known)
  {
  }

  /** Fetch the entries the counters prove, probe one past every chain, gallop what grew, fetch the rest. Entries that
      stay unresolved are refused; probes that stay unresolved are not, and unheard is what they are. */
  method Enumerate(net: Net, labels: set<Chain>, tombs: set<Chain>, known: map<Chain, nat>, system: set<Chain>,
                   silent: set<Key>)
    returns (r: WalkResult, ghost unheard: set<Key>)
    requires labels + tombs + system == known.Keys && system !! (labels + tombs)
    ensures unheard <= silent
    ensures silent == {} ==> !r.Refused?
    ensures r.Refused? ==> r.keys != {} && r.keys <= silent && forall k :: k in r.keys ==> Owed(net, known, unheard, k)
    ensures r.Grew? ==> exists c :: c in system && Link(c, known[c] + 1) in net
    ensures r.Done? ==> r.ends.Keys == known.Keys && Truthful(net, r.got) && ReadNew(r.got, labels, known)
    ensures r.Done? ==> ReadUpTo(net, r.got, labels, r.ends) && DeltaRead(net, r.got, known.Keys, known, r.ends)
    ensures r.Done? ==> StopsHeard(net, labels + tombs, known, r.ends, unheard)
    ensures r.Done? ==> forall c :: c in system && Link(c, known[c] + 1) in net ==> Missed(net, known, unheard, c)
  {
    hide EnumKeys, ProbeKeys, DeltaKeys, ReadUpTo, DeltaRead, Truthful, StopsAt, Missed, StopsHeard, Owed, ReadNew;
    var got, bad := MGet(net, EnumKeys(labels, known) + ProbeKeys(known), silent);
    unheard := bad;
    RefusedIsOwed(net, labels, known, got, EnumKeys(labels, known) + ProbeKeys(known), bad);
    if EnumKeys(labels, known) * bad != {} {
      return Refused(EnumKeys(labels, known) * bad), bad;
    }
    var grown := Grown(known, got);
    if grown * system != {} {
      ghost var c :| c in grown * system;
      return Grew, bad;
    }
    NoneInCommon(grown, system);
    ghost var unread;
    r, unread := Catchup(net, known, grown, silent);
    if r.Refused? {
      return;
    }
    AllRead(net, labels, known, grown, r.ends, got, bad, r.got, unread);
    ReadIsNew(net, labels, known, grown, r.ends, got, bad, r.got, unread);
    StopsCombined(net, labels + tombs, known, got, EnumKeys(labels, known) + ProbeKeys(known), bad, r.ends);
    r := Done(got + r.got, r.ends);
  }

  // ------------------------------------------------------------ the owner's state

  /** The cached part of an owner's state. All of it can be lost and probed again. */
  datatype State = State(
    epoch: nat, epochLen: nat, sealedMax: int,
    regLen: nat, writers: seq<Writer>,
    chains: map<ChainLabel, nat>, remote: map<Chain, nat>,
    tombCounts: map<Chain, nat>, tombRids: set<Rid>)
  {
    /** Epochs a reader must consult: the one below the newest too, until it is sealed. */
    function Epochs(): set<nat> {
      EpochsOf(epoch, sealedMax)
    }

    function Readers(me: Writer): set<Writer> {
      if writers == [] then {me} else set u | u in writers
    }

    /** Cached length of a chain: own chains of the newest epoch are kept apart from everybody else's. */
    function Count(me: Writer, c: Chain): nat {
      match c
      case EpochChain => epochLen
      case RegistryChain => regLen
      case Index(w, ep, u) =>
        if w == Tomb then (if c in tombCounts then tombCounts[c] else 0)
        else if u == me && ep == epoch then (if w in chains then chains[w] else 0)
        else if c in remote then remote[c] else 0
    }
  }

  function EpochsOf(epoch: nat, sealedMax: int): set<nat> {
    if epoch > 0 && epoch - 1 > sealedMax then {epoch - 1, epoch} else {epoch}
  }

  /** Epoch and highest sealed epoch after one more marker. */
  function AfterMark(at: (nat, int), mark: Item): (nat, int) {
    match mark
    case Opened(n) => if n > at.0 then (n, at.1) else at
    case Sealed(n) => (at.0, Max(at.1, n))
    case _ => at
  }

  ghost function MarksOf(net: Net, n: nat): (nat, int) {
    if n == 0 then (0, -1)
    else if Link(EpochChain, n) in net then AfterMark(MarksOf(net, n - 1), net[Link(EpochChain, n)])
    else MarksOf(net, n - 1)
  }

  /** Writers named by the first n registry slots. */
  ghost function NamesOf(net: Net, n: nat): set<Writer> {
    if n == 0 then {}
    else if Link(RegistryChain, n) in net && net[Link(RegistryChain, n)].Name?
    then NamesOf(net, n - 1) + {net[Link(RegistryChain, n)].writer}
    else NamesOf(net, n - 1)
  }

  /** Epochs and writers as the network has them now. */
  ghost function TrueEpochs(net: Net): set<nat>
    requires Dense(net, EpochChain)
  {
    var (e, s) := MarksOf(net, EndOf(net, EpochChain));
    EpochsOf(e, s)
  }

  ghost function TrueReaders(net: Net, me: Writer): set<Writer>
    requires Dense(net, RegistryChain)
  {
    var names := NamesOf(net, EndOf(net, RegistryChain));
    if names == {} then {me} else names
  }

  /** The system-chain caches are true prefixes of the network's chains. */
  ghost predicate Synced(net: Net, st: State) {
    && Dense(net, EpochChain) && st.epochLen <= EndOf(net, EpochChain)
    && (st.epoch, st.sealedMax) == MarksOf(net, st.epochLen)
    && Dense(net, RegistryChain) && st.regLen <= EndOf(net, RegistryChain)
    && (set u | u in st.writers) == NamesOf(net, st.regLen)
  }

  /** The cached writers are those a true prefix of the registry names. */
  ghost predicate KnowsNames(net: Net, st: State) {
    Dense(net, RegistryChain) && st.regLen <= EndOf(net, RegistryChain)
    && (set u | u in st.writers) == NamesOf(net, st.regLen)
  }

  /** No cached counter exceeds what its chain was ever filled to. */
  ghost predicate CountedWithin(st: State, me: Writer, cap: Lengths) {
    && (forall l :: l in st.chains && l.Of? ==> st.chains[l] <= cap(Index(l, st.epoch, me)))
    && (forall c :: c in st.remote ==> st.remote[c] <= cap(c))
    && (forall c :: c in st.tombCounts ==> c.Index? && c.w == Tomb && st.tombCounts[c] <= cap(c))
  }

  ghost predicate CountedTo(st: State, me: Writer, low: Lengths) {
    forall c :: low(c) <= st.Count(me, c)
  }

  /** Cached deletions are deletions, and every counted tombstone that is still there has been taken in. */
  ghost predicate TombsSeen(net: Net, st: State, table: Table) {
    && st.tombRids <= table.deleted
    && forall c, i: nat ::
         c in st.tombCounts && 1 <= i <= st.tombCounts[c] && Link(c, i) in net && net[Link(c, i)].Entry?
         ==> net[Link(c, i)].rid in st.tombRids
  }

  /** Neither system chain has grown past the caches. */
  ghost predicate SystemStill(net: Net, st: State) {
    Link(EpochChain, st.epochLen + 1) !in net && Link(RegistryChain, st.regLen + 1) !in net
  }

  /** Unless a system chain has visibly grown, the cached epochs and writers are the ones to walk. */
  ghost predicate ViewCurrent(net: Net, st: State, me: Writer, v: View) {
    SystemStill(net, st) ==> st.Epochs() == v.eps && st.Readers(me) == v.ws
  }

  /** What is read is faithful to the table under a view, and the owner's caches to what is read. */
  ghost predicate Reliable(schema: Schema, net: Net, table: Table, st: State, me: Writer, v: View) {
    && ValidSchema(schema)
    && Faithful(schema, net, table, v)
    && ViewCurrent(net, st, me, v) && CountedWithin(st, me, v.cap) && CountedTo(st, me, v.low)
    && TombsSeen(net, st, table)
  }

  /** The view of the network itself: current epochs and writers, no chain counted at all. */
  ghost function NetView(net: Net, me: Writer, cap: Lengths): View
    requires Dense(net, EpochChain) && Dense(net, RegistryChain)
  {
    View(TrueEpochs(net), TrueReaders(net, me), Uncounted(), cap)
  }

  /** The network is faithful to the table, and the owner's caches are prefixes and lower bounds of it. */
  ghost predicate Trusted(schema: Schema, net: Net, table: Table, st: State, me: Writer, cap: Lengths) {
    Synced(net, st) && Reliable(schema, net, table, st, me, NetView(net, me, cap))
  }

  lemma CountIsWithin(st: State, me: Writer, cap: Lengths, c: Chain)
    requires CountedWithin(st, me, cap) && c.Index?
    ensures st.Count(me, c) <= cap(c)
  {
    assert c == Index(c.w, c.epoch, c.writer);
  }

  /** With no growth of the system chains the cached view of epochs and writers is the current one. */
  lemma SystemCurrent(net: Net, st: State, me: Writer, cap: Lengths)
    requires Synced(net, st)
    ensures ViewCurrent(net, st, me, NetView(net, me, cap))
    ensures Link(EpochChain, st.epochLen + 1) !in net ==> st.epochLen == EndOf(net, EpochChain)
    ensures Link(RegistryChain, st.regLen + 1) !in net ==> st.regLen == EndOf(net, RegistryChain)
  {
    if Link(EpochChain, st.epochLen + 1) !in net {
      StopOfDense(net, EpochChain, st.epochLen, EndOf(net, EpochChain), st.epochLen);
    }
    if Link(RegistryChain, st.regLen + 1) !in net {
      StopOfDense(net, RegistryChain, st.regLen, EndOf(net, RegistryChain), st.regLen);
    }
    if st.writers != [] {
      assert st.writers[0] in NamesOf(net, st.regLen);
    }
  }

  /** Label chains every predicate of a query walks. */
  function AllLabelChains(schema: Schema, preds: seq<Predicate>, eps: set<nat>, ws: set<Writer>): set<Chain>
    requires ValidSchema(schema) && KnownFields(schema, preds)
  {
    set p, c | p in preds && c in LabelChains(schema, p, eps, ws) :: c
  }

  /** Cached counters of the chains a query touches. */
  function KnownCounts(st: State, me: Writer, chains: set<Chain>): map<Chain, nat> {
    map c | c in chains :: st.Count(me, c)
  }

  // ------------------------------------------------------------ what a walk teaches

  /** Caches after a walk: counters of the touched chains, and the tombstones it turned up. */
  function Learned(st: State, me: Writer, labels: set<Chain>, tombs: set<Chain>, got: Net, ends: map<Chain, nat>): State
    requires labels + tombs <= ends.Keys && forall c :: c in labels + tombs ==> c.Index?
  {
    var own := set c | c in labels && c.writer == me && c.epoch == st.epoch;
    st.(chains := st.chains + map w | w in (set c | c in own :: c.w) && Index(w, st.epoch, me) in own ::
        ends[Index(w, st.epoch, me)],
        remote := st.remote + map c | c in labels - own :: ends[c],
        tombCounts := st.tombCounts + map c | c in tombs :: ends[c],
        tombRids := st.tombRids + Rids(got, tombs, ends))
  }

  lemma LearnedOwn(st: State, me: Writer, labels: set<Chain>, tombs: set<Chain>, got: Net, ends: map<Chain, nat>,
                   l: ChainLabel)
    requires labels + tombs <= ends.Keys && forall c :: c in labels + tombs ==> c.Index?
    ensures var c := Index(l, st.epoch, me);
            var chains := Learned(st, me, labels, tombs, got, ends).chains;
            if c in labels then l in chains && chains[l] == ends[c]
            else (l in chains <==> l in st.chains) && (l in chains ==> chains[l] == st.chains[l])
  {
    hide Rids;
    var own := set c | c in labels && c.writer == me && c.epoch == st.epoch;
    var c := Index(l, st.epoch, me);
    assert c in own <==> c in labels;
    if c in own {
      assert c.w in (set c | c in own :: c.w);
    }
  }

  lemma LearnedOthers(st: State, me: Writer, labels: set<Chain>, tombs: set<Chain>, got: Net, ends: map<Chain, nat>,
                      c: Chain)
    requires labels + tombs <= ends.Keys && forall c :: c in labels + tombs ==> c.Index?
    ensures var st' := Learned(st, me, labels, tombs, got, ends);
            && st'.epoch == st.epoch && st'.epochLen == st.epochLen && st'.regLen == st.regLen
            && (if c in tombs then c in st'.tombCounts && st'.tombCounts[c] == ends[c]
                else (c in st'.tombCounts <==> c in st.tombCounts) && (c in st'.tombCounts ==>
                    st'.tombCounts[c] == st.tombCounts[c]))
            && (c in st'.remote ==>
                (c in labels && st'.remote[c] == ends[c]) || (c in st.remote && st'.remote[c] == st.remote[c]))
            && (c.Index? && !(c.writer == me && c.epoch == st.epoch) ==>
                  if c in labels then c in st'.remote && st'.remote[c] == ends[c]
                  else (c in st'.remote <==> c in st.remote) && (c in st'.remote ==> st'.remote[c] == st.remote[c]))
  {
    hide Rids;
  }

  lemma LearnedCounts(st: State, me: Writer, labels: set<Chain>, tombs: set<Chain>, got: Net, ends: map<Chain, nat>,
                      c: Chain)
    requires labels + tombs <= ends.Keys && forall c :: c in labels + tombs ==> c.Index?
    requires forall c :: c in labels ==> c.w != Tomb
    requires forall c :: c in tombs ==> c.w == Tomb
    ensures Learned(st, me, labels, tombs, got, ends).Count(me, c) == if c in labels + tombs then ends[c]
            else st.Count(me, c)
  {
    hide Learned;
    LearnedOthers(st, me, labels, tombs, got, ends, c);
    if c.Index? {
      assert c == Index(c.w, c.epoch, c.writer);
      LearnedOwn(st, me, labels, tombs, got, ends, c.w);
    }
  }

  /** A walk leaves every counter where it was or at a slot that is filled. */
  ghost predicate Founded(net: Net, st: State, me: Writer, chains: set<Chain>, ends: map<Chain, nat>)
    requires chains <= ends.Keys
  {
    forall c :: c in chains ==> st.Count(me, c) <= ends[c] && (ends[c] == st.Count(me, c) || Link(c, ends[c]) in net)
  }

  lemma LearnedWithin(net: Net, st: State, me: Writer, cap: Lengths, labels: set<Chain>, tombs: set<Chain>, got: Net,
                      ends: map<Chain, nat>)
    requires labels + tombs <= ends.Keys && forall c :: c in labels + tombs ==> c.Index?
    requires forall c :: c in tombs ==> c.w == Tomb
    requires Capped(net, cap) && CountedWithin(st, me, cap) && Founded(net, st, me, labels + tombs, ends)
    ensures CountedWithin(Learned(st, me, labels, tombs, got, ends), me, cap)
  {
    hide Capped, Rids, Founded, Learned;
    forall c | c in labels + tombs ensures ends[c] <= cap(c) {
      FoundedAt(net, st, me, labels + tombs, ends, c);
      CountIsWithin(st, me, cap, c);
      FilledIsWithin(net, cap, c, ends[c]);
    }
    var st' := Learned(st, me, labels, tombs, got, ends);
    forall l | l in st'.chains && l.Of? ensures st'.chains[l] <= cap(Index(l, st'.epoch, me)) {
      LearnedOwn(st, me, labels, tombs, got, ends, l);
      LearnedOthers(st, me, labels, tombs, got, ends, EpochChain);
    }
    forall c
      ensures c in st'.remote ==> st'.remote[c] <= cap(c)
      ensures c in st'.tombCounts ==> c.Index? && c.w == Tomb && st'.tombCounts[c] <= cap(c)
    {
      LearnedOthers(st, me, labels, tombs, got, ends, c);
    }
  }

  lemma FoundedAt(net: Net, st: State, me: Writer, chains: set<Chain>, ends: map<Chain, nat>, c: Chain)
    requires chains <= ends.Keys && Founded(net, st, me, chains, ends) && c in chains
    ensures st.Count(me, c) <= ends[c] && (ends[c] == st.Count(me, c) || Link(c, ends[c]) in net)
  {
  }

  lemma FilledIsWithin(net: Net, cap: Lengths, c: Chain, i: nat)
    requires Capped(net, cap) && c.Index?
    ensures Link(c, i) in net ==> i <= cap(c)
  {
  }

  lemma LearnedRises(net: Net, st: State, me: Writer, low: Lengths, labels: set<Chain>, tombs: set<Chain>, got: Net,
                     ends: map<Chain, nat>)
    requires labels + tombs <= ends.Keys && forall c :: c in labels + tombs ==> c.Index?
    requires (forall c :: c in labels ==> c.w != Tomb) && forall c :: c in tombs ==> c.w == Tomb
    requires Founded(net, st, me, labels + tombs, ends) && CountedTo(st, me, low)
    ensures CountedTo(Learned(st, me, labels, tombs, got, ends), me, low)
  {
    forall c ensures low(c) <= Learned(st, me, labels, tombs, got, ends).Count(me, c) {
      LearnedCounts(st, me, labels, tombs, got, ends, c);
    }
  }

  lemma LearnedTombs(schema: Schema, net: Net, table: Table, st: State, me: Writer, labels: set<Chain>, eps: set<nat>,
                     ws: set<Writer>, got: Net, ends: map<Chain, nat>)
    requires var tombs := TombChains(eps, ws);
             && labels + tombs <= ends.Keys && (forall c :: c in labels + tombs ==> c.Index?)
             && DeltaRead(net, got, tombs, KnownCounts(st, me, tombs), ends)
    requires Truthful(net, got) && EntriesTrue(schema, net, table, eps) && TombsSeen(net, st, table)
    ensures TombsSeen(net, Learned(st, me, labels, TombChains(eps, ws), got, ends), table)
  {
    var tombs := TombChains(eps, ws);
    var st' := Learned(st, me, labels, tombs, got, ends);
    forall r | r in Rids(got, tombs, ends) ensures r in table.deleted {
      var k :| k in got && k.Link? && k.chain in tombs && got[k].Entry? && got[k].rid == r;
      assert k == Link(k.chain, k.i) && Link(k.chain, k.i) in net;
    }
    forall c, i: nat | c in tombs && 1 <= i <= ends[c] && Link(c, i) in net && net[Link(c, i)].Entry?
      ensures net[Link(c, i)].rid in st'.tombRids
    {
      if i > st.Count(me, c) {
        assert Link(c, i) in got && got[Link(c, i)] == net[Link(c, i)];
      }
    }
  }

  /** A tombstone a reader is sure to find has been taken in after a walk. */
  lemma TombsComplete(net: Net, table: Table, st: State, me: Writer, v: View, labels: set<Chain>, got: Net,
                      ends: map<Chain, nat>, r: Rid)
    requires var tombs := TombChains(v.eps, v.ws);
             && labels + tombs <= ends.Keys && (forall c :: c in labels + tombs ==> c.Index?)
             && DeltaRead(net, got, tombs, KnownCounts(st, me, tombs), ends)
             && (forall c :: c in tombs ==> StopsAt(net, c, st.Count(me, c), ends[c]))
    requires Truthful(net, got) && Capped(net, v.cap) && CountedTo(st, me, v.low) && TombsSeen(net, st, table)
    requires Listed(net, v, Tomb, r)
    ensures r in Learned(st, me, labels, TombChains(v.eps, v.ws), got, ends).tombRids
  {
    var tombs := TombChains(v.eps, v.ws);
    var c: Chain, i: nat :| Names(net, v.eps, v.ws, c, i, r) && c.w == Tomb && Unbroken(net, c, v.low(c), i);
    assert c == Index(Tomb, c.epoch, c.writer) && c in tombs;
    assert v.low(c) <= st.Count(me, c);
    if i > st.Count(me, c) {
      StopsPast(net, c, v.low(c), i, st.Count(me, c), ends[c]);
      assert Link(c, i) in got && got[Link(c, i)] == Entry(r);
    }
  }

  datatype Outcome =
    | Rows(rows: map<Rid, Record>)
    | Stale
    | NotAnswered(keys: set<Key>)

  datatype QueryError =
    | UnknownField
    | Unresolved(keys: set<Key>)
    | Unstable

  /** The chains a query of these caches touches, system chains included. */
  function Touched(schema: Schema, preds: seq<Predicate>, st: State, me: Writer): set<Chain>
    requires ValidSchema(schema) && KnownFields(schema, preds)
  {
    AllLabelChains(schema, preds, st.Epochs(), st.Readers(me)) + TombChains(st.Epochs(), st.Readers(me))
      + {EpochChain, RegistryChain}
  }

  /** Every touched index chain without a gap is now counted exactly. */
  ghost predicate CountersExact(schema: Schema, net: Net, preds: seq<Predicate>, st: State, me: Writer, cap: Lengths)
    requires ValidSchema(schema) && KnownFields(schema, preds)
  {
    forall c :: c in Touched(schema, preds, st, me) && c.Index? && DenseTo(net, c, cap(c)) ==> st.Count(me, c) == cap(c)
  }

  /** A finished walk over everything a query touches, with every growth heard of. */
  ghost predicate PassRead(schema: Schema, net: Net, preds: seq<Predicate>, st: State, me: Writer, got: Net,
                           ends: map<Chain, nat>)
    requires ValidSchema(schema) && KnownFields(schema, preds)
  {
    var known := KnownCounts(st, me, Touched(schema, preds, st, me));
    && ends.Keys == Touched(schema, preds, st, me) && Truthful(net, got)
    && Stops(net, Touched(schema, preds, st, me) - {EpochChain, RegistryChain}, known, ends)
    && DeltaRead(net, got, known.Keys, known, ends)
    && ReadUpTo(net, got, AllLabelChains(schema, preds, st.Epochs(), st.Readers(me)), ends)
  }

  /** What holds for all touched chains holds for the label and tombstone chains among them. */
  lemma TouchedParts(schema: Schema, net: Net, preds: seq<Predicate>, st: State, me: Writer, got: Net,
                     ends: map<Chain, nat>)
    requires ValidSchema(schema) && KnownFields(schema, preds) && PassRead(schema, net, preds, st, me, got, ends)
    ensures var labels := AllLabelChains(schema, preds, st.Epochs(), st.Readers(me));
            var tombs := TombChains(st.Epochs(), st.Readers(me));
            && labels + tombs <= ends.Keys
            && (forall c :: c in labels + tombs ==> StopsAt(net, c, st.Count(me, c), ends[c]))
            && Founded(net, st, me, labels + tombs, ends)
            && DeltaRead(net, got, tombs, KnownCounts(st, me, tombs), ends)
  {
    hide Stops, ReadUpTo, Truthful, AllLabelChains, TombChains, StopsAt;
    var labels, tombs := AllLabelChains(schema, preds, st.Epochs(), st.Readers(me)),
        TombChains(st.Epochs(), st.Readers(me));
    var all, known := Touched(schema, preds, st, me), KnownCounts(st, me, Touched(schema, preds, st, me));
    AreIndexChains(schema, preds, st.Epochs(), st.Readers(me));
    forall c | c in labels + tombs
      ensures StopsAt(net, c, st.Count(me, c), ends[c])
      ensures st.Count(me, c) <= ends[c] && (ends[c] == st.Count(me, c) || Link(c, ends[c]) in net)
    {
      StopsAtEnds(net, all - {EpochChain, RegistryChain}, known, ends, c);
      StopParts(net, c, known[c], ends[c]);
    }
  }

  lemma StopParts(net: Net, c: Chain, known: nat, end: nat)
    requires StopsAt(net, c, known, end)
    ensures known <= end && (end == known || Link(c, end) in net)
  {
  }

  lemma WalkSettles(schema: Schema, net: Net, table: Table, st: State, me: Writer, v: View, preds: seq<Predicate>,
                    got: Net, ends: map<Chain, nat>)
    requires ValidSchema(schema) && KnownFields(schema, preds) && Reliable(schema, net, table, st, me, v)
    requires PassRead(schema, net, preds, st, me, got, ends) && SystemStill(net, st)
    ensures var st' := AfterPass(schema, preds, st, me, got, ends);
            && Reliable(schema, net, table, st', me, v) && CountersExact(schema, net, preds, st', me, v.cap)
            && forall r :: Listed(net, v, Tomb, r) ==> r in st'.tombRids
  {
    hide DeltaRead, KnownCounts, AllLabelChains, TombChains, Faithful, TombsSeen, CountedWithin, Stops, StopsAt,
         Truthful, Founded, CountedTo, Listed, ReadUpTo;
    var eps, ws := st.Epochs(), st.Readers(me);
    var labels, tombs := AllLabelChains(schema, preds, eps, ws), TombChains(eps, ws);
    TouchedParts(schema, net, preds, st, me, got, ends);
    AreIndexChains(schema, preds, eps, ws);
    var st' := Learned(st, me, labels, tombs, got, ends);
    FaithfulParts(schema, net, table, v);
    LearnedWithin(net, st, me, v.cap, labels, tombs, got, ends);
    LearnedRises(net, st, me, v.low, labels, tombs, got, ends);
    LearnedTombs(schema, net, table, st, me, labels, eps, ws, got, ends);
    forall r | Listed(net, v, Tomb, r) ensures r in st'.tombRids {
      TombsComplete(net, table, st, me, v, labels, got, ends, r);
    }
    forall c | c in labels + tombs && DenseTo(net, c, v.cap(c))
      ensures st'.Count(me, c) == v.cap(c)
    {
      LearnedCounts(st, me, labels, tombs, got, ends, c);
      CountIsWithin(st, me, v.cap, c);
      StopOfDense(net, c, st.Count(me, c), v.cap(c), ends[c]);
    }
  }

  lemma FaithfulParts(schema: Schema, net: Net, table: Table, v: View)
    requires Faithful(schema, net, table, v)
    ensures EntriesTrue(schema, net, table, v.eps) && Capped(net, v.cap)
  {
  }

  lemma SystemCounts(st: State, me: Writer, chains: set<Chain>)
    requires {EpochChain, RegistryChain} <= chains
    ensures var known := KnownCounts(st, me, chains);
            known.Keys == chains && known[EpochChain] == st.epochLen && known[RegistryChain] == st.regLen
  {
  }

  lemma AreIndexChains(schema: Schema, preds: seq<Predicate>, eps: set<nat>, ws: set<Writer>)
    requires ValidSchema(schema) && KnownFields(schema, preds)
    ensures forall c :: c in AllLabelChains(schema, preds, eps, ws) ==> c.Index? && c.w != Tomb
    ensures forall c :: c in TombChains(eps, ws) ==> c.Index? && c.w == Tomb
  {
  }

  /** The rows of the final round: candidates whose ciphertext came back and passes the filter. */
  function RowsOf(schema: Schema, preds: seq<Predicate>, candidates: set<Rid>, blobs: Net): map<Rid, Record>
    requires KnownFields(schema, preds)
  {
    map r | r in candidates && Rec(r) in blobs && blobs[Rec(r)].Blob? && PassesFilter(schema, blobs[Rec(r)].rec, preds)
      :: blobs[Rec(r)].rec
  }

  /** What the rows of a finished query are worth: every live record that satisfies the predicates, and beside those
      at most deleted records that are still shown and whose tombstones have not been taken in, which all those are
      that are sure to be found; so they are the answer when every record still shown has such a tombstone. */
  ghost predicate Told(schema: Schema, net: Net, table: Table, preds: seq<Predicate>, v: View, before: State,
                       after: State, rows: map<Rid, Record>)
    requires KnownFields(schema, preds)
  {
    && Nearly(schema, table, preds, rows)
    && (forall r :: r in rows ==> r !in after.tombRids) && (forall r :: Listed(net, v, Tomb, r) ==> r in after.tombRids)
    && (forall r :: r in rows && r in table.deleted ==> Shown(schema, net, table, v.eps, v.ws, r))
    && (DeadHidden(schema, net, table, v, before.tombRids) ==> Answer(schema, table, preds, rows))
  }

  lemma RowsAreTold(schema: Schema, net: Net, table: Table, st: State, st': State, me: Writer, v: View,
                    preds: seq<Predicate>,
                    got: Net, ends: map<Chain, nat>, candidates: set<Rid>, blobs: Net)
    requires ValidSchema(schema) && KnownFields(schema, preds) && Reliable(schema, net, table, st, me, v)
    requires SystemStill(net, st) && st.tombRids <= st'.tombRids <= table.deleted
    requires forall r :: Listed(net, v, Tomb, r) ==> r in st'.tombRids
    requires var labels := AllLabelChains(schema, preds, st.Epochs(), st.Readers(me));
             && labels <= ends.Keys && ReadUpTo(net, got, labels, ends)
             && (forall c :: c in labels ==> StopsAt(net, c, st.Count(me, c), ends[c]))
    requires candidates == Candidates(schema, preds, st.Epochs(), st.Readers(me), got, ends, st'.tombRids)
    requires HonestRead(net, set r | r in candidates :: Rec(r), blobs, {})
    ensures Told(schema, net, table, preds, v, st, st', RowsOf(schema, preds, candidates, blobs))
  {
    hide Candidates, LabelChains, StopsAt, PassesFilter, CountedWithin, Faithful, Answer, Rids, Listed, Shown, Nearly,
         ReadUpTo, TombsSeen, RowsOf;
    var labels := AllLabelChains(schema, preds, v.eps, v.ws);
    var known := KnownCounts(st, me, labels);
    AreIndexChains(schema, preds, v.eps, v.ws);
    BlobRound(schema, net, preds, candidates, blobs);
    var rows := RowsOf(schema, preds, candidates, blobs);
    AnswerExact(schema, net, table, v, preds, got, known, ends, labels, st'.tombRids, rows);
    NearlyIsAnswer(schema, table, preds, rows);
  }

  lemma BlobRound(schema: Schema, net: Net, preds: seq<Predicate>, candidates: set<Rid>, blobs: Net)
    requires KnownFields(schema, preds)
    requires HonestRead(net, set r | r in candidates :: Rec(r), blobs, {})
    ensures var rows := RowsOf(schema, preds, candidates, blobs);
            && (forall r :: r in rows <==> r in candidates && Rec(r) in net && net[Rec(r)].Blob?
                                           && PassesFilter(schema, net[Rec(r)].rec, preds))
            && (forall r :: r in rows ==> rows[r] == net[Rec(r)].rec)
  {
    forall r | r in candidates ensures Rec(r) in blobs <==> Rec(r) in net {
      assert Rec(r) in (set x | x in candidates :: Rec(x));
    }
  }

  /** One pass, complete: caches stay reliable, counters are exact, and the rows are the answer, but for deleted records
      that are still shown. */
  lemma PassExact(schema: Schema, net: Net, table: Table, st: State, me: Writer, v: View, preds: seq<Predicate>,
                  got: Net, ends: map<Chain, nat>, blobs: Net, bad: set<Key>)
    requires ValidSchema(schema) && KnownFields(schema, preds) && Reliable(schema, net, table, st, me, v)
    requires PassRead(schema, net, preds, st, me, got, ends) && SystemStill(net, st)
    requires BlobsRead(schema, net, preds, st, me, got, ends, blobs, bad)
    ensures var st' := AfterPass(schema, preds, st, me, got, ends);
            && Reliable(schema, net, table, st', me, v) && CountersExact(schema, net, preds, st', me, v.cap)
            && (bad == {} ==>
                Told(schema, net, table, preds, v, st, st',
                     RowsOf(schema, preds, PassCandidates(schema, preds, st, me, got, ends), blobs)))
  {
    hide AllLabelChains, TombChains, StopsAt, Candidates, RowsOf, Told, CountersExact, ReadUpTo, HonestRead, Stops,
         DeltaRead, Faithful, CountedWithin, CountedTo, Listed, Founded, Rids;
    WalkSettles(schema, net, table, st, me, v, preds, got, ends);
    TouchedParts(schema, net, preds, st, me, got, ends);
    AreIndexChains(schema, preds, st.Epochs(), st.Readers(me));
    if bad == {} {
      RowsAreTold(schema, net, table, st, AfterPass(schema, preds, st, me, got, ends), me, v, preds, got, ends,
                  PassCandidates(schema, preds, st, me, got, ends), blobs);
    }
  }

  /** Caches after a pass over everything a query touches. */
  function AfterPass(schema: Schema, preds: seq<Predicate>, st: State, me: Writer, got: Net,
                     ends: map<Chain, nat>): State
    requires ValidSchema(schema) && KnownFields(schema, preds) && Touched(schema, preds, st, me) <= ends.Keys
  {
    Learned(st, me, AllLabelChains(schema, preds, st.Epochs(), st.Readers(me)), TombChains(st.Epochs(), st.Readers(me)),
            got, ends)
  }

  function PassCandidates(schema: Schema, preds: seq<Predicate>, st: State, me: Writer, got: Net,
                          ends: map<Chain, nat>): set<Rid>
    requires ValidSchema(schema) && KnownFields(schema, preds) && Touched(schema, preds, st, me) <= ends.Keys
  {
    Candidates(schema, preds, st.Epochs(), st.Readers(me), got, ends,
               AfterPass(schema, preds, st, me, got, ends).tombRids)
  }

  /** The final round: the candidates' ciphertexts. */
  ghost predicate BlobsRead(schema: Schema, net: Net, preds: seq<Predicate>, st: State, me: Writer, got: Net,
                            ends: map<Chain, nat>,
                            blobs: Net, bad: set<Key>)
    requires ValidSchema(schema) && KnownFields(schema, preds) && Touched(schema, preds, st, me) <= ends.Keys
  {
    HonestRead(net, set r | r in PassCandidates(schema, preds, st, me, got, ends) :: Rec(r), blobs, bad)
  }

  /** A tombstone in a slot that was not counted yet. */
  ghost predicate NewTomb(net: Net, st: State, me: Writer, r: Rid) {
    exists c: Chain, i: nat :: NewTombAt(net, st, me, r, c, i)
  }

  ghost predicate NewTombAt(net: Net, st: State, me: Writer, r: Rid, c: Chain, i: nat) {
    c.Index? && c.w == Tomb && i > st.Count(me, c) && Link(c, i) in net && net[Link(c, i)] == Entry(r)
  }

  /** Only tombstones in slots not counted before are taken in, and a tombstone chain is counted further only when it is
      among those walked and has grown. */
  ghost predicate TombsMoved(net: Net, st: State, st': State, me: Writer) {
    && st.tombRids <= st'.tombRids && st.tombCounts.Keys <= st'.tombCounts.Keys && (forall r :: r in st'.tombRids ==>
         r in st.tombRids || NewTomb(net, st, me, r))
    && forall c :: c in st'.tombCounts && c.Index? && c.w == Tomb ==>
         st'.tombCounts[c] == st.Count(me, c)
         || (c in TombChains(st.Epochs(), st.Readers(me)) && Link(c, st.Count(me, c) + 1) in net)
  }

  lemma PassMoves(schema: Schema, net: Net, preds: seq<Predicate>, st: State, me: Writer, got: Net,
                  ends: map<Chain, nat>, unheard: set<Key>)
    requires ValidSchema(schema) && KnownFields(schema, preds) && ends.Keys == Touched(schema, preds, st, me)
    requires Truthful(net, got)
             && ReadNew(got, AllLabelChains(schema, preds, st.Epochs(), st.Readers(me)),
                        KnownCounts(st, me, Touched(schema, preds, st, me)))
    requires StopsHeard(net, Touched(schema, preds, st, me) - {EpochChain, RegistryChain},
                        KnownCounts(st, me, Touched(schema, preds, st, me)), ends, unheard)
    ensures TombsMoved(net, st, AfterPass(schema, preds, st, me, got, ends), me)
  {
    hide AllLabelChains, TombChains, StopsAt, StopsHeard, Missed, ReadNew, Rids, KnownCounts;
    var tombs := TombChains(st.Epochs(), st.Readers(me));
    AreIndexChains(schema, preds, st.Epochs(), st.Readers(me));
    forall r | r in Rids(got, tombs, ends) ensures NewTomb(net, st, me, r) {
      FoundIsNew(net, AllLabelChains(schema, preds, st.Epochs(), st.Readers(me)), tombs, st, me,
                 Touched(schema, preds, st, me), got, ends, r);
    }
    forall c | c in tombs ensures ends[c] == st.Count(me, c) || Link(c, st.Count(me, c) + 1) in net {
      MovedWhereGrown(net, Touched(schema, preds, st, me) - {EpochChain, RegistryChain}, Touched(schema, preds, st, me),
                      st, me, ends, unheard, c);
    }
  }

  lemma FoundIsNew(net: Net, labels: set<Chain>, tombs: set<Chain>, st: State, me: Writer, all: set<Chain>, got: Net,
                   ends: map<Chain, nat>, r: Rid)
    requires Truthful(net, got) && ReadNew(got, labels, KnownCounts(st, me, all)) && r in Rids(got, tombs, ends)
    requires (forall c :: c in labels ==> c.Index? && c.w != Tomb) && forall c :: c in tombs ==> c.Index? && c.w == Tomb
    ensures NewTomb(net, st, me, r)
  {
    var k :| k in got && k.Link? && k.chain in tombs && got[k].Entry? && got[k].rid == r;
    assert k == Link(k.chain, k.i) && NewTombAt(net, st, me, r, k.chain, k.i);
  }

  lemma MovedWhereGrown(net: Net, chains: set<Chain>, all: set<Chain>, st: State, me: Writer, ends: map<Chain, nat>,
                        unheard: set<Key>, c: Chain)
    requires chains <= all && StopsHeard(net, chains, KnownCounts(st, me, all), ends, unheard) && c in chains
             && c in ends
    ensures ends[c] == st.Count(me, c) || Link(c, st.Count(me, c) + 1) in net
  {
  }

  /** The counters of gap-free chains after a pass: right if and only if the chain had not grown or its probe was
      answered; otherwise they stay where they were. */
  ghost predicate ExactWhereHeard(schema: Schema, net: Net, preds: seq<Predicate>, before: State, after: State,
                                  me: Writer, unheard: set<Key>)
    requires ValidSchema(schema) && KnownFields(schema, preds)
  {
    var known := KnownCounts(before, me, Touched(schema, preds, before, me));
    && (forall c, end: nat :: c in known && c.Index? && DenseTo(net, c, end) && known[c] <= end ==>
          (after.Count(me, c) == end <==> !Missed(net, known, unheard, c)))
    && (forall c :: c in known && c.Index? && Missed(net, known, unheard, c) ==> after.Count(me, c) == known[c])
  }

  lemma PassCounts(schema: Schema, net: Net, preds: seq<Predicate>, st: State, me: Writer, got: Net,
                   ends: map<Chain, nat>, unheard: set<Key>)
    requires ValidSchema(schema) && KnownFields(schema, preds) && ends.Keys == Touched(schema, preds, st, me)
    requires StopsHeard(net, Touched(schema, preds, st, me) - {EpochChain, RegistryChain},
                        KnownCounts(st, me, Touched(schema, preds, st, me)), ends, unheard)
    ensures ExactWhereHeard(schema, net, preds, st, AfterPass(schema, preds, st, me, got, ends), me, unheard)
  {
    hide AllLabelChains, TombChains, StopsHeard, Missed, DenseTo;
    var labels, tombs := AllLabelChains(schema, preds, st.Epochs(), st.Readers(me)),
        TombChains(st.Epochs(), st.Readers(me));
    AreIndexChains(schema, preds, st.Epochs(), st.Readers(me));
    var all := Touched(schema, preds, st, me);
    var known := KnownCounts(st, me, all);
    forall c, end: nat | c in known && c.Index? && DenseTo(net, c, end) && known[c] <= end
      ensures AfterPass(schema, preds, st, me, got, ends).Count(me, c) == end <==> !Missed(net, known, unheard, c)
    {
      LearnedCounts(st, me, labels, tombs, got, ends, c);
      CountedIffHeard(net, all - {EpochChain, RegistryChain}, known, ends, unheard, c, end);
    }
    forall c | c in known && c.Index? && Missed(net, known, unheard, c)
      ensures AfterPass(schema, preds, st, me, got, ends).Count(me, c) == known[c]
    {
      LearnedCounts(st, me, labels, tombs, got, ends, c);
      MissedStays(net, all - {EpochChain, RegistryChain}, known, ends, unheard, c);
    }
  }

  // ------------------------------------------------------------ the rows, as they come

  /** An id in a slot the counters prove. */
  ghost predicate Counted(net: Net, chains: set<Chain>, st: State, me: Writer, r: Rid) {
    exists c: Chain, i: nat :: CountedAt(net, chains, st, me, r, c, i)
  }

  ghost predicate CountedAt(net: Net, chains: set<Chain>, st: State, me: Writer, r: Rid, c: Chain, i: nat) {
    c in chains && 1 <= i <= st.Count(me, c) && Link(c, i) in net && net[Link(c, i)] == Entry(r)
  }

  /** Whatever the caches were worth: the rows are the ids counted under every predicate after the pass, tombstones
      taken in aside, as far as their ciphertexts pass the filter. */
  ghost predicate RowsAre(schema: Schema, net: Net, preds: seq<Predicate>, before: State, after: State, me: Writer,
                          rows: map<Rid, Record>)
    requires ValidSchema(schema) && KnownFields(schema, preds)
  {
    && (forall r :: r in rows <==>
          && preds != [] && r !in after.tombRids
          && (forall p :: p in preds ==>
              Counted(net, LabelChains(schema, p, before.Epochs(), before.Readers(me)), after, me, r))
          && Rec(r) in net && net[Rec(r)].Blob? && PassesFilter(schema, net[Rec(r)].rec, preds))
    && (forall r :: r in rows ==> rows[r] == net[Rec(r)].rec)
  }

  lemma CountedIsTrue(schema: Schema, net: Net, table: Table, eps: set<nat>, ws: set<Writer>, st: State, me: Writer,
                      p: Predicate, r: Rid)
    requires ValidSchema(schema) && p.field in schema && EntriesTrue(schema, net, table, eps)
             && BlobsGenuine(net, table)
    requires Counted(net, LabelChains(schema, p, eps, ws), st, me, r) && Rec(r) in net
    requires net[Rec(r)].Blob? ==> PassesFilter(schema, net[Rec(r)].rec, [p])
    ensures r in table.inserted && net[Rec(r)] == Blob(table.inserted[r]) && Satisfies(schema, table.inserted[r], p)
  {
    var c: Chain, i: nat :| CountedAt(net, LabelChains(schema, p, eps, ws), st, me, r, c, i);
    LabelledInDomain(schema, table.inserted[r], p, c.w.node);
    assert [p][0] == p;
  }

  /** Every live record that satisfies the predicates sits, under each of them, in a slot the counters prove. */
  ghost predicate LiveCounted(schema: Schema, net: Net, table: Table, preds: seq<Predicate>, v: View, st: State,
                              me: Writer)
    requires ValidSchema(schema) && KnownFields(schema, preds)
  {
    forall r, p :: table.Live(r) && SatisfiesAll(schema, table.inserted[r], preds) && p in preds ==>
      Counted(net, LabelChains(schema, p, v.eps, v.ws), st, me, r)
  }

  /** Whatever went unheard: the rows are the answer, or near it, if and only if they could be, by the counters the pass
      left. */
  lemma NearlyIffCounted(schema: Schema, net: Net, table: Table, v: View, preds: seq<Predicate>, before: State,
                         after: State, me: Writer, rows: map<Rid, Record>)
    requires ValidSchema(schema) && KnownFields(schema, preds) && RowsAre(schema, net, preds, before, after, me, rows)
    requires BlobsGenuine(net, table) && BlobsServe(schema, net, table) && EntriesTrue(schema, net, table, v.eps)
    requires before.Epochs() == v.eps && before.Readers(me) == v.ws && after.tombRids <= table.deleted
    ensures Nearly(schema, table, preds, rows) <==> LiveCounted(schema, net, table, preds, v, after, me)
  {
    hide Counted, LabelChains, EntriesTrue, Findable, Satisfies;
    forall r | r in rows
      ensures r in table.inserted && rows[r] == table.inserted[r] && SatisfiesAll(schema, table.inserted[r], preds)
    {
      assert preds[0] in preds;
      forall p | p in preds
        ensures r in table.inserted && net[Rec(r)] == Blob(table.inserted[r]) && Satisfies(schema, table.inserted[r], p)
      {
        CountedIsTrue(schema, net, table, v.eps, v.ws, after, me, p, r);
      }
    }
    forall r | table.Live(r) && SatisfiesAll(schema, table.inserted[r], preds)
      ensures Rec(r) in net && net[Rec(r)] == Blob(table.inserted[r]) && PassesFilter(schema, table.inserted[r], preds)
    {
      assert preds[0] in preds;
      var d := SatisfierLabelled(schema, table.inserted[r], preds[0]);
      SatisfierPasses(schema, table.inserted[r], preds);
    }
  }

  lemma SatisfierPasses(schema: Schema, rec: Record, preds: seq<Predicate>)
    requires KnownFields(schema, preds) && SatisfiesAll(schema, rec, preds)
    ensures PassesFilter(schema, rec, preds)
  {
    forall p | p in preds ensures Satisfies(schema, rec, p) {
    }
  }

  lemma RidsAreCounted(net: Net, got: Net, chains: set<Chain>, labels: set<Chain>, ends: map<Chain, nat>, st: State,
                       me: Writer, r: Rid)
    requires chains <= labels <= ends.Keys && ReadUpTo(net, got, labels, ends) && forall c :: c in labels ==>
               ends[c] == st.Count(me, c)
    ensures r in Rids(got, chains, ends) <==> Counted(net, chains, st, me, r)
  {
    if r in Rids(got, chains, ends) {
      var k :| k in got && k.Link? && k.chain in chains && 1 <= k.i <= ends[k.chain] && got[k].Entry?
          && got[k].rid == r;
      assert k == Link(k.chain, k.i) && CountedAt(net, chains, st, me, r, k.chain, k.i);
    }
    if c: Chain, i: nat :| CountedAt(net, chains, st, me, r, c, i) {
      assert Link(c, i) in got && got[Link(c, i)] == Entry(r);
    }
  }

  lemma PassRows(schema: Schema, net: Net, preds: seq<Predicate>, st: State, me: Writer, got: Net,
                 ends: map<Chain, nat>, blobs: Net)
    requires ValidSchema(schema) && KnownFields(schema, preds) && ends.Keys == Touched(schema, preds, st, me)
    requires ReadUpTo(net, got, AllLabelChains(schema, preds, st.Epochs(), st.Readers(me)), ends)
    requires BlobsRead(schema, net, preds, st, me, got, ends, blobs, {})
    ensures RowsAre(schema, net, preds, st, AfterPass(schema, preds, st, me, got, ends), me,
                    RowsOf(schema, preds, PassCandidates(schema, preds, st, me, got, ends), blobs))
  {
    hide LabelChains, TombChains, Rids, PassesFilter, RowsOf, Learned, Counted, ReadUpTo;
    var labels, tombs := AllLabelChains(schema, preds, st.Epochs(), st.Readers(me)),
        TombChains(st.Epochs(), st.Readers(me));
    var st' := AfterPass(schema, preds, st, me, got, ends);
    AreIndexChains(schema, preds, st.Epochs(), st.Readers(me));
    forall c | c in labels ensures ends[c] == st'.Count(me, c) {
      LearnedCounts(st, me, labels, tombs, got, ends, c);
    }
    forall p, r | p in preds
      ensures r in Rids(got, LabelChains(schema, p, st.Epochs(), st.Readers(me)), ends) <==>
                Counted(net, LabelChains(schema, p, st.Epochs(), st.Readers(me)), st', me, r)
    {
      RidsAreCounted(net, got, LabelChains(schema, p, st.Epochs(), st.Readers(me)), labels, ends, st', me, r);
    }
    BlobRound(schema, net, preds, PassCandidates(schema, preds, st, me, got, ends), blobs);
    assert preds != [] ==> preds[0] in preds;
  }

  /** What a finished pass leaves, whatever the caches were worth. */
  lemma PassLeaves(schema: Schema, net: Net, preds: seq<Predicate>, st: State, me: Writer, got: Net,
                   ends: map<Chain, nat>, unheard: set<Key>,
                   blobs: Net, bad: set<Key>)
    requires ValidSchema(schema) && KnownFields(schema, preds) && ends.Keys == Touched(schema, preds, st, me)
    requires Truthful(net, got)
             && ReadNew(got, AllLabelChains(schema, preds, st.Epochs(), st.Readers(me)),
                        KnownCounts(st, me, Touched(schema, preds, st, me)))
    requires StopsHeard(net, Touched(schema, preds, st, me) - {EpochChain, RegistryChain},
                        KnownCounts(st, me, Touched(schema, preds, st, me)), ends, unheard)
    requires ReadUpTo(net, got, AllLabelChains(schema, preds, st.Epochs(), st.Readers(me)), ends)
    requires BlobsRead(schema, net, preds, st, me, got, ends, blobs, bad)
    ensures var st' := AfterPass(schema, preds, st, me, got, ends);
            && st' == st.(chains := st'.chains, remote := st'.remote, tombCounts := st'.tombCounts,
                          tombRids := st'.tombRids)
            && TombsMoved(net, st, st', me) && st.tombRids <= st'.tombRids
            && ExactWhereHeard(schema, net, preds, st, st', me, unheard)
            && (bad == {} ==>
                RowsAre(schema, net, preds, st, st', me,
                        RowsOf(schema, preds, PassCandidates(schema, preds, st, me, got, ends), blobs)))
  {
    hide LabelChains, TombChains, Rids, RowsOf, Counted, ReadUpTo, BlobsRead, PassCandidates, StopsHeard, Truthful,
         ReadNew, AllLabelChains, ExactWhereHeard, RowsAre, KnownCounts, Touched;
    PassMoves(schema, net, preds, st, me, got, ends, unheard);
    PassCounts(schema, net, preds, st, me, got, ends, unheard);
    if bad == {} {
      PassRows(schema, net, preds, st, me, got, ends, blobs);
    }
  }

  /** No index or system entry sits behind silent replicas; ciphertexts may. */
  ghost predicate LinksSpeak(net: Net, silent: set<Key>) {
    forall c, i: nat :: Link(c, i) in net ==> Link(c, i) !in silent
  }

  // ------------------------------------------------------------ the system chains

  /** Slots after the first lo ones, up to hi. */
  function Slots(c: Chain, lo: nat, hi: nat): set<Key> {
    set i: nat | lo < i <= hi :: Link(c, i)
  }

  lemma SlotsAnswered(net: Net, c: Chain, lo: nat, hi: nat, silent: set<Key>, got: Net, bad: set<Key>)
    requires HonestRead(net, Slots(c, lo, hi), got, bad) && got.Keys !! bad && bad <= silent * Slots(c, lo, hi)
    ensures SlotsRead(net, c, lo, hi, got, bad)
    ensures LinksSpeak(net, silent) ==> forall k :: k in bad ==> k !in net
  {
    forall j: nat | lo < j <= hi ensures Link(c, j) in got <==> Link(c, j) in net && Link(c, j) !in bad {
      assert Link(c, j) in Slots(c, lo, hi);
    }
    forall k | k in bad && LinksSpeak(net, silent) ensures k !in net {
      assert k in Slots(c, lo, hi);
    }
  }

  /** The slots have been read as they are, but for the ones that were not answered. */
  ghost predicate SlotsRead(net: Net, c: Chain, lo: nat, hi: nat, got: Net, bad: set<Key>) {
    && bad <= Slots(c, lo, hi)
    && (forall j: nat :: lo < j <= hi ==> (Link(c, j) in got <==> Link(c, j) in net && Link(c, j) !in bad))
    && (forall k :: k in got ==> k in net && got[k] == net[k])
  }

  /** A marker that changes nothing any more. */
  predicate MarkWithin(mark: Item, at: (nat, int)) {
    match mark
    case Opened(n) => n <= at.0
    case Sealed(n) => n <= at.1
    case _ => true
  }

  predicate NoLess(a: (nat, int), b: (nat, int)) {
    a.0 <= b.0 && a.1 <= b.1
  }

  /** Marks of a longer prefix are the least that no marker of the added slots exceeds. */
  lemma {:induction false} MarksRise(net: Net, lo: nat, hi: nat)
    requires lo <= hi
    ensures NoLess(MarksOf(net, lo), MarksOf(net, hi))
    ensures forall j: nat :: lo < j <= hi && Link(EpochChain, j) in net ==>
              MarkWithin(net[Link(EpochChain, j)], MarksOf(net, hi))
    decreases hi - lo
  {
    if lo < hi {
      MarksRise(net, lo, hi - 1);
    }
  }

  lemma {:induction false} MarksLeast(net: Net, lo: nat, hi: nat, at: (nat, int))
    requires lo <= hi && NoLess(MarksOf(net, lo), at)
    requires forall j: nat :: lo < j <= hi && Link(EpochChain, j) in net ==> MarkWithin(net[Link(EpochChain, j)], at)
    ensures NoLess(MarksOf(net, hi), at)
    decreases hi - lo
  {
    if lo < hi {
      MarksLeast(net, lo, hi - 1, at);
    }
  }

  /** Every marker that was not answered is one that would have changed nothing. */
  ghost predicate MarksWithin(net: Net, bad: set<Key>, at: (nat, int)) {
    forall k :: k in bad && k in net ==> MarkWithin(net[k], at)
  }

  /** An epoch some marker of the slots after lo, up to hi, opens. */
  ghost predicate OpenedIn(net: Net, lo: nat, hi: nat, epoch: nat) {
    exists j: nat :: lo < j <= hi && Link(EpochChain, j) in net && net[Link(EpochChain, j)] == Opened(epoch)
  }

  lemma OpenedIsRead(net: Net, lo: nat, hi: nat, got: Net, bad: set<Key>, epoch: nat)
    requires SlotsRead(net, EpochChain, lo, hi, got, bad) && OpenedIn(got, lo, hi, epoch)
    ensures OpenedHeard(net, bad, epoch)
  {
  }

  /** An epoch some answered marker opens. */
  ghost predicate OpenedHeard(net: Net, unread: set<Key>, epoch: nat) {
    exists j: nat ::
        Link(EpochChain, j) in net && Link(EpochChain, j) !in unread && net[Link(EpochChain, j)] == Opened(epoch)
  }

  /** Take in the epoch markers of slots epochLen + 1 to end, skipping the ones that did not come back. The result is
      right if and only if no skipped marker is higher than what was taken in. */
  method AbsorbMarks(net: Net, st: State, end: nat, got: Net, ghost bad: set<Key>) returns (cur: State)
    requires st.epochLen < end && SlotsRead(net, EpochChain, st.epochLen, end, got, bad)
    ensures cur == st.(epoch := cur.epoch, sealedMax := cur.sealedMax, chains := cur.chains)
    ensures cur.epoch >= st.epoch && cur.chains == if cur.epoch == st.epoch then st.chains else map[]
    ensures cur.epoch == st.epoch || OpenedIn(got, st.epochLen, end, cur.epoch)
    ensures (st.epoch, st.sealedMax) == MarksOf(net, st.epochLen) ==>
              ((cur.epoch, cur.sealedMax) == MarksOf(net, end) <==> MarksWithin(net, bad, (cur.epoch, cur.sealedMax)))
  {
    hide MarksOf;
    ghost var start := (st.epoch, st.sealedMax);
    cur := st;
    MarksRise(net, st.epochLen, end);
    for i := st.epochLen + 1 to end + 1
      invariant cur == st.(epoch := cur.epoch, sealedMax := cur.sealedMax, chains := cur.chains)
      invariant cur.epoch >= st.epoch && cur.chains == if cur.epoch == st.epoch then st.chains else map[]
      invariant NoLess(start, (cur.epoch, cur.sealedMax))
                && (cur.epoch == st.epoch || OpenedIn(got, st.epochLen, end, cur.epoch))
      invariant forall j: nat :: st.epochLen < j < i && Link(EpochChain, j) in got ==>
                  MarkWithin(got[Link(EpochChain, j)], (cur.epoch, cur.sealedMax))
      invariant start == MarksOf(net, st.epochLen) ==> NoLess((cur.epoch, cur.sealedMax), MarksOf(net, end))
    {
      if Link(EpochChain, i) in got {
        MarksRise(net, st.epochLen, end);
        assert MarkWithin(net[Link(EpochChain, i)], MarksOf(net, end));
        var (e, s) := AfterMark((cur.epoch, cur.sealedMax), got[Link(EpochChain, i)]);
        cur := cur.(epoch := e, sealedMax := s, chains := if e > cur.epoch then map[] else cur.chains);
      }
    }
    if start == MarksOf(net, st.epochLen) {
      MarksRise(net, st.epochLen, end);
    }
    if start == MarksOf(net, st.epochLen) && MarksWithin(net, bad, (cur.epoch, cur.sealedMax)) {
      MarksLeast(net, st.epochLen, end, (cur.epoch, cur.sealedMax));
    }
  }

  lemma SlotsAreLinks(c: Chain, lo: nat, hi: nat)
    ensures forall k :: k in Slots(c, lo, hi) ==> k.Link? && k.chain == c
  {
  }

  /** Fetch the markers of slots epochLen + 1 to end and take in those that come back. */
  method ReadMarks(net: Net, st: State, end: nat, silent: set<Key>) returns (cur: State, ghost unread: set<Key>)
    requires st.epochLen < end
    ensures unread <= silent && (LinksSpeak(net, silent) ==> forall k :: k in unread ==> k !in net)
    ensures forall k :: k in unread ==> k.Link? && k.chain == EpochChain
    ensures cur == st.(epoch := cur.epoch, sealedMax := cur.sealedMax, chains := cur.chains)
    ensures cur.epoch >= st.epoch && cur.chains == if cur.epoch == st.epoch then st.chains else map[]
    ensures cur.epoch == st.epoch || OpenedHeard(net, unread, cur.epoch)
    ensures (st.epoch, st.sealedMax) == MarksOf(net, st.epochLen) ==>
              ((cur.epoch, cur.sealedMax) == MarksOf(net, end) <==>
               MarksWithin(net, unread, (cur.epoch, cur.sealedMax)))
  {
    hide MarksOf, Slots, OpenedIn, OpenedHeard, SlotsRead, MarksWithin, LinksSpeak;
    var got, bad := MGet(net, Slots(EpochChain, st.epochLen, end), silent);
    unread := bad;
    SlotsAnswered(net, EpochChain, st.epochLen, end, silent, got, bad);
    SlotsAreLinks(EpochChain, st.epochLen, end);
    cur := AbsorbMarks(net, st, end, got, bad);
    if cur.epoch != st.epoch {
      OpenedIsRead(net, st.epochLen, end, got, bad, cur.epoch);
    }
  }

  /** Every name that was not answered is one that is known. */
  ghost predicate NamesWithin(net: Net, bad: set<Key>, writers: seq<Writer>) {
    forall k :: k in bad && k in net && net[k].Name? ==> net[k].writer in writers
  }

  lemma {:induction false} NamesAre(net: Net, lo: nat, hi: nat, u: Writer)
    requires lo <= hi
    ensures u in NamesOf(net, hi) <==>
              u in NamesOf(net, lo) || exists j: nat ::
                  lo < j <= hi && Link(RegistryChain, j) in net && net[Link(RegistryChain, j)] == Name(u)
    decreases hi - lo
  {
    if lo < hi {
      NamesAre(net, lo, hi - 1, u);
    }
  }

  /** Take in the writers named by registry slots regLen + 1 to end. The result is right if and only if every name that
      did not come back was known. */
  method AbsorbNames(net: Net, st: State, end: nat, got: Net, ghost bad: set<Key>) returns (writers: seq<Writer>)
    requires st.regLen < end && SlotsRead(net, RegistryChain, st.regLen, end, got, bad)
    ensures (set u | u in st.writers) == NamesOf(net, st.regLen) ==>
              && ((set u | u in writers) == NamesOf(net, end) <==> NamesWithin(net, bad, writers))
              && (forall u :: u in writers ==> u in NamesOf(net, end))
    ensures forall u :: u in st.writers ==> u in writers
  {
    hide NamesOf;
    writers := st.writers;
    for i := st.regLen + 1 to end + 1
      invariant forall u :: u in writers <==> u in st.writers || Named(got, st.regLen, i, u)
    {
      if Link(RegistryChain, i) in got && got[Link(RegistryChain, i)].Name? {
        var u := got[Link(RegistryChain, i)].writer;
        assert got[Link(RegistryChain, i)] == Name(u);
        if u !in writers {
          writers := writers + [u];
        }
      }
    }
    if (set u | u in st.writers) == NamesOf(net, st.regLen) {
      NamesRight(net, st, end, got, bad, writers);
    }
  }

  /** A writer named in one of the slots after lo, before hi. */
  ghost predicate Named(got: Net, lo: nat, hi: nat, u: Writer) {
    exists j: nat :: lo < j < hi && Link(RegistryChain, j) in got && got[Link(RegistryChain, j)] == Name(u)
  }

  lemma NamesRight(net: Net, st: State, end: nat, got: Net, bad: set<Key>, writers: seq<Writer>)
    requires st.regLen < end && SlotsRead(net, RegistryChain, st.regLen, end, got, bad)
    requires (set u | u in st.writers) == NamesOf(net, st.regLen)
    requires forall u :: u in writers <==> u in st.writers || Named(got, st.regLen, end + 1, u)
    ensures (set u | u in writers) == NamesOf(net, end) <==> NamesWithin(net, bad, writers)
    ensures forall u :: u in writers ==> u in NamesOf(net, end)
  {
    hide NamesOf;
    forall u ensures u in st.writers <==> u in NamesOf(net, st.regLen) {
      assert u in (set x | x in st.writers) <==> u in st.writers;
    }
    forall u
      ensures u in NamesOf(net, end) <==> u in st.writers || Named(net, st.regLen, end + 1, u)
      ensures Named(got, st.regLen, end + 1, u) ==> Named(net, st.regLen, end + 1, u)
    {
      NamesAre(net, st.regLen, end, u);
    }
    if NamesWithin(net, bad, writers) {
      forall u | Named(net, st.regLen, end + 1, u) ensures u in writers {
        var j: nat :| st.regLen < j < end + 1 && Link(RegistryChain, j) in net
            && net[Link(RegistryChain, j)] == Name(u);
        assert Link(RegistryChain, j) !in bad ==> Named(got, st.regLen, end + 1, u);
      }
      assert (set u | u in writers) == NamesOf(net, end);
    } else {
      var k :| k in bad && k in net && net[k].Name? && net[k].writer !in writers;
      assert k in Slots(RegistryChain, st.regLen, end);
      var j: nat :| st.regLen < j <= end && k == Link(RegistryChain, j);
      assert Named(net, st.regLen, end + 1, net[k].writer);
      assert net[k].writer in NamesOf(net, end) && net[k].writer !in (set u | u in writers);
    }
  }

  /** Drop cached counters of epochs that are no longer read. */
  function Pruned(st: State): State {
    st.(remote := map c | c in st.remote && c.Index? && c.epoch in st.Epochs() :: st.remote[c],
        tombCounts := map c | c in st.tombCounts && c.Index? && c.epoch in st.Epochs() :: st.tombCounts[c])
  }

  /** Some counts have been dropped, none has changed. */
  predicate Fewer(less: map<Chain, nat>, more: map<Chain, nat>) {
    forall c :: c in less ==> c in more && less[c] == more[c]
  }

  lemma PrunedShape(st: State)
    ensures Pruned(st).regLen == st.regLen && Pruned(st).writers == st.writers && Pruned(st).epochLen == st.epochLen
    ensures Pruned(st).epoch == st.epoch && Pruned(st).sealedMax == st.sealedMax
    ensures Pruned(st).chains == st.chains && Pruned(st).tombRids == st.tombRids
            && Fewer(Pruned(st).tombCounts, st.tombCounts) && Fewer(Pruned(st).remote, st.remote)
  {
  }

  /** Moving to newer markers and pruning keeps every cached counter a lower bound. */
  lemma PrunedKeeps(net: Net, table: Table, st: State, epoch: nat, sealedMax: int, end: nat, me: Writer, cap: Lengths,
                    st': State)
    requires epoch >= st.epoch
    requires st' == Pruned(st.(epoch := epoch, sealedMax := sealedMax, epochLen := end,
                               chains := if epoch == st.epoch then st.chains else map[]))
    ensures CountedWithin(st, me, cap) ==> CountedWithin(st', me, cap)
    ensures TombsSeen(net, st, table) ==> TombsSeen(net, st', table)
  {
  }

  lemma SameTombs(net: Net, st: State, st': State, table: Table, me: Writer, cap: Lengths)
    requires st' == st.(writers := st'.writers, regLen := st'.regLen)
    ensures TombsSeen(net, st, table) ==> TombsSeen(net, st', table)
    ensures CountedWithin(st, me, cap) ==> CountedWithin(st', me, cap)
  {
  }

  lemma TrustedPruned(schema: Schema, net: Net, table: Table, st: State, epoch: nat, sealedMax: int, end: nat,
                      me: Writer, cap: Lengths, st': State)
    requires Trusted(schema, net, table, st, me, cap) && epoch >= st.epoch
    requires end <= EndOf(net, EpochChain) && (epoch, sealedMax) == MarksOf(net, end)
    requires st' == Pruned(st.(epoch := epoch, sealedMax := sealedMax, epochLen := end,
                               chains := if epoch == st.epoch then st.chains else map[]))
    ensures Trusted(schema, net, table, st', me, cap)
  {
    hide Faithful, TombsSeen, CountedWithin, Pruned, MarksOf, NamesOf, DenseTo, TrueEpochs, TrueReaders, CountedTo;
    PrunedKeeps(net, table, st, epoch, sealedMax, end, me, cap, st');
    PrunedShape(st.(epoch := epoch, sealedMax := sealedMax, epochLen := end, chains := if epoch == st.epoch
                    then st.chains else map[]));
    TrustedAgain(schema, net, table, st, st', me, cap);
  }

  lemma EndIsLast(net: Net, c: Chain)
    requires Dense(net, c)
    ensures Link(c, EndOf(net, c) + 1) !in net
  {
  }

  /** Trust survives a move to other caches that are right. */
  lemma TrustedAgain(schema: Schema, net: Net, table: Table, st: State, st': State, me: Writer, cap: Lengths)
    requires Trusted(schema, net, table, st, me, cap) && Synced(net, st')
    requires CountedWithin(st', me, cap) && TombsSeen(net, st', table)
    ensures Trusted(schema, net, table, st', me, cap)
  {
    hide Faithful, MarksOf, NamesOf, TrueEpochs, TrueReaders;
    SystemCurrent(net, st', me, cap);
  }

  /** Whatever view the caches were reliable under before a pass, they still are, and rows are what they should be. */
  ghost predicate Kept(schema: Schema, net: Net, table: Table, preds: seq<Predicate>, before: State, after: State,
                       me: Writer,
                       o: Outcome, v: View)
    requires ValidSchema(schema) && KnownFields(schema, preds)
  {
    Reliable(schema, net, table, before, me, v) ==>
      && Reliable(schema, net, table, after, me, v)
      && (o.Rows? ==>
          Told(schema, net, table, preds, v, before, after, o.rows)
          && CountersExact(schema, net, preds, after, me, v.cap))
  }

  lemma KeptWithoutRows(schema: Schema, net: Net, table: Table, preds: seq<Predicate>, st: State, me: Writer,
                        o: Outcome)
    requires ValidSchema(schema) && KnownFields(schema, preds) && !o.Rows?
    ensures forall v :: Kept(schema, net, table, preds, st, st, me, o, v)
  {
  }

  lemma PassKept(schema: Schema, net: Net, table: Table, st: State, me: Writer, preds: seq<Predicate>,
                 got: Net, ends: map<Chain, nat>, blobs: Net, bad: set<Key>, o: Outcome)
    requires ValidSchema(schema) && KnownFields(schema, preds)
    requires PassRead(schema, net, preds, st, me, got, ends) && SystemStill(net, st)
    requires BlobsRead(schema, net, preds, st, me, got, ends, blobs, bad)
    requires o == if bad != {} then NotAnswered(bad)
                  else Rows(RowsOf(schema, preds, PassCandidates(schema, preds, st, me, got, ends), blobs))
    ensures forall v :: Kept(schema, net, table, preds, st, AfterPass(schema, preds, st, me, got, ends), me, o, v)
  {
    hide Reliable, AllLabelChains, TombChains, Candidates, RowsOf, Told, CountersExact, HonestRead, Stops, ReadUpTo,
         DeltaRead, Truthful, BlobsRead, KnownCounts;
    forall v: View | Reliable(schema, net, table, st, me, v)
      ensures Kept(schema, net, table, preds, st, AfterPass(schema, preds, st, me, got, ends), me, o, v)
    {
      PassExact(schema, net, table, st, me, v, preds, got, ends, blobs, bad);
    }
  }

  lemma SpeakingIsHeard(net: Net, silent: set<Key>, known: map<Chain, nat>, unheard: set<Key>)
    requires LinksSpeak(net, silent) && unheard <= silent
    ensures AllHeard(net, known, unheard)
  {
  }

  class Owner {
    const schema: Schema
    const me: Writer
    var st: State

    constructor (schema: Schema, me: Writer)
      ensures this.schema == schema && this.me == me
      ensures st == State(0, 0, -1, 0, [], map[], map[], map[], {})
    {
      this.schema, this.me := schema, me;
      st := State(0, 0, -1, 0, [], map[], map[], map[], {});
    }

    /** One speculative pass. The counter of a chain it touches is right afterwards if and only if the chain had not
        grown or somebody answered its probe; if every growth was heard of, the rows are what they should be, too. */
    method QueryOnce(net: Net, preds: seq<Predicate>, silent: set<Key>, ghost table: Table)
      returns (o: Outcome, ghost unheard: set<Key>)
      requires ValidSchema(schema) && KnownFields(schema, preds)
      modifies this`st
      ensures unheard <= silent
      ensures st == old(st).(chains := st.chains, remote := st.remote, tombCounts := st.tombCounts,
                             tombRids := st.tombRids)
      ensures silent == {} ==> !o.NotAnswered?
      ensures o.Stale? ==> st == old(st) && !SystemStill(net, st)
      ensures o.Rows? ==>
                ExactWhereHeard(schema, net, preds, old(st), st, me, unheard)
                && RowsAre(schema, net, preds, old(st), st, me, o.rows)
      ensures o.NotAnswered? ==> o.keys != {} && o.keys <= silent && forall k :: k in o.keys ==>
                k.Rec? || Owed(net, KnownCounts(old(st), me, Touched(schema, preds, old(st), me)), unheard, k)
      ensures old(st).tombRids <= st.tombRids && (st == old(st) || TombsMoved(net, old(st), st, me))
      ensures AllHeard(net, KnownCounts(old(st), me, Touched(schema, preds, old(st), me)), unheard) && o.Rows? ==>
                SystemStill(net, st)
      ensures AllHeard(net, KnownCounts(old(st), me, Touched(schema, preds, old(st), me)), unheard) ==>
                forall v :: Kept(schema, net, table, preds, old(st), st, me, o, v)
    {
      hide Kept, Reliable, AllHeard, Truthful, ReadUpTo, DeltaRead, Stops, StopsHeard, RowsOf, Told, CountersExact,
           AllLabelChains, Candidates, TombChains, Faithful, KnownCounts, TombsMoved, ExactWhereHeard, Missed, Owed,
           RowsAre, ReadNew, AfterPass, PassCandidates;
      var labels, tombs := AllLabelChains(schema, preds, st.Epochs(), st.Readers(me)),
          TombChains(st.Epochs(), st.Readers(me));
      AreIndexChains(schema, preds, st.Epochs(), st.Readers(me));
      var known := KnownCounts(st, me, Touched(schema, preds, st, me));
      SystemCounts(st, me, Touched(schema, preds, st, me));
      var walk;
      walk, unheard := Enumerate(net, labels, tombs, known, {EpochChain, RegistryChain}, silent);
      if walk.Refused? {
        KeptWithoutRows(schema, net, table, preds, st, me, NotAnswered(walk.keys));
        return NotAnswered(walk.keys), unheard;
      }
      if walk.Grew? {
        KeptWithoutRows(schema, net, table, preds, st, me, Stale);
        return Stale, unheard;
      }
      var candidates := PassCandidates(schema, preds, st, me, walk.got, walk.ends);
      var blobs, bad := MGet(net, set r | r in candidates :: Rec(r), silent);
      o := if bad != {} then NotAnswered(bad) else Rows(RowsOf(schema, preds, candidates, blobs));
      assert labels + tombs == Touched(schema, preds, st, me) - {EpochChain, RegistryChain};
      PassLeaves(schema, net, preds, st, me, walk.got, walk.ends, unheard, blobs, bad);
      if AllHeard(net, known, unheard) {
        HeardStops(net, labels + tombs, known, walk.ends, unheard);
        HeardSystem(net, known, unheard, st);
        PassKept(schema, net, table, st, me, preds, walk.got, walk.ends, blobs, bad, o);
      }
      st := AfterPass(schema, preds, st, me, walk.got, walk.ends);
    }

    /** Read the epoch markers past the cached ones; a newer epoch starts with empty own chains, and counters
        of epochs nobody reads any more are dropped. Markers that do not come back are skipped: the caches are right
        afterwards if and only if none of those is higher than what was read. */
    method RefreshEpoch(net: Net, silent: set<Key>, ghost table: Table, ghost cap: Lengths)
      returns (ok: bool, ghost unread: set<Key>)
      requires ValidSchema(schema)
      modifies this`st
      ensures !ok ==> exists k :: k in silent && SearchAsks(net, map[EpochChain := old(st).epochLen], k)
      ensures unread <= silent && forall k :: k in unread ==> k.Link? && k.chain == EpochChain
      ensures st.regLen == old(st).regLen && st.writers == old(st).writers && st.tombRids == old(st.tombRids)
              && Fewer(st.tombCounts, old(st).tombCounts) && Fewer(st.remote, old(st).remote)
      ensures ok && Synced(net, old(st)) ==>
                && st.epochLen == EndOf(net, EpochChain)
                && (Synced(net, st) <==> MarksWithin(net, unread, (st.epoch, st.sealedMax)))
      ensures ok ==> st.epoch == old(st).epoch || OpenedHeard(net, unread, st.epoch)
      ensures st.chains == if st.epoch == old(st).epoch then old(st).chains else map[]
      ensures Trusted(schema, net, table, old(st), me, cap) && (Synced(net, st) || !ok) ==>
                Trusted(schema, net, table, st, me, cap)
      ensures LinksSpeak(net, silent) ==> forall k :: k in unread ==> k !in net
    {
      hide Faithful, TombsSeen, NamesOf, CountedWithin, MarksOf, Slots, Pruned, SearchAsks, OpenedHeard, DenseTo,
           ViewCurrent, MarksWithin, Reliable;
      var r, _ := DiscoverEnds(net, map[EpochChain := st.epochLen], silent);
      if r.Failure? {
        ghost var k :| k in r.error;
        return false, {};
      }
      var end := r.value[EpochChain];
      unread := {};
      if Dense(net, EpochChain) && st.epochLen <= EndOf(net, EpochChain) {
        StopOfDense(net, EpochChain, st.epochLen, EndOf(net, EpochChain), end);
      }
      NoneUnread(net, (st.epoch, st.sealedMax));
      if end > st.epochLen {
        ghost var before := st;
        var cur;
        cur, unread := ReadMarks(net, st, end, silent);
        st := Pruned(cur.(epochLen := end));
        PrunedShape(cur.(epochLen := end));
        if Trusted(schema, net, table, before, me, cap) && Synced(net, st) {
          TrustedPruned(schema, net, table, before, cur.epoch, cur.sealedMax, end, me, cap, st);
        }
      }
      return true, unread;
    }

    /** Read the registry slots past the cached ones. Names that do not come back are skipped: the caches are right
        afterwards if and only if every one of those was known. */
    method RefreshWriters(net: Net, silent: set<Key>, ghost table: Table, ghost cap: Lengths)
      returns (ok: bool, ghost unread: set<Key>)
      requires ValidSchema(schema)
      modifies this`st
      ensures !ok ==> exists k :: k in silent && SearchAsks(net, map[RegistryChain := old(st).regLen], k)
      ensures unread <= silent
      ensures st == old(st).(writers := st.writers, regLen := st.regLen)
      ensures ok && Synced(net, old(st)) ==>
                && st.regLen == EndOf(net, RegistryChain)
                && (Synced(net, st) <==> NamesWithin(net, unread, st.writers))
      ensures ok && KnowsNames(net, old(st)) ==>
                && st.regLen == EndOf(net, RegistryChain) && (KnowsNames(net, st) <==>
                                                              NamesWithin(net, unread, st.writers))
                && forall u :: u in st.writers ==> u in NamesOf(net, EndOf(net, RegistryChain))
      ensures forall u :: u in old(st).writers ==> u in st.writers
      ensures Trusted(schema, net, table, old(st), me, cap) && (Synced(net, st) || !ok) ==>
                Trusted(schema, net, table, st, me, cap)
      ensures LinksSpeak(net, silent) ==> forall k :: k in unread ==> k !in net
    {
      hide Faithful, TombsSeen, NamesOf, MarksOf, Slots, DenseTo, SearchAsks, ViewCurrent, NamesWithin, CountedWithin,
           Reliable;
      var r, _ := DiscoverEnds(net, map[RegistryChain := st.regLen], silent);
      if r.Failure? {
        ghost var k :| k in r.error;
        return false, {};
      }
      var end := r.value[RegistryChain];
      unread := {};
      if Dense(net, RegistryChain) && st.regLen <= EndOf(net, RegistryChain) {
        StopOfDense(net, RegistryChain, st.regLen, EndOf(net, RegistryChain), end);
      }
      NoneUnnamed(net, st.writers);
      if end > st.regLen {
        var got, bad := MGet(net, Slots(RegistryChain, st.regLen, end), silent);
        unread := bad;
        SlotsAnswered(net, RegistryChain, st.regLen, end, silent, got, bad);
        var writers := AbsorbNames(net, st, end, got, bad);
        ghost var before := st;
        st := st.(writers := writers, regLen := end);
        SameTombs(net, before, st, table, me, cap);
        if Trusted(schema, net, table, before, me, cap) && Synced(net, st) {
          TrustedParts(schema, net, table, before, me, cap);
          TrustedAgain(schema, net, table, before, st, me, cap);
        }
      }
      return true, unread;
    }

    /** Both refreshes, one after the other. */
    method Refresh(net: Net, silent: set<Key>, ghost table: Table, ghost cap: Lengths) returns (ok: bool)
      requires ValidSchema(schema)
      modifies this`st
      ensures silent == {} ==> ok
      ensures st.tombRids == old(st.tombRids)
      ensures Trusted(schema, net, table, old(st), me, cap) && LinksSpeak(net, silent) ==>
                && Trusted(schema, net, table, st, me, cap)
                && (ok ==> st.epochLen == EndOf(net, EpochChain) && st.regLen == EndOf(net, RegistryChain))
    {
      hide Reliable, MarksOf, NamesOf, DenseTo;
      ghost var unread;
      ok, unread := RefreshEpoch(net, silent, table, cap);
      AbsentIsWithin(net, unread, (st.epoch, st.sealedMax), st.writers);
      if ok {
        ghost var unnamed;
        ok, unnamed := RefreshWriters(net, silent, table, cap);
        AbsentIsWithin(net, unnamed, (st.epoch, st.sealedMax), st.writers);
      }
    }

    /** AND of predicates. From any caches that are lower bounds and true prefixes, and as long as no index or
        system entry sits behind silent replicas: rows, when they are returned, are the live records
        satisfying every predicate, and exactly those if every deleted record that is still shown has a tombstone that
        is sure to be found or has been seen; every counter touched is exact, and the caches stay trustworthy. The same
        holds on any store the caches are reliable under, such as a mirror, while its system chains do not grow. */
    method QueryMulti(net: Net, preds: seq<Predicate>, silent: set<Key>, ghost table: Table, ghost cap: Lengths)
      returns (r: Result<map<Rid, Record>, QueryError>)
      requires ValidSchema(schema)
      requires forall i, j :: 0 <= i < j < |preds| ==> preds[i].field != preds[j].field
      modifies this`st
      ensures r == Failure(UnknownField) <==> !KnownFields(schema, preds)
      ensures old(st).tombRids <= st.tombRids
      ensures Trusted(schema, net, table, old(st), me, cap) && LinksSpeak(net, silent) ==>
                && Trusted(schema, net, table, st, me, cap)
                && r != Failure(Unstable)
                && (r.Success? ==>
                      && Told(schema, net, table, preds, NetView(net, me, cap), old(st), st, r.value)
                      && CountersExact(schema, net, preds, st, me, cap)
                      && st.epochLen == EndOf(net, EpochChain) && st.regLen == EndOf(net, RegistryChain))
      ensures Trusted(schema, net, table, old(st), me, cap) && silent == {} && KnownFields(schema, preds) ==> r.Success?
      ensures SystemStill(net, old(st)) && LinksSpeak(net, silent) ==>
                && st == old(st).(chains := st.chains, remote := st.remote, tombCounts := st.tombCounts,
                                  tombRids := st.tombRids)
                && (st == old(st) || TombsMoved(net, old(st), st, me))
                && (silent == {} && KnownFields(schema, preds) ==> r.Success?)
                && forall v :: KeptAnswer(schema, net, table, preds, old(st), st, me, r, v)
    {
      hide Kept, KeptAnswer, Told, CountersExact, AllHeard, Touched, KnownCounts, Reliable, MarksOf, NamesOf, DenseTo,
           TrueEpochs, TrueReaders, TombsMoved, ExactWhereHeard;
      if exists p :: p in preds && p.field !in schema {
        KeptOnFailure(schema, net, table, preds, st, me, UnknownField);
        return Failure(UnknownField);
      }
      ghost var start := st;
      if Synced(net, st) {
        SystemCurrent(net, st, me, cap);
      }
      var o;
      ghost var unheard;
      o, unheard := QueryOnce(net, preds, silent, table);
      if LinksSpeak(net, silent) {
        SpeakingIsHeard(net, silent, KnownCounts(start, me, Touched(schema, preds, start, me)), unheard);
        KeptIsAnswer(schema, net, table, preds, start, st, me, o);
      }
      if o.Stale? {
        var ok := Refresh(net, silent, table, cap);
        if !ok {
          return Failure(Unresolved(silent));
        }
        if Synced(net, st) {
          SystemCurrent(net, st, me, cap);
          EndIsLast(net, EpochChain);
          EndIsLast(net, RegistryChain);
        }
        ghost var again := st;
        o, unheard := QueryOnce(net, preds, silent, table);
        if o.Stale? {
          return Failure(Unstable);
        }
        if Trusted(schema, net, table, again, me, cap) && LinksSpeak(net, silent) {
          SpeakingIsHeard(net, silent, KnownCounts(again, me, Touched(schema, preds, again, me)), unheard);
          KeptTrusted(schema, net, table, preds, again, st, me, cap, o);
          if o.Rows? {
            ToldBefore(schema, net, table, preds, NetView(net, me, cap), start, again, st, o.rows);
          }
        }
      } else if Trusted(schema, net, table, start, me, cap) && LinksSpeak(net, silent) {
        KeptTrusted(schema, net, table, preds, start, st, me, cap, o);
      }
      return OutcomeOf(o);
    }
  }

  /** Only the tombstones seen before matter to what rows are worth. */
  lemma ToldBefore(schema: Schema, net: Net, table: Table, preds: seq<Predicate>, v: View, before: State,
                   before': State, after: State, rows: map<Rid, Record>)
    requires KnownFields(schema, preds) && before.tombRids == before'.tombRids
    ensures Told(schema, net, table, preds, v, before', after, rows) ==>
              Told(schema, net, table, preds, v, before, after, rows)
  {
  }

  lemma NoneUnread(net: Net, at: (nat, int))
    ensures MarksWithin(net, {}, at)
  {
  }

  lemma NoneUnnamed(net: Net, writers: seq<Writer>)
    ensures NamesWithin(net, {}, writers)
  {
  }

  lemma AbsentIsWithin(net: Net, bad: set<Key>, at: (nat, int), writers: seq<Writer>)
    ensures (forall k :: k in bad ==> k !in net) ==> MarksWithin(net, bad, at) && NamesWithin(net, bad, writers)
  {
  }

  lemma HeardSystem(net: Net, known: map<Chain, nat>, unheard: set<Key>, st: State)
    requires AllHeard(net, known, unheard) && EpochChain in known && RegistryChain in known
    requires known[EpochChain] == st.epochLen && known[RegistryChain] == st.regLen
    requires forall c :: c in {EpochChain, RegistryChain} && Link(c, known[c] + 1) in net ==>
               Missed(net, known, unheard, c)
    ensures SystemStill(net, st)
  {
  }

  lemma TrustedParts(schema: Schema, net: Net, table: Table, st: State, me: Writer, cap: Lengths)
    requires Trusted(schema, net, table, st, me, cap)
    ensures CountedWithin(st, me, cap) && TombsSeen(net, st, table)
  {
  }

  /** The outcome of a query under a view the caches were reliable under. */
  ghost predicate KeptAnswer(schema: Schema, net: Net, table: Table, preds: seq<Predicate>, before: State, after: State,
                             me: Writer,
                             r: Result<map<Rid, Record>, QueryError>, v: View)
    requires ValidSchema(schema)
  {
    Reliable(schema, net, table, before, me, v) ==>
      && Reliable(schema, net, table, after, me, v)
      && (r.Success? ==> KnownFields(schema, preds) && Told(schema, net, table, preds, v, before, after, r.value))
  }

  lemma KeptOnFailure(schema: Schema, net: Net, table: Table, preds: seq<Predicate>, st: State, me: Writer,
                      e: QueryError)
    requires ValidSchema(schema)
    ensures forall v :: KeptAnswer(schema, net, table, preds, st, st, me, Failure(e), v)
  {
  }

  function OutcomeOf(o: Outcome): Result<map<Rid, Record>, QueryError> {
    match o
    case Rows(rows) => Success(rows)
    case NotAnswered(keys) => Failure(Unresolved(keys))
    case Stale => Failure(Unstable)
  }

  lemma KeptIsAnswer(schema: Schema, net: Net, table: Table, preds: seq<Predicate>, before: State, after: State,
                     me: Writer, o: Outcome)
    requires ValidSchema(schema) && KnownFields(schema, preds)
    requires forall v :: Kept(schema, net, table, preds, before, after, me, o, v)
    ensures forall v :: KeptAnswer(schema, net, table, preds, before, after, me, OutcomeOf(o), v)
  {
    hide Reliable, Told, CountersExact;
    forall v: View ensures KeptAnswer(schema, net, table, preds, before, after, me, OutcomeOf(o), v) {
      assert Kept(schema, net, table, preds, before, after, me, o, v);
    }
  }

  /** On the network itself: trust is kept, and rows are what they should be. */
  lemma KeptTrusted(schema: Schema, net: Net, table: Table, preds: seq<Predicate>, before: State, after: State,
                    me: Writer, cap: Lengths, o: Outcome)
    requires ValidSchema(schema) && KnownFields(schema, preds) && Trusted(schema, net, table, before, me, cap)
    requires after == before.(chains := after.chains, remote := after.remote, tombCounts := after.tombCounts,
                              tombRids := after.tombRids)
    requires forall v :: Kept(schema, net, table, preds, before, after, me, o, v)
    ensures Trusted(schema, net, table, after, me, cap)
    ensures o.Rows? ==>
              Told(schema, net, table, preds, NetView(net, me, cap), before, after, o.rows)
              && CountersExact(schema, net, preds, after, me, cap)
  {
    hide Reliable, Told, CountersExact, MarksOf, NamesOf, Dense, TrueEpochs, TrueReaders;
    assert Kept(schema, net, table, preds, before, after, me, o, NetView(net, me, cap));
  }
}
