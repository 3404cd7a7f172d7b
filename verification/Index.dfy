/** What the network holds for one database, and when it tells the truth about it.

    The specification is a plain table of records and the set of deleted ids. The network holds, per
    label, epoch and writer, a chain of record ids, tombstone chains, and the records themselves. */
module Index {
  import opened Basics
  import opened Chains
  import Dyadic

  /** How a field is indexed: width of its domain, depth of its tree, and for text its length in characters. */
  datatype FieldSpec = FieldSpec(bits: nat, mlvl: nat, chars: nat)

  type Schema = map<Field, FieldSpec>

  ghost predicate ValidSchema(schema: Schema) {
    forall f :: f in schema ==> 1 <= schema[f].mlvl <= schema[f].bits
  }

  /** The plain table the index stands for. */
  datatype Table = Table(inserted: map<Rid, Record>, deleted: set<Rid>) {
    predicate Live(r: Rid) {
      r in inserted && r !in deleted
    }
  }

  /** Labels a record is appended under: every level of every indexed field it carries. */
  ghost predicate Labelled(schema: Schema, rec: Record, w: ChainLabel) {
    && w.Of? && w.field in schema && w.field in rec
    && schema[w.field].mlvl <= schema[w.field].bits
    && w.node in Dyadic.LevelsFor(rec[w.field], schema[w.field].bits, schema[w.field].mlvl)
  }

  // ------------------------------------------------------------ queries

  datatype Predicate =
    | Between(field: Field, lo: int, hi: int)
    | StartsWith(field: Field, prefix: string)

  function BoundsOf(schema: Schema, p: Predicate): (int, int)
    requires p.field in schema
  {
    match p
    case Between(_, lo, hi) => (lo, hi)
    case StartsWith(_, prefix) => Dyadic.PrefixBounds(prefix, schema[p.field].chars)
  }

  /** A record satisfies a predicate: its value is inside the range, and inside the field's domain, outside
      of which nothing is ever found. */
  ghost predicate Satisfies(schema: Schema, rec: Record, p: Predicate)
    requires p.field in schema
  {
    var (a, b) := BoundsOf(schema, p);
    p.field in rec && a <= rec[p.field] <= b && Dyadic.InDomain(schema[p.field].bits, rec[p.field])
  }

  /** In terms of the values themselves: a range asks for a value between its ends, and a prefix for a text with the
      same letters, as far as characters are stored. */
  lemma SatisfiesMeans(schema: Schema, rec: Record, f: Field, lo: int, hi: int, text: string, prefix: string)
    requires f in schema
    ensures Satisfies(schema, rec, Between(f, lo, hi)) <==>
              f in rec && lo <= rec[f] <= hi && 0 <= rec[f] < Pow2(schema[f].bits)
    ensures f in rec && rec[f] == Dyadic.Encoded(text, schema[f].chars) && schema[f].bits == 5 * schema[f].chars ==>
              (Satisfies(schema, rec, StartsWith(f, prefix)) <==>
               forall k :: 0 <= k < |prefix| && k < schema[f].chars ==>
                 Dyadic.CodeAt(text, k) == Dyadic.Char5(prefix[k]))
  {
    Dyadic.PrefixRangeExact(text, prefix, schema[f].chars);
    Dyadic.EncodedInDomain(text, schema[f].chars);
  }

  ghost predicate KnownFields(schema: Schema, preds: seq<Predicate>) {
    forall p :: p in preds ==> p.field in schema
  }

  ghost predicate SatisfiesAll(schema: Schema, rec: Record, preds: seq<Predicate>)
    requires KnownFields(schema, preds)
  {
    preds != [] && forall p :: p in preds ==> Satisfies(schema, rec, p)
  }

  /** What a query must return: the live records satisfying every predicate; none when there is no predicate. */
  ghost predicate Answer(schema: Schema, table: Table, preds: seq<Predicate>, rows: map<Rid, Record>)
    requires KnownFields(schema, preds)
  {
    && (forall r :: r in rows <==> table.Live(r) && SatisfiesAll(schema, table.inserted[r], preds))
    && (forall r :: r in rows && r in table.inserted ==> rows[r] == table.inserted[r])
  }

  /** The answer, but for deleted records that may have come along. */
  ghost predicate Nearly(schema: Schema, table: Table, preds: seq<Predicate>, rows: map<Rid, Record>)
    requires KnownFields(schema, preds)
  {
    && (forall r :: r in rows ==>
        r in table.inserted && rows[r] == table.inserted[r] && SatisfiesAll(schema, table.inserted[r], preds))
    && (forall r :: table.Live(r) && SatisfiesAll(schema, table.inserted[r], preds) ==> r in rows)
  }

  /** What comes near is the answer if and only if nothing deleted came along. */
  lemma NearlyIsAnswer(schema: Schema, table: Table, preds: seq<Predicate>, rows: map<Rid, Record>)
    requires KnownFields(schema, preds) && Nearly(schema, table, preds, rows)
    ensures Answer(schema, table, preds, rows) <==> forall r :: r in rows ==> r !in table.deleted
  {
    hide SatisfiesAll;
  }

  // ------------------------------------------------------------ truthfulness

  /** The chains a reader of these epochs and writers walks for a label. */
  ghost predicate OnWalk(c: Chain, eps: set<nat>, ws: set<Writer>) {
    c.Index? && c.epoch in eps && c.writer in ws
  }

  /** A length for every chain. */
  type Lengths = Chain -> nat

  /** What a reader goes by: the epochs and writers it walks, how far it has counted each chain at least, and how far
      each chain has ever been filled. */
  datatype View = View(eps: set<nat>, ws: set<Writer>, low: Lengths, cap: Lengths)

  function Uncounted(): Lengths {
    (c: Chain) => 0
  }

  /** No gap between two slots. */
  ghost predicate Unbroken(net: Net, c: Chain, lo: nat, hi: nat) {
    forall j: nat :: lo < j <= hi ==> Link(c, j) in net
  }

  /** A slot of a chain some reader walks. */
  ghost predicate Names(net: Net, eps: set<nat>, ws: set<Writer>, c: Chain, i: nat, r: Rid) {
    Link(c, i) in net && net[Link(c, i)] == Entry(r) && OnWalk(c, eps, ws)
  }

  /** An entry a reader is sure to find: it has counted it, or no gap lies between what it has counted and the entry. */
  ghost predicate Listed(net: Net, v: View, w: ChainLabel, r: Rid) {
    exists c: Chain, i: nat :: Names(net, v.eps, v.ws, c, i, r) && c.w == w && Unbroken(net, c, v.low(c), i)
  }

  /** A label a query can ask for: it lies inside the field's domain. */
  ghost predicate Findable(schema: Schema, rec: Record, w: ChainLabel) {
    Labelled(schema, rec, w) && Dyadic.InDomain(schema[w.field].bits, rec[w.field])
  }

  /** Ciphertexts are the inserted records. */
  ghost predicate BlobsGenuine(net: Net, table: Table) {
    forall r :: Rec(r) in net ==> r in table.inserted && net[Rec(r)] == Blob(table.inserted[r])
  }

  /** ... and every live record has one. */
  ghost predicate BlobsTrue(net: Net, table: Table) {
    BlobsGenuine(net, table) && forall r :: table.Live(r) ==> Rec(r) in net
  }

  /** Every live record a query can find has its ciphertext. */
  ghost predicate BlobsServe(schema: Schema, net: Net, table: Table) {
    forall r, w :: table.Live(r) && Findable(schema, table.inserted[r], w) ==> Rec(r) in net
  }

  /** An index entry names a record that carries the label; a tombstone names a deleted record. */
  ghost predicate EntryTrue(schema: Schema, table: Table, w: ChainLabel, r: Rid) {
    if w == Tomb then r in table.deleted else r in table.inserted && Labelled(schema, table.inserted[r], w)
  }

  ghost predicate EntriesTrue(schema: Schema, net: Net, table: Table, eps: set<nat>) {
    forall c: Chain, i: nat :: Link(c, i) in net && c.Index? && c.epoch in eps ==>
      net[Link(c, i)].Entry? && EntryTrue(schema, table, c.w, net[Link(c, i)].rid)
  }

  /** Every live record is listed under each of its labels. */
  ghost predicate LiveListed(schema: Schema, net: Net, table: Table, v: View) {
    forall r, w :: table.Live(r) && Findable(schema, table.inserted[r], w) ==> Listed(net, v, w, r)
  }

  /** A deleted record a reader can still come upon: its ciphertext is around, and so is an entry under a label some
      query asks for. */
  ghost predicate Shown(schema: Schema, net: Net, table: Table, eps: set<nat>, ws: set<Writer>, r: Rid) {
    && r in table.deleted && r in table.inserted && Rec(r) in net
    && exists c: Chain, i: nat :: Names(net, eps, ws, c, i, r) && Findable(schema, table.inserted[r], c.w)
  }

  /** Every such record has a tombstone the reader is sure to find or has seen. */
  ghost predicate DeadHidden(schema: Schema, net: Net, table: Table, v: View, seen: set<Rid>) {
    forall r :: Shown(schema, net, table, v.eps, v.ws, r) ==> r in seen || Listed(net, v, Tomb, r)
  }

  /** No chain is filled beyond its length. */
  ghost predicate Capped(net: Net, cap: Lengths) {
    forall c: Chain, i: nat :: Link(c, i) in net && c.Index? ==> 1 <= i <= cap(c)
  }

  /** The store tells the truth about the table, and all of it that is live. Nothing is said of deleted records. */
  ghost predicate Faithful(schema: Schema, net: Net, table: Table, v: View) {
    && Capped(net, v.cap)
    && BlobsGenuine(net, table) && BlobsServe(schema, net, table)
    && EntriesTrue(schema, net, table, v.eps)
    && LiveListed(schema, net, table, v)
  }

  // ------------------------------------------------------------ what a walk reads

  /** Walking chains up to where they stop: the ids found under a set of chains. */
  function Rids(got: Net, chains: set<Chain>, ends: map<Chain, nat>): set<Rid> {
    set k | k in got && k.Link? && k.chain in chains && k.chain in ends && 1 <= k.i <= ends[k.chain]
            && got[k].Entry? :: got[k].rid
  }

  /** Chains a predicate's cover selects. */
  function LabelChains(schema: Schema, p: Predicate, eps: set<nat>, ws: set<Writer>): set<Chain>
    requires p.field in schema && schema[p.field].mlvl <= schema[p.field].bits
  {
    var (a, b) := BoundsOf(schema, p);
    var cover := Dyadic.Cover(a, b, schema[p.field].bits, schema[p.field].mlvl);
    set d, ep, u | d in cover && ep in eps && u in ws :: Index(Of(p.field, d), ep, u)
  }

  function TombChains(eps: set<nat>, ws: set<Writer>): set<Chain> {
    set ep, u | ep in eps && u in ws :: Index(Tomb, ep, u)
  }

  /** All slots of the chains up to their stops have been read. */
  ghost predicate ReadUpTo(net: Net, got: Net, chains: set<Chain>, ends: map<Chain, nat>) {
    && (forall k :: k in got ==> k in net && got[k] == net[k])
    && (forall c, i: nat :: c in chains && c in ends && 1 <= i <= ends[c] && Link(c, i) in net ==> Link(c, i) in got)
  }

  /** A walk does not stop before what it can reach without a gap. */
  lemma StopsPast(net: Net, c: Chain, lo: nat, i: nat, known: nat, end: nat)
    requires Unbroken(net, c, lo, i) && lo <= known && StopsAt(net, c, known, end)
    ensures i <= end
  {
  }

  /** A listed id is found: a walk that starts from a count before it cannot stop before it. */
  lemma ListedFound(net: Net, got: Net, chains: set<Chain>, known: map<Chain, nat>, ends: map<Chain, nat>,
                    c: Chain, i: nat, r: Rid, lo: nat)
    requires ReadUpTo(net, got, chains, ends)
    requires c in chains && c in ends && c in known && StopsAt(net, c, known[c], ends[c])
    requires i >= 1 && Link(c, i) in net && net[Link(c, i)] == Entry(r) && Unbroken(net, c, lo, i) && lo <= known[c]
    ensures i <= ends[c] && r in Rids(got, chains, ends)
  {
    StopsPast(net, c, lo, i, known[c], ends[c]);
    assert Link(c, i) in got && got[Link(c, i)] == Entry(r);
  }

  /** A live record satisfying a predicate is labelled with an interval of the predicate's cover. */
  lemma SatisfierLabelled(schema: Schema, rec: Record, p: Predicate) returns (d: Dyadic.Label)
    requires ValidSchema(schema) && p.field in schema && Satisfies(schema, rec, p)
    ensures var (a, b) := BoundsOf(schema, p);
            d in Dyadic.Cover(a, b, schema[p.field].bits, schema[p.field].mlvl)
    ensures Findable(schema, rec, Of(p.field, d))
  {
    var s := schema[p.field];
    var (a, b) := BoundsOf(schema, p);
    var v := rec[p.field];
    Dyadic.IndexOfValue(s.bits, s.mlvl, v);
    assert Dyadic.InHull(a, b, s.bits, s.mlvl, v);
    Dyadic.SharesOneLabel(v, a, b, s.bits, s.mlvl);
    var shared := Dyadic.Shared(v, a, b, s.bits, s.mlvl);
    assert shared != {};
    d :| d in shared;
  }

  /** Only records inside the field's domain carry a label of a cover. */
  lemma LabelledInDomain(schema: Schema, rec: Record, p: Predicate, d: Dyadic.Label)
    requires ValidSchema(schema) && p.field in schema
    requires var (a, b) := BoundsOf(schema, p);
             d in Dyadic.Cover(a, b, schema[p.field].bits, schema[p.field].mlvl)
    requires Labelled(schema, rec, Of(p.field, d))
    ensures p.field in rec && Dyadic.InDomain(schema[p.field].bits, rec[p.field])
  {
    var s := schema[p.field];
    var (a, b) := BoundsOf(schema, p);
    Dyadic.SharesOneLabel(rec[p.field], a, b, s.bits, s.mlvl);
    assert d in Dyadic.Shared(rec[p.field], a, b, s.bits, s.mlvl);
  }

  /** Some interval of the predicate's cover is one the record is listed under. */
  ghost predicate Reachable(schema: Schema, rec: Record, p: Predicate)
    requires ValidSchema(schema) && p.field in schema
  {
    var (a, b) := BoundsOf(schema, p);
    exists d ::
        d in Dyadic.Cover(a, b, schema[p.field].bits, schema[p.field].mlvl) && Labelled(schema, rec, Of(p.field, d))
  }

  /** A record with a value in the range asked for can be come upon if and only if the value is in the field's domain.
      */
  lemma ReachableIff(schema: Schema, rec: Record, p: Predicate)
    requires ValidSchema(schema) && p.field in schema && p.field in rec
    requires var (a, b) := BoundsOf(schema, p); a <= rec[p.field] <= b
    ensures Reachable(schema, rec, p) <==> Dyadic.InDomain(schema[p.field].bits, rec[p.field])
  {
    hide Dyadic.InDomain, ValidSchema;
    var (a, b) := BoundsOf(schema, p);
    if Dyadic.InDomain(schema[p.field].bits, rec[p.field]) {
      var d := SatisfierLabelled(schema, rec, p);
    }
    if Reachable(schema, rec, p) {
      var d :| d in Dyadic.Cover(a, b, schema[p.field].bits, schema[p.field].mlvl)
          && Labelled(schema, rec, Of(p.field, d));
      LabelledInDomain(schema, rec, p, d);
    }
  }
}
