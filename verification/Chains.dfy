/** Keys of the network, honest reads of it, and the search for the end of an append-only chain
    (Owner._mget and Owner._discover_ends in blindrange/client.py).

    The PRFs that turn these keys into bytes are injective, so a key here is the tuple it is derived
    from; XOR masks and ciphertexts are already taken off the values. */
module Chains {
  import opened Basics
  import Dyadic

  type Field = string
  type Writer = nat
  type Rid = nat

  /** A record after encoding: the integer each of its fields is indexed under. */
  type Record = map<Field, int>

  /** Label of a chain: the reserved tombstone label, or one interval of a field's tree. */
  datatype ChainLabel = Tomb | Of(field: Field, node: Dyadic.Label)

  /** One append-only chain: a label's entries by one writer in one epoch, or a system chain. */
  datatype Chain =
    | Index(w: ChainLabel, epoch: nat, writer: Writer)
    | EpochChain
    | RegistryChain

  datatype Key =
    | Link(chain: Chain, i: nat)
    | Rec(rid: Rid)

  datatype Item =
    | Entry(rid: Rid)
    | Blob(rec: Record)
    | Opened(epoch: nat)
    | Sealed(epoch: nat)
    | Name(writer: Writer)

  type Net = map<Key, Item>

  // ------------------------------------------------------------ honest reads

  /** A read never invents, and a key it does not return is absent unless it is reported unresolved. */
  ghost predicate HonestRead(net: Net, keys: set<Key>, got: Net, unresolved: set<Key>) {
    && got.Keys <= keys
    && (forall k :: k in got ==> k in net && got[k] == net[k])
    && (forall k :: k in keys && k in net ==> k in got || k in unresolved)
  }

  /** One batched lookup. Any of the keys in silent may go unanswered; which of them do is not known. */
  method MGet(net: Net, keys: set<Key>, silent: set<Key>) returns (got: Net, unresolved: set<Key>)
    ensures HonestRead(net, keys, got, unresolved) && got.Keys !! unresolved
    ensures unresolved <= silent * keys
  {
    var muted: set<Key> := *;
    got := map k | k in keys && k in net && !(k in silent && k in muted) :: net[k];
    unresolved := set k | k in keys && k in silent && k in muted;
  }

  // ------------------------------------------------------------ chains

  /** Exactly the slots 1 to end are filled. */
  ghost predicate DenseTo(net: Net, c: Chain, end: nat) {
    forall i: nat :: Link(c, i) in net <==> 1 <= i <= end
  }

  ghost predicate Dense(net: Net, c: Chain) {
    exists end: nat :: DenseTo(net, c, end)
  }

  /** A place where the chain stops: nothing in the next slot, something in this one unless it was only believed. */
  ghost predicate StopsAt(net: Net, c: Chain, known: nat, end: nat) {
    && known <= end
    && (end == known || Link(c, end) in net)
    && Link(c, end + 1) !in net
  }

  /** On a dense chain, believed no longer than it is, the only place to stop is its end. */
  lemma StopOfDense(net: Net, c: Chain, known: nat, end: nat, stop: nat)
    requires DenseTo(net, c, end) && known <= end && StopsAt(net, c, known, stop)
    ensures stop == end
  {
    assert Link(c, stop + 1) in net <==> stop + 1 <= end;
  }

  ghost function EndOf(net: Net, c: Chain): (end: nat)
    requires Dense(net, c)
    ensures DenseTo(net, c, end)
  {
    var end: nat :| DenseTo(net, c, end);
    end
  }

  // ------------------------------------------------------------ galloping

  /** Search state of one chain: slot lo is filled (or was believed to be), slot hi, once known, is not. */
  datatype Search = Search(lo: nat, hi: Option<nat>, step: nat)

  function ProbeOf(s: Search): nat {
    match s.hi
    case None => s.lo + s.step
    case Some(hi) => (s.lo + hi) / 2
  }

  function Advance(s: Search, hit: bool): Search {
    var p := ProbeOf(s);
    if s.hi.None? && hit then s.(lo := p, step := s.step * 2)
    else if hit then s.(lo := p)
    else s.(hi := Some(p))
  }

  predicate Finished(s: Search) {
    s.hi.Some? && s.hi.value == s.lo + 1
  }

  /** What every unfinished search keeps, whatever the chain looks like. */
  ghost predicate Sound(net: Net, c: Chain, known: nat, s: Search) {
    && known <= s.lo && (s.lo == known || Link(c, s.lo) in net)
    && s.step >= 1
    && match s.hi
       case None => s.step == s.lo - known + 1
       case Some(hi) => s.lo < hi && Link(c, hi) !in net
  }

  lemma SoundStep(net: Net, c: Chain, known: nat, s: Search)
    requires Sound(net, c, known, s) && !Finished(s)
    ensures var s' := Advance(s, Link(c, ProbeOf(s)) in net);
            Sound(net, c, known, s') && (Finished(s') ==> StopsAt(net, c, known, s'.lo))
  {
  }

  /** Largest slot number in use, plus one. */
  ghost function SlotBound(keys: set<Key>): (n: nat)
    ensures forall c, i: nat :: Link(c, i) in keys ==> i < n
  {
    if keys == {} then 0
    else
      var k :| k in keys;
      var rest := SlotBound(keys - {k});
      assert forall c, i: nat :: Link(c, i) in keys ==> Link(c, i) == k || Link(c, i) in keys - {k};
      if k.Link? && k.i >= rest then k.i + 1 else rest
  }

  /** Rounds a sound search can still take when no slot from bound on is filled. */
  ghost function Fuel(known: nat, bound: nat, s: Search): int {
    match s.hi
    case None => 2 * bound + 3 - (s.lo - known)
    case Some(hi) => hi - s.lo
  }

  lemma FuelStep(net: Net, c: Chain, known: nat, bound: nat, s: Search)
    requires Sound(net, c, known, s) && !Finished(s)
    requires forall i: nat :: Link(c, i) in net ==> i < bound
    ensures 1 <= Fuel(known, bound, s)
    ensures Fuel(known, bound, Advance(s, Link(c, ProbeOf(s)) in net)) < Fuel(known, bound, s)
  {
  }

  // How long a search takes on a dense chain.

  /** Floor of the base-2 logarithm. */
  function Log2(n: nat): nat
    requires n >= 1
  {
    if n == 1 then 0 else 1 + Log2(n / 2)
  }

  lemma {:induction false} Log2Bounds(n: nat)
    requires n >= 1
    ensures Pow2(Log2(n)) <= n < 2 * Pow2(Log2(n))
  {
    if n > 1 {
      Log2Bounds(n / 2);
    }
  }

  lemma Log2Unique(n: nat, t: nat)
    requires n >= 1 && Pow2(t) <= n < 2 * Pow2(t)
    ensures Log2(n) == t
  {
    Log2Bounds(n);
    Pow2Unique(Log2(n), t);
  }

  /** Rounds one chain needs: gallop up, then halve down. */
  function Cost(known: nat, end: nat): nat
    requires known <= end
  {
    2 * Log2(end - known + 1) + 1
  }

  /** Where a search on a dense chain stands after so many rounds. */
  ghost predicate Timed(known: nat, end: nat, s: Search, rounds: nat)
    requires known <= end
  {
    var t := Log2(end - known + 1);
    match s.hi
    case None => s.step == Pow2(rounds) && s.lo == known + Pow2(rounds) - 1 && s.lo <= end
    case Some(hi) => t < rounds <= 2 * t + 1 && hi - s.lo == Pow2(2 * t + 1 - rounds) && s.lo <= end < hi
  }

  lemma TimedStep(net: Net, c: Chain, known: nat, end: nat, s: Search, rounds: nat)
    requires DenseTo(net, c, end) && known <= end
    requires Timed(known, end, s, rounds) && !Finished(s)
    ensures Timed(known, end, Advance(s, Link(c, ProbeOf(s)) in net), rounds + 1)
    ensures rounds + 1 <= Cost(known, end)
  {
    var p := ProbeOf(s);
    var gap := end - known + 1;
    Log2Bounds(gap);
    assert Link(c, p) in net <==> 1 <= p <= end;
    if s.hi.None? {
      if p > end {
        Log2Unique(gap, rounds);
      } else if Log2(gap) <= rounds {
        Pow2Monotone(Log2(gap), rounds);
      }
    } else {
      var left := 2 * Log2(gap) + 1 - rounds;
      assert left > 0;
      assert Pow2(left) == 2 * Pow2(left - 1);
    }
  }

  lemma TimedFinish(known: nat, end: nat, s: Search, rounds: nat)
    requires known <= end && Timed(known, end, s, rounds)
    ensures Finished(s) ==> rounds == Cost(known, end)
    ensures !Finished(s) ==> rounds < Cost(known, end)
  {
    var t := Log2(end - known + 1);
    Log2Bounds(end - known + 1);
    match s.hi
    case None =>
      if rounds > t {
        Pow2Monotone(t + 1, rounds);
      }
    case Some(hi) =>
      Pow2Grows(2 * t + 1 - rounds);
  }

  // ------------------------------------------------------------ the batched search

  /** Every chain of the batch is dense and believed no longer than it is. */
  ghost predicate Calm(net: Net, spec: map<Chain, nat>) {
    forall c :: c in spec ==> Dense(net, c) && spec[c] <= EndOf(net, c)
  }

  ghost predicate Searching(net: Net, spec: map<Chain, nat>, state: map<Chain, Search>, rounds: nat, total: nat) {
    forall c :: c in state ==>
      && c in spec && Sound(net, c, spec[c], state[c]) && !Finished(state[c])
      && rounds + Fuel(spec[c], SlotBound(net.Keys), state[c]) <= total
      && (Calm(net, spec) ==> Timed(spec[c], EndOf(net, c), state[c], rounds))
  }

  ghost predicate Found(net: Net, spec: map<Chain, nat>, ends: map<Chain, nat>, rounds: nat) {
    forall c :: c in ends ==>
      && c in spec && StopsAt(net, c, spec[c], ends[c])
      && (Calm(net, spec) ==> Cost(spec[c], EndOf(net, c)) <= rounds)
  }

  /** The batch takes as many rounds as its longest search. */
  ghost predicate RoundsExact(net: Net, spec: map<Chain, nat>, rounds: nat)
    requires Calm(net, spec)
  {
    && (forall c :: c in spec ==> Cost(spec[c], EndOf(net, c)) <= rounds)
    && (if spec == map[] then rounds == 0 else exists c :: c in spec && Cost(spec[c], EndOf(net, c)) == rounds)
  }

  /** One round of one chain. */
  lemma RoundStep(net: Net, spec: map<Chain, nat>, state: map<Chain, Search>, rounds: nat, total: nat, c: Chain)
    requires Searching(net, spec, state, rounds, total) && c in state
    ensures var s := Advance(state[c], Link(c, ProbeOf(state[c])) in net);
            && rounds < total
            && (Finished(s) ==> StopsAt(net, c, spec[c], s.lo))
            && (!Finished(s) ==> Sound(net, c, spec[c], s))
            && rounds + 1 + Fuel(spec[c], SlotBound(net.Keys), s) <= total
            && (Calm(net, spec) ==> Timed(spec[c], EndOf(net, c), s, rounds + 1))
            && (Calm(net, spec) && Finished(s) ==> Cost(spec[c], EndOf(net, c)) == rounds + 1)
  {
    var s := state[c];
    SoundStep(net, c, spec[c], s);
    FuelStep(net, c, spec[c], SlotBound(net.Keys), s);
    if Calm(net, spec) {
      TimedStep(net, c, spec[c], EndOf(net, c), s, rounds);
      TimedFinish(spec[c], EndOf(net, c), Advance(s, Link(c, ProbeOf(s)) in net), rounds + 1);
    }
  }

  /** The loop invariant of the batched search. */
  ghost predicate Partway(net: Net, spec: map<Chain, nat>, state: map<Chain, Search>, ends: map<Chain, nat>,
                          rounds: nat, total: nat)
  {
    && state.Keys + ends.Keys == spec.Keys && state.Keys !! ends.Keys
    && Searching(net, spec, state, rounds, total)
    && Found(net, spec, ends, rounds)
    && (Calm(net, spec) && state == map[] ==> RoundsExact(net, spec, rounds))
  }

  /** All searches of the batch after one answered round. */
  function Stepped(state: map<Chain, Search>, got: set<Key>): map<Chain, Search> {
    map c | c in state :: Advance(state[c], Link(c, ProbeOf(state[c])) in got)
  }

  function Unfinished(next: map<Chain, Search>): map<Chain, Search> {
    map c | c in next && !Finished(next[c]) :: next[c]
  }

  function Settled(next: map<Chain, Search>): map<Chain, nat> {
    map c | c in next && Finished(next[c]) :: next[c].lo
  }

  lemma SearchingRound(net: Net, spec: map<Chain, nat>, state: map<Chain, Search>, rounds: nat, total: nat)
    requires Searching(net, spec, state, rounds, total)
    ensures Searching(net, spec, Unfinished(Stepped(state, net.Keys)), rounds + 1, total)
  {
    forall c | c in Unfinished(Stepped(state, net.Keys)) {
      RoundStep(net, spec, state, rounds, total, c);
    }
  }

  lemma FoundRound(net: Net, spec: map<Chain, nat>, state: map<Chain, Search>, ends: map<Chain, nat>, rounds: nat,
                   total: nat)
    requires Searching(net, spec, state, rounds, total) && Found(net, spec, ends, rounds)
    ensures Found(net, spec, ends + Settled(Stepped(state, net.Keys)), rounds + 1)
  {
    hide Cost, Timed, Sound, Fuel, StopsAt, Advance, ProbeOf, SlotBound, Dense;
    var settled := Settled(Stepped(state, net.Keys));
    forall c | c in settled
      ensures c in spec && StopsAt(net, c, spec[c], settled[c])
      ensures Calm(net, spec) ==> Cost(spec[c], EndOf(net, c)) <= rounds + 1
    {
      RoundStep(net, spec, state, rounds, total, c);
    }
  }

  /** When the last searches finish, the rounds so far are what the longest one needed. */
  lemma LastRound(net: Net, spec: map<Chain, nat>, state: map<Chain, Search>, ends: map<Chain, nat>, rounds: nat,
                  total: nat)
    requires Partway(net, spec, state, ends, rounds, total) && Calm(net, spec)
    requires state != map[] && Unfinished(Stepped(state, net.Keys)) == map[]
    ensures RoundsExact(net, spec, rounds + 1)
  {
    hide Cost, Timed, Sound, Fuel, StopsAt, Advance, ProbeOf, SlotBound, Dense;
    var next := Stepped(state, net.Keys);
    FoundRound(net, spec, state, ends, rounds, total);
    var some :| some in state;
    assert Finished(next[some]) by {
      assert some !in Unfinished(next);
    }
    RoundStep(net, spec, state, rounds, total, some);
    forall c | c in spec ensures Cost(spec[c], EndOf(net, c)) <= rounds + 1 {
      if c in state {
        assert c !in Unfinished(next);
      }
      assert c in ends + Settled(next);
    }
  }

  lemma BatchRound(net: Net, spec: map<Chain, nat>, state: map<Chain, Search>, ends: map<Chain, nat>,
                   rounds: nat, total: nat)
    requires Partway(net, spec, state, ends, rounds, total) && state != map[]
    ensures rounds < total
    ensures var next := Stepped(state, net.Keys);
            Partway(net, spec, Unfinished(next), ends + Settled(next), rounds + 1, total)
  {
    hide Searching, Found, RoundsExact, Calm;
    var next := Stepped(state, net.Keys);
    var some :| some in state;
    RoundStep(net, spec, state, rounds, total, some);
    SearchingRound(net, spec, state, rounds, total);
    FoundRound(net, spec, state, ends, rounds, total);
    if Calm(net, spec) && Unfinished(next) == map[] {
      LastRound(net, spec, state, ends, rounds, total);
    }
  }

  // Which slots a search asks for.

  /** Where the search of a chain stands after so many answered rounds. */
  ghost function SearchAt(net: Net, c: Chain, known: nat, rounds: nat): Search {
    if rounds == 0 then Search(known, None, 1)
    else Advance(SearchAt(net, c, known, rounds - 1), Link(c, ProbeOf(SearchAt(net, c, known, rounds - 1))) in net)
  }

  ghost predicate OnCourse(net: Net, spec: map<Chain, nat>, state: map<Chain, Search>, rounds: nat) {
    forall c :: c in state ==> c in spec && state[c] == SearchAt(net, c, spec[c], rounds) && !Finished(state[c])
  }

  lemma CourseRound(net: Net, spec: map<Chain, nat>, state: map<Chain, Search>, rounds: nat)
    requires OnCourse(net, spec, state, rounds)
    ensures OnCourse(net, spec, Unfinished(Stepped(state, net.Keys)), rounds + 1)
  {
  }

  lemma StartCourse(net: Net, spec: map<Chain, nat>)
    ensures OnCourse(net, spec, map c | c in spec :: Search(spec[c], None, 1), 0)
  {
  }

  /** The slot asked for in a round, while the search is unfinished. */
  ghost predicate SearchAsks(net: Net, spec: map<Chain, nat>, k: Key) {
    exists rounds: nat :: SearchAsksIn(net, spec, k, rounds)
  }

  ghost predicate SearchAsksIn(net: Net, spec: map<Chain, nat>, k: Key, rounds: nat) {
    && k.Link? && k.chain in spec && !Finished(SearchAt(net, k.chain, spec[k.chain], rounds))
    && k == Link(k.chain, ProbeOf(SearchAt(net, k.chain, spec[k.chain], rounds)))
  }

  lemma FailedProbes(net: Net, spec: map<Chain, nat>, state: map<Chain, Search>, rounds: nat, keys: set<Key>,
                     bad: set<Key>)
    requires OnCourse(net, spec, state, rounds)
    requires keys == set c | c in state :: Link(c, ProbeOf(state[c]))
    requires bad <= keys
    ensures forall k :: k in bad ==> SearchAsks(net, spec, k)
  {
    forall k | k in bad ensures SearchAsks(net, spec, k) {
      assert SearchAsksIn(net, spec, k, rounds);
    }
  }

  lemma StartState(net: Net, spec: map<Chain, nat>)
    ensures Partway(net, spec, map c | c in spec :: Search(spec[c], None, 1), map[], 0, 3 * SlotBound(net.Keys) + 3)
  {
  }

  /** Batched galloping search for the ends of append-only chains. A probe nobody answered fails the whole search, and
      nothing else does; otherwise every chain gets a place where it stops, which on a dense chain is its end. */
  method DiscoverEnds(net: Net, spec: map<Chain, nat>, silent: set<Key>)
    returns (r: Result<map<Chain, nat>, set<Key>>, rounds: nat)
    ensures silent == {} ==> r.Success?
    ensures r.Failure? ==> r.error != {} && r.error <= silent && forall k :: k in r.error ==> SearchAsks(net, spec, k)
    ensures r.Success? ==> r.value.Keys == spec.Keys
    ensures r.Success? ==> forall c :: c in spec ==> StopsAt(net, c, spec[c], r.value[c])
    ensures r.Success? && Calm(net, spec) ==> forall c :: c in spec ==> r.value[c] == EndOf(net, c)
    ensures r.Success? && Calm(net, spec) ==> RoundsExact(net, spec, rounds)
  {
    hide Partway, OnCourse, SearchAsks, Stepped, Unfinished, Settled, ProbeOf, StopsAt, RoundsExact, Calm;
    var state := map c | c in spec :: Search(spec[c], None, 1);
    var ends: map<Chain, nat> := map[];
    rounds := 0;
    ghost var total := 3 * SlotBound(net.Keys) + 3;
    StartState(net, spec);
    StartCourse(net, spec);
    while state != map[]
      invariant Partway(net, spec, state, ends, rounds, total)
      invariant OnCourse(net, spec, state, rounds)
      decreases total - rounds
    {
      var keys := set c | c in state :: Link(c, ProbeOf(state[c]));
      var got, bad := MGet(net, keys, silent);
      if bad != {} {
        FailedProbes(net, spec, state, rounds, keys, bad);
        return Failure(bad), rounds;
      }
      AnsweredStep(net, state, keys, got);
      BatchRound(net, spec, state, ends, rounds, total);
      CourseRound(net, spec, state, rounds);
      var next := Stepped(state, got.Keys);
      ends := ends + Settled(next);
      state := Unfinished(next);
      rounds := rounds + 1;
    }
    SearchResult(net, spec, ends, rounds, total);
    r := Success(ends);
  }

  /** A fully answered round tells presence from absence. */
  lemma AnsweredStep(net: Net, state: map<Chain, Search>, keys: set<Key>, got: Net)
    requires keys == set c | c in state :: Link(c, ProbeOf(state[c]))
    requires HonestRead(net, keys, got, {})
    ensures Stepped(state, got.Keys) == Stepped(state, net.Keys)
  {
    forall c | c in state
      ensures Link(c, ProbeOf(state[c])) in got <==> Link(c, ProbeOf(state[c])) in net
    {
      assert Link(c, ProbeOf(state[c])) in keys;
    }
  }

  lemma SearchResult(net: Net, spec: map<Chain, nat>, ends: map<Chain, nat>, rounds: nat, total: nat)
    requires Partway(net, spec, map[], ends, rounds, total)
    ensures ends.Keys == spec.Keys
    ensures forall c :: c in spec ==> StopsAt(net, c, spec[c], ends[c])
    ensures Calm(net, spec) ==> forall c :: c in spec ==> ends[c] == EndOf(net, c)
    ensures Calm(net, spec) ==> RoundsExact(net, spec, rounds)
  {
    if Calm(net, spec) {
      forall c | c in spec ensures ends[c] == EndOf(net, c) {
        StopOfDense(net, c, spec[c], EndOf(net, c), ends[c]);
      }
    }
  }
}
