/** Requests that pay concurrently at one node, between key refreshes (TokenGate.check and refresh in
    blindrange/node.py). Each request first verifies its tokens, then spends them one by one; only the single
    spend is atomic. */
module SpendRuns {
  import opened Basics
  import opened SpendLedger
  import BlindToken

  /** A request that has been verified, and how many of its tokens it has spent. */
  datatype Pending = Pending(q: Request, next: nat)

  /** The node: keys it accepts, spent table, requests under way, requests admitted as paid, and the epochs it has
      ever stopped accepting. */
  datatype Node = Node(keys: PublicKeys, spent: map<Ref, Epoch>, pending: map<nat, Pending>, paid: seq<Request>,
                       retired: set<Epoch>)

  ghost predicate Verified(hash: BlindToken.Hash, s: Node, s': Node, id: nat, q: Request)
    requires BlindToken.IsDigest(hash)
  {
    && ValidKeys(s.keys) && id !in s.pending && Payable(hash, s.keys, q)
    && s' == s.(pending := s.pending[id := Pending(q, 0)])
  }

  /** One spend of a request: the next token is recorded, or the request is refused because it had been spent. */
  ghost predicate Spent(s: Node, s': Node, id: nat) {
    && id in s.pending && s.pending[id].next < |s.pending[id].q.tokens|
    && s.pending[id].q.tokens[s.pending[id].next].Dict?
    && var t := s.pending[id].q.tokens[s.pending[id].next].token;
       s' == if RefOf(t) in s.spent then s.(pending := s.pending - {id})
             else s.(spent := s.spent[RefOf(t) := t.kid.epoch],
                     pending := s.pending[id := Pending(s.pending[id].q, s.pending[id].next + 1)])
  }

  ghost predicate Admitted(s: Node, s': Node, id: nat) {
    && id in s.pending && s.pending[id].next == |s.pending[id].q.tokens|
    && s' == s.(pending := s.pending - {id}, paid := s.paid + [s.pending[id].q])
  }

  function RefreshedWith(s: Node, keys: PublicKeys): Node {
    s.(keys := keys, spent := Kept(s.spent, EpochsOf(keys)), retired := s.retired + (EpochsOf(s.keys) - EpochsOf(keys)))
  }

  ghost predicate Refreshed(s: Node, s': Node, keys: PublicKeys) {
    keys != map[] && ValidKeys(keys) && s' == RefreshedWith(s, keys)
  }

  /** A request admitted as paid, or one under way, has spent a ref. */
  ghost predicate PaidWith(s: Node, k: int, r: Ref) {
    0 <= k < |s.paid| && r in Refs(s.paid[k].tokens)
  }

  ghost predicate UnderWay(s: Node, id: nat, r: Ref) {
    id in s.pending && s.pending[id].next <= |s.pending[id].q.tokens| && r in Taken(s.pending[id])
  }

  /** Somebody other than a request under way has spent a ref, and has been admitted or still may be. */
  ghost predicate Owned(s: Node, id: nat, r: Ref) {
    (exists k :: PaidWith(s, k, r)) || exists a :: a != id && UnderWay(s, a, r)
  }

  /** A request under way would get to spend a ref that is somebody else's: nothing it spends before is on record, and
      neither is the ref. */
  ghost predicate Exposed(s: Node, id: nat, i: nat) {
    && id in s.pending && s.pending[id].next <= i < |s.pending[id].q.tokens|
    && (forall j :: s.pending[id].next <= j <= i ==>
        s.pending[id].q.tokens[j].Dict? && RefOf(s.pending[id].q.tokens[j].token) !in s.spent)
    && Owned(s, id, RefOf(s.pending[id].q.tokens[i].token))
  }

  ghost predicate NoneExposed(s: Node) {
    forall id, i :: !Exposed(s, id, i)
  }

  /** No retired epoch comes back, and dropping the records of those that go exposes nothing. */
  ghost predicate Safe(s: Node, keys: PublicKeys) {
    EpochsOf(keys) !! s.retired && NoneExposed(RefreshedWith(s, keys))
  }

  /** All tokens of a list are of these epochs. */
  ghost predicate Current(tokens: seq<Presented>, epochs: set<Epoch>) {
    forall i :: 0 <= i < |tokens| && tokens[i].Dict? ==> tokens[i].token.kid.epoch in epochs
  }

  /** A step that is not a refresh. */
  ghost predicate Onward(hash: BlindToken.Hash, s: Node, s': Node)
    requires BlindToken.IsDigest(hash)
  {
    || (exists id, q :: Verified(hash, s, s', id, q))
    || (exists id :: Spent(s, s', id))
    || (exists id :: Admitted(s, s', id))
  }

  ghost predicate Step(hash: BlindToken.Hash, s: Node, s': Node)
    requires BlindToken.IsDigest(hash)
  {
    Onward(hash, s, s') || exists keys :: Refreshed(s, s', keys) && Safe(s, keys)
  }

  ghost predicate Run(hash: BlindToken.Hash, ss: seq<Node>)
    requires BlindToken.IsDigest(hash)
  {
    && ss != [] && ss[0] == Node(map[], map[], map[], [], {})
    && forall k :: 0 <= k < |ss| - 1 ==> Step(hash, ss[k], ss[k + 1])
  }

  // ------------------------------------------------------------ the invariant

  /** Refs a request under way has spent. */
  function Taken(p: Pending): set<Ref>
    requires p.next <= |p.q.tokens|
  {
    Refs(p.q.tokens[..p.next])
  }

  /** Every request was verified: its tokens are there, distinct, worth enough. */
  ghost predicate Sound(q: Request) {
    AllDicts(q.tokens) && DistinctRefs(q.tokens) && Value(q.tokens) >= q.entries
  }

  ghost predicate PendingSound(s: Node) {
    forall id :: id in s.pending ==>
      Sound(s.pending[id].q) && s.pending[id].next <= |s.pending[id].q.tokens|
      && Current(s.pending[id].q.tokens, EpochsOf(s.keys) + s.retired)
  }

  /** A ref that some request has spent is on record, or of an epoch that is over. */
  ghost predicate OnRecord(s: Node, r: Ref) {
    r in s.spent || r.kid.epoch in s.retired
  }

  ghost predicate Recorded(s: Node) {
    && (forall k, r :: PaidWith(s, k, r) ==> OnRecord(s, r))
    && (forall id, r :: UnderWay(s, id, r) ==> OnRecord(s, r))
  }

  /** Nothing has been spent by two requests. */
  ghost predicate Apart(s: Node) {
    && (forall j, k, r :: PaidWith(s, j, r) && PaidWith(s, k, r) ==> j == k)
    && (forall k, id, r :: PaidWith(s, k, r) ==> !UnderWay(s, id, r))
    && (forall a, b, r :: UnderWay(s, a, r) && UnderWay(s, b, r) ==> a == b)
  }

  ghost predicate Inv(s: Node) {
    && PendingSound(s) && Recorded(s) && Apart(s)
    && (forall k :: 0 <= k < |s.paid| ==> Sound(s.paid[k]))
    && EpochsOf(s.keys) !! s.retired && NoneExposed(s)
    && forall r :: r in s.spent ==>
         s.spent[r] == r.kid.epoch && (r.kid.epoch in EpochsOf(s.keys) || r.kid.epoch in s.retired)
  }

  lemma GenuineEpochs(hash: BlindToken.Hash, keys: PublicKeys, q: Request)
    requires BlindToken.IsDigest(hash) && ValidKeys(keys) && Payable(hash, keys, q)
    ensures Sound(q) && Current(q.tokens, EpochsOf(keys))
  {
    forall i: nat | i < |q.tokens| ensures q.tokens[i].token.kid.epoch in EpochsOf(keys) {
      assert q.tokens[i].token.kid in keys;
    }
  }

  /** Steps that spend nothing keep who has spent what. */
  lemma SameOwners(s: Node, s': Node)
    requires Recorded(s) && Apart(s)
    requires forall k, r :: PaidWith(s', k, r) ==> PaidWith(s, k, r)
    requires forall id, r :: UnderWay(s', id, r) ==> UnderWay(s, id, r)
    requires forall r :: OnRecord(s, r) ==> OnRecord(s', r)
    ensures Recorded(s') && Apart(s')
  {
    hide PaidWith, UnderWay, OnRecord;
  }

  /** A new request's tokens are of current epochs, so what is owned of them is on record. */
  lemma VerifiedHidden(s: Node, s': Node, id: nat, q: Request, a: nat, i: nat)
    requires Recorded(s) && EpochsOf(s.keys) !! s.retired && Sound(q) && Current(q.tokens, EpochsOf(s.keys))
    requires id !in s.pending && s' == s.(pending := s.pending[id := Pending(q, 0)])
    requires forall b, r :: UnderWay(s', b, r) ==> UnderWay(s, b, r)
    ensures Exposed(s', a, i) ==> Exposed(s, a, i)
  {
    hide Refs, EpochsOf, Sound, UnderWay, PaidWith, Owned, Recorded;
    if Exposed(s', a, i) {
      OwnedIsRecorded(s, s', a, RefOf(s'.pending[a].q.tokens[i].token));
    }
  }

  lemma OwnedIsRecorded(s: Node, s': Node, id: nat, r: Ref)
    requires Recorded(s) && Owned(s', id, r) && s'.paid == s.paid
    requires forall a, x :: UnderWay(s', a, x) ==> UnderWay(s, a, x)
    ensures OnRecord(s, r) && Owned(s, id, r)
  {
    hide UnderWay, OnRecord;
    if k :| PaidWith(s', k, r) {
      assert PaidWith(s, k, r);
    } else {
      var a :| a != id && UnderWay(s', a, r);
      assert UnderWay(s, a, r);
    }
  }

  lemma VerifiedKeeps(hash: BlindToken.Hash, s: Node, s': Node, id: nat, q: Request)
    requires BlindToken.IsDigest(hash) && Inv(s) && Verified(hash, s, s', id, q)
    ensures Inv(s')
  {
    hide Sound, Payable, Refs, EpochsOf, Recorded, Apart, Current, NoneExposed, Exposed;
    GenuineEpochs(hash, s.keys, q);
    MoreCurrent(q.tokens, EpochsOf(s.keys), EpochsOf(s.keys) + s.retired);
    assert q.tokens[..0] == [];
    NoRefs();
    SameOwners(s, s');
    forall a, i: nat ensures !Exposed(s', a, i) {
      VerifiedHidden(s, s', id, q, a, i);
      NotExposed(s, a, i);
    }
    AllUnexposed(s');
  }

  lemma NotExposed(s: Node, id: nat, i: nat)
    requires NoneExposed(s)
    ensures !Exposed(s, id, i)
  {
    hide Exposed;
  }

  lemma AllUnexposed(s: Node)
    requires forall id, i: nat :: !Exposed(s, id, i)
    ensures NoneExposed(s)
  {
    hide Exposed;
  }

  lemma NoRefs()
    ensures Refs([]) == {}
  {
  }

  /** A spend that lands takes a ref nobody has taken. */
  lemma SpentOwners(s: Node, s': Node, id: nat, r: Ref)
    requires Recorded(s) && Apart(s) && !Owned(s, id, r)
    requires forall k, x :: PaidWith(s', k, x) <==> PaidWith(s, k, x)
    requires forall a, x :: UnderWay(s', a, x) <==> UnderWay(s, a, x) || (a == id && x == r)
    requires forall x :: OnRecord(s', x) <==> OnRecord(s, x) || x == r
    ensures Recorded(s') && Apart(s')
  {
    hide PaidWith, UnderWay, OnRecord;
  }

  lemma SpentTaken(s: Node, s': Node, id: nat, r: Ref)
    requires PendingSound(s) && Spent(s, s', id) && r !in s.spent
    requires r == RefOf(s.pending[id].q.tokens[s.pending[id].next].token)
    ensures forall a, x :: UnderWay(s', a, x) <==> UnderWay(s, a, x) || (a == id && x == r)
  {
    hide Sound, Refs, EpochsOf, Current;
    var p := s.pending[id];
    RefsStep(p.q.tokens, p.next);
    assert Taken(s'.pending[id]) == Taken(p) + {r};
  }

  /** What is spent is on record, so it exposes nobody else; and the request itself is one token further. */
  lemma SpentHidden(s: Node, s': Node, id: nat, r: Ref, a: nat, i: nat)
    requires Spent(s, s', id) && r !in s.spent && r == RefOf(s.pending[id].q.tokens[s.pending[id].next].token)
    requires forall b, x :: UnderWay(s', b, x) <==> UnderWay(s, b, x) || (b == id && x == r)
    ensures Exposed(s', a, i) ==> Exposed(s, a, i)
  {
    hide Refs, UnderWay, PaidWith, Owned;
    if Exposed(s', a, i) {
      SpentOwned(s, s', id, r, a, RefOf(s'.pending[a].q.tokens[i].token));
    }
  }

  lemma SpentOwned(s: Node, s': Node, id: nat, r: Ref, a: nat, x: Ref)
    requires Owned(s', a, x) && x != r && s'.paid == s.paid
    requires forall b, y :: UnderWay(s', b, y) <==> UnderWay(s, b, y) || (b == id && y == r)
    ensures Owned(s, a, x)
  {
    hide UnderWay;
    if k :| PaidWith(s', k, x) {
      assert PaidWith(s, k, x);
    } else {
      var b :| b != a && UnderWay(s', b, x);
      assert UnderWay(s, b, x);
    }
  }

  /** A request that is refused takes its claims with it. */
  lemma RefusedHidden(s: Node, s': Node, id: nat, a: nat, i: nat)
    requires Recorded(s) && s' == s.(pending := s.pending - {id})
    ensures Exposed(s', a, i) ==> Exposed(s, a, i)
  {
    hide Refs, Owned, Recorded;
    if Exposed(s', a, i) {
      OwnedIsRecorded(s, s', a, RefOf(s'.pending[a].q.tokens[i].token));
    }
  }

  lemma SpentKeeps(s: Node, s': Node, id: nat)
    requires Inv(s) && Spent(s, s', id)
    ensures Inv(s')
  {
    hide Sound, Refs, EpochsOf, Recorded, Apart, Current, Taken, NoneExposed, Exposed, Owned;
    var r := RefOf(s.pending[id].q.tokens[s.pending[id].next].token);
    if r in s.spent {
      SameOwners(s, s');
      forall a, i: nat ensures !Exposed(s', a, i) {
        RefusedHidden(s, s', id, a, i);
        NotExposed(s, a, i);
      }
      AllUnexposed(s');
    } else {
      SpentTaken(s, s', id, r);
      NotExposedNow(s, id, r);
      SpentOwners(s, s', id, r);
      forall a, i: nat ensures !Exposed(s', a, i) {
        SpentHidden(s, s', id, r, a, i);
        NotExposed(s, a, i);
      }
      AllUnexposed(s');
      SpentEpoch(s, id, r);
    }
  }

  lemma SpentEpoch(s: Node, id: nat, r: Ref)
    requires PendingSound(s) && id in s.pending && s.pending[id].next < |s.pending[id].q.tokens|
    requires s.pending[id].q.tokens[s.pending[id].next].Dict?
             && r == RefOf(s.pending[id].q.tokens[s.pending[id].next].token)
    ensures r.kid.epoch in EpochsOf(s.keys) || r.kid.epoch in s.retired
  {
    hide Sound, EpochsOf;
  }

  lemma MoreCurrent(tokens: seq<Presented>, a: set<Epoch>, b: set<Epoch>)
    requires Current(tokens, a) && a <= b
    ensures Current(tokens, b)
  {
  }

  lemma NotExposedNow(s: Node, id: nat, r: Ref)
    requires NoneExposed(s) && id in s.pending && s.pending[id].next < |s.pending[id].q.tokens| && r !in s.spent
    requires s.pending[id].q.tokens[s.pending[id].next].Dict?
             && r == RefOf(s.pending[id].q.tokens[s.pending[id].next].token)
    ensures !Owned(s, id, r)
  {
    hide Owned;
    assert !Exposed(s, id, s.pending[id].next);
  }

  /** A request that is admitted keeps what it has spent. */
  lemma AdmittedHidden(s: Node, s': Node, id: nat, a: nat, i: nat)
    requires s.spent == s'.spent && s'.pending == s.pending - {id}
    requires forall k, r :: PaidWith(s', k, r) <==> PaidWith(s, k, r) || (k == |s.paid| && UnderWay(s, id, r))
    requires forall b, r :: UnderWay(s', b, r) <==> UnderWay(s, b, r) && b != id
    ensures Exposed(s', a, i) ==> Exposed(s, a, i)
  {
    hide PaidWith, UnderWay;
  }

  lemma AdmittedOwners(s: Node, s': Node, id: nat)
    requires Recorded(s) && Apart(s) && s.spent == s'.spent && s.retired == s'.retired
    requires forall k, r :: PaidWith(s', k, r) <==> PaidWith(s, k, r) || (k == |s.paid| && UnderWay(s, id, r))
    requires forall a, r :: UnderWay(s', a, r) <==> UnderWay(s, a, r) && a != id
    requires forall k, r :: PaidWith(s, k, r) ==> k < |s.paid|
    ensures Recorded(s') && Apart(s')
  {
    hide PaidWith, UnderWay;
  }

  lemma AdmittedKeeps(s: Node, s': Node, id: nat)
    requires Inv(s) && Admitted(s, s', id)
    ensures Inv(s')
  {
    hide Sound, Refs, EpochsOf, Recorded, Apart, Current, NoneExposed;
    var q := s.pending[id].q;
    assert q.tokens[..|q.tokens|] == q.tokens;
    assert Taken(s.pending[id]) == Refs(q.tokens);
    AdmittedOwners(s, s', id);
    forall a, i: nat ensures !Exposed(s', a, i) {
      AdmittedHidden(s, s', id, a, i);
      NotExposed(s, a, i);
    }
    AllUnexposed(s');
  }

  lemma RefreshedKeeps(s: Node, s': Node, keys: PublicKeys)
    requires Inv(s) && Refreshed(s, s', keys) && Safe(s, keys)
    ensures Inv(s')
  {
    hide Sound, Refs, EpochsOf, Recorded, Apart, Current, NoneExposed;
    SameOwners(s, s');
    forall id | id in s.pending ensures Current(s.pending[id].q.tokens, EpochsOf(s'.keys) + s'.retired) {
      MoreCurrent(s.pending[id].q.tokens, EpochsOf(s.keys) + s.retired, EpochsOf(s'.keys) + s'.retired);
    }
  }

  lemma {:induction false} RunKeeps(hash: BlindToken.Hash, ss: seq<Node>, k: nat)
    requires BlindToken.IsDigest(hash) && Run(hash, ss) && k < |ss|
    ensures Inv(ss[k])
  {
    if k > 0 {
      RunKeeps(hash, ss, k - 1);
      var s, s' := ss[k - 1], ss[k];
      StepKeeps(hash, s, s');
    }
  }

  lemma OnwardKeeps(hash: BlindToken.Hash, s: Node, s': Node)
    requires BlindToken.IsDigest(hash) && Inv(s) && Onward(hash, s, s')
    ensures Inv(s')
  {
    hide Inv, Verified, Spent, Admitted;
    if id, q :| Verified(hash, s, s', id, q) {
      VerifiedKeeps(hash, s, s', id, q);
    } else if id :| Spent(s, s', id) {
      SpentKeeps(s, s', id);
    } else {
      var id :| Admitted(s, s', id);
      AdmittedKeeps(s, s', id);
    }
  }

  lemma StepKeeps(hash: BlindToken.Hash, s: Node, s': Node)
    requires BlindToken.IsDigest(hash) && Inv(s) && Step(hash, s, s')
    ensures Inv(s')
  {
    hide Inv, Onward, Refreshed, Safe;
    if Onward(hash, s, s') {
      OnwardKeeps(hash, s, s');
    } else {
      var keys :| Refreshed(s, s', keys) && Safe(s, keys);
      RefreshedKeeps(s, s', keys);
    }
  }

  // ------------------------------------------------------------ the ledger

  /** In every run, however requests interleave, a token is accepted in at most one of them. */
  lemma AcceptedOnce(hash: BlindToken.Hash, ss: seq<Node>, k: nat, i: nat, j: nat, r: Ref)
    requires BlindToken.IsDigest(hash) && Run(hash, ss) && k < |ss|
    requires i < |ss[k].paid| && j < |ss[k].paid|
    requires r in Refs(ss[k].paid[i].tokens) && r in Refs(ss[k].paid[j].tokens)
    ensures i == j
  {
    hide Refs;
    RunKeeps(hash, ss, k);
    assert PaidWith(ss[k], i, r) && PaidWith(ss[k], j, r);
  }

  /** Total worth of a set of tokens, each counted once. */
  ghost function SetValue(refs: set<Ref>): int {
    SumOver(refs, (r: Ref) => r.kid.denom)
  }

  lemma {:induction false} ValueOfRefs(tokens: seq<Presented>)
    requires AllDicts(tokens) && DistinctRefs(tokens)
    ensures Value(tokens) == SetValue(Refs(tokens))
  {
    if tokens == [] {
      NoRefs();
    } else {
      var init, last := tokens[..|tokens| - 1], tokens[|tokens| - 1];
      ValueOfRefs(init);
      RefsStep(tokens, |tokens| - 1);
      assert tokens[..|tokens|] == tokens;
      NotAgain(tokens, |tokens| - 1);
      var r := RefOf(last.token);
      SumOverOf(Refs(init) + {r}, (r: Ref) => r.kid.denom, r);
      assert Refs(init) + {r} - {r} == Refs(init);
    }
  }

  /** Keys written as paid. */
  function PaidKeys(paid: seq<Request>): int {
    if paid == [] then 0 else PaidKeys(paid[..|paid| - 1]) + paid[|paid| - 1].entries
  }

  /** Tokens redeemed for them. */
  function Redeemed(paid: seq<Request>): set<Ref> {
    if paid == [] then {} else Redeemed(paid[..|paid| - 1]) + Refs(paid[|paid| - 1].tokens)
  }

  lemma {:induction false} RedeemedHolds(paid: seq<Request>, r: Ref)
    requires r in Redeemed(paid)
    ensures exists k :: 0 <= k < |paid| && r in Refs(paid[k].tokens)
  {
    hide Refs;
    var init := paid[..|paid| - 1];
    if r in Redeemed(init) {
      RedeemedHolds(init, r);
      var k :| 0 <= k < |init| && r in Refs(init[k].tokens);
      assert paid[k] == init[k];
    } else {
      assert r in Refs(paid[|paid| - 1].tokens);
    }
  }

  lemma {:induction false} Conserved(paid: seq<Request>)
    requires forall k :: 0 <= k < |paid| ==> Sound(paid[k])
    requires forall j, k, r :: 0 <= j < k < |paid| && r in Refs(paid[j].tokens) ==> r !in Refs(paid[k].tokens)
    ensures PaidKeys(paid) <= SetValue(Redeemed(paid))
  {
    hide Refs, SetValue;
    if paid == [] {
      assert SetValue({}) == 0 by {
        NothingWorthNothing();
      }
    } else {
      var init, last := paid[..|paid| - 1], paid[|paid| - 1];
      Conserved(init);
      forall r | r in Redeemed(init) ensures r !in Refs(last.tokens) {
        RedeemedHolds(init, r);
        var k :| 0 <= k < |init| && r in Refs(init[k].tokens);
        assert r in Refs(paid[k].tokens);
      }
      WorthAdds(Redeemed(init), Refs(last.tokens));
      ValueOfRefs(last.tokens);
    }
  }

  lemma WorthAdds(a: set<Ref>, b: set<Ref>)
    requires a !! b
    ensures SetValue(a + b) == SetValue(a) + SetValue(b)
  {
    SumOverUnion(a, b, (r: Ref) => r.kid.denom);
  }

  lemma NothingWorthNothing()
    ensures SetValue({}) == 0
  {
  }

  /** In every run the keys admitted as paid never exceed what the tokens redeemed for them are worth, each token
      counted once. */
  lemma NeverUnderpaid(hash: BlindToken.Hash, ss: seq<Node>, k: nat)
    requires BlindToken.IsDigest(hash) && Run(hash, ss) && k < |ss|
    ensures PaidKeys(ss[k].paid) <= SetValue(Redeemed(ss[k].paid))
  {
    hide Refs;
    RunKeeps(hash, ss, k);
    forall i, j, r | 0 <= i < j < |ss[k].paid| && r in Refs(ss[k].paid[i].tokens)
      ensures r !in Refs(ss[k].paid[j].tokens) {
      assert PaidWith(ss[k], i, r);
      assert !PaidWith(ss[k], j, r);
    }
    Conserved(ss[k].paid);
  }

  // ------------------------------------------------------------ what a refresh must not do

  /** What follows a state without another refresh. */
  ghost predicate Continues(hash: BlindToken.Hash, s: Node, ss: seq<Node>)
    requires BlindToken.IsDigest(hash)
  {
    ss != [] && ss[0] == s && forall k :: 0 <= k < |ss| - 1 ==> Onward(hash, ss[k], ss[k + 1])
  }

  lemma {:induction false} ContinuesKeeps(hash: BlindToken.Hash, s: Node, ss: seq<Node>, k: nat)
    requires BlindToken.IsDigest(hash) && Inv(s) && Continues(hash, s, ss) && k < |ss|
    ensures Inv(ss[k])
  {
    hide Inv, Onward;
    if k > 0 {
      ContinuesKeeps(hash, s, ss, k - 1);
      OnwardKeeps(hash, ss[k - 1], ss[k]);
    }
  }

  /** The next spend of a request that is exposed further on. */
  function SpentNext(s: Node, id: nat): Node
    requires id in s.pending && s.pending[id].next < |s.pending[id].q.tokens|
             && s.pending[id].q.tokens[s.pending[id].next].Dict?
  {
    var t := s.pending[id].q.tokens[s.pending[id].next].token;
    s.(spent := s.spent[RefOf(t) := t.kid.epoch],
       pending := s.pending[id := Pending(s.pending[id].q, s.pending[id].next + 1)])
  }

  lemma OthersOwn(s: Node, s': Node, id: nat, r: Ref)
    requires Owned(s, id, r) && s'.paid == s.paid
    requires forall a, x :: a != id && UnderWay(s, a, x) ==> UnderWay(s', a, x)
    ensures Owned(s', id, r)
  {
    hide UnderWay;
    if k :| PaidWith(s, k, r) {
      assert PaidWith(s', k, r);
    } else {
      var a :| a != id && UnderWay(s, a, r);
      assert UnderWay(s', a, r);
    }
  }

  lemma StillExposed(s: Node, id: nat, i: nat)
    requires PendingSound(s) && Exposed(s, id, i) && s.pending[id].next < i
    ensures Exposed(SpentNext(s, id), id, i) && PendingSound(SpentNext(s, id)) && Spent(s, SpentNext(s, id), id)
  {
    hide Owned, Refs, EpochsOf, Current;
    var s' := SpentNext(s, id);
    forall a, x | a != id && UnderWay(s, a, x) ensures UnderWay(s', a, x) {
    }
    OthersOwn(s, s', id, RefOf(s.pending[id].q.tokens[i].token));
  }

  /** A request that is exposed goes on to spend what is somebody else's. */
  lemma {:induction false} ExposedSpends(hash: BlindToken.Hash, s: Node, id: nat, i: nat) returns (ss: seq<Node>)
    requires BlindToken.IsDigest(hash) && PendingSound(s) && Exposed(s, id, i)
    ensures Continues(hash, s, ss) && !Apart(ss[|ss| - 1])
    decreases i - s.pending[id].next
  {
    hide Onward, PendingSound, Apart;
    var s' := SpentNext(s, id);
    if s.pending[id].next < i {
      StillExposed(s, id, i);
      var rest := ExposedSpends(hash, s', id, i);
      ss := [s] + rest;
      SpentIsOnward(hash, s, id);
      forall k | 0 <= k < |ss| - 1 ensures Onward(hash, ss[k], ss[k + 1]) {
        if k > 0 {
          assert Onward(hash, rest[k - 1], rest[k]);
        }
      }
    } else {
      ss := [s, s'];
      SpentIsOnward(hash, s, id);
      SpentTwice(s, id);
    }
  }

  lemma SpentIsOnward(hash: BlindToken.Hash, s: Node, id: nat)
    requires BlindToken.IsDigest(hash) && id in s.pending && s.pending[id].next < |s.pending[id].q.tokens|
    requires s.pending[id].q.tokens[s.pending[id].next].Dict?
             && RefOf(s.pending[id].q.tokens[s.pending[id].next].token) !in s.spent
    ensures Onward(hash, s, SpentNext(s, id))
  {
    assert Spent(s, SpentNext(s, id), id);
  }

  lemma SpentTwice(s: Node, id: nat)
    requires PendingSound(s) && id in s.pending && Exposed(s, id, s.pending[id].next)
    ensures !Apart(SpentNext(s, id))
  {
    hide Refs, EpochsOf, Current, Sound, Owned, Apart;
    var s' := SpentNext(s, id);
    var r := RefOf(s.pending[id].q.tokens[s.pending[id].next].token);
    SpentTaken(s, s', id, r);
    OthersOwn(s, s', id, r);
    TwoOwners(s', id, r);
  }

  lemma TwoOwners(s: Node, id: nat, r: Ref)
    requires Owned(s, id, r) && UnderWay(s, id, r)
    ensures !Apart(s)
  {
    hide UnderWay, PaidWith;
  }

  /** Exactly which refreshes are harmless, as long as no retired epoch comes back: whatever happens next, nothing is
      spent by two requests, if and only if no request under way has a token left, within its reach, whose record the
      refresh drops and which another request has spent. */
  lemma RefreshSafeIff(hash: BlindToken.Hash, s: Node, s': Node, keys: PublicKeys)
    requires BlindToken.IsDigest(hash) && Inv(s) && Refreshed(s, s', keys) && EpochsOf(keys) !! s.retired
    ensures NoneExposed(s') <==> forall ss :: Continues(hash, s', ss) ==> Apart(ss[|ss| - 1])
  {
    hide Apart, Onward, PendingSound, Exposed, EpochsOf, Recorded, Refs;
    if NoneExposed(s') {
      RefreshedKeeps(s, s', keys);
      forall ss | Continues(hash, s', ss) ensures Apart(ss[|ss| - 1]) {
        ContinuesSome(hash, s', ss);
        ContinuesKeeps(hash, s', ss, |ss| - 1);
      }
    } else {
      var id, i: nat :| Exposed(s', id, i);
      RefreshedSound(s, s', keys);
      var ss := ExposedSpends(hash, s', id, i);
    }
  }

  lemma ContinuesSome(hash: BlindToken.Hash, s: Node, ss: seq<Node>)
    requires BlindToken.IsDigest(hash) && Continues(hash, s, ss)
    ensures ss != []
  {
    hide Onward;
  }

  lemma RefreshedSound(s: Node, s': Node, keys: PublicKeys)
    requires PendingSound(s) && Refreshed(s, s', keys)
    ensures PendingSound(s')
  {
    hide Sound, EpochsOf, Current;
    forall id | id in s.pending ensures Current(s.pending[id].q.tokens, EpochsOf(s'.keys) + s'.retired) {
      MoreCurrent(s.pending[id].q.tokens, EpochsOf(s.keys) + s.retired, EpochsOf(s'.keys) + s'.retired);
    }
  }

  /** The node before it has heard of any keys, and with its first keys. */
  lemma FirstKeys(hash: BlindToken.Hash, keys: PublicKeys) returns (ss: seq<Node>)
    requires BlindToken.IsDigest(hash) && ValidKeys(keys) && keys != map[]
    ensures Run(hash, ss) && ss != [] && ss[|ss| - 1] == Node(keys, map[], map[], [], {})
  {
    hide Onward, EpochsOf;
    var s0 := Node(map[], map[], map[], [], {});
    NoKeysNoEpochs();
    assert Kept(map[], EpochsOf(keys)) == map[];
    assert RefreshedWith(s0, keys) == Node(keys, map[], map[], [], {});
    ss := [s0, Node(keys, map[], map[], [], {})];
    assert Refreshed(s0, ss[1], keys) && Safe(s0, keys);
  }

  lemma NoKeysNoEpochs()
    ensures EpochsOf(map[]) == {}
  {
  }

  /** A run in which a payable request is sent twice, both copies have been verified, and one has been spent and
      admitted. */
  lemma OneOfTwo(hash: BlindToken.Hash, keys0: PublicKeys, q: Request, t: Token) returns (ss: seq<Node>)
    requires BlindToken.IsDigest(hash) && ValidKeys(keys0) && Payable(hash, keys0, q) && q.tokens == [Dict(t)]
    ensures Run(hash, ss) && ss != []
    ensures ss[|ss| - 1] == Node(keys0, map[RefOf(t) := t.kid.epoch], map[1 := Pending(q, 0)], [q], {})
  {
    hide Payable, EpochsOf, Onward, Run;
    assert keys0 != map[] by { PayableKeys(hash, keys0, q); }
    ss := FirstKeys(hash, keys0);
    var r, e := RefOf(t), t.kid.epoch;
    var s0 := Node(keys0, map[], map[], [], {});
    var sa := s0.(pending := map[0 := Pending(q, 0)]);
    var sb := s0.(pending := map[0 := Pending(q, 0), 1 := Pending(q, 0)]);
    var s1 := s0.(spent := map[r := e], pending := map[0 := Pending(q, 1), 1 := Pending(q, 0)]);
    var s2 := s0.(spent := map[r := e], pending := map[1 := Pending(q, 0)], paid := [q]);
    assert Verified(hash, s0, sa, 0, q) && Verified(hash, sa, sb, 1, q) && Spent(sb, s1, 0);
    assert s1.pending - {0} == s2.pending && Admitted(s1, s2, 0);
    ss := RunsOn(hash, ss, s0, sa);
    ss := RunsOn(hash, ss, sa, sb);
    ss := RunsOn(hash, ss, sb, s1);
    ss := RunsOn(hash, ss, s1, s2);
  }

  /** A refresh then that retires the token's epoch drops the record, and the other copy is admitted too. */
  lemma RefreshMidRequest(hash: BlindToken.Hash, keys0: PublicKeys, q: Request, t: Token, keys: PublicKeys)
    returns (ss: seq<Node>, s3: Node, s4: Node, s5: Node)
    requires BlindToken.IsDigest(hash) && ValidKeys(keys0) && Payable(hash, keys0, q) && q.tokens == [Dict(t)]
    requires keys != map[] && ValidKeys(keys) && t.kid.epoch !in EpochsOf(keys)
    ensures Run(hash, ss) && ss != [] && Refreshed(ss[|ss| - 1], s3, keys) && Spent(s3, s4, 1) && Admitted(s4, s5, 1)
    ensures s5.paid == [q, q] && !NoneExposed(s3)
  {
    hide Payable, EpochsOf, Onward, Run;
    ss := OneOfTwo(hash, keys0, q, t);
    var r, e := RefOf(t), t.kid.epoch;
    s3 := RefreshedWith(ss[|ss| - 1], keys);
    assert s3.spent == map[];
    s4 := s3.(spent := map[r := e], pending := map[1 := Pending(q, 1)]);
    s5 := s4.(pending := map[], paid := [q, q]);
    assert Spent(s3, s4, 1);
    assert s4.pending - {1} == map[];
    assert Dict(t) in q.tokens && PaidWith(s3, 0, r);
    assert Exposed(s3, 1, 0);
  }

  lemma PayableKeys(hash: BlindToken.Hash, keys: PublicKeys, q: Request)
    requires BlindToken.IsDigest(hash) && ValidKeys(keys) && Payable(hash, keys, q)
    ensures keys != map[]
  {
  }

  lemma RunsOn(hash: BlindToken.Hash, ss: seq<Node>, s: Node, s': Node) returns (more: seq<Node>)
    requires BlindToken.IsDigest(hash) && Run(hash, ss) && ss[|ss| - 1] == s
    requires (exists id, q :: Verified(hash, s, s', id, q)) || (exists id :: Spent(s, s', id)) || (exists id ::
               Admitted(s, s', id))
    ensures Run(hash, more) && more != [] && more[|more| - 1] == s'
  {
    hide Verified, Spent, Admitted, Refreshed, Safe;
    more := ss + [s'];
    assert Onward(hash, s, s');
  }

  /** And an epoch that comes back after it was dropped lets its tokens be spent again. */
  lemma ReturningEpoch(hash: BlindToken.Hash, keys: PublicKeys, between: PublicKeys, spent: map<Ref, Epoch>, q: Request)
    requires BlindToken.IsDigest(hash) && ValidKeys(keys) && Payable(hash, keys, q) && Refs(q.tokens) !! spent.Keys
    requires EpochsOf(keys) !! EpochsOf(between)
    requires forall r :: r in spent ==> spent[r] in EpochsOf(keys)
    ensures Refs(q.tokens) !! Kept(Kept(SpentAfter(spent, q.tokens), EpochsOf(between)), EpochsOf(keys)).Keys
  {
    hide Refs, EpochsOf;
    GenuineEpochs(hash, keys, q);
    SpentEpochs(spent, q.tokens, EpochsOf(keys));
  }

  lemma {:induction false} SpentEpochs(spent: map<Ref, Epoch>, tokens: seq<Presented>, epochs: set<Epoch>)
    requires forall r :: r in spent ==> spent[r] in epochs
    requires forall i: nat :: i < |tokens| ==> tokens[i].Dict? && tokens[i].token.kid.epoch in epochs
    ensures forall r :: r in SpentAfter(spent, tokens) ==> SpentAfter(spent, tokens)[r] in epochs
    decreases |tokens|
  {
    if tokens != [] && RefOf(tokens[0].token) !in spent {
      SpentEpochs(spent[RefOf(tokens[0].token) := tokens[0].token.kid.epoch], tokens[1..], epochs);
    }
  }
}
