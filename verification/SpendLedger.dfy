/** Paying for writes with tokens at one node: the gate, the spent table and key rotation (TokenGate and
    Store.spend / forget_epochs in blindrange/node.py, verify_token and token_ref in blindrange/token.py). */
module SpendLedger {
  import opened Basics
  import BlindToken

  type Epoch = string

  /** A key is named by the epoch it is valid in and what its tokens are worth. */
  datatype KeyId = KeyId(epoch: Epoch, denom: int)

  /** A token as it is presented: the key it names, the nonce as written and as decoded, and a signature. */
  datatype Token = Token(kid: KeyId, written: string, nonce: seq<BlindToken.Byte>, sig: nat)

  /** What marks a token as spent: the key it names and its nonce as written. Hashing the two keeps them apart. */
  datatype Ref = Ref(kid: KeyId, written: string)

  function RefOf(t: Token): Ref {
    Ref(t.kid, t.written)
  }

  type PublicKeys = map<KeyId, BlindToken.PublicKey>

  function EpochsOf(keys: PublicKeys): set<Epoch> {
    set k | k in keys :: k.epoch
  }

  ghost predicate ValidKeys(keys: PublicKeys) {
    forall k :: k in keys ==> keys[k].n >= 1
  }

  /** What a token is worth, if it is genuine: the key that verifies it decides. */
  function Worth(hash: BlindToken.Hash, t: Token, keys: PublicKeys): Option<int>
    requires BlindToken.IsDigest(hash) && ValidKeys(keys)
  {
    if t.kid in keys && |t.nonce| == BlindToken.NONCE_BYTES && BlindToken.Verify(hash, t.nonce, t.sig, keys[t.kid])
    then Some(t.kid.denom) else None
  }

  /** A token somebody signed: its key is known, its nonce has 32 bytes, and the signature raised to the key's
      exponent is the full-domain hash of the nonce. */
  ghost predicate Signed(hash: BlindToken.Hash, p: Presented, keys: PublicKeys)
    requires BlindToken.IsDigest(hash) && ValidKeys(keys)
  {
    && p.Dict? && p.token.kid in keys && |p.token.nonce| == 32
    && var t, key := p.token, keys[p.token.kid];
       BlindToken.PowMod(t.sig, key.e, key.n) == BlindToken.FdhOf(hash, t.nonce, key.n)
  }

  datatype Presented = Dict(token: Token) | Malformed

  datatype Request = Request(repair: bool, tokens: seq<Presented>, entries: int)

  datatype Verdict = Repair | Open | Paid | NoToken | TooMany | BadToken | TooLittle | Duplicate | AlreadySpent {
    predicate Admitted() {
      Repair? || Open? || Paid?
    }
  }

  ghost predicate AllGenuine(hash: BlindToken.Hash, tokens: seq<Presented>, keys: PublicKeys)
    requires BlindToken.IsDigest(hash) && ValidKeys(keys)
  {
    forall i :: 0 <= i < |tokens| ==> tokens[i].Dict? && Worth(hash, tokens[i].token, keys).Some?
  }

  ghost predicate AllDicts(tokens: seq<Presented>) {
    forall i :: 0 <= i < |tokens| ==> tokens[i].Dict?
  }

  /** Sum of the denominations of the first tokens. */
  function Value(tokens: seq<Presented>): int {
    if tokens == [] then 0
    else Value(tokens[..|tokens| - 1]) + if tokens[|tokens| - 1].Dict? then tokens[|tokens| - 1].token.kid.denom else 0
  }

  function Refs(tokens: seq<Presented>): set<Ref> {
    set t | t in tokens && t.Dict? :: RefOf(t.token)
  }

  ghost predicate DistinctRefs(tokens: seq<Presented>) {
    forall i, j :: 0 <= i < j < |tokens| && tokens[i].Dict? && tokens[j].Dict? ==>
        RefOf(tokens[i].token) != RefOf(tokens[j].token)
  }

  /** Some token is there twice: the same key and the same nonce as written. */
  ghost predicate Repeats(tokens: seq<Presented>) {
    exists i, j :: 0 <= i < j < |tokens| && tokens[i].Dict? && tokens[j].Dict?
                   && tokens[i].token.kid == tokens[j].token.kid && tokens[i].token.written == tokens[j].token.written
  }

  lemma RepeatsIff(tokens: seq<Presented>)
    ensures Repeats(tokens) <==> !DistinctRefs(tokens)
  {
  }

  /** The refs of a list are as many as its tokens exactly when none repeats. */
  lemma {:induction false} RefCount(tokens: seq<Presented>)
    requires AllDicts(tokens)
    ensures |Refs(tokens)| <= |tokens|
    ensures |Refs(tokens)| == |tokens| <==> DistinctRefs(tokens)
  {
    if tokens == [] {
      assert Refs(tokens) == {};
    } else {
      var init, last := tokens[..|tokens| - 1], tokens[|tokens| - 1];
      RefCount(init);
      assert tokens == init + [last];
      assert Refs(tokens) == Refs(init) + {RefOf(last.token)};
      if RefOf(last.token) in Refs(init) {
        assert Refs(tokens) == Refs(init);
        var t :| t in init && t.Dict? && RefOf(t.token) == RefOf(last.token);
        var i :| 0 <= i < |init| && init[i] == t;
        assert tokens[i] == t && tokens[|init|] == last;
      }
    }
  }

  // ------------------------------------------------------------ one node

  /** The spent table: a ref is recorded at most once, with the epoch of its key. */
  class Store {
    var spent: map<Ref, Epoch>

    constructor ()
      ensures spent == map[]
    {
      spent := map[];
    }

    /** The uniqueness constraint decides: a second record of the same ref does not land. */
    method Spend(r: Ref, epoch: Epoch) returns (landed: bool)
      modifies this
      ensures landed <==> r !in old(spent)
      ensures spent == if landed then old(spent)[r := epoch] else old(spent)
    {
      if r in spent {
        return false;
      }
      spent := spent[r := epoch];
      return true;
    }

    method ForgetEpochs(keep: set<Epoch>)
      modifies this
      ensures spent == Kept(old(spent), keep)
    {
      spent := map r | r in spent && spent[r] in keep :: spent[r];
    }
  }

  function Kept(spent: map<Ref, Epoch>, keep: set<Epoch>): map<Ref, Epoch> {
    map r | r in spent && spent[r] in keep :: spent[r]
  }

  /** Spent records of a list's tokens up to the first one that had been spent before. */
  function SpentAfter(spent: map<Ref, Epoch>, tokens: seq<Presented>): map<Ref, Epoch>
    decreases |tokens|
  {
    if tokens == [] || tokens[0].Malformed? || RefOf(tokens[0].token) in spent then spent
    else SpentAfter(spent[RefOf(tokens[0].token) := tokens[0].token.kid.epoch], tokens[1..])
  }

  class TokenGate {
    const hash: BlindToken.Hash
    const store: Store
    var pubkeys: PublicKeys
    var epochs: set<Epoch>
    var redeemed: nat

    ghost predicate Valid()
      reads this
    {
      BlindToken.IsDigest(hash) && ValidKeys(pubkeys) && epochs == EpochsOf(pubkeys)
    }

    constructor (hash: BlindToken.Hash, store: Store)
      requires BlindToken.IsDigest(hash)
      ensures Valid() && pubkeys == map[] && redeemed == 0 && this.hash == hash && this.store == store
    {
      this.hash, this.store, pubkeys, epochs, redeemed := hash, store, map[], {}, 0;
    }

    /** Take over the issuer's keys, unless none came; spend records of epochs that no longer verify are dropped. */
    method Refresh(keys: PublicKeys) returns (ok: bool)
      requires Valid() && ValidKeys(keys)
      modifies this`pubkeys, this`epochs, store
      ensures Valid() && ok == (keys != map[])
      ensures pubkeys == if ok then keys else old(pubkeys)
      ensures store.spent == if ok then Kept(old(store.spent), EpochsOf(keys)) else old(store.spent)
    {
      if keys == map[] {
        return false;
      }
      pubkeys, epochs := keys, EpochsOf(keys);
      store.ForgetEpochs(epochs);
      return true;
    }

    /** What a list of tokens is worth, if every one of them is genuine. */
    method Appraise(tokens: seq<Presented>) returns (value: Option<int>)
      requires Valid()
      ensures value.Some? <==> forall i :: 0 <= i < |tokens| ==> Signed(hash, tokens[i], pubkeys)
      ensures value == if AllGenuine(hash, tokens, pubkeys) then Some(Value(tokens)) else None
    {
      hide BlindToken.IsDigest, BlindToken.PowMod, BlindToken.FdhOf, Signed, EpochsOf, ValidKeys;
      GenuineIsSigned(hash, tokens, pubkeys);
      var total := 0;
      for i := 0 to |tokens|
        invariant AllGenuine(hash, tokens[..i], pubkeys) && total == Value(tokens[..i])
      {
        assert tokens[..i + 1][..i] == tokens[..i];
        if tokens[i].Malformed? {
          return None;
        }
        var denom := Worth(hash, tokens[i].token, pubkeys);
        if denom.None? {
          return None;
        }
        total := total + denom.value;
      }
      assert tokens[..|tokens|] == tokens;
      return Some(total);
    }

    /** Spend one token after another; the first that had been spent before ends it. */
    method SpendAll(tokens: seq<Presented>) returns (all: bool)
      requires AllDicts(tokens) && DistinctRefs(tokens)
      modifies store
      ensures all <==> Refs(tokens) !! old(store.spent).Keys
      ensures store.spent == SpentAfter(old(store.spent), tokens)
      ensures all ==> store.spent.Keys == old(store.spent).Keys + Refs(tokens)
    {
      ghost var before := store.spent;
      for i := 0 to |tokens|
        invariant SpentAfter(store.spent, tokens[i..]) == SpentAfter(before, tokens)
        invariant store.spent.Keys == before.Keys + Refs(tokens[..i])
        invariant Refs(tokens[..i]) !! before.Keys
      {
        var t := tokens[i].token;
        assert tokens[i..][0] == tokens[i] && tokens[i..][1..] == tokens[i + 1..];
        NotAgain(tokens, i);
        RefsStep(tokens, i);
        var landed := store.Spend(RefOf(t), t.kid.epoch);
        if !landed {
          RefAmong(tokens, i);
          return false;
        }
      }
      assert tokens[..|tokens|] == tokens;
      return true;
    }

    /** Whether a write is paid for. Everything is verified before anything is spent. */
    method Check(q: Request) returns (v: Verdict)
      requires Valid()
      modifies this`redeemed, store
      ensures Valid() && pubkeys == old(pubkeys)
      ensures v.Repair? <==> q.repair
      ensures v.Open? <==> !q.repair && pubkeys == map[]
      ensures v.NoToken? <==> !q.repair && pubkeys != map[] && q.tokens == []
      ensures v.TooMany? <==> !q.repair && pubkeys != map[] && |q.tokens| > 512
      ensures v.BadToken? <==> !q.repair && pubkeys != map[] && |q.tokens| <= 512
                               && exists i :: 0 <= i < |q.tokens| && !Signed(hash, q.tokens[i], pubkeys)
      ensures v.Paid? || v.AlreadySpent? || v.TooLittle? || v.Duplicate? ==>
                forall i :: 0 <= i < |q.tokens| ==> Signed(hash, q.tokens[i], pubkeys)
      ensures v.Paid? ==> Value(q.tokens) >= q.entries && !Repeats(q.tokens)
      ensures v.TooLittle? ==> Value(q.tokens) < q.entries
      ensures v.Duplicate? ==> Repeats(q.tokens)
      ensures v.Paid? ==> forall i :: 0 <= i < |q.tokens| ==>
                var t := q.tokens[i].token; var r := Ref(t.kid, t.written);
                r !in old(store.spent) && r in store.spent && store.spent[r] == t.kid.epoch
      ensures v.Paid? <==> Payable(hash, pubkeys, q) && Refs(q.tokens) !! old(store.spent).Keys
      ensures v.AlreadySpent? <==> Payable(hash, pubkeys, q) && !(Refs(q.tokens) !! old(store.spent).Keys)
      ensures store.spent == if v.Paid? || v.AlreadySpent? then SpentAfter(old(store.spent), q.tokens)
              else old(store.spent)
      ensures v.Paid? ==> store.spent.Keys == old(store.spent).Keys + Refs(q.tokens)
      ensures redeemed == old(redeemed) + if v.Paid? then |q.tokens| else 0
    {
      hide BlindToken.IsDigest, BlindToken.PowMod, BlindToken.FdhOf, Worth, SpentAfter, Value, EpochsOf, ValidKeys,
        Repeats;
      RepeatsIff(q.tokens);
      if q.repair {
        return Repair;
      }
      if pubkeys == map[] {
        return Open;
      }
      if q.tokens == [] {
        return NoToken;
      }
      if |q.tokens| > 512 {
        return TooMany;
      }
      var value := Appraise(q.tokens);
      if value.None? {
        return BadToken;
      }
      if value.value < q.entries {
        return TooLittle;
      }
      RefCount(q.tokens);
      EachRecorded(store.spent, q.tokens);
      if |Refs(q.tokens)| != |q.tokens| {
        return Duplicate;
      }
      var all := SpendAll(q.tokens);
      if !all {
        return AlreadySpent;
      }
      redeemed := redeemed + |q.tokens|;
      return Paid;
    }
  }

  lemma GenuineIsSigned(hash: BlindToken.Hash, tokens: seq<Presented>, keys: PublicKeys)
    requires BlindToken.IsDigest(hash) && ValidKeys(keys)
    ensures AllGenuine(hash, tokens, keys) <==> forall i :: 0 <= i < |tokens| ==> Signed(hash, tokens[i], keys)
  {
    hide BlindToken.PowMod, BlindToken.FdhOf;
    forall i | 0 <= i < |tokens|
      ensures (tokens[i].Dict? && Worth(hash, tokens[i].token, keys).Some?) <==> Signed(hash, tokens[i], keys) {
    }
  }

  lemma {:induction false} RecordsStay(spent: map<Ref, Epoch>, tokens: seq<Presented>, r: Ref)
    requires r in spent
    ensures r in SpentAfter(spent, tokens) && SpentAfter(spent, tokens)[r] == spent[r]
    decreases |tokens|
  {
    if tokens != [] && tokens[0].Dict? && RefOf(tokens[0].token) !in spent {
      RecordsStay(spent[RefOf(tokens[0].token) := tokens[0].token.kid.epoch], tokens[1..], r);
    }
  }

  lemma {:induction false} RecordedWith(spent: map<Ref, Epoch>, tokens: seq<Presented>, i: nat)
    requires i < |tokens| && AllDicts(tokens) && DistinctRefs(tokens)
    requires forall j :: 0 <= j < |tokens| ==> RefOf(tokens[j].token) !in spent
    ensures var r := RefOf(tokens[i].token);
            r in SpentAfter(spent, tokens) && SpentAfter(spent, tokens)[r] == r.kid.epoch
    decreases |tokens|
  {
    var r, spent' := RefOf(tokens[0].token), spent[RefOf(tokens[0].token) := tokens[0].token.kid.epoch];
    if i == 0 {
      RecordsStay(spent', tokens[1..], r);
    } else {
      forall j | 0 <= j < |tokens| - 1 ensures RefOf(tokens[1..][j].token) !in spent' {
        assert tokens[1..][j] == tokens[j + 1];
      }
      RecordedWith(spent', tokens[1..], i - 1);
    }
  }

  /** What is spent at one go is recorded with the epochs of its keys. */
  lemma EachRecorded(spent: map<Ref, Epoch>, tokens: seq<Presented>)
    requires AllDicts(tokens)
    ensures DistinctRefs(tokens) && Refs(tokens) !! spent.Keys ==>
              forall i :: 0 <= i < |tokens| ==>
                var r := RefOf(tokens[i].token);
                r !in spent && r in SpentAfter(spent, tokens) && SpentAfter(spent, tokens)[r] == r.kid.epoch
  {
    if DistinctRefs(tokens) && Refs(tokens) !! spent.Keys {
      forall j | 0 <= j < |tokens| ensures RefOf(tokens[j].token) !in spent {
        RefAmong(tokens, j);
      }
      forall i | 0 <= i < |tokens|
        ensures var r := RefOf(tokens[i].token);
                r in SpentAfter(spent, tokens) && SpentAfter(spent, tokens)[r] == r.kid.epoch
      {
        RecordedWith(spent, tokens, i);
      }
    }
  }

  /** A request whose tokens are genuine, distinct and enough. */
  ghost predicate Payable(hash: BlindToken.Hash, keys: PublicKeys, q: Request)
    requires BlindToken.IsDigest(hash) && ValidKeys(keys)
  {
    && !q.repair && keys != map[] && 0 < |q.tokens| <= 512
    && AllGenuine(hash, q.tokens, keys) && Value(q.tokens) >= q.entries && DistinctRefs(q.tokens)
  }

  lemma RefsStep(tokens: seq<Presented>, i: nat)
    requires i < |tokens| && tokens[i].Dict?
    ensures Refs(tokens[..i + 1]) == Refs(tokens[..i]) + {RefOf(tokens[i].token)}
  {
    assert tokens[..i + 1] == tokens[..i] + [tokens[i]];
  }

  lemma RefAmong(tokens: seq<Presented>, i: nat)
    requires i < |tokens| && tokens[i].Dict?
    ensures RefOf(tokens[i].token) in Refs(tokens)
  {
    assert tokens[i] in tokens;
  }

  lemma NotAgain(tokens: seq<Presented>, i: nat)
    requires i < |tokens| && DistinctRefs(tokens) && tokens[i].Dict?
    ensures RefOf(tokens[i].token) !in Refs(tokens[..i])
  {
    forall t | t in tokens[..i] && t.Dict? ensures RefOf(t.token) != RefOf(tokens[i].token) {
      var j :| 0 <= j < i && tokens[..i][j] == t;
      assert tokens[j] == t;
    }
  }
}
