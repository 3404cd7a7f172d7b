/** A client's unspent tokens and how a write is paid from them (Wallet in blindrange/token.py). */
module Wallet {
  import opened Basics

  /** A bearer token: what identifies it and what it is worth. */
  datatype Token = Token(id: nat, denom: nat)

  function Balance(tokens: seq<Token>): nat {
    if tokens == [] then 0 else Balance(tokens[..|tokens| - 1]) + tokens[|tokens| - 1].denom
  }

  lemma {:induction false} BalanceConcat(x: seq<Token>, y: seq<Token>)
    ensures Balance(x + y) == Balance(x) + Balance(y)
  {
    if y == [] {
      assert x + y == x;
    } else {
      BalanceConcat(x, y[..|y| - 1]);
      assert (x + y)[..|x + y| - 1] == x + y[..|y| - 1];
    }
  }

  lemma BalanceOne(t: Token)
    ensures Balance([t]) == t.denom
  {
    assert [t][..0] == [];
  }

  ghost predicate Descending(tokens: seq<Token>) {
    forall i, j :: 0 <= i < j < |tokens| ==> tokens[i].denom >= tokens[j].denom
  }

  function InsertDown(s: seq<Token>, t: Token): seq<Token> {
    if s == [] then [t]
    else if s[0].denom < t.denom then [t] + s
    else [s[0]] + InsertDown(s[1..], t)
  }

  lemma {:induction false} InsertDownMembers(s: seq<Token>, t: Token)
    ensures multiset(InsertDown(s, t)) == multiset(s) + multiset{t}
  {
    if s != [] && s[0].denom >= t.denom {
      InsertDownMembers(s[1..], t);
      assert s == [s[0]] + s[1..];
    }
  }

  lemma {:induction false} InsertDownBalance(s: seq<Token>, t: Token)
    ensures Balance(InsertDown(s, t)) == Balance(s) + t.denom
  {
    hide Balance;
    if s == [] {
      BalanceOne(t);
      assert [] + [t] == [t];
      BalanceConcat([], [t]);
    } else if s[0].denom < t.denom {
      BalanceConcat([t], s);
      BalanceOne(t);
    } else {
      InsertDownBalance(s[1..], t);
      assert s == [s[0]] + s[1..];
      BalanceConcat([s[0]], s[1..]);
      BalanceConcat([s[0]], InsertDown(s[1..], t));
    }
  }

  lemma {:induction false} InsertDownSorted(s: seq<Token>, t: Token)
    requires Descending(s)
    ensures Descending(InsertDown(s, t))
  {
    if s != [] && s[0].denom >= t.denom {
      InsertDownSorted(s[1..], t);
      var rest := InsertDown(s[1..], t);
      InsertDownMembers(s[1..], t);
      forall j | 0 <= j < |rest| ensures s[0].denom >= rest[j].denom {
        assert rest[j] in multiset(rest);
        assert rest[j] == t || rest[j] in s[1..];
      }
    }
  }

  lemma NothingYet()
    ensures Balance([]) == 0 && Descending([])
  {
  }

  lemma BalanceNext(tokens: seq<Token>, i: nat)
    requires i < |tokens|
    ensures Balance(tokens[..i + 1]) == Balance(tokens[..i]) + tokens[i].denom
    ensures multiset(tokens[..i + 1]) == multiset(tokens[..i]) + multiset{tokens[i]}
  {
    assert tokens[..i + 1] == tokens[..i] + [tokens[i]];
    assert tokens[..i + 1][..i] == tokens[..i];
  }

  /** Tokens by falling worth, equal ones in the order they came. */
  function SortedDown(tokens: seq<Token>): seq<Token> {
    if tokens == [] then [] else InsertDown(SortedDown(tokens[..|tokens| - 1]), tokens[|tokens| - 1])
  }

  lemma SortedNext(tokens: seq<Token>, i: nat)
    requires i < |tokens|
    ensures SortedDown(tokens[..i + 1]) == InsertDown(SortedDown(tokens[..i]), tokens[i])
  {
    assert tokens[..i + 1][..i] == tokens[..i];
  }

  method SortDown(tokens: seq<Token>) returns (s: seq<Token>)
    ensures s == SortedDown(tokens)
    ensures multiset(s) == multiset(tokens) && Descending(s) && Balance(s) == Balance(tokens)
  {
    hide Balance, InsertDown, Descending, SortedDown;
    s := [];
    assert SortedDown([]) == [] by { NoneSorted(); }
    assert Balance(s) == 0 && Descending(s) by { NothingYet(); }
    for i := 0 to |tokens|
      invariant multiset(s) == multiset(tokens[..i]) && Descending(s) && Balance(s) == Balance(tokens[..i])
      invariant s == SortedDown(tokens[..i])
    {
      SortedNext(tokens, i);
      InsertDownMembers(s, tokens[i]);
      InsertDownBalance(s, tokens[i]);
      InsertDownSorted(s, tokens[i]);
      BalanceNext(tokens, i);
      s := InsertDown(s, tokens[i]);
    }
    assert tokens[..|tokens|] == tokens;
  }

  lemma NoneSorted()
    ensures SortedDown([]) == []
  {
  }

  function Without(tokens: seq<Token>, t: Token): seq<Token> {
    if tokens == [] then []
    else if tokens[0] == t then tokens[1..]
    else [tokens[0]] + Without(tokens[1..], t)
  }

  lemma {:induction false} WithoutOne(tokens: seq<Token>, t: Token)
    requires t in tokens
    ensures multiset(Without(tokens, t)) == multiset(tokens) - multiset{t}
  {
    assert tokens == [tokens[0]] + tokens[1..];
    if tokens[0] != t {
      WithoutOne(tokens[1..], t);
    }
  }

  /** How many tokens it takes, in order, to meet a need; all of them if they do not. */
  function Prefix(avail: seq<Token>, need: int, from: nat): (n: nat)
    requires from <= |avail|
    ensures from <= n <= |avail|
    ensures Balance(avail[..n]) >= need || n == |avail|
    ensures forall m :: from <= m < n ==> Balance(avail[..m]) < need
    decreases |avail| - from
  {
    if Balance(avail[..from]) >= need || from == |avail| then from else Prefix(avail, need, from + 1)
  }

  /** The cheaper of a token and the cheapest of some others that closes a gap, the first of several. */
  function Closer(others: seq<Token>, last: Token, gap: int): (small: Token)
    ensures small == last || small in others
    ensures last.denom >= gap ==> gap <= small.denom <= last.denom
    ensures forall t :: t in others && t.denom >= gap ==> t.denom >= small.denom
  {
    if others == [] then last
    else
      var best, t := Closer(others[..|others| - 1], last, gap), others[|others| - 1];
      assert forall x :: x in others ==> x == t || x in others[..|others| - 1];
      if t.denom >= gap && t.denom < best.denom then t else best
  }

  /** What covers a need: the shortest prefix of the tokens that does, with its last token traded for the cheapest of
      the rest that closes the gap; nothing if all of them together fall short. */
  function Picked(avail: seq<Token>, need: nat): (picked: Option<seq<Token>>)
    requires need >= 1
    ensures picked.None? <==> Balance(avail) < need
  {
    var n := Prefix(avail, need, 0);
    assert avail[..|avail|] == avail;
    BalanceGrows(avail, n);
    if Balance(avail[..n]) < need then None
    else Some(avail[..n - 1] + [Closer(avail[n..], avail[n - 1], need - Balance(avail[..n - 1]))])
  }

  /** What a payment promises: it covers the need, its last token is indispensable, and no token left behind could have
      taken the last one's place for less. */
  ghost predicate Pays(chosen: seq<Token>, left: multiset<Token>, need: nat) {
    && chosen != [] && Balance(chosen) >= need
    && var last, before := chosen[|chosen| - 1], Balance(chosen[..|chosen| - 1]);
       && before < need
       && forall t :: t in left && before + t.denom >= need ==> t.denom >= last.denom
  }

  /** Overpayment is less than the last token's worth. */
  lemma OverpaymentBound(chosen: seq<Token>, left: multiset<Token>, need: nat)
    requires Pays(chosen, left, need)
    ensures Balance(chosen) - need < chosen[|chosen| - 1].denom
  {
  }

  ghost predicate Smallest(tokens: seq<Token>, m: nat) {
    (exists t :: t in tokens && t.denom == m) && forall t :: t in tokens ==> t.denom >= m
  }

  /** Overpayment stays below a bound, such as the smallest denomination held, if and only if the gap left by all
      picks but the last can be closed by one of the tokens not picked before it to within that bound. */
  lemma OverpaymentIff(avail: seq<Token>, need: nat, m: nat)
    requires need >= 1 && Picked(avail, need).Some?
    ensures var n := Prefix(avail, need, 0);
            && n >= 1 && var gap := need - Balance(avail[..n - 1]);
               Balance(Picked(avail, need).value) - need < m <==>
                   exists t :: t in avail[n - 1..] && gap <= t.denom < gap + m
  {
    hide Prefix;
    var n := Prefix(avail, need, 0);
    PrefixEnds(avail, need);
    var gap := need - Balance(avail[..n - 1]);
    var small := Closer(avail[n..], avail[n - 1], gap);
    assert avail[n - 1..] == [avail[n - 1]] + avail[n..];
    BalanceConcat(avail[..n - 1], [small]);
    BalanceOne(small);
    assert small in avail[n - 1..];
  }

  lemma PrefixEnds(avail: seq<Token>, need: nat)
    requires need >= 1 && Picked(avail, need).Some?
    ensures var n := Prefix(avail, need, 0);
            n >= 1 && Balance(avail[..n - 1]) < need && Balance(avail[..n - 1]) + avail[n - 1].denom >= need
  {
    var n := Prefix(avail, need, 0);
    assert avail[..0] == [];
    assert avail[..n][..n - 1] == avail[..n - 1];
  }

  /** It is not always below it: from one token of a hundred and three tens, thirty are paid for with the hundred. */
  lemma SmallestIsNoBound()
    ensures var hundred, a, b, c := Token(0, 100), Token(1, 10), Token(2, 10), Token(3, 10);
            && SortedDown([a, hundred, b, c]) == [hundred, a, b, c] && Smallest([a, hundred, b, c], 10)
            && Picked([hundred, a, b, c], 30) == Some([hundred]) && Balance([hundred]) - 30 == 70
  {
    var hundred, a, b, c := Token(0, 100), Token(1, 10), Token(2, 10), Token(3, 10);
    SortsDown(a, hundred, b, c);
    var avail := [hundred, a, b, c];
    BalanceOne(hundred);
    assert avail[..0] == [] && avail[..1] == [hundred];
    assert Prefix(avail, 30, 1) == 1;
    assert Prefix(avail, 30, 0) == 1;
    assert avail[1..] == [a, b, c];
    NoCloser(hundred, a, b, c);
    assert [] + [hundred] == [hundred];
  }

  /** What is worth no more than any other comes last. */
  lemma {:induction false} InsertLast(s: seq<Token>, t: Token)
    requires forall x :: x in s ==> x.denom >= t.denom
    ensures InsertDown(s, t) == s + [t]
  {
    if s != [] {
      InsertLast(s[1..], t);
      assert s == [s[0]] + s[1..];
    }
  }

  lemma SortsDown(a: Token, hundred: Token, b: Token, c: Token)
    requires a.denom == b.denom == c.denom == 10 && hundred.denom == 100
    ensures SortedDown([a, hundred, b, c]) == [hundred, a, b, c] && Smallest([a, hundred, b, c], 10)
  {
    var all := [a, hundred, b, c];
    assert all[..3] == [a, hundred, b] && all[..3][..2] == [a, hundred] && [a, hundred][..1] == [a] && [a][..0] == [];
    assert SortedDown([a]) == [a];
    assert SortedDown([a, hundred]) == [hundred, a];
    InsertLast([hundred, a], b);
    InsertLast([hundred, a, b], c);
    assert [hundred, a] + [b] == [hundred, a, b] && [hundred, a, b] + [c] == [hundred, a, b, c];
    assert all[1] == hundred && a in all;
  }

  lemma NoCloser(hundred: Token, a: Token, b: Token, c: Token)
    requires a.denom == b.denom == c.denom == 10 && hundred.denom == 100
    ensures Closer([a, b, c], hundred, 30) == hundred
  {
  }

  class Purse {
    var tokens: seq<Token>

    constructor (tokens: seq<Token>)
      ensures this.tokens == tokens
    {
      this.tokens := tokens;
    }

    method Add(more: seq<Token>)
      modifies this
      ensures tokens == old(tokens) + more
    {
      tokens := tokens + more;
    }

    /** Enough tokens for a number of keys, or none if the purse cannot cover it. What is taken leaves the purse;
        nothing else does. */
    method TakeFor(keys: int) returns (chosen: Option<seq<Token>>)
      modifies this
      ensures var need: nat := if keys <= 0 then 1 else keys;
              && chosen == Picked(SortedDown(old(tokens)), need)
              && (chosen.None? <==> Balance(old(tokens)) < need)
              && (chosen.None? ==> tokens == old(tokens))
              && (chosen.Some? ==>
                  Pays(chosen.value, multiset(tokens), need)
                  && multiset(tokens) + multiset(chosen.value) == multiset(old(tokens)))
    {
      hide Balance, Pays, Picked, SortedDown;
      var need: nat := if keys <= 0 then 1 else keys;
      var avail := SortDown(tokens);
      var picked := Choose(avail, need);
      if picked.None? {
        return None;
      }
      var left := RemoveAll(tokens, picked.value);
      assert multiset(left) == multiset(avail) - multiset(picked.value);
      tokens := left;
      return picked;
    }
  }

  /** Take tokens in order until the need is met. */
  method TakeInOrder(avail: seq<Token>, need: nat) returns (n: nat, total: nat)
    ensures n == Prefix(avail, need, 0) && total == Balance(avail[..n])
  {
    n, total := 0, 0;
    while n < |avail| && total < need
      invariant n <= |avail| && total == Balance(avail[..n]) && Prefix(avail, need, 0) == Prefix(avail, need, n)
      decreases |avail| - n
    {
      BalanceNext(avail, n);
      total := total + avail[n].denom;
      n := n + 1;
    }
  }

  /** Largest first until the need is met, and then the last one traded for the smallest other that still closes the
      gap. */
  method Choose(avail: seq<Token>, need: nat) returns (picked: Option<seq<Token>>)
    requires need >= 1
    ensures picked == Picked(avail, need)
    ensures picked.Some? ==>
              multiset(picked.value) <= multiset(avail)
              && Pays(picked.value, multiset(avail) - multiset(picked.value), need)
  {
    hide Prefix, Balance, Pays, Closer;
    var n, total := TakeInOrder(avail, need);
    if total < need {
      return None;
    }
    PrefixEnds(avail, need);
    BalanceNext(avail, n - 1);
    var small := Cheapest(avail[n..], avail[n - 1], need - (total - avail[n - 1].denom));
    PickedFrom(avail, n, small);
    PickedPays(avail, n, small, need);
    return Some(avail[..n - 1] + [small]);
  }

  lemma BalanceGrows(tokens: seq<Token>, n: nat)
    requires n <= |tokens|
    ensures Balance(tokens[..n]) <= Balance(tokens)
  {
    assert tokens == tokens[..n] + tokens[n..];
    BalanceConcat(tokens[..n], tokens[n..]);
  }

  lemma PickedPays(avail: seq<Token>, n: nat, small: Token, need: nat)
    requires 1 <= n <= |avail| && Balance(avail[..n - 1]) < need
    requires small == avail[n - 1] || small in avail[n..]
    requires Balance(avail[..n - 1]) + small.denom >= need && small.denom <= avail[n - 1].denom
    requires forall t :: t in avail[n..] && Balance(avail[..n - 1]) + t.denom >= need ==> t.denom >= small.denom
    ensures Pays(avail[..n - 1] + [small], multiset(avail) - multiset(avail[..n - 1] + [small]), need)
  {
    hide Balance;
    var before, picked := avail[..n - 1], avail[..n - 1] + [small];
    assert picked[..|picked| - 1] == before;
    BalanceConcat(before, [small]);
    BalanceOne(small);
    LeftBehind(avail, n, small);
  }

  lemma LeftBehind(avail: seq<Token>, n: nat, small: Token)
    requires 1 <= n <= |avail| && (small == avail[n - 1] || small in avail[n..])
    ensures forall t :: t in multiset(avail) - multiset(avail[..n - 1] + [small]) ==>
              t == avail[n - 1] || t in avail[n..]
  {
    assert avail == avail[..n - 1] + [avail[n - 1]] + avail[n..];
    assert multiset(avail) - multiset(avail[..n - 1] + [small]) == multiset{avail[n - 1]} +
           multiset(avail[n..]) - multiset{small};
  }

  /** The taken tokens leave one by one. */
  method RemoveAll(tokens: seq<Token>, picked: seq<Token>) returns (left: seq<Token>)
    requires multiset(picked) <= multiset(tokens)
    ensures multiset(left) == multiset(tokens) - multiset(picked)
  {
    left := tokens;
    for i := 0 to |picked|
      invariant multiset(left) + multiset(picked[..i]) == multiset(tokens)
    {
      StillIn(left, tokens, picked, i);
      assert picked[..i + 1] == picked[..i] + [picked[i]];
      WithoutOne(left, picked[i]);
      left := Without(left, picked[i]);
    }
    assert picked[..|picked|] == picked;
  }

  lemma StillIn(left: seq<Token>, tokens: seq<Token>, picked: seq<Token>, i: nat)
    requires i < |picked| && multiset(picked) <= multiset(tokens)
             && multiset(left) + multiset(picked[..i]) == multiset(tokens)
    ensures picked[i] in left
  {
    assert picked == picked[..i] + [picked[i]] + picked[i + 1..];
    assert multiset(picked)[picked[i]] > multiset(picked[..i])[picked[i]];
  }

  /** The search for what to trade the last token for. */
  method Cheapest(others: seq<Token>, last: Token, gap: int) returns (small: Token)
    requires last.denom >= gap
    ensures small == Closer(others, last, gap)
  {
    small := last;
    for i := 0 to |others|
      invariant small == Closer(others[..i], last, gap)
    {
      assert others[..i + 1][..i] == others[..i];
      if others[i].denom >= gap && others[i].denom < small.denom {
        small := others[i];
      }
    }
    assert others[..|others|] == others;
  }

  lemma PickedFrom(avail: seq<Token>, n: nat, small: Token)
    requires 1 <= n <= |avail| && (small == avail[n - 1] || small in avail[n..])
    ensures multiset(avail[..n - 1] + [small]) <= multiset(avail)
  {
    assert avail == avail[..n - 1] + avail[n - 1..];
    assert avail[n - 1..] == [avail[n - 1]] + avail[n..];
  }
}
