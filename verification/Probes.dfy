/** Checking predicted chain lengths against the network (the verification passes of Owner._derive_epoch in
    blindrange/client.py).

    Each pass fetches the slots a length predicts and some past it. A chain whose probes run out before they
    are used up is settled; one that uses them all up is probed again, three times at most. */
module Probes {
  import opened Basics
  import opened Chains
  import opened Query

  /** Lengths so far, the chains that are settled, the fields that have to be walked instead, and all that was
      fetched. */
  datatype Guess = Guess(lens: map<Chain, nat>, done: set<Chain>, fallback: set<Field>, kv: Net)

  /** Slots probed past a predicted end, given how many of the writer's records could not be read. */
  function Slack(missing: nat): (slack: nat)
    ensures 1 <= slack <= 33 && (missing >= 32 ==> slack == 33) && (missing < 32 ==> missing < slack)
  {
    Min(32, missing) + 1
  }

  function Lacking(unknown: map<Writer, nat>, u: Writer): nat {
    if u in unknown then unknown[u] else 0
  }

  function SlackOf(unknown: map<Writer, nat>, c: Chain): nat
    requires c.Index?
  {
    Slack(Lacking(unknown, c.writer))
  }

  /** How far a number of passes can see. */
  function Reach(start: nat, slack: nat, passes: nat): nat {
    if passes == 0 then start else Reach(start, slack, passes - 1) + slack
  }

  ghost predicate Fetched(net: Net, kv: Net, c: Chain, len: nat) {
    forall i: nat :: 1 <= i <= len ==> Link(c, i) in net && Link(c, i) in kv
  }

  /** No read that a guess rests on missed one of the chain's slots. */
  ghost predicate Heard(unheard: set<Key>, c: Chain, end: nat) {
    forall i: nat :: 1 <= i <= end ==> Link(c, i) !in unheard
  }

  /** What one chain's guess is worth after some passes, some of whose reads went unheard: every slot counted is there
      and fetched; a settled one has no further slot that was heard of; and on a dense chain the length is as far as
      the passes can see if every slot of it was heard of, and too short if one was not. */
  ghost predicate Tracked(net: Net, unheard: set<Key>, c: Chain, start: nat, slack: nat, passes: nat,
                          len: nat, settled: bool, kv: Net)
  {
    && start <= len
    && (if passes == 0 then len == start && !settled else Fetched(net, kv, c, len))
    && (settled ==> Link(c, len + 1) !in net || Link(c, len + 1) in unheard)
    && forall end: nat :: DenseTo(net, c, end) && start <= end ==>
         Sees(unheard, c, start, slack, passes, len, settled, end)
  }

  ghost predicate Sees(unheard: set<Key>, c: Chain, start: nat, slack: nat, passes: nat, len: nat, settled: bool,
                       end: nat) {
    if Heard(unheard, c, end)
    then len == Min(end, Reach(start, slack, passes)) && (settled <==> end < Reach(start, slack, passes))
    else len < end && settled
  }

  lemma TrackedLifts(net: Net, unheard: set<Key>, bad: set<Key>, c: Chain, start: nat, slack: nat, passes: nat,
                     len: nat, kv: Net, more: Net)
    requires Tracked(net, unheard, c, start, slack, passes, len, true, kv) && forall i: nat :: Link(c, i) !in bad
    ensures Tracked(net, unheard + bad, c, start, slack, passes + 1, len, true, kv + more)
  {
    hide DenseTo;
    forall end: nat ensures Heard(unheard + bad, c, end) <==> Heard(unheard, c, end) {
    }
  }

  /** What one pass established about one unsettled chain. */
  ghost predicate Probed(net: Net, bad: set<Key>, c: Chain, len: nat, slack: nat, extra: nat, got: Net) {
    && (forall i: nat :: 1 <= i <= len + extra ==> Link(c, i) in net && Link(c, i) in got)
    && extra <= slack
    && (extra < slack ==> Link(c, len + extra + 1) !in net || Link(c, len + extra + 1) in bad)
    && forall i: nat :: Link(c, i) in bad ==> len + extra < i && extra < slack
  }

  lemma TrackedStep(net: Net, unheard: set<Key>, bad: set<Key>, c: Chain, start: nat, slack: nat, passes: nat, len: nat,
                    kv: Net,
                    got: Net, extra: nat)
    requires slack >= 1 && Tracked(net, unheard, c, start, slack, passes, len, false, kv)
    requires Probed(net, bad, c, len, slack, extra, got)
    ensures Tracked(net, unheard + bad, c, start, slack, passes + 1, len + extra, extra < slack, kv + got)
  {
    forall end: nat | DenseTo(net, c, end) && start <= end
      ensures Sees(unheard + bad, c, start, slack, passes + 1, len + extra, extra < slack, end)
    {
      assert Sees(unheard, c, start, slack, passes, len, false, end);
      assert Link(c, len + extra) in net <==> 1 <= len + extra <= end;
      assert Link(c, len + extra + 1) in net <==> len + extra + 1 <= end;
    }
  }

  /** Three passes see 3 * slack slots past the prediction, as far as they are heard of. */
  lemma ThreePasses(net: Net, unheard: set<Key>, c: Chain, start: nat, slack: nat, len: nat, settled: bool, kv: Net,
                    end: nat)
    requires Tracked(net, unheard, c, start, slack, 3, len, settled, kv) && DenseTo(net, c, end) && start <= end
    ensures len <= end && (len == end <==> end - start <= 3 * slack && Heard(unheard, c, end))
    ensures settled <==> end - start < 3 * slack || !Heard(unheard, c, end)
  {
    hide Heard, DenseTo;
    assert Reach(start, slack, 3) == Reach(start, slack, 2) + slack == Reach(start, slack, 1) + slack + slack;
  }

  // ------------------------------------------------------------ one pass

  ghost predicate TreeChains(chains: set<Chain>) {
    forall c :: c in chains ==> c.Index? && c.w.Of?
  }

  function Active(g: Guess): set<Chain>
    requires TreeChains(g.lens.Keys)
  {
    set c | c in g.lens && c !in g.done && c.w.field !in g.fallback
  }

  function EntryKeys(chains: set<Chain>, lens: map<Chain, nat>): set<Key> {
    set c, i: nat | c in chains && c in lens && 1 <= i <= lens[c] :: Link(c, i)
  }

  function ProbeRange(chains: set<Chain>, lens: map<Chain, nat>, unknown: map<Writer, nat>): set<Key>
    requires TreeChains(chains)
  {
    set c, i: nat | c in chains && c in lens && lens[c] < i <= lens[c] + SlackOf(unknown, c) :: Link(c, i)
  }

  /** A field some chain of which was predicted an entry the network does not have. */
  ghost predicate Mispredicted(net: Net, start: map<Chain, nat>, f: Field) {
    exists c: Chain, i: nat ::
        c in start && c.Index? && c.w.Of? && c.w.field == f && 1 <= i <= start[c] && Link(c, i) !in net
  }

  ghost predicate TrackedOf(net: Net, unheard: set<Key>, start: map<Chain, nat>, unknown: map<Writer, nat>, passes: nat,
                            g: Guess, c: Chain)
    requires c in start && c.Index?
  {
    c in g.lens && Tracked(net, unheard, c, start[c], SlackOf(unknown, c), passes, g.lens[c], c in g.done, g.kv)
  }

  ghost predicate GuessTrue(net: Net, start: map<Chain, nat>, g: Guess) {
    && g.lens.Keys == start.Keys && TreeChains(start.Keys)
    && Truthful(net, g.kv)
    && forall f :: f in g.fallback ==> Mispredicted(net, start, f)
  }

  /** Every chain outside the fallback fields is tracked. */
  ghost predicate After(net: Net, unheard: set<Key>, start: map<Chain, nat>, unknown: map<Writer, nat>, passes: nat,
                        g: Guess) {
    && GuessTrue(net, start, g)
    && forall c :: c in start && c.w.field !in g.fallback ==> TrackedOf(net, unheard, start, unknown, passes, g, c)
  }

  /** Part of a pass: the chains of todo still stand where they stood. */
  ghost predicate Between(net: Net, unheard: set<Key>, start: map<Chain, nat>, unknown: map<Writer, nat>, passes: nat,
                          before: Guess, got: Net, todo: set<Chain>, g: Guess)
  {
    && GuessTrue(net, start, g) && before.lens.Keys == start.Keys
    && before.fallback <= g.fallback && g.kv == before.kv + got
    && (forall c :: c in start && c.w.field !in g.fallback ==>
          if c in todo then c in g.lens && g.lens[c] == before.lens[c] && c !in g.done
          else TrackedOf(net, unheard, start, unknown, passes + 1, g, c))
  }

  /** Count filled slots past a predicted end. */
  method CountExtra(got: Net, c: Chain, len: nat, slack: nat) returns (extra: nat)
    ensures extra <= slack && forall i: nat :: len < i <= len + extra ==> Link(c, i) in got
    ensures extra < slack ==> Link(c, len + extra + 1) !in got
  {
    extra := 0;
    while extra < slack && Link(c, len + extra + 1) in got
      invariant extra <= slack && forall i: nat :: len < i <= len + extra ==> Link(c, i) in got
    {
      extra := extra + 1;
    }
  }

  /** The read behind a pass: asked for all the slots and probes, and no slot went unanswered. */
  ghost predicate PassRead(net: Net, g: Guess, unknown: map<Writer, nat>, got: Net, bad: set<Key>)
    requires TreeChains(g.lens.Keys)
  {
    var entries, probes := EntryKeys(Active(g), g.lens), ProbeRange(Active(g), g.lens, unknown);
    HonestRead(net, entries + probes, got, bad) && got.Keys !! bad && bad <= entries + probes && entries * bad == {}
  }

  /** An entry that was predicted and did not come back is not on the network. */
  lemma EntryAnswered(net: Net, g: Guess, unknown: map<Writer, nat>, got: Net, bad: set<Key>, c: Chain, i: nat)
    requires TreeChains(g.lens.Keys) && PassRead(net, g, unknown, got, bad)
    requires c in Active(g) && 1 <= i <= g.lens[c]
    ensures Link(c, i) in got <==> Link(c, i) in net
  {
    var entries := EntryKeys(Active(g), g.lens);
    assert Link(c, i) in entries;
    NoneInCommon(entries, bad);
  }

  lemma ChainProbed(net: Net, g: Guess, unknown: map<Writer, nat>, got: Net, bad: set<Key>, c: Chain, extra: nat)
    requires TreeChains(g.lens.Keys) && PassRead(net, g, unknown, got, bad) && c in Active(g)
    requires forall i: nat :: 1 <= i <= g.lens[c] ==> Link(c, i) in got
    requires extra <= SlackOf(unknown, c)
    requires forall i: nat :: g.lens[c] < i <= g.lens[c] + extra ==> Link(c, i) in got
    requires extra < SlackOf(unknown, c) ==> Link(c, g.lens[c] + extra + 1) !in got
    ensures Probed(net, bad, c, g.lens[c], SlackOf(unknown, c), extra, got)
  {
    hide SlackOf;
    forall i: nat | Link(c, i) in bad ensures g.lens[c] + extra < i && extra < SlackOf(unknown, c) {
      assert Link(c, i) in EntryKeys(Active(g), g.lens) || Link(c, i) in ProbeRange(Active(g), g.lens, unknown);
      NoneInCommon(EntryKeys(Active(g), g.lens), bad);
    }
    if extra < SlackOf(unknown, c) {
      assert Link(c, g.lens[c] + extra + 1) in ProbeRange(Active(g), g.lens, unknown);
    }
  }

  /** A predicted entry that is missing was predicted from the start: what passes add is there. */
  lemma MissingFromStart(net: Net, unheard: set<Key>, start: map<Chain, nat>, unknown: map<Writer, nat>, passes: nat,
                         g: Guess, c: Chain, i: nat)
    requires c in start && c.Index? && c.w.Of? && TrackedOf(net, unheard, start, unknown, passes, g, c)
    requires 1 <= i <= g.lens[c] && Link(c, i) !in net
    ensures Mispredicted(net, start, c.w.field)
  {
  }

  lemma OnlyActiveAsked(net: Net, g: Guess, unknown: map<Writer, nat>, got: Net, bad: set<Key>)
    requires TreeChains(g.lens.Keys) && PassRead(net, g, unknown, got, bad)
    ensures forall c, i: nat :: Link(c, i) in bad ==> c in Active(g)
  {
    hide Active, SlackOf;
  }

  lemma PassBegins(net: Net, unheard: set<Key>, bad: set<Key>, start: map<Chain, nat>, unknown: map<Writer, nat>,
                   passes: nat, g: Guess, got: Net)
    requires After(net, unheard, start, unknown, passes, g) && PassRead(net, g, unknown, got, bad)
    ensures Between(net, unheard + bad, start, unknown, passes, g, got, Active(g), g.(kv := g.kv + got))
  {
    hide Tracked, SlackOf, Mispredicted;
    OnlyActiveAsked(net, g, unknown, got, bad);
    forall c | c in start && c.w.field !in g.fallback && c !in Active(g)
      ensures TrackedOf(net, unheard + bad, start, unknown, passes + 1, g.(kv := g.kv + got), c)
    {
      TrackedLifts(net, unheard, bad, c, start[c], SlackOf(unknown, c), passes, g.lens[c], g.kv, got);
    }
  }

  /** One chain of a pass is dealt with: its field falls back, or it is measured. */
  lemma PassStep(net: Net, unheard: set<Key>, start: map<Chain, nat>, unknown: map<Writer, nat>, passes: nat,
                 before: Guess, got: Net, todo: set<Chain>, g: Guess, c: Chain, g': Guess)
    requires Between(net, unheard, start, unknown, passes, before, got, todo, g) && c in todo && c in start
    requires g' == g.(lens := g'.lens, done := g'.done, fallback := g'.fallback)
    requires
      || (g' == g && c.w.field in g.fallback)
      || (g' == g.(fallback := g.fallback + {c.w.field}) && Mispredicted(net, start, c.w.field))
      || (c.w.field !in g.fallback && g'.fallback == g.fallback && c in g'.lens && g'.lens == g.lens[c := g'.lens[c]]
          && g'.done == g.done + (if c in g'.done then {c} else {})
          && TrackedOf(net, unheard, start, unknown, passes + 1, g', c))
    ensures Between(net, unheard, start, unknown, passes, before, got, todo - {c}, g')
  {
    hide Tracked, SlackOf, Mispredicted;
  }

  lemma PassEnds(net: Net, unheard: set<Key>, start: map<Chain, nat>, unknown: map<Writer, nat>, passes: nat,
                 before: Guess, got: Net, g: Guess)
    requires Between(net, unheard, start, unknown, passes, before, got, {}, g)
    ensures After(net, unheard, start, unknown, passes + 1, g)
  {
    hide TrackedOf;
  }

  /** Chains that are neither settled nor given up. */
  predicate AllSettled(g: Guess)
    requires TreeChains(g.lens.Keys)
  {
    Active(g) == {}
  }

  /** One chain of a pass: it sends its field to the slow walk, or it gets longer, or it is settled. */
  method Measure(net: Net, g: Guess, unknown: map<Writer, nat>, got: Net, at: Guess, c: Chain, ghost unheard: set<Key>,
                 ghost bad: set<Key>,
                 ghost start: map<Chain, nat>, ghost passes: nat, ghost todo: set<Chain>)
    returns (at': Guess, usedUp: bool)
    requires TreeChains(g.lens.Keys) && After(net, unheard, start, unknown, passes, g)
    requires PassRead(net, g, unknown, got, bad)
             && Between(net, unheard + bad, start, unknown, passes, g, got, todo, at)
    requires c in todo && todo <= Active(g)
    requires at.lens.Keys == g.lens.Keys == start.Keys
    ensures at'.lens.Keys == at.lens.Keys
            && Between(net, unheard + bad, start, unknown, passes, g, got, todo - {c}, at')
    ensures Active(at') <= Active(at) && (!usedUp ==> c !in Active(at'))
  {
    hide After, Between, SlackOf, Mispredicted, PassRead, EntryKeys, ProbeRange, Tracked, Probed;
    at', usedUp := at, false;
    StillStands(net, unheard, bad, start, unknown, passes, g, got, todo, at, c);
    if c.w.field !in at.fallback {
      if i: nat :| 1 <= i <= at.lens[c] && Link(c, i) !in got {
        EntryAnswered(net, g, unknown, got, bad, c, i);
        MissingFromStart(net, unheard, start, unknown, passes, g, c, i);
        at' := at.(fallback := at.fallback + {c.w.field});
      } else {
        var slack := SlackOf(unknown, c);
        var extra := CountExtra(got, c, at.lens[c], slack);
        SlackPositive(unknown, c);
        ChainProbed(net, g, unknown, got, bad, c, extra);
        TrackedStep(net, unheard, bad, c, start[c], slack, passes, g.lens[c], g.kv, got, extra);
        at' := at.(lens := at.lens[c := at.lens[c] + extra]);
        if extra > 0 && extra == slack {
          usedUp := true;
        } else {
          at' := at'.(done := at'.done + {c});
        }
      }
    }
    PassStep(net, unheard + bad, start, unknown, passes, g, got, todo, at, c, at');
  }

  method Pass(net: Net, g: Guess, unknown: map<Writer, nat>, silent: set<Key>, ghost unheard: set<Key>,
              ghost start: map<Chain, nat>, ghost passes: nat)
    returns (r: Result<Guess, set<Key>>, grew: bool, ghost unheard': set<Key>)
    requires TreeChains(g.lens.Keys) && After(net, unheard, start, unknown, passes, g)
    ensures silent == {} ==> r.Success?
    ensures r.Failure? ==> r.error != {} && r.error <= silent * EntryKeys(Active(g), g.lens)
    ensures unheard <= unheard' <= unheard + silent
    ensures r.Success? ==> After(net, unheard', start, unknown, passes + 1, r.value)
    ensures r.Success? && !grew ==> TreeChains(r.value.lens.Keys) && AllSettled(r.value)
  {
    hide After, Between, SlackOf, Mispredicted, PassRead, EntryKeys, ProbeRange;
    var active := Active(g);
    var entries := EntryKeys(active, g.lens);
    var got, bad := MGet(net, entries + ProbeRange(active, g.lens, unknown), silent);
    unheard' := unheard + bad;
    if entries * bad != {} {
      return Failure(entries * bad), false, unheard';
    }
    ReadDone(net, g, unknown, got, bad);
    PassBegins(net, unheard, bad, start, unknown, passes, g, got);
    GuessKeys(net, unheard, start, unknown, passes, g);
    var at := g.(kv := g.kv + got);
    grew := false;
    var todo := active;
    while todo != {}
      invariant todo <= active && at.lens.Keys == g.lens.Keys == start.Keys
      invariant Between(net, unheard', start, unknown, passes, g, got, todo, at)
      invariant Active(at) <= active && (!grew ==> Active(at) <= todo)
      decreases todo
    {
      var c :| c in todo;
      var usedUp;
      at, usedUp := Measure(net, g, unknown, got, at, c, unheard, bad, start, passes, todo);
      grew := grew || usedUp;
      todo := todo - {c};
    }
    PassEnds(net, unheard', start, unknown, passes, g, got, at);
    r := Success(at);
  }

  lemma SlackPositive(unknown: map<Writer, nat>, c: Chain)
    requires c.Index?
    ensures 1 <= SlackOf(unknown, c)
  {
  }

  lemma GuessKeys(net: Net, unheard: set<Key>, start: map<Chain, nat>, unknown: map<Writer, nat>, passes: nat, g: Guess)
    requires After(net, unheard, start, unknown, passes, g)
    ensures g.lens.Keys == start.Keys
  {
  }

  lemma ReadDone(net: Net, g: Guess, unknown: map<Writer, nat>, got: Net, bad: set<Key>)
    requires TreeChains(g.lens.Keys)
    requires var entries, probes := EntryKeys(Active(g), g.lens), ProbeRange(Active(g), g.lens, unknown);
             HonestRead(net, entries + probes, got, bad) && got.Keys !! bad && bad <= entries + probes
             && entries * bad == {}
    ensures PassRead(net, g, unknown, got, bad) && Truthful(net, got)
  {
  }

  lemma StillStands(net: Net, unheard: set<Key>, bad: set<Key>, start: map<Chain, nat>, unknown: map<Writer, nat>,
                    passes: nat,
                    before: Guess, got: Net, todo: set<Chain>, g: Guess, c: Chain)
    requires Between(net, unheard + bad, start, unknown, passes, before, got, todo, g) && c in todo && c in start
             && c.Index? && c.w.Of?
    requires After(net, unheard, start, unknown, passes, before)
    ensures c.w.field !in g.fallback ==>
              && c in g.lens && g.lens[c] == before.lens[c] && c !in g.done && g.kv == before.kv + got
              && TrackedOf(net, unheard, start, unknown, passes, before, c)
  {
    hide TrackedOf, SlackOf, Mispredicted;
  }

  lemma {:induction false} SettledLifts(net: Net, unheard: set<Key>, start: map<Chain, nat>, unknown: map<Writer, nat>,
                                        passes: nat, g: Guess, upTo: nat)
    requires TreeChains(g.lens.Keys) && After(net, unheard, start, unknown, passes, g) && AllSettled(g)
             && passes <= upTo
    ensures After(net, unheard, start, unknown, upTo, g)
    decreases upTo - passes
  {
    hide Tracked, SlackOf, Mispredicted;
    if passes < upTo {
      forall c | c in start && c.w.field !in g.fallback
        ensures TrackedOf(net, unheard, start, unknown, passes + 1, g, c)
      {
        assert c !in Active(g);
        assert g.kv + map[] == g.kv && unheard + {} == unheard;
        TrackedLifts(net, unheard, {}, c, start[c], SlackOf(unknown, c), passes, g.lens[c], g.kv, map[]);
      }
      SettledLifts(net, unheard, start, unknown, passes + 1, g, upTo);
    }
  }

  /** Up to three passes over predicted lengths. */
  method Verify(net: Net, lens: map<Chain, nat>, unknown: map<Writer, nat>, silent: set<Key>)
    returns (r: Result<Guess, set<Key>>, ghost unheard: set<Key>)
    requires TreeChains(lens.Keys)
    ensures silent == {} ==> r.Success?
    ensures unheard <= silent
    ensures r.Success? ==> After(net, unheard, lens, unknown, 3, r.value)
  {
    hide SlackOf, After;
    var g := Guess(lens, {}, {}, map[]);
    unheard := {};
    StartsTracked(net, lens, unknown);
    var passes, more := 0, true;
    while passes < 3 && more
      invariant passes <= 3 && TreeChains(g.lens.Keys)
      invariant After(net, unheard, lens, unknown, passes, g) && unheard <= silent
      invariant !more ==> AllSettled(g)
      decreases 3 - passes, more
    {
      if AllSettled(g) {
        more := false;
      } else {
        var next;
        next, more, unheard := Pass(net, g, unknown, silent, unheard, lens, passes);
        if next.Failure? {
          return next, unheard;
        }
        g := next.value;
        GuessKeys(net, unheard, lens, unknown, passes + 1, g);
        passes := passes + 1;
      }
    }
    if passes < 3 {
      SettledLifts(net, unheard, lens, unknown, passes, g, 3);
    }
    return Success(g), unheard;
  }

  lemma StartsTracked(net: Net, lens: map<Chain, nat>, unknown: map<Writer, nat>)
    requires TreeChains(lens.Keys)
    ensures After(net, {}, lens, unknown, 0, Guess(lens, {}, {}, map[]))
  {
    hide SlackOf;
  }
}
