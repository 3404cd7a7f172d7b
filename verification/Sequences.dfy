/** Network-atomic counters: slots claimed by insert-if-absent on every reachable replica (Owner.next_value,
    next_values and _put_nx in blindrange/client.py, Store.put_nx in blindrange/node.py). */
module Sequences {
  import opened Basics

  type Node = nat
  type Client = nat

  /** One claim of a slot: replicas still to be asked, replicas that answered, and whether none of them had the slot. */
  datatype Claim = Claim(client: Client, slot: nat, todo: set<Node>, reached: set<Node>, clear: bool)

  /** What a client knows. cached is the counter it keeps from call to call, and begun the last slot it went for.
      During a call: start is what the counter was, at where the call has got to, won the slots it has won so far; and
      while a wave of claims is under way pending are those not collected yet. */
  datatype Caller = Caller(cached: nat, begun: nat, busy: bool, waving: bool, start: nat, at: nat, pending: set<nat>,
                           won: set<nat>)

  datatype Given = Given(client: Client, number: nat)

  /** Slots as the replicas hold them, by the claim that put them there; all claims so far; the clients; and the
      numbers handed out, in the order they were. */
  datatype World = World(held: map<(Node, nat), nat>, claims: seq<Claim>, callers: map<Client, Caller>,
                         given: seq<Given>) {
    function Of(c: Client): Caller {
      if c in callers then callers[c] else Caller(0, 0, false, false, 0, 0, {}, {})
    }
  }

  /** What can happen next: a call's search for the chain's end, a wave of candidates, the start of one claim, an
      answer or none from one replica, a value that lands at a replica without the claim hearing of it, the collection
      of a finished claim, the end of a wave, and the end of a call. */
  datatype Action =
    | Call(c: Client, end: nat)
    | Wave(c: Client, size: nat)
    | Begin(c: Client, route: set<Node>)
    | Reach(id: nat, node: Node)
    | Miss(id: nat, node: Node)
    | Land(id: nat, node: Node)
    | Collect(c: Client, id: nat)
    | EndWave(c: Client)
    | Return(c: Client)
    | GiveUp(c: Client)

  /** A claim has won: everyone was asked, and no replica that answered had the slot. */
  predicate Won(q: Claim) {
    q.todo == {} && q.clear
  }

  /** Some of the slots after lo, up to hi, in order. */
  function InOrder(s: set<nat>, lo: nat, hi: nat): seq<nat>
    requires lo <= hi
  {
    if lo == hi then [] else InOrder(s, lo, hi - 1) + if hi in s then [hi] else []
  }

  function GivenTo(c: Client, numbers: seq<nat>): (out: seq<Given>)
    ensures |out| == |numbers| && forall i :: 0 <= i < |numbers| ==> out[i] == Given(c, numbers[i])
  {
    seq(|numbers|, i requires 0 <= i < |numbers| => Given(c, numbers[i]))
  }

  function Next(w: World, a: Action): Option<World> {
    match a
    case Call(c, end) =>
      // The search starts at the counter and stops there or at a slot some replica has.
      var q := w.Of(c);
      if !q.busy && (end == q.cached || (end > q.cached && exists k :: k in w.held && k.1 == end)) then
        Some(w.(callers :=
                w.callers[c := q.(busy := true, waving := false, start := q.cached, at := end, pending := {},
                                  won := {})]))
      else None
    case Wave(c, size) =>
      var q := w.Of(c);
      if q.busy && !q.waving
        then Some(w.(callers := w.callers[c := q.(waving := true, begun := q.at, at := q.at + size)])) else None
    case Begin(c, route) =>
      var q := w.Of(c);
      if q.waving && q.begun < q.at then
        Some(w.(claims := w.claims + [Claim(c, q.begun + 1, route, {}, true)],
                callers := w.callers[c := q.(begun := q.begun + 1, pending := q.pending + {|w.claims|})]))
      else None
    case Reach(id, node) =>
      // A replica takes the claim's value unless it has one; the claim learns which.
      if id < |w.claims| && node in w.claims[id].todo then
        var q := w.claims[id];
        var asked := q.(todo := q.todo - {node}, reached := q.reached + {node});
        if (node, q.slot) in w.held then Some(w.(claims := w.claims[id := asked.(clear := false)]))
        else Some(w.(held := w.held[(node, q.slot) := id], claims := w.claims[id := asked]))
      else None
    case Miss(id, node) =>
      if id < |w.claims| && node in w.claims[id].todo then
        Some(w.(claims := w.claims[id := w.claims[id].(todo := w.claims[id].todo - {node})]))
      else None
    case Land(id, node) =>
      // The reply was lost, or the request was late, or another replica passed the value on.
      if id < |w.claims| && (node, w.claims[id].slot) !in w.held
        then Some(w.(held := w.held[(node, w.claims[id].slot) := id])) else None
    case Collect(c, id) =>
      var q := w.Of(c);
      if q.waving && id in q.pending && id < |w.claims| && w.claims[id].todo == {} then
        Some(w.(callers :=
                w.callers[c := q.(pending := q.pending - {id}, won := if w.claims[id].clear
                                  then q.won + {w.claims[id].slot} else q.won)]))
      else None
    case EndWave(c) =>
      var q := w.Of(c);
      if q.waving && q.begun == q.at && q.pending == {}
        then Some(w.(callers := w.callers[c := q.(waving := false, cached := q.at)])) else None
    case Return(c) =>
      var q := w.Of(c);
      if q.busy && !q.waving && q.start <= q.cached then
        Some(w.(callers := w.callers[c := q.(busy := false)],
                given := w.given + GivenTo(c, InOrder(q.won, q.start, q.cached))))
      else None
    case GiveUp(c) =>
      var q := w.Of(c);
      if q.busy && !q.waving then Some(w.(callers := w.callers[c := q.(busy := false)])) else None
  }

  ghost predicate Step(w: World, w': World) {
    exists a :: Next(w, a) == Some(w')
  }

  ghost predicate Run(ws: seq<World>) {
    && ws != [] && ws[0] == World(map[], [], map[], [])
    && forall k :: 0 <= k < |ws| - 1 ==> Step(ws[k], ws[k + 1])
  }

  // ------------------------------------------------------------ what every step keeps

  /** A claim still clear holds its slot at every replica that has answered it. */
  ghost predicate ClearHolds(w: World) {
    forall id, a :: 0 <= id < |w.claims| && w.claims[id].clear && a in w.claims[id].reached ==>
      (a, w.claims[id].slot) in w.held && w.held[(a, w.claims[id].slot)] == id
  }

  /** A client goes for one slot after another, none past the last it has begun. */
  ghost predicate Tried(w: World) {
    && (forall id :: 0 <= id < |w.claims| ==> 1 <= w.claims[id].slot <= w.Of(w.claims[id].client).begun)
    && (forall i, j :: 0 <= i < j < |w.claims| && w.claims[i].client == w.claims[j].client ==>
        w.claims[i].slot < w.claims[j].slot)
  }

  /** A slot is a client's: one of its claims has won it. */
  ghost predicate Owns(w: World, c: Client, x: nat) {
    exists id :: 0 <= id < |w.claims| && w.claims[id].client == c && w.claims[id].slot == x && Won(w.claims[id])
  }

  /** Outside a call the counter is at least every slot the client has tried; inside, what it has collected it owns,
      all of it past the counter it came with. */
  ghost predicate CallerRight(w: World, c: Client) {
    var q := w.Of(c);
    && q.cached <= q.begun && (q.waving ==> q.busy && q.begun <= q.at) && (!q.waving ==>
         q.begun == q.cached && q.pending == {})
    && (q.busy ==> q.start <= q.cached <= q.at)
    && (forall id :: id in q.pending ==> id < |w.claims| && w.claims[id].client == c && q.start < w.claims[id].slot)
    && (q.busy ==> forall x :: x in q.won ==> q.start < x <= q.begun && Owns(w, c, x))
  }

  ghost predicate CallersRight(w: World) {
    forall c :: CallerRight(w, c)
  }

  /** How far the numbers handed to a client go. */
  function Reserved(q: Caller): nat {
    if q.busy then q.start else q.cached
  }

  /** Numbers handed out are owned, and each client's increase. */
  ghost predicate GivenRight(w: World) {
    && (forall i :: 0 <= i < |w.given| ==>
        Owns(w, w.given[i].client, w.given[i].number) && w.given[i].number <= Reserved(w.Of(w.given[i].client)))
    && (forall i, j :: 0 <= i < j < |w.given| && w.given[i].client == w.given[j].client ==>
        w.given[i].number < w.given[j].number)
  }

  ghost predicate Inv(w: World) {
    ClearHolds(w) && Tried(w) && CallersRight(w) && GivenRight(w)
  }

  /** Claims that were there stay, with client and slot, and one that has won stays won. */
  ghost predicate ClaimsStay(w: World, w': World) {
    && |w.claims| <= |w'.claims|
    && forall id :: 0 <= id < |w.claims| ==>
         && w'.claims[id].client == w.claims[id].client && w'.claims[id].slot == w.claims[id].slot
         && w'.claims[id].todo <= w.claims[id].todo && (Won(w.claims[id]) ==> Won(w'.claims[id]))
  }

  lemma OwnsStays(w: World, w': World, c: Client, x: nat)
    requires ClaimsStay(w, w') && Owns(w, c, x)
    ensures Owns(w', c, x)
  {
    var id :| 0 <= id < |w.claims| && w.claims[id].client == c && w.claims[id].slot == x && Won(w.claims[id]);
    assert w'.claims[id].client == c && w'.claims[id].slot == x && Won(w'.claims[id]);
  }

  lemma StepStays(w: World, a: Action, w': World)
    requires Next(w, a) == Some(w')
    ensures ClaimsStay(w, w')
  {
    hide InOrder, GivenTo;
  }

  lemma StepHolds(w: World, a: Action, w': World)
    requires ClearHolds(w) && Next(w, a) == Some(w')
    ensures ClearHolds(w')
  {
    hide InOrder, GivenTo;
  }

  lemma StepTries(w: World, a: Action, w': World)
    requires Tried(w) && CallersRight(w) && Next(w, a) == Some(w')
    ensures Tried(w')
  {
    hide InOrder, GivenTo;
    if a.Call? || a.Wave? || a.Begin? {
      assert CallerRight(w, a.c);
    }
  }

  lemma {:induction false} InOrderIs(s: set<nat>, lo: nat, hi: nat)
    requires lo <= hi
    ensures var q := InOrder(s, lo, hi);
            && (forall x :: x in q <==> lo < x <= hi && x in s)
            && (forall i, j :: 0 <= i < j < |q| ==> q[i] < q[j])
  {
    if lo < hi {
      InOrderIs(s, lo, hi - 1);
      var before := InOrder(s, lo, hi - 1);
      assert forall k :: 0 <= k < |before| ==> before[k] in before;
    }
  }

  /** A step of somebody else leaves a client right. */
  lemma OthersStay(w: World, a: Action, w': World, c: Client)
    requires CallerRight(w, c) && Next(w, a) == Some(w') && w'.Of(c) == w.Of(c)
    ensures CallerRight(w', c)
  {
    hide Next, Won, Owns;
    StepStays(w, a, w');
    forall x | w.Of(c).busy && x in w.Of(c).won ensures Owns(w', c, x) {
      OwnsStays(w, w', c, x);
    }
  }

  lemma StepActs(w: World, a: Action, w': World, c: Client)
    requires Next(w, a) == Some(w')
    ensures w'.Of(c) == w.Of(c) || (!a.Reach? && !a.Miss? && !a.Land? && a.c == c)
  {
    hide InOrder, GivenTo;
  }

  lemma BeginRight(w: World, c: Client, route: set<Node>, w': World)
    requires Tried(w) && CallerRight(w, c) && Next(w, Begin(c, route)) == Some(w')
    ensures CallerRight(w', c)
  {
    hide Won, Owns;
    StepStays(w, Begin(c, route), w');
    forall x | w.Of(c).busy && x in w.Of(c).won ensures Owns(w', c, x) {
      OwnsStays(w, w', c, x);
    }
  }

  lemma CollectRight(w: World, c: Client, id: nat, w': World)
    requires Tried(w) && CallerRight(w, c) && Next(w, Collect(c, id)) == Some(w')
    ensures CallerRight(w', c)
  {
    hide Owns;
    StepStays(w, Collect(c, id), w');
    forall x | w.Of(c).busy && x in w.Of(c).won ensures Owns(w', c, x) {
      OwnsStays(w, w', c, x);
    }
    if w.claims[id].clear {
      NowOwned(w', c, id);
    }
  }

  lemma NowOwned(w: World, c: Client, id: nat)
    requires id < |w.claims| && w.claims[id].client == c && Won(w.claims[id])
    ensures Owns(w, c, w.claims[id].slot)
  {
  }

  lemma StepCallers(w: World, a: Action, w': World)
    requires Tried(w) && CallersRight(w) && Next(w, a) == Some(w')
    ensures CallersRight(w')
  {
    hide Next, CallerRight, Tried;
    forall c ensures CallerRight(w', c) {
      assert CallerRight(w, c);
      StepActs(w, a, w', c);
      if w'.Of(c) == w.Of(c) {
        OthersStay(w, a, w', c);
      } else if a.Begin? {
        BeginRight(w, c, a.route, w');
      } else if a.Collect? {
        CollectRight(w, c, a.id, w');
      } else {
        TurnRight(w, a, w', c);
      }
    }
  }

  /** The steps of a client that touch no claim. */
  lemma TurnRight(w: World, a: Action, w': World, c: Client)
    requires CallerRight(w, c) && Next(w, a) == Some(w') && (a.Call? || a.Wave? || a.EndWave? || a.Return? || a.GiveUp?)
             && a.c == c
    ensures CallerRight(w', c)
  {
    hide Won, Owns, InOrder, GivenTo;
    StepStays(w, a, w');
    forall x | w.Of(c).busy && x in w.Of(c).won ensures Owns(w', c, x) {
      OwnsStays(w, w', c, x);
    }
  }

  /** What a call has won, in order: owned, and past everything handed out before. */
  lemma NumbersOwned(w: World, c: Client, numbers: seq<nat>)
    requires CallerRight(w, c) && w.Of(c).busy && numbers == InOrder(w.Of(c).won, w.Of(c).start, w.Of(c).cached)
    ensures forall k :: 0 <= k < |numbers| ==> Owns(w, c, numbers[k]) && w.Of(c).start < numbers[k] <= w.Of(c).cached
    ensures forall i, j :: 0 <= i < j < |numbers| ==> numbers[i] < numbers[j]
  {
    hide Owns;
    var q := w.Of(c);
    InOrderIs(q.won, q.start, q.cached);
    forall k | 0 <= k < |numbers| ensures Owns(w, c, numbers[k]) && q.start < numbers[k] <= q.cached {
      assert numbers[k] in numbers;
    }
  }

  lemma ReturnGives(w: World, c: Client, w': World)
    requires CallerRight(w, c) && GivenRight(w) && Next(w, Return(c)) == Some(w')
    ensures GivenRight(w')
  {
    hide Owns, InOrder, CallerRight;
    var q := w.Of(c);
    assert q.busy;
    var numbers := InOrder(q.won, q.start, q.cached);
    NumbersOwned(w, c, numbers);
    StepStays(w, Return(c), w');
    forall i | 0 <= i < |w'.given|
      ensures Owns(w', w'.given[i].client, w'.given[i].number)
              && w'.given[i].number <= Reserved(w'.Of(w'.given[i].client))
    {
      if i < |w.given| {
        OwnsStays(w, w', w.given[i].client, w.given[i].number);
      } else {
        var k := i - |w.given|;
        assert w'.given[i] == Given(c, numbers[k]);
        OwnsStays(w, w', c, numbers[k]);
      }
    }
  }

  lemma OtherGives(w: World, a: Action, w': World)
    requires CallersRight(w) && GivenRight(w) && Next(w, a) == Some(w') && !a.Return?
    ensures GivenRight(w')
  {
    hide Owns;
    StepStays(w, a, w');
    forall i | 0 <= i < |w'.given|
      ensures Owns(w', w'.given[i].client, w'.given[i].number)
              && w'.given[i].number <= Reserved(w'.Of(w'.given[i].client))
    {
      OwnsStays(w, w', w.given[i].client, w.given[i].number);
      ReservedStays(w, a, w', w.given[i].client);
    }
  }

  lemma ReservedStays(w: World, a: Action, w': World, c: Client)
    requires CallersRight(w) && Next(w, a) == Some(w')
    ensures Reserved(w.Of(c)) <= Reserved(w'.Of(c)) && w'.given == if a.Return? then w'.given else w.given
  {
    hide InOrder, GivenTo;
    assert CallerRight(w, c);
  }

  lemma StepKeeps(w: World, w': World)
    requires Inv(w) && Step(w, w')
    ensures Inv(w')
  {
    hide Next, ClearHolds, Tried, CallersRight, GivenRight;
    var a :| Next(w, a) == Some(w');
    StepHolds(w, a, w');
    StepTries(w, a, w');
    StepCallers(w, a, w');
    if a.Return? {
      assert CallerRight(w, a.c) by { OfAll(w, a.c); }
      ReturnGives(w, a.c, w');
    } else {
      OtherGives(w, a, w');
    }
  }

  lemma OfAll(w: World, c: Client)
    requires CallersRight(w)
    ensures CallerRight(w, c)
  {
    hide CallerRight;
  }

  lemma {:induction false} RunKeeps(ws: seq<World>, k: nat)
    requires Run(ws) && k < |ws|
    ensures Inv(ws[k])
  {
    hide Step;
    if k > 0 {
      RunKeeps(ws, k - 1);
      StepKeeps(ws[k - 1], ws[k]);
    }
  }

  // ------------------------------------------------------------ the numbers handed out

  /** Two claims of one slot that have both won: of different clients, and no replica has answered both. */
  ghost predicate Split(w: World, i: nat, j: nat, slot: nat) {
    && i < |w.claims| && j < |w.claims| && i != j && Won(w.claims[i]) && Won(w.claims[j])
    && w.claims[i].slot == slot && w.claims[j].slot == slot
    && w.claims[i].client != w.claims[j].client && w.claims[i].reached !! w.claims[j].reached
  }

  lemma LaterIsLarger(w: World, a: nat, b: nat)
    requires Tried(w) && a < b < |w.claims|
    ensures w.claims[a].client == w.claims[b].client ==> w.claims[a].slot < w.claims[b].slot
  {
  }

  /** However claims interleave, at most one claim of a slot wins among those that reach a common replica. */
  lemma OneWinner(ws: seq<World>, k: nat, i: nat, j: nat)
    requires Run(ws) && k < |ws| && i < |ws[k].claims| && j < |ws[k].claims| && i != j
    requires Won(ws[k].claims[i]) && Won(ws[k].claims[j]) && ws[k].claims[i].slot == ws[k].claims[j].slot
    ensures Split(ws[k], i, j, ws[k].claims[i].slot)
  {
    RunKeeps(ws, k);
    var a, b := if i < j then i else j, if i < j then j else i;
    LaterIsLarger(ws[k], a, b);
  }

  /** A number is handed out twice only to two clients whose claims of it reached no common replica: where competing
      claims always do, every number that any client is handed in any run is handed out once. */
  lemma NumbersUnique(ws: seq<World>, k: nat, i: nat, j: nat)
    requires Run(ws) && k < |ws| && i < j < |ws[k].given| && ws[k].given[i].number == ws[k].given[j].number
    ensures ws[k].given[i].client != ws[k].given[j].client
    ensures exists a: nat, b: nat :: Split(ws[k], a, b, ws[k].given[i].number)
                           && ws[k].claims[a].client == ws[k].given[i].client
                           && ws[k].claims[b].client == ws[k].given[j].client
  {
    hide Split;
    RunKeeps(ws, k);
    var w := ws[k];
    var x := w.given[i].number;
    assert Owns(w, w.given[i].client, x) && Owns(w, w.given[j].client, x);
    var a: nat :| 0 <= a < |w.claims| && w.claims[a].client == w.given[i].client && w.claims[a].slot == x
        && Won(w.claims[a]);
    var b: nat :| 0 <= b < |w.claims| && w.claims[b].client == w.given[j].client && w.claims[b].slot == x
        && Won(w.claims[b]);
    OneWinner(ws, k, a, b);
  }

  /** Each client's numbers increase, within a call and from call to call. */
  lemma NumbersIncrease(ws: seq<World>, k: nat, i: nat, j: nat)
    requires Run(ws) && k < |ws| && i < j < |ws[k].given| && ws[k].given[i].client == ws[k].given[j].client
    ensures 1 <= ws[k].given[i].number < ws[k].given[j].number
  {
    RunKeeps(ws, k);
    var id :| 0 <= id < |ws[k].claims| && ws[k].claims[id].client == ws[k].given[i].client
        && ws[k].claims[id].slot == ws[k].given[i].number;
  }

  lemma Onwards(ws: seq<World>, a: Action) returns (ws': seq<World>, w: World)
    requires Run(ws) && Next(ws[|ws| - 1], a).Some?
    ensures Run(ws') && ws' == ws + [w] && w == Next(ws[|ws| - 1], a).value
  {
    hide Next;
    w := Next(ws[|ws| - 1], a).value;
    ws' := ws + [w];
    assert Step(ws[|ws| - 1], w);
  }

  /** A client goes for its first number at one replica. */
  lemma GoesFor(ws: seq<World>, w0: World, c: Client, node: Node) returns (ws': seq<World>, w: World)
    requires Run(ws) && ws != [] && ws[|ws| - 1] == w0 && w0.Of(c) == Caller(0, 0, false, false, 0, 0, {}, {})
    ensures Run(ws') && ws' != [] && w == ws'[|ws'| - 1]
    ensures w == w0.(claims := w0.claims + [Claim(c, 1, {node}, {}, true)],
                     callers := w0.callers[c := Caller(0, 1, true, true, 0, 1, {|w0.claims|}, {})])
  {
    hide Run, InOrder;
    ws', w := Onwards(ws, Call(c, 0));
    ws', w := Onwards(ws', Wave(c, 1));
    ws', w := Onwards(ws', Begin(c, {node}));
    assert w.Of(c).pending == {|w0.claims|};
    assert w.callers == w0.callers[c := Caller(0, 1, true, true, 0, 1, {|w0.claims|}, {})];
  }

  /** ... and gets it. */
  lemma Gets(ws: seq<World>, w0: World, c: Client, node: Node, n: nat) returns (ws': seq<World>, w: World)
    requires Run(ws) && ws != [] && ws[|ws| - 1] == w0 && n < |w0.claims|
             && w0.claims[n] == Claim(c, 1, {node}, {}, true)
    requires c in w0.callers && w0.callers[c] == Caller(0, 1, true, true, 0, 1, {n}, {}) && (node, 1) !in w0.held
    ensures Run(ws') && ws' != [] && w == ws'[|ws'| - 1]
    ensures w.given == w0.given + [Given(c, 1)] && w.held == w0.held[(node, 1) := n] && forall d :: d != c ==>
              w.Of(d) == w0.Of(d)
  {
    hide Run, InOrder;
    ws', w := Onwards(ws, Reach(n, node));
    assert w.claims[n].todo == {};
    ws', w := Onwards(ws', Collect(c, n));
    assert w.Of(c) == Caller(0, 1, true, true, 0, 1, {}, {1});
    ws', w := Onwards(ws', EndWave(c));
    OneInOrder();
    ws', w := Onwards(ws', Return(c));
    assert GivenTo(c, [1]) == [Given(c, 1)];
  }

  lemma OneInOrder()
    ensures InOrder({1}, 0, 1) == [1]
  {
    assert InOrder({1}, 0, 0) + [1] == [1];
  }

  /** Where no replica is shared a number can be handed out twice: two clients, one replica each. */
  lemma DisjointClaimsBothWin() returns (ws: seq<World>)
    ensures Run(ws) && ws[|ws| - 1].given == [Given(0, 1), Given(1, 1)]
  {
    hide Next;
    var w := World(map[], [], map[], []);
    ws := [w];
    ws, w := GoesFor(ws, w, 0, 7);
    ws, w := Gets(ws, w, 0, 7, 0);
    var n := |w.claims|;
    ws, w := GoesFor(ws, w, 1, 8);
    ws, w := Gets(ws, w, 1, 8, n);
  }

  // ------------------------------------------------------------ the client's loops

  predicate ActsFor(a: Action, c: Client) {
    !a.Reach? && !a.Miss? && !a.Land? && a.c == c
  }

  /** The replicas and all clients, and how they came to be as they are. */
  class Network {
    var w: World
    ghost var ws: seq<World>

    ghost predicate Valid()
      reads this
    {
      Run(ws) && ws[|ws| - 1] == w
    }

    constructor ()
      ensures Valid() && w == World(map[], [], map[], [])
    {
      w, ws := World(map[], [], map[], []), [World(map[], [], map[], [])];
    }

    method Do(a: Action)
      requires Valid() && Next(w, a).Some?
      modifies this
      ensures Valid() && w == Next(old(w), a).value && ws == old(ws) + [w] && ClaimsStay(old(w), w)
    {
      hide Next;
      StepStays(w, a, Next(w, a).value);
      assert Step(w, Next(w, a).value);
      w := Next(w, a).value;
      ws := ws + [w];
    }

    /** Meanwhile replicas answer, or do not, whatever claims there are, and other clients go about their calls. */
    method Others(c: Client)
      requires Valid()
      modifies this
      ensures Valid() && old(ws) <= ws && ClaimsStay(old(w), w) && w.Of(c) == old(w).Of(c)
      ensures forall g :: g in w.given && g.client == c ==> g in old(w).given
    {
      hide Next, ClaimsStay;
      StaySame(w);
      var n: int := *;
      for k := 0 to Max(n, 0)
        invariant Valid() && old(ws) <= ws && ClaimsStay(old(w), w) && w.Of(c) == old(w).Of(c)
        invariant forall g :: g in w.given && g.client == c ==> g in old(w).given
      {
        var a: Action := *;
        if Next(w, a).Some? && !ActsFor(a, c) {
          ghost var before := w;
          StepActs(w, a, Next(w, a).value, c);
          GivenToOthers(w, a, Next(w, a).value, c);
          Do(a);
          StayOn(old(w), before, w);
        }
      }
    }
  }

  lemma StaySame(w: World)
    ensures ClaimsStay(w, w)
  {
  }

  lemma StayOn(w: World, w1: World, w': World)
    requires ClaimsStay(w, w1) && ClaimsStay(w1, w')
    ensures ClaimsStay(w, w')
  {
  }

  lemma GivenToOthers(w: World, a: Action, w': World, c: Client)
    requires Next(w, a) == Some(w') && !ActsFor(a, c)
    ensures forall g :: g in w'.given && g.client == c ==> g in w.given
  {
    hide InOrder;
  }

  /** What a call is in the middle of. */
  ghost predicate InCall(net: Network, c: Client, before: seq<World>, given: seq<Given>)
    reads net
  {
    && net.Valid() && before <= net.ws && net.w.Of(c).busy
    && forall g :: g in net.w.given && g.client == c ==> g in given
  }

  /** Wait for one claim: replicas that have not answered yet do, or are given up on, one after another. */
  method Await(net: Network, c: Client, id: nat, ghost before: seq<World>, ghost given: seq<Given>)
    requires InCall(net, c, before, given) && id < |net.w.claims|
    modifies net
    ensures InCall(net, c, before, given) && net.w.Of(c) == old(net.w).Of(c) && ClaimsStay(old(net.w), net.w)
    ensures id < |net.w.claims| && net.w.claims[id].todo == {}
  {
    hide Next, ClaimsStay, Run;
    StaySame(net.w);
    while net.w.claims[id].todo != {}
      invariant InCall(net, c, before, given) && net.w.Of(c) == old(net.w).Of(c) && ClaimsStay(old(net.w), net.w)
      invariant id < |net.w.claims|
      decreases net.w.claims[id].todo
    {
      ghost var w0 := net.w;
      net.Others(c);
      ghost var w1 := net.w;
      StayOn(old(net.w), w0, w1);
      StayOne(w0, w1, id);
      if net.w.claims[id].todo != {} {
        var node :| node in net.w.claims[id].todo;
        var answers: bool := *;
        var a := if answers then Reach(id, node) else Miss(id, node);
        AnswerOne(net.w, id, node, a, c);
        net.Do(a);
        StayOn(old(net.w), w1, net.w);
      }
    }
  }

  lemma StayOne(w: World, w': World, id: nat)
    requires ClaimsStay(w, w') && id < |w.claims|
    ensures id < |w'.claims| && w'.claims[id].todo <= w.claims[id].todo
    ensures w'.claims[id].slot == w.claims[id].slot && w'.claims[id].client == w.claims[id].client
  {
  }

  lemma AnswerOne(w: World, id: nat, node: Node, a: Action, c: Client)
    requires id < |w.claims| && node in w.claims[id].todo && (a == Reach(id, node) || a == Miss(id, node))
    ensures Next(w, a).Some?
    ensures var w' := Next(w, a).value;
            && |w'.claims| == |w.claims| && w'.claims[id].todo == w.claims[id].todo - {node} && w'.Of(c) == w.Of(c)
            && w'.given == w.given
  {
  }

  /** Start the claims of one wave, each at the replicas of its slot. */
  method Submit(net: Network, c: Client, ghost before: seq<World>, ghost given: seq<Given>)
    requires InCall(net, c, before, given) && net.w.Of(c).waving && net.w.Of(c).begun <= net.w.Of(c).at
    modifies net
    ensures InCall(net, c, before, given)
    ensures net.w.Of(c) == old(net.w).Of(c).(begun := old(net.w).Of(c).at, pending := net.w.Of(c).pending)
    ensures |net.w.Of(c).pending| <= |old(net.w).Of(c).pending| + (old(net.w).Of(c).at - old(net.w).Of(c).begun)
  {
    hide ClaimsStay, Run;
    while net.w.Of(c).begun < net.w.Of(c).at
      invariant InCall(net, c, before, given) && net.w.Of(c).begun <= net.w.Of(c).at
      invariant net.w.Of(c) == old(net.w).Of(c).(begun := net.w.Of(c).begun, pending := net.w.Of(c).pending)
      invariant |net.w.Of(c).pending| <= |old(net.w).Of(c).pending| + (net.w.Of(c).begun - old(net.w).Of(c).begun)
      decreases net.w.Of(c).at - net.w.Of(c).begun
    {
      net.Others(c);
      var route: set<Node> := *;
      net.Do(Begin(c, route));
    }
  }

  /** Collect the claims of a wave as they complete, in whatever order that is. */
  method Gather(net: Network, c: Client, ghost before: seq<World>, ghost given: seq<Given>)
    requires InCall(net, c, before, given) && net.w.Of(c).waving && net.w.Of(c).begun == net.w.Of(c).at
    modifies net
    ensures InCall(net, c, before, given)
    ensures net.w.Of(c) == old(net.w).Of(c).(pending := {}, won := net.w.Of(c).won)
    ensures |net.w.Of(c).won| <= |old(net.w).Of(c).won| + |old(net.w).Of(c).pending|
  {
    hide ClaimsStay, Next, Run;
    while net.w.Of(c).pending != {}
      invariant InCall(net, c, before, given)
      invariant net.w.Of(c) == old(net.w).Of(c).(pending := net.w.Of(c).pending, won := net.w.Of(c).won)
      invariant |net.w.Of(c).won| + |net.w.Of(c).pending| <= |old(net.w).Of(c).won| + |old(net.w).Of(c).pending|
      decreases net.w.Of(c).pending
    {
      var id :| id in net.w.Of(c).pending;
      PendingIsClaim(net.ws, net.w, c, id);
      Await(net, c, id, before, given);
      CollectOne(net.w, c, id);
      net.Do(Collect(c, id));
    }
  }

  lemma PendingIsClaim(ws: seq<World>, w: World, c: Client, id: nat)
    requires Run(ws) && ws[|ws| - 1] == w && id in w.Of(c).pending
    ensures id < |w.claims|
  {
    hide Run, ClearHolds, Tried, GivenRight;
    assert ws != [] by { RunStarts(ws); }
    RunKeeps(ws, |ws| - 1);
    assert CallerRight(w, c);
  }

  lemma RunStarts(ws: seq<World>)
    requires Run(ws)
    ensures ws != []
  {
    hide Step;
  }

  lemma CollectOne(w: World, c: Client, id: nat)
    requires w.Of(c).waving && id in w.Of(c).pending && id < |w.claims| && w.claims[id].todo == {}
    ensures Next(w, Collect(c, id)).Some?
    ensures var w' := Next(w, Collect(c, id)).value;
            && w'.given == w.given && w'.Of(c) == w.Of(c).(pending := w.Of(c).pending - {id}, won := w'.Of(c).won)
            && |w'.Of(c).won| <= |w.Of(c).won| + 1
  {
  }

  /** What a run guarantees a client between two waves of a call. */
  ghost predicate Between(q: Caller) {
    q.busy && !q.waving && q.pending == {} && q.start <= q.cached <= q.at && forall x :: x in q.won ==>
        q.start < x <= q.cached
  }

  lemma BetweenWaves(ws: seq<World>, w: World, c: Client)
    requires Run(ws) && ws[|ws| - 1] == w && w.Of(c).busy && !w.Of(c).waving
    ensures Between(w.Of(c))
  {
    hide Run, ClearHolds, Tried, GivenRight;
    assert ws != [] by { RunStarts(ws); }
    RunKeeps(ws, |ws| - 1);
    assert CallerRight(w, c);
  }

  /** One wave of claims. */
  method OneWave(net: Network, c: Client, size: nat, ghost before: seq<World>, ghost given: seq<Given>)
    requires InCall(net, c, before, given) && Between(net.w.Of(c))
    modifies net
    ensures InCall(net, c, before, given) && Between(net.w.Of(c))
            && net.w.Of(c).cached == net.w.Of(c).at == old(net.w).Of(c).at + size
    ensures |net.w.Of(c).won| <= |old(net.w).Of(c).won| + size
  {
    hide ClaimsStay, Run, InOrder;
    net.Do(Wave(c, size));
    Submit(net, c, before, given);
    Gather(net, c, before, given);
    net.Do(EndWave(c));
    BetweenWaves(net.ws, net.w, c);
  }

  /** The numbers a call has won, in order: as many as claims were won. */
  function Numbers(q: Caller): (numbers: seq<nat>)
    requires Between(q)
    ensures |numbers| == |q.won|
  {
    InOrderIs(q.won, q.start, q.cached);
    assert Elements(InOrder(q.won, q.start, q.cached)) == q.won;
    DistinctSize(InOrder(q.won, q.start, q.cached));
    InOrder(q.won, q.start, q.cached)
  }

  /** Where a search from the counter may come out: at the counter, or at a slot some replica has. */
  method Gallop(net: Network, c: Client) returns (end: nat)
    requires net.Valid() && !net.w.Of(c).busy
    ensures Next(net.w, Call(c, end)).Some?
  {
    var guess: int := *;
    var q := net.w.Of(c);
    if guess > q.cached && exists k :: k in net.w.held && k.1 == guess {
      return guess;
    }
    return q.cached;
  }

  /** What came of a call: numbers the client was handed by its last step, or none. */
  ghost predicate HandedOut(before: World, ws: seq<World>, w: World, c: Client, r: Option<seq<nat>>) {
    match r
    case Some(numbers) =>
      && |ws| >= 2 && ws[|ws| - 1] == w && w.given == ws[|ws| - 2].given + GivenTo(c, numbers)
      && forall g :: g in ws[|ws| - 2].given && g.client == c ==> g in before.given
    case None => forall g :: g in w.given && g.client == c ==> g in before.given
  }

  /** Claim several numbers in waves. The call is a run of the protocol's steps, with those of replicas and other
      clients in between; if it returns, the numbers it returns are the ones handed out by its last step, n of them,
      and otherwise it is handed none: what it won is spent. */
  method NextValues(net: Network, c: Client, n: int, waves: nat) returns (r: Option<seq<nat>>)
    requires net.Valid() && !net.w.Of(c).busy
    modifies net
    ensures net.Valid() && !net.w.Of(c).busy && old(net.ws) <= net.ws
    ensures n <= 0 ==> r == Some([]) && net.ws == old(net.ws)
    ensures n > 0 ==> HandedOut(old(net.w), net.ws, net.w, c, r) && (r.Some? ==> |r.value| == n)
  {
    hide ClaimsStay, Run, InOrder;
    if n <= 0 {
      return Some([]);
    }
    ghost var before, given := net.ws, net.w.given;
    var end := Gallop(net, c);
    net.Do(Call(c, end));
    BetweenWaves(net.ws, net.w, c);
    var left := waves;
    while |net.w.Of(c).won| < n && left > 0
      invariant InCall(net, c, before, given) && Between(net.w.Of(c)) && |net.w.Of(c).won| <= n
      decreases left
    {
      left := left - 1;
      OneWave(net, c, n - |net.w.Of(c).won|, before, given);
    }
    var numbers := Numbers(net.w.Of(c));
    if |numbers| < n {
      net.Do(GiveUp(c));
      return None;
    }
    net.Do(Return(c));
    return Some(numbers);
  }

  /** Claim one number: one slot after another until one is won or time is up. */
  method NextValue(net: Network, c: Client, tries: nat) returns (r: Option<nat>)
    requires net.Valid() && !net.w.Of(c).busy
    modifies net
    ensures net.Valid() && !net.w.Of(c).busy && old(net.ws) <= net.ws
    ensures HandedOut(old(net.w), net.ws, net.w, c, if r.Some? then Some([r.value]) else None)
  {
    hide ClaimsStay, Run, InOrder;
    ghost var before, given := net.ws, net.w.given;
    var end := Gallop(net, c);
    net.Do(Call(c, end));
    BetweenWaves(net.ws, net.w, c);
    var left := tries;
    while left > 0
      invariant InCall(net, c, before, given) && Between(net.w.Of(c)) && net.w.Of(c).won == {}
      decreases left
    {
      left := left - 1;
      OneWave(net, c, 1, before, given);
      if net.w.Of(c).won != {} {
        var numbers := Numbers(net.w.Of(c));
        assert numbers == [numbers[0]];
        net.Do(Return(c));
        return Some(numbers[0]);
      }
    }
    net.Do(GiveUp(c));
    return None;
  }
}
