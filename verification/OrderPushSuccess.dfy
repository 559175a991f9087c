/** When a push succeeds: alone, exactly when the stock covers it; among others, whenever there is enough for all. */
module OrderPushSuccess {
  import opened Wrappers
  import opened Sequences
  import opened OrderPushProtocol
  import opened OrderPushSafety
  import opened OrderPushCheck
  import Runs

  /** An answered re-read condemns the order exactly when the line's pool is below zero; otherwise the pool is cleared
      and the next line is read. */
  lemma RereadCondemnsIff(f: Faults, w: World, s: Shop, o: OrderId)
    requires Enabled(f, w, s, Reread(o, true))
    ensures var t := Apply(f, w, s, Reread(o, true));
            var Placed(remote, next) := PhaseOf(s, o);
            var variant := Lines(w, o)[next].variant;
            var below := variant in w.pools && w.pools[variant] in s.stock && s.stock[w.pools[variant]] < 0;
            && (below ==> PhaseOf(t, o) == Condemned(remote) && t.orders == s.orders)
            && (!below ==> PhaseOf(t, o) == Placed(remote, next + 1))
            && (!below && variant in w.pools ==> w.pools[variant] in t.orders[remote].cleared)
            && t.stock == s.stock
  {
  }

  /** A standing order was added, and its units are gone from the pools. */
  ghost predicate HasPlaced(w: World, s: Shop, t: Shop, o: OrderId) {
    && t.orders == s.orders + [StoreOrder(o, true, {}, false, false)]
    && t.stock.Keys == s.stock.Keys
    && forall p :: p in s.stock ==> t.stock[p] == s.stock[p] - Drawn(w, Lines(w, o), p)
  }

  /** A create that is answered, or whose answer is lost, places the order and draws its units. An answered refusal is
      final and places nothing; so is a read that says the item is gone. Anything else may be tried again. */
  lemma FinalErrors(f: Faults, w: World, s: Shop, o: OrderId, step: Step)
    requires step.order == o && Enabled(f, w, s, step) && (step.Create? || step.ReadFails?)
    ensures var t := Apply(f, w, s, step);
            var final := if f.retriesFinal then Idle else Closed;
            match step
            case Create(_, Refused) => PhaseOf(t, o) == final && t.orders == s.orders && t.stock == s.stock
            case Create(_, NotMade) => PhaseOf(t, o) == Idle && t.orders == s.orders && t.stock == s.stock
            case Create(_, Answered) => PhaseOf(t, o) == Placed(|s.orders|, 0) && HasPlaced(w, s, t, o)
            case Create(_, Lost) => PhaseOf(t, o) == Idle && HasPlaced(w, s, t, o)
            case ReadFails(_, isFinal) => PhaseOf(t, o) == (if isFinal then final else Idle) && t.orders == s.orders
            case _ => true
  {
  }

  // ---- A push with nobody else under way -------------------------------------------------------------

  /** What an attempt does next when nothing goes wrong. */
  function Next(w: World, s: Shop, o: OrderId, untracked: Untracked): Option<Step> {
    var lines := Lines(w, o);
    match PhaseOf(s, o)
    case Idle => Some(Lookup(o))
    case Reading(seen) =>
      if |seen| < |lines| then
        var variant := lines[|seen|].variant;
        Some(ReadLine(o, if variant in untracked then untracked[variant] else 0))
      else Some(CheckStock(o))
    case Ready => Some(Create(o, Answered))
    case Placed(_, next) => if next < |lines| then Some(Reread(o, true)) else Some(OrderPushProtocol.Accept(o))
    case Condemned(_) => Some(Cancel(o, true))
    case Refusing(_) => Some(Refuse(o))
    case Closed => None
  }

  function Undisturbed(f: Faults, w: World, o: OrderId, untracked: Untracked): (Shop, Step) -> bool {
    (s: Shop, step: Step) => Enabled(f, w, s, step) && Next(w, s, o, untracked) == Some(step)
  }

  datatype View = View(stock: map<Pool, int>, orders: seq<StoreOrder>, phase: Phase)

  /** What is seen of the store and of the attempt; every other attempt is where it was. */
  ghost predicate Shows(s: Shop, o: OrderId, t: Shop, v: View) {
    && t.stock == v.stock && t.orders == v.orders && PhaseOf(t, o) == v.phase
    && forall q :: q != o ==> PhaseOf(t, q) == PhaseOf(s, q)
  }

  /** The undisturbed push comes to a state that looks like this. */
  ghost predicate Comes(f: Faults, w: World, untracked: Untracked, s: Shop, o: OrderId, v: View) {
    exists t :: Runs.Reaches(Undisturbed(f, w, o, untracked), Moves(f, w), s, t) && Shows(s, o, t, v)
  }

  lemma Go(f: Faults, w: World, untracked: Untracked, s: Shop, o: OrderId, v: View, step: Step, u: View)
    requires Comes(f, w, untracked, s, o, v)
    requires forall t :: Shows(s, o, t, v) ==>
      && Enabled(f, w, t, step) && Next(w, t, o, untracked) == Some(step)
      && Shows(s, o, Apply(f, w, t, step), u)
    ensures Comes(f, w, untracked, s, o, u)
  {
    var t :| Runs.Reaches(Undisturbed(f, w, o, untracked), Moves(f, w), s, t) && Shows(s, o, t, v);
    Runs.Move(Undisturbed(f, w, o, untracked), Moves(f, w), s, t, step);
    assert Shows(s, o, Apply(f, w, t, step), u);
  }

  /** No attempt is under way for the order, and the store has none. */
  ghost predicate New(s: Shop, o: OrderId) {
    PhaseOf(s, o).Idle? && forall i :: 0 <= i < |s.orders| ==> s.orders[i].owner != o
  }

  lemma LooksUp(f: Faults, w: World, untracked: Untracked, s: Shop, o: OrderId)
    requires New(s, o)
    ensures Comes(f, w, untracked, s, o, View(s.stock, s.orders, Reading([])))
  {
    Runs.Start(Undisturbed(f, w, o, untracked), Moves(f, w), s);
    assert Shows(s, o, s, View(s.stock, s.orders, Idle));
    Go(f, w, untracked, s, o, View(s.stock, s.orders, Idle), Lookup(o), View(s.stock, s.orders, Reading([])));
  }

  lemma ReadsLine(f: Faults, w: World, untracked: Untracked, s: Shop, o: OrderId, seen: seq<int>)
    requires |seen| < |Lines(w, o)| && Comes(f, w, untracked, s, o, View(s.stock, s.orders, Reading(seen)))
    ensures var line := Lines(w, o)[|seen|];
            Comes(f, w, untracked, s, o, View(s.stock, s.orders, Reading(seen + [Seen(w, s, line, untracked)])))
  {
    var line := Lines(w, o)[|seen|];
    Go(f, w, untracked, s, o, View(s.stock, s.orders, Reading(seen)),
       ReadLine(o, if line.variant in untracked then untracked[line.variant] else 0),
       View(s.stock, s.orders, Reading(seen + [Seen(w, s, line, untracked)])));
  }

  lemma {:induction false} ReadsUpTo(f: Faults, w: World, untracked: Untracked, s: Shop, o: OrderId, k: nat)
    returns (seen: seq<int>)
    requires New(s, o) && k <= |Lines(w, o)|
    ensures ReadIn(w, s, Lines(w, o)[..k], seen, untracked)
    ensures Comes(f, w, untracked, s, o, View(s.stock, s.orders, Reading(seen)))
    decreases k
  {
    if k == 0 {
      seen := [];
      LooksUp(f, w, untracked, s, o);
    } else {
      var earlier := ReadsUpTo(f, w, untracked, s, o, k - 1);
      var line := Lines(w, o)[k - 1];
      seen := earlier + [Seen(w, s, line, untracked)];
      ReadsLine(f, w, untracked, s, o, earlier);
    }
  }

  lemma Checks(f: Faults, w: World, untracked: Untracked, s: Shop, o: OrderId, seen: seq<int>)
    requires |seen| == |Lines(w, o)| && Comes(f, w, untracked, s, o, View(s.stock, s.orders, Reading(seen)))
    ensures Comes(f, w, untracked, s, o,
              View(s.stock, s.orders, if Suffices(Lines(w, o), seen) then Ready else Final(f)))
  {
    Go(f, w, untracked, s, o, View(s.stock, s.orders, Reading(seen)), CheckStock(o),
       View(s.stock, s.orders, if Suffices(Lines(w, o), seen) then Ready else Final(f)));
  }

  /** Every line read, the check passes exactly when the state has enough for each. */
  lemma Decides(f: Faults, w: World, untracked: Untracked, s: Shop, o: OrderId)
    requires New(s, o)
    ensures Comes(f, w, untracked, s, o,
              View(s.stock, s.orders, if Passes(w, s, Lines(w, o), untracked) then Ready else Final(f)))
  {
    var lines := Lines(w, o);
    var seen := ReadsUpTo(f, w, untracked, s, o, |lines|);
    assert lines[..|lines|] == lines;
    SufficesIff(w, s, lines, seen, untracked);
    Checks(f, w, untracked, s, o, seen);
  }

  lemma Places(f: Faults, w: World, untracked: Untracked, s: Shop, o: OrderId)
    requires New(s, o) && Passes(w, s, Lines(w, o), untracked)
    ensures Comes(f, w, untracked, s, o, View(Placing(w, s, o).stock, s.orders + [Fresh(o)], Placed(|s.orders|, 0)))
  {
    Decides(f, w, untracked, s, o);
    Go(f, w, untracked, s, o, View(s.stock, s.orders, Ready), Create(o, Answered),
       View(Placing(w, s, o).stock, s.orders + [Fresh(o)], Placed(|s.orders|, 0)));
  }

  /** The pool of line `k` is not below zero. */
  lemma Clears(f: Faults, w: World, untracked: Untracked, s: Shop, o: OrderId, k: nat, y: StoreOrder)
    requires k < |Lines(w, o)| && !IsOversold(w, Placing(w, s, o), Lines(w, o)[k])
    requires Comes(f, w, untracked, s, o, View(Placing(w, s, o).stock, s.orders + [y], Placed(|s.orders|, k)))
    ensures var x := y.(cleared := y.cleared + PoolsOf(w, Lines(w, o)[k]));
            Comes(f, w, untracked, s, o, View(Placing(w, s, o).stock, s.orders + [x], Placed(|s.orders|, k + 1)))
  {
    var stock := Placing(w, s, o).stock;
    var x := y.(cleared := y.cleared + PoolsOf(w, Lines(w, o)[k]));
    ReplacesLast(s.orders, y, x);
    Go(f, w, untracked, s, o, View(stock, s.orders + [y], Placed(|s.orders|, k)), Reread(o, true),
       View(stock, s.orders + [x], Placed(|s.orders|, k + 1)));
  }

  lemma ReplacesLast(orders: seq<StoreOrder>, y: StoreOrder, x: StoreOrder)
    ensures (orders + [y])[|orders| := x] == orders + [x] && (orders + [y])[|orders|] == y
  {
  }

  /** The first `k` lines' pools are not below zero once the order is placed. */
  ghost predicate HoldsUpTo(w: World, s: Shop, o: OrderId, k: nat)
    requires k <= |Lines(w, o)|
  {
    forall i :: 0 <= i < k ==> !IsOversold(w, Placing(w, s, o), Lines(w, o)[i])
  }

  lemma {:induction false} RereadsUpTo(f: Faults, w: World, untracked: Untracked, s: Shop, o: OrderId, k: nat)
    returns (x: StoreOrder)
    requires New(s, o) && Passes(w, s, Lines(w, o), untracked)
    requires k <= |Lines(w, o)| && HoldsUpTo(w, s, o, k)
    ensures x == Fresh(o).(cleared := x.cleared)
    ensures Comes(f, w, untracked, s, o, View(Placing(w, s, o).stock, s.orders + [x], Placed(|s.orders|, k)))
    decreases k
  {
    if k == 0 {
      x := Fresh(o);
      Places(f, w, untracked, s, o);
    } else {
      var y := RereadsUpTo(f, w, untracked, s, o, k - 1);
      var line := Lines(w, o)[k - 1];
      x := y.(cleared := y.cleared + PoolsOf(w, line));
      Clears(f, w, untracked, s, o, k - 1, y);
    }
  }

  lemma GivesBack(w: World, s: Shop, lines: seq<Line>)
    ensures Changed(Changed(s.stock, w, lines, -1), w, lines, 1) == s.stock
  {
  }

  lemma Condemns(f: Faults, w: World, untracked: Untracked, s: Shop, o: OrderId, k: nat, y: StoreOrder)
    requires k < |Lines(w, o)| && IsOversold(w, Placing(w, s, o), Lines(w, o)[k])
    requires Comes(f, w, untracked, s, o, View(Placing(w, s, o).stock, s.orders + [y], Placed(|s.orders|, k)))
    ensures Comes(f, w, untracked, s, o, View(Placing(w, s, o).stock, s.orders + [y], Condemned(|s.orders|)))
  {
    var stock := Placing(w, s, o).stock;
    Go(f, w, untracked, s, o, View(stock, s.orders + [y], Placed(|s.orders|, k)), Reread(o, true),
       View(stock, s.orders + [y], Condemned(|s.orders|)));
  }

  lemma TakesBack(f: Faults, w: World, untracked: Untracked, s: Shop, o: OrderId, y: StoreOrder)
    requires Comes(f, w, untracked, s, o, View(Placing(w, s, o).stock, s.orders + [y], Condemned(|s.orders|)))
    ensures Comes(f, w, untracked, s, o, View(s.stock, s.orders + [y.(stands := false)], Refusing(|s.orders|)))
  {
    ReplacesLast(s.orders, y, y.(stands := false));
    GivesBack(w, s, Lines(w, o));
    Go(f, w, untracked, s, o, View(Placing(w, s, o).stock, s.orders + [y], Condemned(|s.orders|)), Cancel(o, true),
       View(s.stock, s.orders + [y.(stands := false)], Refusing(|s.orders|)));
  }

  lemma Refuses(f: Faults, w: World, untracked: Untracked, s: Shop, o: OrderId, x: StoreOrder)
    requires Comes(f, w, untracked, s, o, View(s.stock, s.orders + [x], Refusing(|s.orders|)))
    ensures Comes(f, w, untracked, s, o, View(s.stock, s.orders + [x], Final(f)))
  {
    Go(f, w, untracked, s, o, View(s.stock, s.orders + [x], Refusing(|s.orders|)), Refuse(o),
       View(s.stock, s.orders + [x], Final(f)));
  }

  lemma Accepts(f: Faults, w: World, untracked: Untracked, s: Shop, o: OrderId, y: StoreOrder)
    requires Comes(f, w, untracked, s, o,
               View(Placing(w, s, o).stock, s.orders + [y], Placed(|s.orders|, |Lines(w, o)|)))
    ensures Comes(f, w, untracked, s, o, View(Placing(w, s, o).stock, s.orders + [y.(checked := true)], Idle))
  {
    var stock := Placing(w, s, o).stock;
    ReplacesLast(s.orders, y, y.(checked := true));
    Go(f, w, untracked, s, o, View(stock, s.orders + [y], Placed(|s.orders|, |Lines(w, o)|)),
       OrderPushProtocol.Accept(o), View(stock, s.orders + [y.(checked := true)], Idle));
  }

  /** The lines before `k` held and `k` is below zero: the order is cancelled and its units are back. */
  lemma TurnsBackAt(f: Faults, w: World, untracked: Untracked, s: Shop, o: OrderId, k: nat) returns (x: StoreOrder)
    requires New(s, o) && Passes(w, s, Lines(w, o), untracked)
    requires k < |Lines(w, o)| && HoldsUpTo(w, s, o, k) && IsOversold(w, Placing(w, s, o), Lines(w, o)[k])
    ensures x.owner == o && !x.stands && !x.checked && !x.found
    ensures Comes(f, w, untracked, s, o, View(s.stock, s.orders + [x], Final(f)))
  {
    var y := RereadsUpTo(f, w, untracked, s, o, k);
    x := y.(stands := false);
    Condemns(f, w, untracked, s, o, k, y);
    TakesBack(f, w, untracked, s, o, y);
    Refuses(f, w, untracked, s, o, x);
  }

  lemma FirstOversold(w: World, s: Shop, o: OrderId) returns (k: nat)
    requires Oversells(w, s, o)
    ensures k < |Lines(w, o)| && HoldsUpTo(w, s, o, k) && IsOversold(w, Placing(w, s, o), Lines(w, o)[k])
  {
    k := 0;
    while !IsOversold(w, Placing(w, s, o), Lines(w, o)[k])
      invariant k < |Lines(w, o)| && HoldsUpTo(w, s, o, k)
      decreases |Lines(w, o)| - k
    {
      k := k + 1;
      if k == |Lines(w, o)| {
        assert false;
      }
    }
  }

  /** The store order the push ends with, if any. */
  ghost predicate EndsWith(f: Faults, w: World, untracked: Untracked, s: Shop, o: OrderId, x: StoreOrder, accepted: bool) {
    && x.owner == o && x.stands == x.checked == accepted && !x.found
    && Comes(f, w, untracked, s, o,
         View(if accepted then Placing(w, s, o).stock else s.stock, s.orders + [x], if accepted then Idle else Final(f)))
  }

  /** A push that nobody interferes with and nothing goes wrong with is decided by the stock alone. Some line asks for
      more than its pool has: the store is left as it was and the answer is a final error. There is enough for each line
      by itself but not for all: the order is placed, cancelled and refused, and the stock is back. Otherwise the order
      stands, checked, and has drawn its units. */
  lemma UndisturbedPush(f: Faults, w: World, untracked: Untracked, s: Shop, o: OrderId)
    requires New(s, o)
    ensures !Passes(w, s, Lines(w, o), untracked) ==>
              Comes(f, w, untracked, s, o, View(s.stock, s.orders, Final(f)))
    ensures Passes(w, s, Lines(w, o), untracked) && Oversells(w, s, o) ==>
              exists x :: EndsWith(f, w, untracked, s, o, x, false)
    ensures Passes(w, s, Lines(w, o), untracked) && !Oversells(w, s, o) ==>
              exists x :: EndsWith(f, w, untracked, s, o, x, true)
  {
    Decides(f, w, untracked, s, o);
    if Passes(w, s, Lines(w, o), untracked) {
      if Oversells(w, s, o) {
        var k := FirstOversold(w, s, o);
        var x := TurnsBackAt(f, w, untracked, s, o, k);
        assert EndsWith(f, w, untracked, s, o, x, false);
      } else {
        IsAccepted(f, w, untracked, s, o);
      }
    }
  }

  lemma IsAccepted(f: Faults, w: World, untracked: Untracked, s: Shop, o: OrderId)
    requires New(s, o) && Passes(w, s, Lines(w, o), untracked) && !Oversells(w, s, o)
    ensures exists x :: EndsWith(f, w, untracked, s, o, x, true)
  {
    var y := RereadsUpTo(f, w, untracked, s, o, |Lines(w, o)|);
    Accepts(f, w, untracked, s, o, y);
    assert EndsWith(f, w, untracked, s, o, y.(checked := true), true);
  }

  ghost predicate HasAccepted(s: Shop, o: OrderId) {
    exists i :: 0 <= i < |s.orders| && s.orders[i].owner == o && s.orders[i].stands && s.orders[i].checked
  }

  lemma ComesWithinReach(f: Faults, w: World, untracked: Untracked, s: Shop, o: OrderId, v: View)
    requires Reaches(f, w, s) && Comes(f, w, untracked, s, o, v)
    ensures exists t :: Reaches(f, w, t) && Shows(s, o, t, v)
  {
    var t :| Runs.Reaches(Undisturbed(f, w, o, untracked), Moves(f, w), s, t) && Shows(s, o, t, v);
    var steps :| Runs.Valid(Undisturbed(f, w, o, untracked), Moves(f, w), s, steps) && Runs.After(Moves(f, w), s, steps) == t;
    Runs.Join(Rules(f, w), Undisturbed(f, w, o, untracked), Moves(f, w), Init(w), s, steps);
    assert Reaches(f, w, t);
  }

  /** So from every state any run comes to, an order the stock covers can be pushed to a standing, checked order. */
  lemma CoveredOrderIsAccepted(f: Faults, w: World, untracked: Untracked, s: Shop, o: OrderId)
    requires Reaches(f, w, s) && New(s, o)
    requires Passes(w, s, Lines(w, o), untracked) && !Oversells(w, s, o)
    ensures exists t :: Reaches(f, w, t) && HasAccepted(t, o)
  {
    UndisturbedPush(f, w, untracked, s, o);
    var x :| EndsWith(f, w, untracked, s, o, x, true);
    var v := View(Placing(w, s, o).stock, s.orders + [x], Idle);
    ComesWithinReach(f, w, untracked, s, o, v);
    var t :| Reaches(f, w, t) && Shows(s, o, t, v);
    assert t.orders[|s.orders|] == x;
    assert HasAccepted(t, o);
  }

  // ---- Enough for everybody --------------------------------------------------------------------------

  /** What the orders `ids` draw from `p` together. */
  function Demand(w: World, ids: seq<OrderId>, p: Pool): nat {
    if ids == [] then 0 else Drawn(w, Lines(w, ids[0]), p) + Demand(w, ids[1..], p)
  }

  /** `ids` names every order of the platform, and no pool began with less than they all draw. */
  ghost predicate EnoughForAll(w: World, ids: seq<OrderId>) {
    && (forall o :: o in w.slices ==> o in ids)
    && (forall p :: p in w.start ==> Demand(w, ids, p) <= w.start[p])
  }

  lemma {:induction false} DemandWithout(w: World, ids: seq<OrderId>, o: OrderId, p: Pool)
    ensures Demand(w, Without(ids, o), p) + (if o in ids then Drawn(w, Lines(w, o), p) else 0) <= Demand(w, ids, p)
  {
    if ids != [] {
      DemandWithout(w, ids[1..], o, p);
      assert o in ids <==> o == ids[0] || o in ids[1..];
      if ids[0] != o {
        var r := Without(ids, o);
        assert r == [ids[0]] + Without(ids[1..], o);
        assert r[1..] == Without(ids[1..], o);
      }
    }
  }

  lemma {:induction false} StandingWithinDemand(w: World, orders: seq<StoreOrder>, ids: seq<OrderId>, p: Pool)
    requires forall i, j :: 0 <= i < j < |orders| ==> orders[i].owner != orders[j].owner
    requires forall i :: 0 <= i < |orders| ==> orders[i].owner in ids || Lines(w, orders[i].owner) == []
    ensures Units(w, orders, p, Standing()) <= Demand(w, ids, p)
    decreases |orders|
  {
    if orders != [] {
      var last := orders[|orders| - 1];
      StandingWithinDemand(w, orders[..|orders| - 1], Without(ids, last.owner), p);
      DemandWithout(w, ids, last.owner, p);
    }
  }

  /** What an order not placed yet will draw is there. */
  lemma IsThere(w: World, s: Shop, ids: seq<OrderId>, o: OrderId, p: Pool)
    requires Identified(w, s) && Balanced(w, s) && EnoughForAll(w, ids) && p in w.start
    requires forall i :: 0 <= i < |s.orders| ==> s.orders[i].owner != o
    ensures s.stock[p] >= Drawn(w, Lines(w, o), p)
  {
    StandingWithinDemand(w, s.orders, Without(ids, o), p);
    DemandWithout(w, ids, o, p);
  }

  lemma NeverBelowZero(w: World, s: Shop, ids: seq<OrderId>, p: Pool)
    requires Identified(w, s) && Balanced(w, s) && EnoughForAll(w, ids) && p in w.start
    ensures s.stock[p] >= 0
  {
    StandingWithinDemand(w, s.orders, ids, p);
  }

  /** What an attempt has read of a tracked line covers all its order draws from that pool. */
  ghost predicate ReadsCover(w: World, lines: seq<Line>, seen: seq<int>) {
    && |seen| <= |lines|
    && forall i :: 0 <= i < |seen| && lines[i].variant in w.pools ==> seen[i] >= Drawn(w, lines, w.pools[lines[i].variant])
  }

  ghost predicate Provided(w: World, s: Shop) {
    forall o :: PhaseOf(s, o).Reading? ==> ReadsCover(w, Lines(w, o), PhaseOf(s, o).seen)
  }

  lemma ReadingStaysProvided(f: Faults, w: World, s: Shop, o: OrderId, untracked: nat, ids: seq<OrderId>)
    requires Sound(f, w, s) && Provided(w, s) && EnoughForAll(w, ids) && Enabled(f, w, s, ReadLine(o, untracked))
    ensures var phase := PhaseOf(Apply(f, w, s, ReadLine(o, untracked)), o);
            phase.Reading? && ReadsCover(w, Lines(w, o), phase.seen)
  {
    assert Tracked(w, s, o);
    var lines := Lines(w, o);
    var line := lines[|PhaseOf(s, o).seen|];
    if line.variant in w.pools {
      IsThere(w, s, ids, o, w.pools[line.variant]);
    }
  }

  lemma StepKeepsProvided(f: Faults, w: World, s: Shop, step: Step, ids: seq<OrderId>)
    requires Sound(f, w, s) && Provided(w, s) && EnoughForAll(w, ids) && Enabled(f, w, s, step)
    ensures Provided(w, Apply(f, w, s, step))
  {
    StepTouchesOnly(f, w, s, step);
    if step.ReadLine? {
      ReadingStaysProvided(f, w, s, step.order, step.untracked, ids);
    }
  }

  ghost function ProvidedIn(f: Faults, w: World): Shop -> bool { (s: Shop) => Sound(f, w, s) && Provided(w, s) }

  lemma ReachableIsProvided(f: Faults, w: World, s: Shop, ids: seq<OrderId>)
    requires Reaches(f, w, s) && EnoughForAll(w, ids)
    ensures Sound(f, w, s) && Provided(w, s)
  {
    var steps :| Runs.Valid(Rules(f, w), Moves(f, w), Init(w), steps) && Runs.After(Moves(f, w), Init(w), steps) == s;
    forall t, step | ProvidedIn(f, w)(t) && Rules(f, w)(t, step) ensures ProvidedIn(f, w)(Moves(f, w)(t, step)) {
      StepKeepsSound(f, w, t, step);
      StepKeepsProvided(f, w, t, step, ids);
    }
    InitIsSound(f, w);
    Runs.Keeps(Rules(f, w), Moves(f, w), ProvidedIn(f, w), Init(w), steps);
  }

  lemma {:induction false} TargetIsSomeRead(lines: seq<Line>, seen: seq<int>, i: nat) returns (j: nat)
    requires |seen| == |lines| && i < |lines|
    ensures j < |lines| && lines[j].variant == lines[i].variant && Target(lines, seen, lines[i].variant) == seen[j]
    decreases |lines|
  {
    var n := |lines| - 1;
    if lines[n].variant == lines[i].variant {
      j := n;
    } else {
      j := TargetIsSomeRead(lines[..n], seen[..n], i);
    }
  }

  /** Every read of a variant whose stock is not tracked covers each line of it. */
  ghost predicate UntrackedSuffice(w: World, lines: seq<Line>, seen: seq<int>)
    requires |seen| == |lines|
  {
    forall i, j :: 0 <= i < |lines| && 0 <= j < |lines| ==>
      lines[j].variant == lines[i].variant && lines[i].variant !in w.pools ==> lines[i].quantity <= seen[j]
  }

  lemma CoveringReadsSuffice(w: World, lines: seq<Line>, seen: seq<int>)
    requires |seen| == |lines| && ReadsCover(w, lines, seen)
    requires UntrackedSuffice(w, lines, seen)
    ensures Suffices(lines, seen)
  {
    forall i | 0 <= i < |lines| ensures lines[i].quantity <= Target(lines, seen, lines[i].variant) {
      var j := TargetIsSomeRead(lines, seen, i);
      if lines[i].variant in w.pools {
        DrawnAtLeast(w, lines, w.pools[lines[i].variant], i);
      }
    }
  }

  /** With enough for everybody nobody is turned away: in every run, however pushes interleave, fail and are repeated,
      no pool goes below zero, every attempt whose untracked lines suffice passes the check before creation, and no
      re-read condemns an order. */
  lemma EnoughTurnsNobodyAway(f: Faults, w: World, s: Shop, ids: seq<OrderId>, o: OrderId)
    requires Reaches(f, w, s) && EnoughForAll(w, ids)
    ensures forall p :: p in w.start ==> p in s.stock && s.stock[p] >= 0
    ensures Enabled(f, w, s, CheckStock(o)) && UntrackedSuffice(w, Lines(w, o), PhaseOf(s, o).seen) ==>
              PhaseOf(Apply(f, w, s, CheckStock(o)), o) == Ready
    ensures forall answered :: Enabled(f, w, s, Reread(o, answered)) ==>
              PhaseOf(Apply(f, w, s, Reread(o, answered)), o).Placed?
  {
    ReachableIsProvided(f, w, s, ids);
    forall p | p in w.start ensures s.stock[p] >= 0 {
      NeverBelowZero(w, s, ids, p);
    }
    if Enabled(f, w, s, CheckStock(o)) && UntrackedSuffice(w, Lines(w, o), PhaseOf(s, o).seen) {
      CoveringReadsSuffice(w, Lines(w, o), PhaseOf(s, o).seen);
    }
  }
}
