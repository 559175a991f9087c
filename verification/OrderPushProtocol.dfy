/**
 * `pushOrder` against a store that never refuses an order for stock and has no idempotency key: any number of
 * platform orders pushed at once, each retried one attempt after another, with creates whose answer is lost.
 */
module OrderPushProtocol {
  import opened Wrappers
  import Runs

  type OrderId = string
  type Variant = string
  /** A stock count in the store; the variations of a product may share their parent's. */
  type Pool = string

  datatype Line = Line(variant: Variant, quantity: nat)

  /** What the platform orders ask for, the pool of every stock-tracked variant, and the stock to begin with. */
  datatype World = World(slices: map<OrderId, seq<Line>>, pools: map<Variant, Pool>, start: map<Pool, int>)

  /** A store order made for a platform order: whether it still stands, the pools its re-read found not negative,
      and whether an attempt answered Ok with it, through the post-create check or through the lookup. */
  datatype StoreOrder = StoreOrder(owner: OrderId, stands: bool, cleared: set<Pool>, checked: bool, found: bool)

  datatype Phase =
    | Idle                                // no attempt is under way
    | Reading(seen: seq<int>)             // the lookup found nothing; lines are read one by one
    | Ready                               // stock sufficed
    | Placed(remote: nat, next: nat)      // created; `next` is the line to re-read
    | Condemned(remote: nat)              // the order is to be cancelled
    | Refusing(remote: nat)               // the cancel is done or has failed; the error is still to be answered
    | Closed                              // a final error, never retried

  datatype Shop = Shop(stock: map<Pool, int>, orders: seq<StoreOrder>, phases: map<OrderId, Phase>)

  /** What can go wrong around `pushOrder`: `diesMidway` lets an attempt end at any point without an answer, as when its
      process stops. */
  datatype Faults = Faults(
    lostAnswers: bool, failedRereads: bool, failedCancels: bool, retriesFinal: bool, diesMidway: bool)

  datatype Answer = Answered | Lost | Refused | NotMade

  datatype Step =
    | Lookup(order: OrderId)
    | ReadLine(order: OrderId, untracked: nat)
    | ReadFails(order: OrderId, final: bool)
    | CheckStock(order: OrderId)
    | Create(order: OrderId, answer: Answer)
    | Mismatch(order: OrderId)
    | Reread(order: OrderId, answered: bool)
    | Cancel(order: OrderId, cancels: bool)
    | Refuse(order: OrderId)
    | Accept(order: OrderId)
    | Abandon(order: OrderId)

  ghost predicate ValidWorld(w: World) {
    forall v :: v in w.pools ==> w.pools[v] in w.start
  }

  function Lines(w: World, o: OrderId): seq<Line> {
    if o in w.slices then w.slices[o] else []
  }

  predicate Tracks(w: World, line: Line, p: Pool) {
    line.variant in w.pools && w.pools[line.variant] == p
  }

  /** The units of `lines` drawn from `p`. */
  function Drawn(w: World, lines: seq<Line>, p: Pool): nat {
    if lines == [] then 0
    else (if Tracks(w, lines[0], p) then lines[0].quantity else 0) + Drawn(w, lines[1..], p)
  }

  /** The units drawn from `p` by the picked store orders. */
  function Units(w: World, orders: seq<StoreOrder>, p: Pool, pick: StoreOrder -> bool): nat {
    if orders == [] then 0
    else
      var last := orders[|orders| - 1];
      Units(w, orders[..|orders| - 1], p, pick) + (if pick(last) then Drawn(w, Lines(w, last.owner), p) else 0)
  }

  function PhaseOf(s: Shop, o: OrderId): Phase {
    if o in s.phases then s.phases[o] else Idle
  }

  // ---- Steps ---------------------------------------------------------------------------------------

  /** `findExisting`: the first order carrying the platform order's meta key, in any status. */
  function FindExisting(orders: seq<StoreOrder>, o: OrderId): (r: Option<nat>)
    ensures r.Some? ==> r.value < |orders| && orders[r.value].owner == o
    ensures r.None? ==> forall i :: 0 <= i < |orders| ==> orders[i].owner != o
    decreases |orders|
  {
    if orders == [] then None
    else
      var earlier := FindExisting(orders[..|orders| - 1], o);
      if earlier.Some? then earlier
      else if orders[|orders| - 1].owner == o then Some(|orders| - 1)
      else None
  }

  function Changed(stock: map<Pool, int>, w: World, lines: seq<Line>, sign: int): map<Pool, int> {
    map p | p in stock :: stock[p] + sign * Drawn(w, lines, p)
  }

  /** What a fresh read says can be sold; never negative. */
  function Available(w: World, s: Shop, line: Line, untracked: nat): int {
    if line.variant in w.pools && w.pools[line.variant] in s.stock then
      var count := s.stock[w.pools[line.variant]];
      if count < 0 then 0 else count
    else untracked
  }

  /** `targets.get(variant)`: of several lines of one variant the last read counts. */
  function Target(lines: seq<Line>, seen: seq<int>, variant: Variant): int
    requires |lines| == |seen|
  {
    if lines == [] then 0
    else
      var n := |lines| - 1;
      if lines[n].variant == variant then seen[n] else Target(lines[..n], seen[..n], variant)
  }

  /** Every line by itself asks for no more than its variant's read showed. */
  predicate Suffices(lines: seq<Line>, seen: seq<int>)
    requires |lines| == |seen|
  {
    forall i :: 0 <= i < |lines| ==> lines[i].quantity <= Target(lines, seen, lines[i].variant)
  }

  predicate Enabled(f: Faults, w: World, s: Shop, step: Step) {
    var phase := PhaseOf(s, step.order);
    var lines := Lines(w, step.order);
    match step
    case Lookup(_) => phase.Idle?
    case ReadLine(_, _) => phase.Reading? && |phase.seen| < |lines|
    case ReadFails(_, _) => phase.Reading?
    case CheckStock(_) => phase.Reading? && |phase.seen| == |lines|
    case Create(_, answer) => phase.Ready? && (answer.Lost? ==> f.lostAnswers)
    case Mismatch(_) => phase.Placed? && phase.next == 0
    case Reread(_, answered) =>
      phase.Placed? && phase.next < |lines| && phase.remote < |s.orders| && (!answered ==> f.failedRereads)
    case Cancel(_, cancels) => phase.Condemned? && phase.remote < |s.orders| && (!cancels ==> f.failedCancels)
    case Refuse(_) => phase.Refusing?
    case Accept(_) => phase.Placed? && phase.next == |lines| && phase.remote < |s.orders|
    case Abandon(_) => f.diesMidway && !phase.Idle? && !phase.Closed?
  }

  function To(s: Shop, o: OrderId, phase: Phase): Shop { s.(phases := s.phases[o := phase]) }

  /** After an error that is not retriable. */
  function Final(f: Faults): Phase { if f.retriesFinal then Idle else Closed }

  function Fresh(o: OrderId): StoreOrder { StoreOrder(o, true, {}, false, false) }

  function Placing(w: World, s: Shop, o: OrderId): Shop {
    s.(stock := Changed(s.stock, w, Lines(w, o), -1), orders := s.orders + [Fresh(o)])
  }

  /** `cancel`: the store restocks, unless the request fails, which the push does not notice. */
  function Cancelling(w: World, s: Shop, o: OrderId, remote: nat, cancels: bool): Shop
    requires remote < |s.orders|
  {
    if cancels then
      s.(stock := Changed(s.stock, w, Lines(w, o), 1), orders := s.orders[remote := s.orders[remote].(stands := false)])
    else s
  }

  function PoolsOf(w: World, line: Line): set<Pool> {
    if line.variant in w.pools then {w.pools[line.variant]} else {}
  }

  predicate IsOversold(w: World, s: Shop, line: Line) {
    line.variant in w.pools && w.pools[line.variant] in s.stock && s.stock[w.pools[line.variant]] < 0
  }

  function Apply(f: Faults, w: World, s: Shop, step: Step): Shop {
    var o := step.order;
    var phase := PhaseOf(s, o);
    var lines := Lines(w, o);
    match step
    case Lookup(_) =>
      var existing := FindExisting(s.orders, o);
      if existing.None? then To(s, o, Reading([]))
      else s.(orders := s.orders[existing.value := s.orders[existing.value].(found := true)])
    case ReadLine(_, untracked) =>
      if phase.Reading? && |phase.seen| < |lines| then
        To(s, o, Reading(phase.seen + [Available(w, s, lines[|phase.seen|], untracked)]))
      else s
    case ReadFails(_, final) => To(s, o, if final then Final(f) else Idle)
    case CheckStock(_) =>
      if phase.Reading? && |phase.seen| == |lines| then
        To(s, o, if Suffices(lines, phase.seen) then Ready else Final(f))
      else s
    case Create(_, answer) =>
      (match answer
       case Answered => To(Placing(w, s, o), o, Placed(|s.orders|, 0))
       case Lost => To(Placing(w, s, o), o, Idle)
       case Refused => To(s, o, Final(f))
       case NotMade => To(s, o, Idle))
    case Mismatch(_) => if phase.Placed? then To(s, o, Condemned(phase.remote)) else s
    case Reread(_, answered) =>
      if phase.Placed? && phase.next < |lines| && phase.remote < |s.orders| then
        var line := lines[phase.next];
        if answered && IsOversold(w, s, line) then To(s, o, Condemned(phase.remote))
        else
          var order := s.orders[phase.remote];
          var cleared := if answered then order.cleared + PoolsOf(w, line) else order.cleared;
          To(s.(orders := s.orders[phase.remote := order.(cleared := cleared)]), o, Placed(phase.remote, phase.next + 1))
      else s
    case Cancel(_, cancels) =>
      if phase.Condemned? && phase.remote < |s.orders| then
        To(Cancelling(w, s, o, phase.remote, cancels), o, Refusing(phase.remote))
      else s
    case Refuse(_) => To(s, o, Final(f))
    case Accept(_) =>
      if phase.Placed? && phase.remote < |s.orders| then
        To(s.(orders := s.orders[phase.remote := s.orders[phase.remote].(checked := true)]), o, Idle)
      else s
    case Abandon(_) => To(s, o, Idle)
  }

  function Rules(f: Faults, w: World): (Shop, Step) -> bool {
    (s: Shop, step: Step) => Enabled(f, w, s, step)
  }

  function Moves(f: Faults, w: World): (Shop, Step) -> Shop {
    (s: Shop, step: Step) => Apply(f, w, s, step)
  }

  /** No store order yet and nothing under way. */
  function Init(w: World): Shop { Shop(w.start, [], map[]) }

  ghost predicate Reaches(f: Faults, w: World, s: Shop) {
    ValidWorld(w) && Runs.Reaches(Rules(f, w), Moves(f, w), Init(w), s)
  }

  // ---- Summing over store orders -------------------------------------------------------------------

  function Standing(): StoreOrder -> bool { (x: StoreOrder) => x.stands }
  function Cleared(p: Pool): StoreOrder -> bool { (x: StoreOrder) => x.stands && p in x.cleared }
  function Checked(): StoreOrder -> bool { (x: StoreOrder) => x.stands && x.checked }
  function Accepted(): StoreOrder -> bool { (x: StoreOrder) => x.stands && (x.checked || x.found) }

  function Weight(w: World, x: StoreOrder, p: Pool, pick: StoreOrder -> bool): nat {
    if pick(x) then Drawn(w, Lines(w, x.owner), p) else 0
  }

  lemma {:induction false} UnitsUpdate(w: World, orders: seq<StoreOrder>, p: Pool, pick: StoreOrder -> bool, i: nat, x: StoreOrder)
    requires i < |orders|
    ensures Units(w, orders[i := x], p, pick) == Units(w, orders, p, pick) - Weight(w, orders[i], p, pick) + Weight(w, x, p, pick)
    decreases |orders|
  {
    var n := |orders| - 1;
    if i == n {
      assert orders[i := x][..n] == orders[..n];
    } else {
      UnitsUpdate(w, orders[..n], p, pick, i, x);
      assert orders[i := x][..n] == orders[..n][i := x];
    }
  }

  lemma UnitsAppend(w: World, orders: seq<StoreOrder>, p: Pool, pick: StoreOrder -> bool, x: StoreOrder)
    ensures Units(w, orders + [x], p, pick) == Units(w, orders, p, pick) + Weight(w, x, p, pick)
  {
    assert (orders + [x])[..|orders|] == orders;
  }

  lemma {:induction false} UnitsMonotone(w: World, orders: seq<StoreOrder>, p: Pool, pick: StoreOrder -> bool, more: StoreOrder -> bool)
    requires forall i :: 0 <= i < |orders| && pick(orders[i]) && Drawn(w, Lines(w, orders[i].owner), p) > 0 ==> more(orders[i])
    ensures Units(w, orders, p, pick) <= Units(w, orders, p, more)
    decreases |orders|
  {
    if orders != [] {
      UnitsMonotone(w, orders[..|orders| - 1], p, pick, more);
    }
  }

  lemma {:induction false} DrawnFromOwnPools(w: World, lines: seq<Line>, p: Pool)
    requires Drawn(w, lines, p) > 0
    ensures exists j :: 0 <= j < |lines| && Tracks(w, lines[j], p)
  {
    if Tracks(w, lines[0], p) {
      assert Tracks(w, lines[0], p);
    } else {
      DrawnFromOwnPools(w, lines[1..], p);
      var j :| 0 <= j < |lines[1..]| && Tracks(w, lines[1..][j], p);
      assert Tracks(w, lines[j + 1], p);
    }
  }
}
