/**
 * What holds of the store in every run of concurrent, retried order pushes, and exactly when stock is never
 * oversold.
 */
module OrderPushSafety {
  import opened Wrappers
  import opened OrderPushProtocol
  import Runs

  // ---- One store order per platform order ----------------------------------------------------------

  ghost predicate OneEach(s: Shop) {
    forall i, j :: 0 <= i < j < |s.orders| ==> s.orders[i].owner != s.orders[j].owner
  }

  /** What an attempt knows of the store order it is working on. */
  ghost predicate Tracked(w: World, s: Shop, o: OrderId) {
    match PhaseOf(s, o)
    case Reading(_) => forall i :: 0 <= i < |s.orders| ==> s.orders[i].owner != o
    case Ready => forall i :: 0 <= i < |s.orders| ==> s.orders[i].owner != o
    case Placed(r, k) =>
      && r < |s.orders| && k <= |Lines(w, o)|
      && s.orders[r].owner == o && s.orders[r].stands && !s.orders[r].checked && !s.orders[r].found
    case Condemned(r) =>
      r < |s.orders| && s.orders[r].owner == o && s.orders[r].stands && !s.orders[r].checked && !s.orders[r].found
    case Refusing(r) =>
      r < |s.orders| && s.orders[r].owner == o && !s.orders[r].checked && !s.orders[r].found
    case _ => true
  }

  ghost predicate Identified(w: World, s: Shop) {
    && OneEach(s)
    && forall o :: Tracked(w, s, o)
  }

  /** A step leaves the store orders alone, adds a fresh one, or changes one in place, keeping its owner; it only
      ever touches the order of its own platform order. */
  ghost predicate TouchesOnly(s: Shop, t: Shop, o: OrderId) {
    && (|t.orders| == |s.orders| || (|t.orders| == |s.orders| + 1 && t.orders[|s.orders|] == Fresh(o)))
    && (forall i :: 0 <= i < |s.orders| ==> t.orders[i].owner == s.orders[i].owner)
    && (forall i :: 0 <= i < |s.orders| && s.orders[i].owner != o ==> t.orders[i] == s.orders[i])
    && (forall q :: q != o ==> PhaseOf(t, q) == PhaseOf(s, q))
  }

  lemma StepTouchesOnly(f: Faults, w: World, s: Shop, step: Step)
    requires Identified(w, s) && Enabled(f, w, s, step)
    ensures TouchesOnly(s, Apply(f, w, s, step), step.order)
  {
    assert Tracked(w, s, step.order);
  }

  lemma OwnPhaseStaysTracked(f: Faults, w: World, s: Shop, step: Step)
    requires Identified(w, s) && Enabled(f, w, s, step)
    ensures Tracked(w, Apply(f, w, s, step), step.order)
  {
    assert Tracked(w, s, step.order);
  }

  lemma StepKeepsIdentified(f: Faults, w: World, s: Shop, step: Step)
    requires Identified(w, s) && Enabled(f, w, s, step)
    ensures Identified(w, Apply(f, w, s, step))
  {
    var t := Apply(f, w, s, step);
    StepTouchesOnly(f, w, s, step);
    OwnPhaseStaysTracked(f, w, s, step);
    forall o | o != step.order ensures Tracked(w, t, o) {
      assert Tracked(w, s, o);
    }
    if |t.orders| > |s.orders| {
      FreshOwnerIsNew(f, w, s, step);
    }
  }

  /** A create only happens after a lookup that found nothing, and nothing of this order was made since. */
  lemma FreshOwnerIsNew(f: Faults, w: World, s: Shop, step: Step)
    requires Identified(w, s) && Enabled(f, w, s, step)
    requires |Apply(f, w, s, step).orders| > |s.orders|
    ensures forall i :: 0 <= i < |s.orders| ==> s.orders[i].owner != step.order
  {
    assert Tracked(w, s, step.order);
  }

  // ---- The store's own ledger ------------------------------------------------------------------------

  /** Stock is what there was less what the standing orders drew. */
  ghost predicate Balanced(w: World, s: Shop) {
    && s.stock.Keys == w.start.Keys
    && forall p :: p in w.start ==> s.stock[p] == w.start[p] - Units(w, s.orders, p, Standing())
  }

  lemma ChangingInPlace(w: World, s: Shop, i: nat, x: StoreOrder)
    requires Balanced(w, s) && i < |s.orders| && x.owner == s.orders[i].owner && x.stands == s.orders[i].stands
    ensures Balanced(w, s.(orders := s.orders[i := x]))
  {
    forall p | p in w.start ensures Units(w, s.orders[i := x], p, Standing()) == Units(w, s.orders, p, Standing()) {
      UnitsUpdate(w, s.orders, p, Standing(), i, x);
    }
  }

  lemma PlacingBalances(w: World, s: Shop, o: OrderId)
    requires Balanced(w, s)
    ensures Balanced(w, Placing(w, s, o))
  {
    forall p | p in w.start
      ensures Units(w, s.orders + [Fresh(o)], p, Standing()) == Units(w, s.orders, p, Standing()) + Drawn(w, Lines(w, o), p)
    {
      UnitsAppend(w, s.orders, p, Standing(), Fresh(o));
    }
  }

  lemma CancellingBalances(w: World, s: Shop, o: OrderId, remote: nat, cancels: bool)
    requires Balanced(w, s) && remote < |s.orders| && s.orders[remote].owner == o && s.orders[remote].stands
    ensures Balanced(w, Cancelling(w, s, o, remote, cancels))
  {
    var x := s.orders[remote].(stands := false);
    forall p | p in w.start
      ensures Units(w, s.orders[remote := x], p, Standing()) == Units(w, s.orders, p, Standing()) - Drawn(w, Lines(w, o), p)
    {
      UnitsUpdate(w, s.orders, p, Standing(), remote, x);
    }
  }

  lemma StepKeepsBalanced(f: Faults, w: World, s: Shop, step: Step)
    requires Identified(w, s) && Balanced(w, s) && Enabled(f, w, s, step)
    ensures Balanced(w, Apply(f, w, s, step))
  {
    var o := step.order;
    assert Tracked(w, s, o);
    var phase := PhaseOf(s, o);
    match step
    case Lookup(_) =>
      var existing := FindExisting(s.orders, o);
      if existing.Some? {
        ChangingInPlace(w, s, existing.value, s.orders[existing.value].(found := true));
      }
    case Create(_, answer) => PlacingBalances(w, s, o);
    case Cancel(_, cancels) => CancellingBalances(w, s, o, phase.remote, cancels);
    case Reread(_, answered) =>
      var line := Lines(w, o)[phase.next];
      var order := s.orders[phase.remote];
      ChangingInPlace(w, s, phase.remote, order.(cleared := if answered then order.cleared + PoolsOf(w, line) else order.cleared));
    case Accept(_) => ChangingInPlace(w, s, phase.remote, s.orders[phase.remote].(checked := true));
    case _ =>
  }

  // ---- The post-create check -------------------------------------------------------------------------

  function Ceiling(w: World, p: Pool): nat {
    if p in w.start && w.start[p] > 0 then w.start[p] else 0
  }

  /** The standing orders whose re-read of a pool passed never draw more than there was. */
  ghost predicate Bounded(w: World, s: Shop) {
    forall p :: p in w.start ==> Units(w, s.orders, p, Cleared(p)) <= Ceiling(w, p)
  }

  /** Changing an order without clearing it for more pools, or reviving it, keeps the bound. */
  lemma ChangingKeepsBounded(w: World, orders: seq<StoreOrder>, i: nat, x: StoreOrder, p: Pool)
    requires i < |orders| && x.owner == orders[i].owner
    requires x.stands && p in x.cleared ==> orders[i].stands && p in orders[i].cleared
    ensures Units(w, orders[i := x], p, Cleared(p)) <= Units(w, orders, p, Cleared(p))
  {
    UnitsUpdate(w, orders, p, Cleared(p), i, x);
  }

  /** A pool that is not negative covers every standing order. */
  lemma ClearingKeepsBounded(w: World, s: Shop, i: nat, x: StoreOrder, p: Pool)
    requires Balanced(w, s) && p in w.start && s.stock[p] >= 0
    requires i < |s.orders| && x.owner == s.orders[i].owner && x.stands == s.orders[i].stands
    ensures Units(w, s.orders[i := x], p, Cleared(p)) <= Ceiling(w, p)
  {
    UnitsUpdate(w, s.orders, p, Standing(), i, x);
    UnitsMonotone(w, s.orders[i := x], p, Cleared(p), Standing());
  }

  lemma StepKeepsBounded(f: Faults, w: World, s: Shop, step: Step)
    requires ValidWorld(w) && Identified(w, s) && Balanced(w, s) && Bounded(w, s) && Enabled(f, w, s, step)
    ensures Bounded(w, Apply(f, w, s, step))
  {
    var o := step.order;
    assert Tracked(w, s, o);
    var phase := PhaseOf(s, o);
    forall p | p in w.start ensures Units(w, Apply(f, w, s, step).orders, p, Cleared(p)) <= Ceiling(w, p) {
      match step
      case Lookup(_) =>
        var existing := FindExisting(s.orders, o);
        if existing.Some? {
          ChangingKeepsBounded(w, s.orders, existing.value, s.orders[existing.value].(found := true), p);
        }
      case Create(_, answer) => UnitsAppend(w, s.orders, p, Cleared(p), Fresh(o));
      case Cancel(_, cancels) =>
        ChangingKeepsBounded(w, s.orders, phase.remote, s.orders[phase.remote].(stands := false), p);
      case Reread(_, answered) => RereadKeepsBounded(f, w, s, step, p);
      case Accept(_) =>
        ChangingKeepsBounded(w, s.orders, phase.remote, s.orders[phase.remote].(checked := true), p);
      case _ =>
    }
  }

  lemma RereadKeepsBounded(f: Faults, w: World, s: Shop, step: Step, p: Pool)
    requires ValidWorld(w) && Identified(w, s) && Balanced(w, s) && Bounded(w, s) && Enabled(f, w, s, step)
    requires step.Reread? && p in w.start
    ensures Units(w, Apply(f, w, s, step).orders, p, Cleared(p)) <= Ceiling(w, p)
  {
    assert Tracked(w, s, step.order);
    var phase := PhaseOf(s, step.order);
    var line := Lines(w, step.order)[phase.next];
    var order := s.orders[phase.remote];
    if !(step.answered && IsOversold(w, s, line)) {
      var x := order.(cleared := if step.answered then order.cleared + PoolsOf(w, line) else order.cleared);
      if step.answered && p in PoolsOf(w, line) {
        ClearingKeepsBounded(w, s, phase.remote, x, p);
      } else {
        ChangingKeepsBounded(w, s.orders, phase.remote, x, p);
      }
    }
  }

  ghost predicate AllCleared(w: World, x: StoreOrder, k: nat)
    requires k <= |Lines(w, x.owner)|
  {
    forall j :: 0 <= j < k ==> PoolsOf(w, Lines(w, x.owner)[j]) <= x.cleared
  }

  /** When every re-read is answered, an order is checked line by line against every pool it draws from. */
  ghost predicate Covered(w: World, s: Shop) {
    PlacedCovered(w, s) && CheckedCovered(w, s)
  }

  ghost predicate PlacedCovered(w: World, s: Shop) {
    forall o :: Tracked(w, s, o) && PhaseOf(s, o).Placed? ==>
      AllCleared(w, s.orders[PhaseOf(s, o).remote], PhaseOf(s, o).next)
  }

  ghost predicate CheckedCovered(w: World, s: Shop) {
    forall i :: 0 <= i < |s.orders| && s.orders[i].checked ==>
      AllCleared(w, s.orders[i], |Lines(w, s.orders[i].owner)|)
  }

  lemma StepKeepsPlacedCovered(f: Faults, w: World, s: Shop, step: Step)
    requires !f.failedRereads
    requires Identified(w, s) && Covered(w, s) && Enabled(f, w, s, step)
    ensures PlacedCovered(w, Apply(f, w, s, step))
  {
    var t := Apply(f, w, s, step);
    StepTouchesOnly(f, w, s, step);
    assert Tracked(w, s, step.order);
    forall o | Tracked(w, t, o) && PhaseOf(t, o).Placed?
      ensures AllCleared(w, t.orders[PhaseOf(t, o).remote], PhaseOf(t, o).next)
    {
      assert Tracked(w, s, o);
    }
  }

  lemma StepKeepsCheckedCovered(f: Faults, w: World, s: Shop, step: Step)
    requires !f.failedRereads
    requires Identified(w, s) && Covered(w, s) && Enabled(f, w, s, step)
    ensures CheckedCovered(w, Apply(f, w, s, step))
  {
    StepTouchesOnly(f, w, s, step);
    assert Tracked(w, s, step.order);
  }

  lemma StepKeepsCovered(f: Faults, w: World, s: Shop, step: Step)
    requires !f.failedRereads
    requires Identified(w, s) && Covered(w, s) && Enabled(f, w, s, step)
    ensures Covered(w, Apply(f, w, s, step))
  {
    StepKeepsPlacedCovered(f, w, s, step);
    StepKeepsCheckedCovered(f, w, s, step);
  }

  lemma CheckedIsCleared(w: World, s: Shop, p: Pool)
    requires Covered(w, s)
    ensures Units(w, s.orders, p, Checked()) <= Units(w, s.orders, p, Cleared(p))
  {
    forall i | 0 <= i < |s.orders| && Checked()(s.orders[i]) && Drawn(w, Lines(w, s.orders[i].owner), p) > 0
      ensures Cleared(p)(s.orders[i])
    {
      var lines := Lines(w, s.orders[i].owner);
      DrawnFromOwnPools(w, lines, p);
      var j :| 0 <= j < |lines| && Tracks(w, lines[j], p);
      assert AllCleared(w, s.orders[i], |lines|);
      assert PoolsOf(w, lines[j]) == {p};
    }
    UnitsMonotone(w, s.orders, p, Checked(), Cleared(p));
  }

  // ---- Orders accepted by lookup ---------------------------------------------------------------------

  /** A standing order that did not pass its check was not answered Ok, and is still being checked or cancelled, or is
      never pushed again. */
  ghost predicate Vouched(f: Faults, s: Shop) {
    forall i :: 0 <= i < |s.orders| && s.orders[i].stands && !s.orders[i].checked ==>
      var phase := PhaseOf(s, s.orders[i].owner);
      !s.orders[i].found
      && (phase.Closed? || (phase.Placed? && phase.remote == i) || (phase.Condemned? && phase.remote == i)
          || (phase.Refusing? && phase.remote == i && f.failedCancels))
  }

  lemma StepKeepsVouched(f: Faults, w: World, s: Shop, step: Step)
    requires !f.lostAnswers && !f.diesMidway && !(f.failedCancels && f.retriesFinal)
    requires Identified(w, s) && Vouched(f, s) && Enabled(f, w, s, step)
    ensures Vouched(f, Apply(f, w, s, step))
  {
    StepTouchesOnly(f, w, s, step);
    assert Tracked(w, s, step.order);
  }

  /** When no final error is retried and no attempt ends midway, no attempt answered Ok with a cancelled order, and its
      platform order is about to be refused or never pushed again. */
  ghost predicate Settled(s: Shop) {
    forall i :: 0 <= i < |s.orders| && !s.orders[i].stands ==>
      && !s.orders[i].checked && !s.orders[i].found
      && (PhaseOf(s, s.orders[i].owner).Closed? || PhaseOf(s, s.orders[i].owner).Refusing?)
  }

  lemma StepKeepsSettled(f: Faults, w: World, s: Shop, step: Step)
    requires !f.retriesFinal && !f.diesMidway
    requires Identified(w, s) && Settled(s) && Enabled(f, w, s, step)
    ensures Settled(Apply(f, w, s, step))
  {
    StepTouchesOnly(f, w, s, step);
    assert Tracked(w, s, step.order);
  }

  // ---- Over whole runs -------------------------------------------------------------------------------

  ghost predicate Sound(f: Faults, w: World, s: Shop) {
    && ValidWorld(w) && Identified(w, s) && Balanced(w, s) && Bounded(w, s)
    && (!f.failedRereads ==> Covered(w, s))
    && (!f.lostAnswers && !f.diesMidway && !(f.failedCancels && f.retriesFinal) ==> Vouched(f, s))
    && (!f.retriesFinal && !f.diesMidway ==> Settled(s))
  }

  ghost function SoundIn(f: Faults, w: World): Shop -> bool { (s: Shop) => Sound(f, w, s) }

  lemma StepKeepsSound(f: Faults, w: World, s: Shop, step: Step)
    requires Sound(f, w, s) && Enabled(f, w, s, step)
    ensures Sound(f, w, Apply(f, w, s, step))
  {
    StepKeepsIdentified(f, w, s, step);
    StepKeepsBalanced(f, w, s, step);
    StepKeepsBounded(f, w, s, step);
    if !f.failedRereads { StepKeepsCovered(f, w, s, step); }
    if !f.lostAnswers && !f.diesMidway && !(f.failedCancels && f.retriesFinal) { StepKeepsVouched(f, w, s, step); }
    if !f.retriesFinal && !f.diesMidway { StepKeepsSettled(f, w, s, step); }
  }

  lemma InitIsSound(f: Faults, w: World)
    requires ValidWorld(w)
    ensures Sound(f, w, Init(w))
  {
  }

  lemma ReachableIsSound(f: Faults, w: World, s: Shop)
    requires Reaches(f, w, s)
    ensures Sound(f, w, s)
  {
    var steps :| Runs.Valid(Rules(f, w), Moves(f, w), Init(w), steps) && Runs.After(Moves(f, w), Init(w), steps) == s;
    forall t, step | SoundIn(f, w)(t) && Rules(f, w)(t, step) ensures SoundIn(f, w)(Moves(f, w)(t, step)) {
      StepKeepsSound(f, w, t, step);
    }
    InitIsSound(f, w);
    Runs.Keeps(Rules(f, w), Moves(f, w), SoundIn(f, w), Init(w), steps);
  }

  /** However attempts fail and are repeated, the store never holds two orders for one platform order, so every
      Ok for it names the same one; and stock is always the starting stock less what the standing orders drew. */
  lemma OneStoreOrderEach(f: Faults, w: World, s: Shop)
    requires Reaches(f, w, s)
    ensures forall i, j :: 0 <= i < |s.orders| && 0 <= j < |s.orders| && s.orders[i].owner == s.orders[j].owner ==> i == j
    ensures forall p :: p in w.start ==> p in s.stock && s.stock[p] == w.start[p] - Units(w, s.orders, p, Standing())
  {
    ReachableIsSound(f, w, s);
  }

  /** Orders accepted through an answered post-create check never oversell, whatever else goes wrong. */
  lemma CheckedNeverOversells(f: Faults, w: World, s: Shop, p: Pool)
    requires Reaches(f, w, s) && !f.failedRereads && p in w.start
    ensures Units(w, s.orders, p, Checked()) <= Ceiling(w, p)
  {
    ReachableIsSound(f, w, s);
    CheckedIsCleared(w, s, p);
  }

  ghost predicate NeverOversells(f: Faults) {
    forall w, s, p :: Reaches(f, w, s) && p in w.start ==> Units(w, s.orders, p, Accepted()) <= Ceiling(w, p)
  }

  lemma SafeFaultsNeverOversell(f: Faults)
    requires !f.lostAnswers && !f.diesMidway && !f.failedRereads && !(f.failedCancels && f.retriesFinal)
    ensures NeverOversells(f)
  {
    forall w, s, p | Reaches(f, w, s) && p in w.start
      ensures Units(w, s.orders, p, Accepted()) <= Ceiling(w, p)
    {
      CheckedNeverOversells(f, w, s, p);
      ReachableIsSound(f, w, s);
      AcceptedIsChecked(f, w, s, p);
    }
  }

  lemma AcceptedIsChecked(f: Faults, w: World, s: Shop, p: Pool)
    requires Vouched(f, s)
    ensures Units(w, s.orders, p, Accepted()) <= Units(w, s.orders, p, Checked())
  {
    UnitsMonotone(w, s.orders, p, Accepted(), Checked());
  }
}
