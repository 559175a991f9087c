/**
 * Runs in which a push oversells or answers Ok with a cancelled order, and with them the exact conditions under
 * which neither happens.
 */
module OrderPushLimits {
  import opened Wrappers
  import opened OrderPushProtocol
  import opened OrderPushSafety
  import Runs

  const A: OrderId := "a"
  const V: Variant := "v"
  const P: Pool := "p"

  /** One order naming the last unit of a variant on two lines. Each line is checked by itself, so both pass. */
  function Twice(): World {
    World(map[A := [Line(V, 1), Line(V, 1)]], map[V := P], map[P := 1])
  }

  /** What matters of the store: its stock, its orders, and how far the attempt is. */
  datatype View = View(stock: int, orders: seq<StoreOrder>, phase: Phase)

  ghost predicate Shows(s: Shop, v: View) {
    s.stock == map[P := v.stock] && s.orders == v.orders && PhaseOf(s, A) == v.phase
  }

  ghost predicate Can(f: Faults, v: View) {
    exists s :: Reaches(f, Twice(), s) && Shows(s, v)
  }

  lemma Go(f: Faults, v: View, step: Step, u: View)
    requires Can(f, v)
    requires forall s :: Shows(s, v) ==> Enabled(f, Twice(), s, step) && Shows(Apply(f, Twice(), s, step), u)
    ensures Can(f, u)
  {
    var s :| Reaches(f, Twice(), s) && Shows(s, v);
    Runs.Move(Rules(f, Twice()), Moves(f, Twice()), Init(Twice()), s, step);
    assert Reaches(f, Twice(), Apply(f, Twice(), s, step));
  }

  lemma TwoUnits()
    ensures Lines(Twice(), A) == [Line(V, 1), Line(V, 1)] && Drawn(Twice(), Lines(Twice(), A), P) == 2
  {
    var lines := [Line(V, 1), Line(V, 1)];
    assert lines[1..] == [Line(V, 1)] && lines[1..][1..] == [];
    assert Drawn(Twice(), lines[1..], P) == 1;
  }

  /** The attempt finds nothing, reads one unit for either line, and is about to create. */
  lemma Prepares(f: Faults)
    ensures Can(f, View(1, [], Ready))
  {
    Runs.Start(Rules(f, Twice()), Moves(f, Twice()), Init(Twice()));
    assert Reaches(f, Twice(), Init(Twice())) && Shows(Init(Twice()), View(1, [], Idle));
    Go(f, View(1, [], Idle), Lookup(A), View(1, [], Reading([])));
    ReadsOne(f, []);
    ReadsOne(f, [1]);
    PassesCheck(f);
  }

  lemma PassesCheck(f: Faults)
    requires Can(f, View(1, [], Reading([1, 1])))
    ensures Can(f, View(1, [], Ready))
  {
    TwoUnits();
    assert Suffices(Lines(Twice(), A), [1, 1]);
    Go(f, View(1, [], Reading([1, 1])), CheckStock(A), View(1, [], Ready));
  }

  lemma ReadsOne(f: Faults, seen: seq<int>)
    requires Can(f, View(1, [], Reading(seen))) && |seen| < 2
    ensures Can(f, View(1, [], Reading(seen + [1])))
  {
    TwoUnits();
    Go(f, View(1, [], Reading(seen)), ReadLine(A, 0), View(1, [], Reading(seen + [1])));
  }

  /** The order is created, drawing one unit too many. */
  lemma Places(f: Faults, answer: Answer)
    requires answer == Answered || (answer == Lost && f.lostAnswers)
    ensures Can(f, View(-1, [Fresh(A)], if answer == Lost then Idle else Placed(0, 0)))
  {
    Prepares(f);
    TwoUnits();
    Go(f, View(1, [], Ready), Create(A, answer), View(-1, [Fresh(A)], if answer == Lost then Idle else Placed(0, 0)));
  }

  lemma AcceptedUnits(x: StoreOrder)
    requires x.owner == A && x.stands && (x.checked || x.found)
    ensures Units(Twice(), [x], P, Accepted()) == 2
  {
    TwoUnits();
    UnitsAppend(Twice(), [], P, Accepted(), x);
    assert [] + [x] == [x];
  }

  /** The next attempt finds the order and answers Ok without a check. */
  lemma FindsUnchecked(f: Faults)
    requires Can(f, View(-1, [Fresh(A)], Idle))
    ensures !NeverOversells(f)
  {
    var x := Fresh(A).(found := true);
    FoundFirst(Fresh(A));
    Go(f, View(-1, [Fresh(A)], Idle), Lookup(A), View(-1, [x], Idle));
    Oversold(f, View(-1, [x], Idle), x);
  }

  lemma FoundFirst(x: StoreOrder)
    requires x.owner == A
    ensures FindExisting([x], A) == Some(0)
  {
  }

  lemma Oversold(f: Faults, v: View, x: StoreOrder)
    requires Can(f, v) && v.orders == [x]
    requires x.owner == A && x.stands && (x.checked || x.found)
    ensures !NeverOversells(f)
  {
    var s :| Reaches(f, Twice(), s) && Shows(s, v);
    AcceptedUnits(x);
    assert Ceiling(Twice(), P) == 1;
    assert Units(Twice(), s.orders, P, Accepted()) > Ceiling(Twice(), P);
  }

  lemma LostAnswersOversell(f: Faults)
    requires f.lostAnswers
    ensures !NeverOversells(f)
  {
    Places(f, Lost);
    FindsUnchecked(f);
  }

  /** The order comes out at another total and is to be cancelled. */
  lemma Mismatches(f: Faults)
    ensures Can(f, View(-1, [Fresh(A)], Condemned(0)))
  {
    Places(f, Answered);
    Go(f, View(-1, [Fresh(A)], Placed(0, 0)), Mismatch(A), View(-1, [Fresh(A)], Condemned(0)));
  }

  lemma FailedCancelsOversellOnRetry(f: Faults)
    requires f.failedCancels && f.retriesFinal
    ensures !NeverOversells(f)
  {
    Mismatches(f);
    Go(f, View(-1, [Fresh(A)], Condemned(0)), Cancel(A, false), View(-1, [Fresh(A)], Refusing(0)));
    Go(f, View(-1, [Fresh(A)], Refusing(0)), Refuse(A), View(-1, [Fresh(A)], Idle));
    FindsUnchecked(f);
  }

  lemma FailedRereadsOversell(f: Faults)
    requires f.failedRereads
    ensures !NeverOversells(f)
  {
    Places(f, Answered);
    SkipsReread(f, 0);
    SkipsReread(f, 1);
    var x := Fresh(A).(checked := true);
    TwoUnits();
    Go(f, View(-1, [Fresh(A)], Placed(0, 2)), OrderPushProtocol.Accept(A), View(-1, [x], Idle));
    Oversold(f, View(-1, [x], Idle), x);
  }

  lemma SkipsReread(f: Faults, k: nat)
    requires f.failedRereads && k < 2 && Can(f, View(-1, [Fresh(A)], Placed(0, k)))
    ensures Can(f, View(-1, [Fresh(A)], Placed(0, k + 1)))
  {
    TwoUnits();
    Go(f, View(-1, [Fresh(A)], Placed(0, k)), Reread(A, false), View(-1, [Fresh(A)], Placed(0, k + 1)));
  }

  /** An attempt that ends after its create, and the next one that finds the order, skip the check between them. */
  lemma DyingMidwayOversells(f: Faults)
    requires f.diesMidway
    ensures !NeverOversells(f)
  {
    Places(f, Answered);
    Go(f, View(-1, [Fresh(A)], Placed(0, 0)), Abandon(A), View(-1, [Fresh(A)], Idle));
    FindsUnchecked(f);
  }

  /** The orders answered Ok never draw more than the starting stock exactly when no create loses its answer, no
      attempt ends midway, every re-read is answered, and no order whose cancel failed is pushed again. */
  lemma NeverOversellsIff(f: Faults)
    ensures NeverOversells(f)
       <==> !f.lostAnswers && !f.diesMidway && !f.failedRereads && !(f.failedCancels && f.retriesFinal)
  {
    if f.lostAnswers {
      LostAnswersOversell(f);
    } else if f.diesMidway {
      DyingMidwayOversells(f);
    } else if f.failedRereads {
      FailedRereadsOversell(f);
    } else if f.failedCancels && f.retriesFinal {
      FailedCancelsOversellOnRetry(f);
    } else {
      SafeFaultsNeverOversell(f);
    }
  }

  /** Every order an attempt answered Ok with still stands. */
  ghost predicate OkMeansStanding(f: Faults) {
    forall w, s :: Reaches(f, w, s) ==>
      forall i :: 0 <= i < |s.orders| && (s.orders[i].checked || s.orders[i].found) ==> s.orders[i].stands
  }

  function Cancelled(): StoreOrder { Fresh(A).(stands := false) }

  /** The order is cancelled and its units are back. */
  lemma Cancels(f: Faults)
    ensures Can(f, View(1, [Cancelled()], Refusing(0)))
  {
    Mismatches(f);
    TwoUnits();
    Go(f, View(-1, [Fresh(A)], Condemned(0)), Cancel(A, true), View(1, [Cancelled()], Refusing(0)));
  }

  /** A later attempt finds the cancelled order and answers Ok with it. */
  lemma FindsCancelled(f: Faults)
    requires Can(f, View(1, [Cancelled()], Idle))
    ensures !OkMeansStanding(f)
  {
    FoundFirst(Cancelled());
    var y := Cancelled().(found := true);
    Go(f, View(1, [Cancelled()], Idle), Lookup(A), View(1, [y], Idle));
    var s :| Reaches(f, Twice(), s) && Shows(s, View(1, [y], Idle));
    assert s.orders[0].found && !s.orders[0].stands;
  }

  lemma RetriesFindCancelled(f: Faults)
    requires f.retriesFinal
    ensures !OkMeansStanding(f)
  {
    Cancels(f);
    Go(f, View(1, [Cancelled()], Refusing(0)), Refuse(A), View(1, [Cancelled()], Idle));
    FindsCancelled(f);
  }

  /** An attempt that ends between its cancel and its answer leaves the order to be found. */
  lemma DyingAfterCancelIsFound(f: Faults)
    requires f.diesMidway
    ensures !OkMeansStanding(f)
  {
    Cancels(f);
    Go(f, View(1, [Cancelled()], Refusing(0)), Abandon(A), View(1, [Cancelled()], Idle));
    FindsCancelled(f);
  }

  /** Ok always names a standing order exactly when final errors are not retried and no attempt ends between its cancel
      and its answer: either way the next attempt finds the cancelled order and answers Ok with it. */
  lemma OkMeansStandingIff(f: Faults)
    ensures OkMeansStanding(f) <==> !f.retriesFinal && !f.diesMidway
  {
    if f.retriesFinal {
      RetriesFindCancelled(f);
    } else if f.diesMidway {
      DyingAfterCancelIsFound(f);
    } else {
      forall w, s | Reaches(f, w, s)
        ensures forall i :: 0 <= i < |s.orders| && (s.orders[i].checked || s.orders[i].found) ==> s.orders[i].stands
      {
        ReachableIsSound(f, w, s);
      }
    }
  }
}
