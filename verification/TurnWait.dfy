/** How long `DurableObjectConcurrencyCoordinator.run` waits for its turn. Times are milliseconds. */
module TurnWait {
  import opened Wrappers
  import opened Numbers

  const FIRST_TURN_WAIT_MS := 60_000
  const MAX_TURN_WAIT_MS := 3_600_000

  function TurnWaitMs(round: nat): nat {
    var doubled := FIRST_TURN_WAIT_MS * Pow2(round);
    if doubled <= MAX_TURN_WAIT_MS then doubled else MAX_TURN_WAIT_MS
  }

  /** The longest the first `rounds` waits can last together. */
  function TotalWaitMs(rounds: nat): nat {
    if rounds == 0 then 0 else TotalWaitMs(rounds - 1) + TurnWaitMs(rounds - 1)
  }

  /** Every wait lies between a minute and an hour, no wait is shorter than one before it, and from the seventh
      on each is exactly an hour. */
  lemma WaitsGrowToAnHour(m: nat, n: nat)
    requires m <= n
    ensures 60_000 <= TurnWaitMs(m) <= TurnWaitMs(n) <= 3_600_000
    ensures TurnWaitMs(n) == 3_600_000 <==> n >= 6
  {
    Pow2IsMonotone(m, n);
    assert Pow2(3) == 8 && Pow2(6) == 64;
    if n >= 6 {
      Pow2IsMonotone(6, n);
    } else {
      Pow2IsMonotone(n, 5);
    }
  }

  lemma {:induction false} TotalAfterSixRounds(n: nat)
    requires n >= 6
    ensures TotalWaitMs(n) == 3_780_000 + 3_600_000 * (n - 6)
  {
    if n == 6 {
      assert Pow2(3) == 8 && Pow2(5) == 32;
      assert TotalWaitMs(3) == 420_000;
      assert TotalWaitMs(6) == 3_780_000;
    } else {
      TotalAfterSixRounds(n - 1);
      WaitsGrowToAnHour(n - 1, n - 1);
    }
  }

  lemma {:induction false} TotalIsMonotone(m: nat, n: nat)
    requires m <= n
    ensures TotalWaitMs(m) <= TotalWaitMs(n)
  {
    if m < n {
      TotalIsMonotone(m, n - 1);
    }
  }

  /** Queuing for a whole day takes at least 29 rounds, and 29 suffice. */
  lemma ADayTakes29Rounds(n: nat)
    ensures TotalWaitMs(n) >= 24 * 3_600_000 <==> n >= 29
  {
    TotalAfterSixRounds(28);
    TotalAfterSixRounds(29);
    if n >= 29 {
      TotalIsMonotone(29, n);
    } else {
      TotalIsMonotone(n, 28);
    }
  }

  /** How long round `k` lasts: until its turn event, or until it times out. `event(k)` says when the event comes. */
  function RoundMs(event: nat -> Option<nat>, k: nat): nat {
    match event(k)
    case None => TurnWaitMs(k)
    case Some(ms) => if ms < TurnWaitMs(k) then ms else TurnWaitMs(k)
  }

  function ElapsedMs(event: nat -> Option<nat>, rounds: nat): nat {
    if rounds == 0 then 0 else ElapsedMs(event, rounds - 1) + RoundMs(event, rounds - 1)
  }

  /** A round ends with its event when that comes within its wait, and when the wait is over otherwise. */
  lemma RoundEndsWithItsEvent(event: nat -> Option<nat>, k: nat)
    ensures RoundMs(event, k) <= TurnWaitMs(k)
    ensures RoundMs(event, k) < TurnWaitMs(k) <==> event(k).Some? && event(k).value < TurnWaitMs(k)
    ensures RoundMs(event, k) < TurnWaitMs(k) ==> event(k) == Some(RoundMs(event, k))
  {
  }

  /** Turn events only shorten the wait; without any in time it is the total. */
  lemma {:induction false} ElapsedIsBounded(event: nat -> Option<nat>, rounds: nat)
    ensures ElapsedMs(event, rounds) <= TotalWaitMs(rounds)
    ensures (forall k :: 0 <= k < rounds ==> RoundMs(event, k) == TurnWaitMs(k)) ==>
              ElapsedMs(event, rounds) == TotalWaitMs(rounds)
  {
    if rounds > 0 {
      ElapsedIsBounded(event, rounds - 1);
    }
  }

  /** The acquire loop against the answers the coordinator will give and the turn events that will come; it ends at
      the first grant, and whoever waited a day went through at least 29 rounds. */
  method AwaitTurn(grants: seq<bool>, event: nat -> Option<nat>) returns (round: nat, waited: nat)
    ensures round <= |grants| && forall k :: 0 <= k < round ==> !grants[k]
    ensures round < |grants| ==> grants[round]
    ensures waited == ElapsedMs(event, round) <= TotalWaitMs(round)
    ensures waited >= 24 * 3_600_000 ==> round >= 29
  {
    round, waited := 0, 0;
    while round < |grants| && !grants[round]
      invariant round <= |grants| && waited == ElapsedMs(event, round)
      invariant forall k :: 0 <= k < round ==> !grants[k]
    {
      waited := waited + RoundMs(event, round);
      round := round + 1;
    }
    ElapsedIsBounded(event, round);
    ADayTakes29Rounds(round);
  }
}
