/** What each line of a pushed order is charged. Money is in minor units, as integers. */
module OrderTotals {
  import opened Wrappers
  import opened Numbers

  function Sum(s: seq<int>): int {
    if s == [] then 0 else s[0] + Sum(s[1..])
  }

  lemma {:induction false} SumUpdate(s: seq<int>, i: nat, x: int)
    requires i < |s|
    ensures Sum(s[i := x]) == Sum(s) - s[i] + x
  {
    if i == 0 {
      assert s[0 := x][1..] == s[1..];
    } else {
      SumUpdate(s[1..], i - 1, x);
      assert s[i := x][1..] == s[1..][i - 1 := x];
    }
  }

  /** Each line's exact proportional share, rounded down. */
  function Floors(totals: seq<int>, discount: int, sum: int): (r: seq<int>)
    requires sum > 0
    ensures |r| == |totals|
    ensures forall i :: 0 <= i < |totals| ==> r[i] == totals[i] * discount / sum
  {
    if totals == [] then [] else [totals[0] * discount / sum] + Floors(totals[1..], discount, sum)
  }

  function Zeros(n: nat): (r: seq<int>)
    ensures |r| == n && forall i :: 0 <= i < n ==> r[i] == 0
  {
    seq(n, _ => 0)
  }

  function Shares(totals: seq<int>, discount: int): (r: seq<int>)
    ensures |r| == |totals|
  {
    var sum := Sum(totals);
    if discount <= 0 || sum <= 0 then Zeros(|totals|)
    else
      var floors := Floors(totals, discount, sum);
      var last := |totals| - 1;
      floors[last := floors[last] + discount - Sum(floors)]
  }

  /** `reduce((acc, value) => acc + value, 0)` */
  method Reduce(s: seq<int>) returns (sum: int)
    ensures sum == Sum(s)
  {
    sum := 0;
    var k := 0;
    while k < |s|
      invariant 0 <= k <= |s|
      invariant sum + Sum(s[k..]) == Sum(s)
    {
      sum := sum + s[k];
      k := k + 1;
    }
  }

  /** `allocate`: the shares are computed one by one and the last is then overwritten. */
  method Allocate(totals: seq<int>, discount: int) returns (shares: array<int>)
    ensures fresh(shares)
    ensures shares[..] == Shares(totals, discount)
  {
    var sum := Reduce(totals);
    shares := new int[|totals|](_ => 0);
    if discount <= 0 || sum <= 0 {
      return;
    }
    var k := 0;
    while k < |totals|
      invariant 0 <= k <= |totals|
      invariant forall i :: 0 <= i < k ==> shares[i] == totals[i] * discount / sum
    {
      shares[k] := totals[k] * discount / sum;
      k := k + 1;
    }
    assert shares[..] == Floors(totals, discount, sum);
    var taken := Reduce(shares[..]);
    shares[shares.Length - 1] := shares[shares.Length - 1] + discount - taken;
  }

  /** One more line: its floor loses less than one unit. */
  lemma FloorsBoundStep(x: int, rest: int, n: nat, discount: int, sum: int, floors: int)
    requires sum > 0
    requires sum * floors <= discount * rest <= sum * floors + n * (sum - 1)
    ensures sum * (x * discount / sum + floors) <= discount * (x + rest)
    ensures discount * (x + rest) <= sum * (x * discount / sum + floors) + (n + 1) * (sum - 1)
  {
    var first := x * discount / sum;
    FloorOf(x * discount, sum);
    Distribute(discount, x, rest);
    Distribute(sum, first, floors);
    Distribute(sum - 1, n, 1);
  }

  /** Rounding each of n shares down loses less than one unit each. */
  lemma {:induction false} FloorsBound(totals: seq<int>, discount: int, sum: int)
    requires sum > 0
    ensures sum * Sum(Floors(totals, discount, sum)) <= discount * Sum(totals)
    ensures discount * Sum(totals) <= sum * Sum(Floors(totals, discount, sum)) + |totals| * (sum - 1)
  {
    if totals != [] {
      var rest := Floors(totals[1..], discount, sum);
      FloorsBound(totals[1..], discount, sum);
      assert Floors(totals, discount, sum)[1..] == rest;
      FloorsBoundStep(totals[0], Sum(totals[1..]), |totals[1..]|, discount, sum, Sum(rest));
    }
  }

  /** The shares always add up to the discount. */
  lemma SharesAddUp(totals: seq<int>, discount: int)
    requires discount > 0 && Sum(totals) > 0
    ensures Sum(Shares(totals, discount)) == discount
  {
    var floors := Floors(totals, discount, Sum(totals));
    var last := |totals| - 1;
    SumUpdate(floors, last, floors[last] + discount - Sum(floors));
  }

  lemma Quotients(sum: int, floors: int, discount: int, n: int)
    requires sum > 0 && n > 0
    requires sum * floors <= discount * sum <= sum * floors + n * (sum - 1)
    ensures floors <= discount < floors + n
  {
    if floors > discount {
      ScaleUp(sum, discount, floors);
    }
    if floors + n <= discount {
      ScaleUp(sum, floors + n, discount);
      Distribute(sum, floors, n);
    }
  }

  /** Non-negative lines get non-negative shares; every line but the last gets its exact proportional floor, and
      the last at most one unit less than the number of lines on top of its own. */
  lemma SharesAreProportional(totals: seq<int>, discount: int)
    requires discount > 0 && Sum(totals) > 0
    requires forall i :: 0 <= i < |totals| ==> totals[i] >= 0
    ensures var shares, sum := Shares(totals, discount), Sum(totals);
            && (forall i :: 0 <= i < |totals| ==> shares[i] >= 0)
            && (forall i :: 0 <= i < |totals| - 1 ==>
                  sum * shares[i] <= totals[i] * discount < sum * shares[i] + sum)
            && totals[|totals| - 1] * discount / sum <= shares[|totals| - 1]
            && shares[|totals| - 1] < totals[|totals| - 1] * discount / sum + |totals|
  {
    var sum := Sum(totals);
    var floors := Floors(totals, discount, sum);
    FloorsBound(totals, discount, sum);
    Quotients(sum, Sum(floors), discount, |totals|);
    forall i | 0 <= i < |totals|
      ensures floors[i] >= 0 && sum * floors[i] <= totals[i] * discount < sum * floors[i] + sum
    {
      FloorIsFair(totals[i], discount, sum);
    }
  }

  lemma FloorIsFair(x: int, discount: int, sum: int)
    requires x >= 0 && discount >= 0 && sum > 0
    ensures x * discount / sum >= 0
    ensures sum * (x * discount / sum) <= x * discount < sum * (x * discount / sum) + sum
  {
    assert x * discount >= 0;
    FloorOf(x * discount, sum);
  }

  // ---- When a line ends below zero -----------------------------------------------------------------

  /** `x / d` rounded up. */
  function Ceil(x: int, d: int): int
    requires d > 0
  {
    -((-x) / d)
  }

  /** What the lines keep when each keeps its exact proportional part of `kept`, rounded up. */
  function CeilSum(totals: seq<int>, kept: int, sum: int): int
    requires sum > 0
  {
    if totals == [] then 0 else Ceil(totals[0] * kept, sum) + CeilSum(totals[1..], kept, sum)
  }

  /** A line less its floor of the discount is its part of what is left, rounded up. */
  lemma KeptIsCeil(t: int, discount: int, sum: int)
    requires sum > 0
    ensures t - t * discount / sum == Ceil(t * (sum - discount), sum)
  {
    var q := t * discount / sum;
    FloorOf(t * discount, sum);
    Distribute(t, sum - discount, discount);
    Distribute(sum, q - t, t);
    assert -(t * (sum - discount)) == t * discount - sum * t;
    QuotientIsUnique(t * discount - sum * t, sum, q - t);
  }

  lemma {:induction false} KeptSum(totals: seq<int>, discount: int, sum: int)
    requires sum > 0
    ensures Sum(totals) - Sum(Floors(totals, discount, sum)) == CeilSum(totals, sum - discount, sum)
  {
    if totals != [] {
      assert Floors(totals, discount, sum)[1..] == Floors(totals[1..], discount, sum);
      KeptSum(totals[1..], discount, sum);
      KeptIsCeil(totals[0], discount, sum);
    }
  }

  lemma {:induction false} SumSplit(s: seq<int>)
    requires s != []
    ensures Sum(s) == Sum(s[..|s| - 1]) + s[|s| - 1]
  {
    var n := |s| - 1;
    if n > 0 {
      SumSplit(s[1..]);
      assert s[1..][..n - 1] == s[..n][1..];
    } else {
      assert s[..0] == [] && s[1..] == [];
    }
  }

  /** The last line keeps a total of at least nothing exactly when the parts the other lines keep, each rounded up,
      leave something of what the order comes to after its discount. */
  lemma LastLineIff(totals: seq<int>, discount: int)
    requires discount > 0 && Sum(totals) > 0
    ensures var n, sum := |totals| - 1, Sum(totals);
            (Shares(totals, discount)[n] <= totals[n]) <==> CeilSum(totals[..n], sum - discount, sum) <= sum - discount
  {
    var n, sum := |totals| - 1, Sum(totals);
    var floors := Floors(totals, discount, sum);
    SumSplit(totals);
    SumSplit(floors);
    assert floors[..n] == Floors(totals[..n], discount, sum);
    KeptSum(totals[..n], discount, sum);
  }

  /** No line of an order goes below zero exactly when the discount does not exceed the order and the last line
      passes its test. */
  lemma NoLineGoesNegativeIff(totals: seq<int>, discount: int)
    requires discount > 0 && Sum(totals) > 0
    requires forall i :: 0 <= i < |totals| ==> totals[i] >= 0
    ensures var n, sum := |totals| - 1, Sum(totals);
            var all := forall i :: 0 <= i < |totals| ==> Shares(totals, discount)[i] <= totals[i];
            all <==> discount <= sum && CeilSum(totals[..n], sum - discount, sum) <= sum - discount
  {
    var n := |totals| - 1;
    LastLineIff(totals, discount);
    if discount <= Sum(totals) {
      forall i | 0 <= i < n ensures Shares(totals, discount)[i] <= totals[i] {
        EarlierLinesStayNonNegative(totals, discount, i);
      }
    } else {
      SharesAddUp(totals, discount);
      if forall i :: 0 <= i < |totals| ==> Shares(totals, discount)[i] <= totals[i] {
        SumIsMonotone(Shares(totals, discount), totals);
      }
    }
  }

  lemma {:induction false} SumIsMonotone(s: seq<int>, t: seq<int>)
    requires |s| == |t| && forall i :: 0 <= i < |s| ==> s[i] <= t[i]
    ensures Sum(s) <= Sum(t)
  {
    if s != [] {
      SumIsMonotone(s[1..], t[1..]);
    }
  }

  /** The remainder can push the last line below nothing: 3 + 3 + 1 less a discount of 6. */
  lemma LastLineCanGoNegative()
    ensures Shares([3, 3, 1], 6) == [2, 2, 2] && Shares([3, 3, 1], 6)[2] > [3, 3, 1][2]
    ensures SentTotals([PricedLine(3, None), PricedLine(3, None), PricedLine(1, None)], Some(6)) == [1, 1, -1]
  {
    var totals := [3, 3, 1];
    assert totals[1..] == [3, 1] && totals[1..][1..] == [1] && totals[1..][1..][1..] == [];
    assert Sum(totals) == 7;
    var floors := Floors(totals, 6, 7);
    assert floors[0] == 18 / 7 && floors[1] == 18 / 7 && floors[2] == 6 / 7;
    assert floors == [2, 2, 0];
    assert floors[1..] == [2, 0] && floors[1..][1..] == [0] && floors[1..][1..][1..] == [];
    assert Sum(floors[1..][1..]) == 0;
    assert Sum(floors[1..]) == 2;
    assert Sum(floors) == 4;
    var lines := [PricedLine(3, None), PricedLine(3, None), PricedLine(1, None)];
    assert Totals(lines) == totals;
    assert OwnShares(lines) == Zeros(3);
    SumOfZeros(3);
  }

  /** Every line but the last keeps a total of at least nothing when the discount does not exceed the order. */
  lemma EarlierLinesStayNonNegative(totals: seq<int>, discount: int, i: nat)
    requires 0 < discount <= Sum(totals)
    requires forall k :: 0 <= k < |totals| ==> totals[k] >= 0
    requires i < |totals| - 1
    ensures 0 <= Shares(totals, discount)[i] <= totals[i]
  {
    SharesAreProportional(totals, discount);
    var sum, share := Sum(totals), Shares(totals, discount)[i];
    if totals[i] > 0 {
      ScaleUp(totals[i], discount, sum);
    }
    if share > totals[i] {
      ScaleUp(sum, totals[i], share);
    }
  }

  // ---- The totals a push sends ---------------------------------------------------------------------

  datatype PricedLine = PricedLine(total: int, discount: Option<int>)

  function Totals(lines: seq<PricedLine>): (r: seq<int>)
    ensures |r| == |lines|
  {
    seq(|lines|, i requires 0 <= i < |lines| => lines[i].total)
  }

  function OwnShares(lines: seq<PricedLine>): (r: seq<int>)
    ensures |r| == |lines|
  {
    seq(|lines|, i requires 0 <= i < |lines| => if lines[i].discount.Some? then lines[i].discount.value else 0)
  }

  function Amount(discount: Option<int>): int { if discount.Some? then discount.value else 0 }

  /** The platform's own per-line discounts are used when they add up to the order's. */
  predicate UsesOwnShares(lines: seq<PricedLine>, discount: Option<int>) {
    discount.Some? && Sum(OwnShares(lines)) == discount.value
  }

  function Discounts(lines: seq<PricedLine>, discount: Option<int>): (r: seq<int>)
    ensures |r| == |lines|
  {
    if UsesOwnShares(lines, discount) then OwnShares(lines)
    else Shares(Totals(lines), Amount(discount))
  }

  function SentTotals(lines: seq<PricedLine>, discount: Option<int>): (r: seq<int>)
    ensures |r| == |lines|
  {
    var discounts := Discounts(lines, discount);
    seq(|lines|, i requires 0 <= i < |lines| => lines[i].total - discounts[i])
  }

  lemma {:induction false} SumOfDifferences(s: seq<int>, t: seq<int>, u: seq<int>)
    requires |s| == |t| == |u| && forall i :: 0 <= i < |s| ==> u[i] == s[i] - t[i]
    ensures Sum(u) == Sum(s) - Sum(t)
  {
    if s != [] {
      SumOfDifferences(s[1..], t[1..], u[1..]);
    }
  }

  lemma {:induction false} SumOfZeros(n: nat)
    ensures Sum(Zeros(n)) == 0
  {
    if n > 0 {
      assert Zeros(n)[1..] == Zeros(n - 1);
      SumOfZeros(n - 1);
    }
  }

  /** The line totals sent add up to the order less its discount exactly when the platform split the discount
      itself, or there is none, or there is something positive to spread a positive discount over. */
  lemma SentTotalsConserveMoneyIff(lines: seq<PricedLine>, discount: Option<int>)
    ensures Sum(SentTotals(lines, discount)) == Sum(Totals(lines)) - Amount(discount)
       <==> UsesOwnShares(lines, discount) || Amount(discount) == 0 || (Amount(discount) > 0 && Sum(Totals(lines)) > 0)
  {
    var amount := Amount(discount);
    SumOfDifferences(Totals(lines), Discounts(lines, discount), SentTotals(lines, discount));
    SumOfZeros(|lines|);
    if !UsesOwnShares(lines, discount) && amount > 0 && Sum(Totals(lines)) > 0 {
      SharesAddUp(Totals(lines), amount);
    }
  }

  /** No line total sent is below zero exactly when the platform's own split respects the lines, or, where it is split
      here, there is nothing to split, or the discount fits the order and the rounding leaves the last line enough. */
  lemma SentTotalsStayNonNegativeIff(lines: seq<PricedLine>, discount: Option<int>)
    requires forall i :: 0 <= i < |lines| ==> lines[i].total >= 0
    ensures var totals, amount, sum := Totals(lines), Amount(discount), Sum(Totals(lines));
            var all := forall i :: 0 <= i < |lines| ==> SentTotals(lines, discount)[i] >= 0;
            if UsesOwnShares(lines, discount) then
              all <==> forall i :: 0 <= i < |lines| ==> OwnShares(lines)[i] <= lines[i].total
            else
              all <==>
                amount <= 0 || sum <= 0
                || (amount <= sum && CeilSum(totals[..|totals| - 1], sum - amount, sum) <= sum - amount)
  {
    var totals, amount := Totals(lines), Amount(discount);
    var sent, discounts := SentTotals(lines, discount), Discounts(lines, discount);
    assert forall i :: 0 <= i < |lines| ==> (sent[i] >= 0 <==> discounts[i] <= lines[i].total);
    if !UsesOwnShares(lines, discount) && amount > 0 && Sum(totals) > 0 {
      assert totals != [];
      NoLineGoesNegativeIff(totals, amount);
      assert forall i :: 0 <= i < |lines| ==> totals[i] == lines[i].total;
    }
  }

  /** A line is sent at its total less the platform's own discount on it when those discounts add up to the order's; at
      its total less its allocated share when they do not; and at its total when there is nothing to take off, or
      nothing to take it from. */
  lemma SentTotalsAre(lines: seq<PricedLine>, discount: Option<int>, i: nat)
    requires i < |lines|
    ensures var own := if lines[i].discount.Some? then lines[i].discount.value else 0;
            var sent := SentTotals(lines, discount)[i];
            && (discount.Some? && Sum(OwnShares(lines)) == discount.value ==> sent == lines[i].total - own)
            && (discount.Some? && Sum(OwnShares(lines)) != discount.value ==>
                  sent == lines[i].total - Shares(Totals(lines), discount.value)[i]
                  && (discount.value <= 0 || Sum(Totals(lines)) <= 0 ==> sent == lines[i].total))
            && (discount.None? ==> sent == lines[i].total)
            && OwnShares(lines)[i] == own && Totals(lines)[i] == lines[i].total
  {
  }
}
