/** When the stock check before creation is enough by itself, with nobody else pushing in between. */
module OrderPushCheck {
  import opened Wrappers
  import opened OrderPushProtocol

  /** What is taken as available of variants whose stock the store does not track. */
  type Untracked = map<Variant, nat>

  function Seen(w: World, s: Shop, line: Line, untracked: Untracked): int {
    Available(w, s, line, if line.variant in untracked then untracked[line.variant] else 0)
  }

  /** The check on reads of one store state. */
  ghost predicate Passes(w: World, s: Shop, lines: seq<Line>, untracked: Untracked) {
    forall i :: 0 <= i < |lines| ==> lines[i].quantity <= Seen(w, s, lines[i], untracked)
  }

  /** Every read was made in the state `s`. */
  ghost predicate ReadIn(w: World, s: Shop, lines: seq<Line>, seen: seq<int>, untracked: Untracked) {
    |seen| == |lines| && forall i :: 0 <= i < |lines| ==> seen[i] == Seen(w, s, lines[i], untracked)
  }

  lemma {:induction false} TargetIsSeen(w: World, s: Shop, lines: seq<Line>, seen: seq<int>, untracked: Untracked,
                                        i: nat)
    requires ReadIn(w, s, lines, seen, untracked) && i < |lines|
    ensures Target(lines, seen, lines[i].variant) == Seen(w, s, lines[i], untracked)
  {
    var n := |lines| - 1;
    if lines[n].variant != lines[i].variant {
      TargetIsSeen(w, s, lines[..n], seen[..n], untracked, i);
    }
  }

  /** On reads of one state, the check of a push passes exactly when the state has enough for each line by itself. */
  lemma SufficesIff(w: World, s: Shop, lines: seq<Line>, seen: seq<int>, untracked: Untracked)
    requires ReadIn(w, s, lines, seen, untracked)
    ensures Suffices(lines, seen) <==> Passes(w, s, lines, untracked)
  {
    forall i | 0 <= i < |lines|
      ensures Target(lines, seen, lines[i].variant) == Seen(w, s, lines[i], untracked)
    {
      TargetIsSeen(w, s, lines, seen, untracked, i);
    }
  }

  /** Of the lines drawing on a pool exactly one asks for something. */
  ghost predicate OneAskerEach(w: World, lines: seq<Line>) {
    forall i, p :: 0 <= i < |lines| && Tracks(w, lines[i], p) ==> exists j :: OnlyAsker(w, lines, p, j)
  }

  ghost predicate OnlyAsker(w: World, lines: seq<Line>, p: Pool, j: int) {
    && 0 <= j < |lines| && Tracks(w, lines[j], p) && lines[j].quantity > 0
    && forall k :: 0 <= k < |lines| && Tracks(w, lines[k], p) && k != j ==> lines[k].quantity == 0
  }

  lemma {:induction false} NothingDrawn(w: World, lines: seq<Line>, p: Pool)
    requires forall k :: 0 <= k < |lines| && Tracks(w, lines[k], p) ==> lines[k].quantity == 0
    ensures Drawn(w, lines, p) == 0
  {
    if lines != [] {
      assert forall k :: 0 <= k < |lines[1..]| ==> lines[1..][k] == lines[k + 1];
      NothingDrawn(w, lines[1..], p);
    }
  }

  lemma {:induction false} OneDrawn(w: World, lines: seq<Line>, p: Pool, j: nat)
    requires OnlyAsker(w, lines, p, j)
    ensures Drawn(w, lines, p) == lines[j].quantity
  {
    var rest := lines[1..];
    assert forall k :: 0 <= k < |rest| ==> rest[k] == lines[k + 1];
    if j == 0 {
      NothingDrawn(w, rest, p);
    } else {
      assert OnlyAsker(w, rest, p, j - 1);
      OneDrawn(w, rest, p, j - 1);
    }
  }

  lemma {:induction false} DrawnAtLeast(w: World, lines: seq<Line>, p: Pool, j: nat)
    requires j < |lines| && Tracks(w, lines[j], p)
    ensures Drawn(w, lines, p) >= lines[j].quantity
    decreases j
  {
    if j > 0 {
      DrawnAtLeast(w, lines[1..], p, j - 1);
    }
  }

  lemma {:induction false} TwoDrawn(w: World, lines: seq<Line>, p: Pool, j: nat, k: nat)
    requires j < k < |lines| && Tracks(w, lines[j], p) && Tracks(w, lines[k], p)
    ensures Drawn(w, lines, p) >= lines[j].quantity + lines[k].quantity
    decreases j
  {
    if j == 0 {
      DrawnAtLeast(w, lines[1..], p, k - 1);
    } else {
      TwoDrawn(w, lines[1..], p, j - 1, k - 1);
    }
  }

  /** A line on the pool that asks for the most. */
  lemma Largest(w: World, lines: seq<Line>, p: Pool, i: nat) returns (m: nat)
    requires i < |lines| && Tracks(w, lines[i], p)
    ensures m < |lines| && Tracks(w, lines[m], p)
    ensures forall k :: 0 <= k < |lines| && Tracks(w, lines[k], p) ==> lines[k].quantity <= lines[m].quantity
  {
    m := i;
    var n := 0;
    while n < |lines|
      invariant 0 <= n <= |lines| && m < |lines| && Tracks(w, lines[m], p)
      invariant forall k :: 0 <= k < n && Tracks(w, lines[k], p) ==> lines[k].quantity <= lines[m].quantity
    {
      if Tracks(w, lines[n], p) && lines[n].quantity > lines[m].quantity {
        m := n;
      }
      n := n + 1;
    }
  }

  function Total(lines: seq<Line>): nat {
    if lines == [] then 0 else lines[0].quantity + Total(lines[1..])
  }

  lemma {:induction false} TotalCovers(lines: seq<Line>, k: nat)
    requires k < |lines|
    ensures lines[k].quantity <= Total(lines)
    decreases k
  {
    if k > 0 {
      TotalCovers(lines[1..], k - 1);
    }
  }

  /** After creating the order a pool of one of its lines is below zero. */
  ghost predicate Oversells(w: World, s: Shop, o: OrderId) {
    exists i :: 0 <= i < |Lines(w, o)| && IsOversold(w, Placing(w, s, o), Lines(w, o)[i])
  }

  /** Whatever the stock, an order that passes the check does not oversell when nobody else pushes. */
  ghost predicate CheckIsEnough(w: World, o: OrderId) {
    forall s: Shop, untracked: Untracked ::
      s.stock.Keys == w.start.Keys && Passes(w, s, Lines(w, o), untracked) ==> !Oversells(w, s, o)
  }

  /** The pool has just what the largest line asks for, or is already below zero; the others have plenty. */
  function Short(w: World, lines: seq<Line>, p: Pool, most: nat): Shop {
    Shop(map q | q in w.start :: if q != p then Total(lines) else if most > 0 then most else -1, [], map[])
  }

  function Plenty(lines: seq<Line>): Untracked {
    map k | 0 <= k < |lines| :: lines[k].variant := Total(lines)
  }

  lemma ShortPasses(w: World, lines: seq<Line>, p: Pool, most: nat)
    requires ValidWorld(w)
    requires forall k :: 0 <= k < |lines| && Tracks(w, lines[k], p) ==> lines[k].quantity <= most
    ensures Passes(w, Short(w, lines, p, most), lines, Plenty(lines))
  {
    var s := Short(w, lines, p, most);
    forall k | 0 <= k < |lines| ensures lines[k].quantity <= Seen(w, s, lines[k], Plenty(lines)) {
      TotalCovers(lines, k);
      if lines[k].variant in w.pools && w.pools[lines[k].variant] == p {
        assert Tracks(w, lines[k], p);
      }
    }
  }

  lemma TwoAskersOversell(w: World, o: OrderId, i: nat, p: Pool)
    requires ValidWorld(w) && i < |Lines(w, o)| && Tracks(w, Lines(w, o)[i], p)
    requires forall j :: !OnlyAsker(w, Lines(w, o), p, j)
    ensures !CheckIsEnough(w, o)
  {
    var lines := Lines(w, o);
    var m := Largest(w, lines, p, i);
    var most := lines[m].quantity;
    var s := Short(w, lines, p, most);
    ShortPasses(w, lines, p, most);
    if most > 0 {
      assert !OnlyAsker(w, lines, p, m);
      var k :| 0 <= k < |lines| && Tracks(w, lines[k], p) && k != m && lines[k].quantity > 0;
      TwoDrawn(w, lines, p, if k < m then k else m, if k < m then m else k);
    }
    assert IsOversold(w, Placing(w, s, o), lines[i]);
    assert Oversells(w, s, o);
  }

  /** The check before creation is enough by itself exactly when no two lines of the order draw on one pool (and no
      line asks for nothing of a pool alone): it looks at every line as if it were the only one. */
  lemma CheckIsEnoughIff(w: World, o: OrderId)
    requires ValidWorld(w)
    ensures CheckIsEnough(w, o) <==> OneAskerEach(w, Lines(w, o))
  {
    var lines := Lines(w, o);
    if OneAskerEach(w, lines) {
      forall s: Shop, untracked: Untracked | s.stock.Keys == w.start.Keys && Passes(w, s, lines, untracked)
        ensures !Oversells(w, s, o)
      {
        forall i | 0 <= i < |lines| ensures !IsOversold(w, Placing(w, s, o), lines[i]) {
          if lines[i].variant in w.pools {
            var p := w.pools[lines[i].variant];
            assert Tracks(w, lines[i], p);
            var j :| OnlyAsker(w, lines, p, j);
            OneDrawn(w, lines, p, j);
            assert lines[j].quantity <= Seen(w, s, lines[j], untracked);
          }
        }
      }
    } else {
      var i, p :| 0 <= i < |lines| && Tracks(w, lines[i], p) && forall j :: !OnlyAsker(w, lines, p, j);
      TwoAskersOversell(w, o, i, p);
    }
  }
}
