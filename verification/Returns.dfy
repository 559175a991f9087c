/** `requestReturn`: spreading the returned quantities over fulfilment lines. */
module Returns {
  import opened Wrappers
  import opened JsText

  datatype FulfilmentLine = FulfilmentLine(id: string, variant: Option<string>, quantity: nat)

  datatype Wanted = Wanted(variant: string, quantity: nat)

  datatype Piece = Piece(id: string, quantity: nat)

  datatype NotShipped = NotShipped(remaining: nat, variant: string)

  function Min(a: nat, b: nat): nat {
    if a <= b then a else b
  }

  /** How much of the variant the store has shipped. */
  function Shipped(lines: seq<FulfilmentLine>, variant: string): nat {
    if lines == [] then 0
    else (if lines[0].variant == Some(variant) then lines[0].quantity else 0) + Shipped(lines[1..], variant)
  }

  /** The pieces one wanted line is split into. */
  function PiecesFor(lines: seq<FulfilmentLine>, variant: string, remaining: nat): seq<Piece> {
    if lines == [] || remaining == 0 then []
    else if lines[0].variant != Some(variant) then PiecesFor(lines[1..], variant, remaining)
    else
      var take := Min(remaining, lines[0].quantity);
      [Piece(lines[0].id, take)] + PiecesFor(lines[1..], variant, remaining - take)
  }

  function AllPieces(lines: seq<FulfilmentLine>, wanted: seq<Wanted>): seq<Piece> {
    if wanted == [] then []
    else
      var n := |wanted| - 1;
      AllPieces(lines, wanted[..n]) + PiecesFor(lines, wanted[n].variant, wanted[n].quantity)
  }

  ghost predicate CanReturn(lines: seq<FulfilmentLine>, wanted: seq<Wanted>) {
    forall i :: 0 <= i < |wanted| ==> wanted[i].quantity <= Shipped(lines, wanted[i].variant)
  }

  /** Takes the wanted quantity from the variant's lines, first line first; says what is still missing. */
  method TakePieces(lines: seq<FulfilmentLine>, wanted: Wanted) returns (pieces: seq<Piece>, missing: nat)
    ensures pieces == PiecesFor(lines, wanted.variant, wanted.quantity)
    ensures missing == wanted.quantity - Min(wanted.quantity, Shipped(lines, wanted.variant))
  {
    var remaining: nat := wanted.quantity;
    pieces := [];
    var i: nat := 0;
    while i < |lines| && remaining != 0
      invariant 0 <= i <= |lines|
      invariant pieces + PiecesFor(lines[i..], wanted.variant, remaining)
             == PiecesFor(lines, wanted.variant, wanted.quantity)
      invariant remaining - Min(remaining, Shipped(lines[i..], wanted.variant))
             == wanted.quantity - Min(wanted.quantity, Shipped(lines, wanted.variant))
    {
      var line := lines[i];
      assert lines[i..][1..] == lines[i + 1..];
      if line.variant == Some(wanted.variant) {
        var take := Min(remaining, line.quantity);
        ghost var rest := PiecesFor(lines[i + 1..], wanted.variant, remaining - take);
        assert pieces + ([Piece(line.id, take)] + rest) == pieces + [Piece(line.id, take)] + rest;
        pieces := pieces + [Piece(line.id, take)];
        remaining := remaining - take;
      }
      i := i + 1;
    }
    assert pieces + [] == pieces;
    missing := remaining;
  }

  /** Fails for the first wanted line the store has not shipped enough of; else the pieces of every wanted line. */
  method RequestReturn(lines: seq<FulfilmentLine>, wanted: seq<Wanted>)
    returns (r: Result<seq<Piece>, NotShipped>)
    ensures r.Ok? <==> CanReturn(lines, wanted)
    ensures r.Ok? ==> r.value == AllPieces(lines, wanted)
    ensures r.Err? ==>
              exists i :: 0 <= i < |wanted| && CanReturn(lines, wanted[..i])
                && r.error.variant == wanted[i].variant
                && 0 < r.error.remaining == wanted[i].quantity - Shipped(lines, wanted[i].variant)
  {
    var pieces := [];
    var i := 0;
    while i < |wanted|
      invariant 0 <= i <= |wanted|
      invariant CanReturn(lines, wanted[..i])
      invariant pieces == AllPieces(lines, wanted[..i])
    {
      var more, missing := TakePieces(lines, wanted[i]);
      assert wanted[..i + 1][..i] == wanted[..i];
      if missing > 0 {
        return Err(NotShipped(missing, wanted[i].variant));
      }
      pieces := pieces + more;
      i := i + 1;
    }
    assert wanted[..i] == wanted;
    return Ok(pieces);
  }

  function Total(pieces: seq<Piece>): nat {
    if pieces == [] then 0 else pieces[0].quantity + Total(pieces[1..])
  }

  function TakenFrom(pieces: seq<Piece>, id: string): nat {
    if pieces == [] then 0
    else (if pieces[0].id == id then pieces[0].quantity else 0) + TakenFrom(pieces[1..], id)
  }

  /** All that is wanted of a variant. */
  function Asked(wanted: seq<Wanted>, variant: string): nat {
    if wanted == [] then 0
    else
      var n := |wanted| - 1;
      Asked(wanted[..n], variant) + if wanted[n].variant == variant then wanted[n].quantity else 0
  }

  function AskedInAll(wanted: seq<Wanted>): nat {
    if wanted == [] then 0 else AskedInAll(wanted[..|wanted| - 1]) + wanted[|wanted| - 1].quantity
  }

  lemma {:induction false} TotalAppend(a: seq<Piece>, b: seq<Piece>)
    ensures Total(a + b) == Total(a) + Total(b)
  {
    if a == [] {
      assert a + b == b;
    } else {
      assert (a + b)[1..] == a[1..] + b;
      TotalAppend(a[1..], b);
    }
  }

  lemma {:induction false} TakenAppend(a: seq<Piece>, b: seq<Piece>, id: string)
    ensures TakenFrom(a + b, id) == TakenFrom(a, id) + TakenFrom(b, id)
  {
    if a == [] {
      assert a + b == b;
    } else {
      assert (a + b)[1..] == a[1..] + b;
      TakenAppend(a[1..], b, id);
    }
  }

  lemma {:induction false} PiecesSum(lines: seq<FulfilmentLine>, variant: string, quantity: nat)
    ensures Total(PiecesFor(lines, variant, quantity)) == Min(quantity, Shipped(lines, variant))
  {
    if lines != [] && quantity != 0 {
      if lines[0].variant == Some(variant) {
        PiecesSum(lines[1..], variant, quantity - Min(quantity, lines[0].quantity));
      } else {
        PiecesSum(lines[1..], variant, quantity);
      }
    }
  }

  /** A granted return gives back exactly what was asked, in all. */
  lemma {:induction false} PiecesAddUp(lines: seq<FulfilmentLine>, wanted: seq<Wanted>)
    requires CanReturn(lines, wanted)
    ensures Total(AllPieces(lines, wanted)) == AskedInAll(wanted)
  {
    if wanted != [] {
      var n := |wanted| - 1;
      PiecesAddUp(lines, wanted[..n]);
      PiecesSum(lines, wanted[n].variant, wanted[n].quantity);
      TotalAppend(AllPieces(lines, wanted[..n]), PiecesFor(lines, wanted[n].variant, wanted[n].quantity));
    }
  }

  ghost predicate DistinctIds(lines: seq<FulfilmentLine>) {
    forall i, j :: 0 <= i < j < |lines| ==> lines[i].id != lines[j].id
  }

  /** What falls to line `k` when its variant's lines are emptied in order. */
  function Share(lines: seq<FulfilmentLine>, quantity: nat, k: nat): nat
    requires k < |lines|
  {
    match lines[k].variant
    case None => 0
    case Some(variant) =>
      var before := Shipped(lines[..k], variant);
      if quantity <= before then 0 else Min(lines[k].quantity, quantity - before)
  }

  lemma {:induction false} NothingFromOthers(lines: seq<FulfilmentLine>, variant: string, quantity: nat, id: string)
    requires forall i :: 0 <= i < |lines| ==> lines[i].id != id
    ensures TakenFrom(PiecesFor(lines, variant, quantity), id) == 0
  {
    if lines != [] && quantity != 0 {
      if lines[0].variant == Some(variant) {
        NothingFromOthers(lines[1..], variant, quantity - Min(quantity, lines[0].quantity), id);
      } else {
        NothingFromOthers(lines[1..], variant, quantity, id);
      }
    }
  }

  lemma {:induction false} LineShare(lines: seq<FulfilmentLine>, variant: string, quantity: nat, k: nat)
    requires DistinctIds(lines) && k < |lines|
    ensures TakenFrom(PiecesFor(lines, variant, quantity), lines[k].id)
         == if lines[k].variant == Some(variant) then Share(lines, quantity, k) else 0
    decreases |lines|
  {
    if quantity != 0 {
      var rest := lines[1..];
      var left := if lines[0].variant == Some(variant) then quantity - Min(quantity, lines[0].quantity) else quantity;
      assert DistinctIds(rest);
      if k == 0 {
        NothingFromOthers(rest, variant, left, lines[0].id);
        assert lines[..0] == [];
      } else {
        LineShare(rest, variant, left, k - 1);
        assert lines[..k][1..] == rest[..k - 1];
      }
    }
  }

  /** What the pieces take from the variant's lines among the first `n`. */
  function GivenBack(lines: seq<FulfilmentLine>, pieces: seq<Piece>, variant: string, n: nat): nat
    requires n <= |lines|
  {
    if n == 0 then 0
    else
      GivenBack(lines, pieces, variant, n - 1)
      + if lines[n - 1].variant == Some(variant) then TakenFrom(pieces, lines[n - 1].id) else 0
  }

  lemma {:induction false} GivenBackAppend(lines: seq<FulfilmentLine>, a: seq<Piece>, b: seq<Piece>, variant: string,
                                           n: nat)
    requires n <= |lines|
    ensures GivenBack(lines, a + b, variant, n) == GivenBack(lines, a, variant, n) + GivenBack(lines, b, variant, n)
  {
    if n > 0 {
      GivenBackAppend(lines, a, b, variant, n - 1);
      TakenAppend(a, b, lines[n - 1].id);
    }
  }

  lemma {:induction false} ShippedAppend(lines: seq<FulfilmentLine>, line: FulfilmentLine, variant: string)
    ensures Shipped(lines + [line], variant)
         == Shipped(lines, variant) + if line.variant == Some(variant) then line.quantity else 0
  {
    if lines == [] {
      assert [line][1..] == [];
    } else {
      assert (lines + [line])[1..] == lines[1..] + [line];
      ShippedAppend(lines[1..], line, variant);
    }
  }

  /** One wanted line takes only from its own variant's lines, as much as is wanted or there is. */
  lemma {:induction false} OneGivenBack(lines: seq<FulfilmentLine>, wanted: Wanted, variant: string, n: nat)
    requires DistinctIds(lines) && n <= |lines|
    ensures GivenBack(lines, PiecesFor(lines, wanted.variant, wanted.quantity), variant, n)
         == if wanted.variant == variant then Min(wanted.quantity, Shipped(lines[..n], variant)) else 0
  {
    if n > 0 {
      OneGivenBack(lines, wanted, variant, n - 1);
      LineShare(lines, wanted.variant, wanted.quantity, n - 1);
      assert lines[..n] == lines[..n - 1] + [lines[n - 1]];
      ShippedAppend(lines[..n - 1], lines[n - 1], variant);
    } else {
      assert lines[..0] == [];
    }
  }

  /** A granted return takes from each variant's lines exactly what was asked of that variant. */
  lemma {:induction false} EachVariantAddsUp(lines: seq<FulfilmentLine>, wanted: seq<Wanted>, variant: string)
    requires DistinctIds(lines) && CanReturn(lines, wanted)
    ensures GivenBack(lines, AllPieces(lines, wanted), variant, |lines|) == Asked(wanted, variant)
  {
    if wanted == [] {
      NothingGivenBack(lines, variant, |lines|);
    } else {
      var n := |wanted| - 1;
      EachVariantAddsUp(lines, wanted[..n], variant);
      OneGivenBack(lines, wanted[n], variant, |lines|);
      assert lines[..|lines|] == lines;
      GivenBackAppend(lines, AllPieces(lines, wanted[..n]), PiecesFor(lines, wanted[n].variant, wanted[n].quantity),
                      variant, |lines|);
    }
  }

  lemma {:induction false} NothingGivenBack(lines: seq<FulfilmentLine>, variant: string, n: nat)
    requires n <= |lines|
    ensures GivenBack(lines, [], variant, n) == 0
  {
    if n > 0 {
      NothingGivenBack(lines, variant, n - 1);
    }
  }

  /** No variant is asked for twice. */
  ghost predicate DistinctAsks(wanted: seq<Wanted>) {
    forall i, j :: 0 <= i < j < |wanted| && wanted[i].quantity > 0 && wanted[j].quantity > 0 ==>
      wanted[i].variant != wanted[j].variant
  }

  lemma {:induction false} NothingAsked(wanted: seq<Wanted>, variant: string)
    requires forall i :: 0 <= i < |wanted| && wanted[i].quantity > 0 ==> wanted[i].variant != variant
    ensures Asked(wanted, variant) == 0
  {
    if wanted != [] {
      NothingAsked(wanted[..|wanted| - 1], variant);
    }
  }

  /** With distinct variants every fulfilment line gives back exactly its share of what was asked of its variant. */
  lemma {:induction false} EachLineGivesItsShare(lines: seq<FulfilmentLine>, wanted: seq<Wanted>, k: nat)
    requires DistinctIds(lines) && DistinctAsks(wanted) && k < |lines|
    ensures TakenFrom(AllPieces(lines, wanted), lines[k].id)
         == match lines[k].variant case None => 0 case Some(variant) => Share(lines, Asked(wanted, variant), k)
  {
    if wanted != [] {
      var n := |wanted| - 1;
      var last := wanted[n];
      EachLineGivesItsShare(lines, wanted[..n], k);
      LineShare(lines, last.variant, last.quantity, k);
      TakenAppend(AllPieces(lines, wanted[..n]), PiecesFor(lines, last.variant, last.quantity), lines[k].id);
      if lines[k].variant == Some(last.variant) && last.quantity > 0 {
        NothingAsked(wanted[..n], last.variant);
      }
    }
  }

  /** Whatever was shipped, no line gives back more than it holds. */
  ghost predicate NeverOverReturns(wanted: seq<Wanted>) {
    forall lines: seq<FulfilmentLine>, k: nat :: DistinctIds(lines) && CanReturn(lines, wanted) && k < |lines| ==>
      TakenFrom(AllPieces(lines, wanted), lines[k].id) <= lines[k].quantity
  }

  /** A fulfilment in which the first line holds exactly what wanted line `i` asks for. */
  function Tight(wanted: seq<Wanted>, i: nat): (lines: seq<FulfilmentLine>)
    requires i < |wanted|
    ensures |lines| == |wanted| + 1
  {
    [FulfilmentLine(Decimal(|wanted|), Some(wanted[i].variant), wanted[i].quantity)]
    + seq(|wanted|, k requires 0 <= k < |wanted| =>
        FulfilmentLine(Decimal(k), Some(wanted[k].variant), wanted[k].quantity))
  }

  lemma {:induction false} ShippedAtLeast(lines: seq<FulfilmentLine>, k: nat, variant: string)
    requires k < |lines| && lines[k].variant == Some(variant)
    ensures Shipped(lines, variant) >= lines[k].quantity
    decreases k
  {
    if k > 0 {
      ShippedAtLeast(lines[1..], k - 1, variant);
    }
  }

  lemma TightIsEnough(wanted: seq<Wanted>, i: nat)
    requires i < |wanted|
    ensures DistinctIds(Tight(wanted, i)) && CanReturn(Tight(wanted, i), wanted)
  {
    var lines := Tight(wanted, i);
    forall k | 0 <= k < |wanted| ensures wanted[k].quantity <= Shipped(lines, wanted[k].variant) {
      ShippedAtLeast(lines, k + 1, wanted[k].variant);
    }
    forall a, b | 0 <= a < b < |lines| ensures lines[a].id != lines[b].id {
      DecimalRoundTrip(if a == 0 then |wanted| else a - 1);
      DecimalRoundTrip(b - 1);
    }
  }

  lemma {:induction false} TakenTwice(lines: seq<FulfilmentLine>, wanted: seq<Wanted>, i: nat, j: nat)
    requires DistinctIds(lines) && i < j < |wanted| && lines != []
    requires lines[0].variant == Some(wanted[i].variant) == Some(wanted[j].variant)
    ensures TakenFrom(AllPieces(lines, wanted), lines[0].id)
         >= Min(lines[0].quantity, wanted[i].quantity) + Min(lines[0].quantity, wanted[j].quantity)
    decreases |wanted|
  {
    var n := |wanted| - 1;
    LineShare(lines, wanted[n].variant, wanted[n].quantity, 0);
    assert lines[..0] == [];
    TakenAppend(AllPieces(lines, wanted[..n]), PiecesFor(lines, wanted[n].variant, wanted[n].quantity), lines[0].id);
    if j < n {
      TakenTwice(lines, wanted[..n], i, j);
    } else {
      TakenOnce(lines, wanted[..n], i);
    }
  }

  lemma {:induction false} TakenOnce(lines: seq<FulfilmentLine>, wanted: seq<Wanted>, i: nat)
    requires DistinctIds(lines) && i < |wanted| && lines != []
    requires lines[0].variant == Some(wanted[i].variant)
    ensures TakenFrom(AllPieces(lines, wanted), lines[0].id) >= Min(lines[0].quantity, wanted[i].quantity)
    decreases |wanted|
  {
    var n := |wanted| - 1;
    LineShare(lines, wanted[n].variant, wanted[n].quantity, 0);
    assert lines[..0] == [];
    TakenAppend(AllPieces(lines, wanted[..n]), PiecesFor(lines, wanted[n].variant, wanted[n].quantity), lines[0].id);
    if i < n {
      TakenOnce(lines, wanted[..n], i);
    }
  }

  /** No line is ever over-returned exactly when no variant is asked for twice. */
  lemma NeverOverReturnsIff(wanted: seq<Wanted>)
    ensures NeverOverReturns(wanted) <==> DistinctAsks(wanted)
  {
    if DistinctAsks(wanted) {
      forall lines: seq<FulfilmentLine>, k: nat | DistinctIds(lines) && CanReturn(lines, wanted) && k < |lines|
        ensures TakenFrom(AllPieces(lines, wanted), lines[k].id) <= lines[k].quantity
      {
        EachLineGivesItsShare(lines, wanted, k);
      }
    } else {
      var i, j :| 0 <= i < j < |wanted| && wanted[i].quantity > 0 && wanted[j].quantity > 0
                  && wanted[i].variant == wanted[j].variant;
      var lines := Tight(wanted, i);
      TightIsEnough(wanted, i);
      TakenTwice(lines, wanted, i, j);
      assert TakenFrom(AllPieces(lines, wanted), lines[0].id) > lines[0].quantity;
    }
  }
}
