/** Different inputs that hash alike, under every key; and what coalescing makes of them. */
module HashCollisions {
  import opened Wrappers
  import opened Numbers
  import opened CanonicalJson
  import opened InputHash
  import opened KeyLock

  // ---- Single bits of an exclusive or ----------------------------------------------------------------

  /** The bit of weight 2^j. */
  function Bit(a: nat, j: nat): nat {
    if j == 0 then a % 2 else Bit(a / 2, j - 1)
  }

  lemma HalvesOfXor(a: nat, b: nat)
    ensures Xor(a, b) / 2 == Xor(a / 2, b / 2) && Xor(a, b) % 2 == (a + b) % 2
  {
    HalfOf(a, b);
  }

  lemma {:induction false} BitOfXor(a: nat, b: nat, j: nat)
    ensures Bit(Xor(a, b), j) == (Bit(a, j) + Bit(b, j)) % 2
  {
    HalvesOfXor(a, b);
    if j > 0 {
      BitOfXor(a / 2, b / 2, j - 1);
    }
  }

  /** Setting a clear bit on both sides changes nothing. */
  lemma {:induction false} SetOnBoth(a: nat, b: nat, j: nat)
    requires Bit(a, j) == 0 && Bit(b, j) == 0
    ensures Xor(a + Pow2(j), b + Pow2(j)) == Xor(a, b)
  {
    if j > 0 {
      assert (a + Pow2(j)) / 2 == a / 2 + Pow2(j - 1) && (b + Pow2(j)) / 2 == b / 2 + Pow2(j - 1);
      SetOnBoth(a / 2, b / 2, j - 1);
    } else {
      assert (a + 1) / 2 == a / 2 && (b + 1) / 2 == b / 2;
    }
  }

  /** A bit clear on both sides may be set on either. */
  lemma {:induction false} SetOnEither(a: nat, b: nat, j: nat)
    requires Bit(a, j) == 0 && Bit(b, j) == 0
    ensures Xor(a + Pow2(j), b) == Xor(a, b + Pow2(j))
  {
    if j > 0 {
      assert (a + Pow2(j)) / 2 == a / 2 + Pow2(j - 1) && (b + Pow2(j)) / 2 == b / 2 + Pow2(j - 1);
      SetOnEither(a / 2, b / 2, j - 1);
    } else {
      assert (a + 1) / 2 == a / 2 && (b + 1) / 2 == b / 2;
    }
  }

  // ---- Two letters that meet ---------------------------------------------------------------------------

  const UPPER_C: CodeUnit := 67
  const LOWER_B: CodeUnit := 98

  /** `b` or `B`, after which the next round of the hash can be undone. */
  function First(h: nat): CodeUnit {
    if Bit(33 * h % TWO_32, 5) == 1 then 98 else 66
  }

  lemma LowPart(w: nat, q: int, r: nat)
    requires w == 64 * q + r && r < 32 && r % 2 == 0
    ensures w % 2 == 0 && w / 32 % 2 == 0
  {
    assert w / 32 == 2 * q;
  }

  lemma LowPartOf(e: nat) returns (k: nat, r: nat)
    requires e % 2 == 0 && e / 32 % 2 == 0
    ensures e == 64 * k + r && r < 32 && r % 2 == 0
  {
    k, r := e / 32 / 2, e % 32;
    assert e == 2 * (16 * (e / 32)) + r;
  }

  /** A round of the hash keeps two low bits of an even state clear, and passes a difference of one on as 33. */
  lemma NextRound(e: nat)
    requires e < TWO_32 && e % 2 == 0 && e / 32 % 2 == 0
    ensures var w := 33 * e % TWO_32;
            w % 2 == 0 && w / 32 % 2 == 0 && 33 * (e + 1) % TWO_32 == w + 33
  {
    var w, n := 33 * e % TWO_32, 33 * e / TWO_32;
    var k, r := LowPartOf(e);
    var half := r / 2;
    var q := 33 * k + half - 0x400_0000 * n;
    assert w == 64 * q + r;
    LowPart(w, q, r);
    BelowTop(w, q, r);
    RemainderIsUnique(33 * e + 33, n, w + 33);
  }

  lemma BelowTop(w: nat, q: int, r: nat)
    requires w == 64 * q + r && r < 31 && w < TWO_32
    ensures w + 33 < TWO_32
  {
    assert q < 0x400_0000;
  }

  /** Single bits by division. */
  lemma LowBits(w: nat)
    ensures Bit(w, 0) == w % 2 && Bit(w, 5) == w / 32 % 2
  {
    var h1 := w / 2;
    var h2 := h1 / 2;
    var h3 := h2 / 2;
    var h4 := h3 / 2;
    var h5 := h4 / 2;
    assert h5 == w / 32;
    assert Bit(h4, 1) == Bit(h5, 0);
    assert Bit(h3, 2) == Bit(h4, 1);
    assert Bit(h2, 3) == Bit(h3, 2);
    assert Bit(h1, 4) == Bit(h2, 3);
  }

  lemma LetterBits()
    ensures Bit(66, 0) == 0 && Bit(66, 5) == 0
    ensures Pow2(0) == 1 && Pow2(5) == 32
  {
    LowBits(66);
  }

  lemma BitsAbove(w: nat)
    requires w % 2 == 0 && w / 32 % 2 == 0
    ensures Bit(w, 0) == 0 && Bit(w, 5) == 0 && Bit(w + 1, 5) == 0 && Bit(w + 32, 0) == 0
  {
    LowBits(w);
    LowBits(w + 1);
  }

  /** The two second letters make up for the difference of 33. */
  lemma SecondLetterMeets(w: nat)
    requires w % 2 == 0 && w / 32 % 2 == 0
    ensures Xor(w, UPPER_C) == Xor(w + 33, LOWER_B)
    ensures Xor(w, LOWER_B) == Xor(w + 33, UPPER_C)
  {
    LetterBits();
    BitsAbove(w);
    assert Xor(w + 1, 66) == Xor(w, 66 + 1) by { SetOnEither(w, 66, 0); }
    assert Xor(w + 1 + 32, 66 + 32) == Xor(w + 1, 66) by { SetOnBoth(w + 1, 66, 5); }
    assert Xor(w + 32, 66) == Xor(w, 66 + 32) by { SetOnEither(w, 66, 5); }
    assert Xor(w + 32 + 1, 66 + 1) == Xor(w + 32, 66) by { SetOnBoth(w + 32, 66, 0); }
  }

  lemma HalfOf(a: nat, b: nat)
    ensures Xor(a, b) == (a + b) % 2 + 2 * Xor(a / 2, b / 2)
  {
  }

  lemma Parity(u: nat, z: nat)
    ensures (u + 2 * z) % 2 == u % 2 && 2 * z / 2 == z
    ensures (u + (2 * z + 1)) % 2 == 1 - u % 2 && (2 * z + 1) / 2 == z
  {
  }

  lemma XorOfLetters(u: nat, z: nat)
    ensures Xor(u, 2 * z) == u % 2 + 2 * Xor(u / 2, z)
    ensures Xor(u, 2 * z + 1) == 1 - u % 2 + 2 * Xor(u / 2, z)
  {
    Parity(u, z);
    HalfOf(u, 2 * z);
    HalfOf(u, 2 * z + 1);
  }

  lemma BitOfDouble(y: nat, j: nat)
    ensures Bit(2 * y, j + 1) == Bit(y, j)
  {
  }

  lemma EvenStateIsClear(u: nat, z: nat)
    requires Bit(2 * z, 5) == Bit(u, 5)
    ensures Bit(2 * Xor(u / 2, z), 5) == 0
  {
    BitOfXor(u / 2, z, 4);
    BitOfDouble(Xor(u / 2, z), 4);
    BitOfDouble(z, 4);
  }

  /** The two first letters lead to states that differ in the lowest bit only, the even one having its bit of weight
      32 clear. */
  lemma FirstLettersDiffer(u: nat, z: CodeUnit) returns (e: nat)
    requires u < TWO_32 && 2 * z < 0x1_0000 && Bit(2 * z, 5) == Bit(u, 5)
    ensures e < TWO_32 && e % 2 == 0 && Bit(e, 5) == 0
    ensures Xor(u, 2 * z) == e + u % 2 && Xor(u, 2 * z + 1) == e + 1 - u % 2
  {
    e := 2 * Xor(u / 2, z);
    EvenStateIsClear(u, z);
    XorOfLetters(u, z);
    XorOf32Bits(u, 2 * z);
  }

  /** Two states that differ in the lowest bit meet again after the second letters. */
  lemma StatesMeet(e: nat, g: nat, k: nat)
    requires e < TWO_32 && e % 2 == 0 && e / 32 % 2 == 0
    requires (g == e && k == e + 1) || (g == e + 1 && k == e)
    ensures Xor(33 * g % TWO_32, UPPER_C) == Xor(33 * k % TWO_32, LOWER_B)
  {
    NextRound(e);
    SecondLetterMeets(33 * e % TWO_32);
  }

  lemma FirstFits(h: nat)
    ensures First(h) % 2 == 0 && Bit(First(h), 5) == Bit(33 * h % TWO_32, 5)
  {
    LowBits(66);
    LowBits(98);
    LowBits(33 * h % TWO_32);
  }

  /** From every state two different pairs of letters lead to the same state. */
  lemma LettersMeet(h: nat)
    requires h < TWO_32
    ensures Recurrence(h, [First(h), UPPER_C]) == Recurrence(h, [First(h) + 1, LOWER_B])
  {
    var u, x := 33 * h % TWO_32, First(h);
    TwoRounds(h, x, UPPER_C);
    TwoRounds(h, x + 1, LOWER_B);
    FirstFits(h);
    var e := FirstLettersDiffer(u, x / 2);
    LowBits(e);
    StatesMeet(e, Xor(u, x), Xor(u, x + 1));
  }

  lemma TwoRounds(h: nat, c: CodeUnit, d: CodeUnit)
    ensures Recurrence(h, [c, d]) == Xor(33 * Xor(33 * h % TWO_32, c) % TWO_32, d)
  {
    var g := Xor(33 * h % TWO_32, c);
    var t: Text := [c, d];
    assert t[1..] == [d];
    assert Recurrence(h, t) == Recurrence(g, [d]);
    var u: Text := [d];
    assert u[1..] == [];
    assert Recurrence(g, u) == Recurrence(Xor(33 * g % TWO_32, d), []);
  }

  lemma {:induction false} RecurrenceOn(h: nat, s: Text, t: Text)
    ensures Recurrence(h, s + t) == Recurrence(Recurrence(h, s), t)
    decreases |s|
  {
    if s == [] {
      assert s + t == t;
    } else {
      assert (s + t)[1..] == s[1..] + t;
      RecurrenceOn(Xor(33 * h % TWO_32, s[0]), s[1..], t);
    }
  }

  // ---- Inputs --------------------------------------------------------------------------------------------

  function Input(key: Text, v: Text): Json { Obj([Member(key, Str(v))]) }

  /** What stands before the value in the canonical text. */
  function Opening(key: Text): Text { [OPEN_BRACE] + Quote(key) + [COLON, QUOTE] }

  lemma LettersAreWritten(c: CodeUnit, d: CodeUnit)
    requires 65 <= c < 92 || 97 <= c < 123
    requires 65 <= d < 92 || 97 <= d < 123
    ensures Escape([c, d]) == [c, d]
  {
    var t: Text := [c, d];
    assert t[1..] == [d] && [d][1..] == [];
    assert Escape([d]) == [d];
    assert HeadText(t) == [c];
  }

  lemma OneMemberText(key: Text, v: Text)
    ensures StableStringify(Input(key, v)) == [OPEN_BRACE] + (Quote(key) + [COLON] + Quote(v)) + [CLOSE_BRACE]
  {
    var ms := [Member(key, Str(v))];
    assert ms[1..] == [];
    assert SortedKeys(ms[1..]) == [];
    assert SortedKeys(ms) == [key];
    assert ms[0].key == key;
    assert HasKey(ms, key);
    var texts := MemberTexts(ms, [key]);
    assert texts == [MemberText(ms, key)];
    assert texts[1..] == [];
    assert Join(texts) == texts[0];
  }

  lemma InputText(key: Text, c: CodeUnit, d: CodeUnit)
    requires 65 <= c < 92 || 97 <= c < 123
    requires 65 <= d < 92 || 97 <= d < 123
    ensures StableStringify(Input(key, [c, d])) == Opening(key) + [c, d] + [QUOTE, CLOSE_BRACE]
  {
    OneMemberText(key, [c, d]);
    LettersAreWritten(c, d);
    assert Quote([c, d]) == [QUOTE] + [c, d] + [QUOTE];
  }

  /** The two values that collide under `key`. */
  function One(key: Text): Text { [First(Recurrence(5381, Opening(key))), UPPER_C] }
  function Other(key: Text): Text { [First(Recurrence(5381, Opening(key))) + 1, LOWER_B] }

  /** Under every key there are two different values of two letters for which the inputs hash alike. */
  lemma EveryKeyHasACollision(key: Text)
    ensures !Same(Input(key, One(key)), Input(key, Other(key)))
    ensures HashJobInput(Input(key, One(key))) == HashJobInput(Input(key, Other(key)))
  {
    var before, after := Opening(key), [QUOTE, CLOSE_BRACE];
    var h := Recurrence(5381, before);
    RecurrenceIs32Bits(5381, before);
    LettersMeet(h);
    InputText(key, First(h), UPPER_C);
    InputText(key, First(h) + 1, LOWER_B);
    SameEnd(5381, before, One(key), Other(key), after);
    DifferentValues(key, One(key), Other(key));
  }

  lemma SameEnd(h: nat, before: Text, s: Text, t: Text, after: Text)
    requires Recurrence(Recurrence(h, before), s) == Recurrence(Recurrence(h, before), t)
    ensures Recurrence(h, before + s + after) == Recurrence(h, before + t + after)
  {
    RecurrenceOn(h, before + s, after);
    RecurrenceOn(h, before + t, after);
    RecurrenceOn(h, before, s);
    RecurrenceOn(h, before, t);
  }

  lemma DifferentValues(key: Text, s: Text, t: Text)
    requires s != t
    ensures !Same(Input(key, s), Input(key, t))
  {
    var ms, ns := [Member(key, Str(s))], [Member(key, Str(t))];
    assert ms[0].key == key && ns[0].key == key;
    assert HasKey(ms, key) && HasKey(ns, key);
    assert Get(ms, key) == Str(s) && Get(ns, key) == Str(t);
    assert !Same(Get(ms, key), Get(ns, key));
  }

  // ---- Coalescing ------------------------------------------------------------------------------------------

  /** `a` was enqueued under supersede as `first`, and nothing ran since. */
  function Waiting(s: KeyState, first: Id, a: Json, name: Text -> string): KeyState {
    CommitEnqueue(s, true, first, Some(name(HashJobInput(a))))
  }

  /** A second superseding enqueue is answered with the first one's id, its candidate being live, exactly when the
      hashes agree: equal hashes are all that coalescing asks for. */
  lemma CoalescesIff(s: KeyState, first: Id, a: Json, second: Id, b: Json, name: Text -> string)
    requires forall t, u :: name(t) == name(u) ==> t == u
    ensures var t := Waiting(s, first, a, name);
            var hash := Some(name(HashJobInput(b)));
            var agree := HashJobInput(a) == HashJobInput(b);
            && (agree <==> ReadEnqueue(t, true, second, hash).1 == CoalesceCandidate(first))
            && (agree <==> EnqueueAfterCheck(t, first, false, true, second, hash).1.coalescedInto == Some(first))
  {
    var t := Waiting(s, first, a, name);
    var hash := Some(name(HashJobInput(b)));
    CommitEnqueueRegisters(s, true, first, Some(name(HashJobInput(a))));
    CandidateIsPendingUnderHash(t, true, second, hash);
  }

  /** So, under every key, an input is dropped in favour of a different one that waits. */
  lemma DifferentInputsCoalesce(s: KeyState, first: Id, second: Id, key: Text, name: Text -> string)
    ensures var a, b := Input(key, One(key)), Input(key, Other(key));
            var t := Waiting(s, first, a, name);
            && !Same(a, b)
            && EnqueueAfterCheck(t, first, false, true, second, Some(name(HashJobInput(b))))
               == (t, EnqueueAnswer([], Some(first)))
  {
    EveryKeyHasACollision(key);
    CommitEnqueueRegisters(s, true, first, Some(name(HashJobInput(Input(key, One(key))))));
  }
}
