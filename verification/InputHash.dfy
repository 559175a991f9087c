/** `hashJobInput`: the JavaScript loop, the recurrence it computes, and the text it is printed as. */
module InputHash {
  import opened CanonicalJson
  import opened Numbers

  const TWO_31 := 0x8000_0000
  const TWO_32 := 0x1_0000_0000

  type Int32 = h: int | -0x8000_0000 <= h < 0x8000_0000

  /** `ToInt32` and `ToUint32` of ECMA-262, on integers. */
  function ToUint32(x: int): (r: int)
    ensures 0 <= r < TWO_32
  {
    x % TWO_32
  }

  function ToInt32(x: int): (r: Int32)
    ensures ToUint32(r) == ToUint32(x)
  {
    var u := x % TWO_32;
    if u < TWO_31 then u
    else
      assert (u - TWO_32) % TWO_32 == u;
      u - TWO_32
  }

  lemma RemainderIsUnique(y: int, q: int, r: int)
    requires y == TWO_32 * q + r && 0 <= r < TWO_32
    ensures y % TWO_32 == r
  {
  }

  /** Wrapping changes a number by a multiple of 2^32, and such a multiple does not show in the remainder. */
  lemma WrapIsInvisible(x: int, n: int)
    ensures (x + TWO_32 * n) % TWO_32 == x % TWO_32
  {
    RemainderIsUnique(x + TWO_32 * n, x / TWO_32 + n, x % TWO_32);
  }

  lemma ToInt32Wraps(x: int) returns (n: int)
    ensures ToInt32(x) == x + TWO_32 * n
  {
    n := -(x / TWO_32) - if x % TWO_32 < TWO_31 then 0 else 1;
  }

  /** Bitwise exclusive or of two naturals. */
  function Xor(a: nat, b: nat): nat {
    if a == 0 && b == 0 then 0 else (a + b) % 2 + 2 * Xor(a / 2, b / 2)
  }

  lemma {:induction false} XorStaysBelow(a: nat, b: nat, bits: nat)
    requires a < Pow2(bits) && b < Pow2(bits)
    ensures Xor(a, b) < Pow2(bits)
  {
    if bits > 0 && !(a == 0 && b == 0) {
      XorStaysBelow(a / 2, b / 2, bits - 1);
    }
  }

  function Bit(a: nat, k: nat): nat {
    if k == 0 then a % 2 else Bit(a / 2, k - 1)
  }

  lemma XorHalves(a: nat, b: nat)
    ensures Xor(a, b) / 2 == Xor(a / 2, b / 2)
    ensures Xor(a, b) % 2 == if a % 2 != b % 2 then 1 else 0
  {
    if a != 0 || b != 0 {
      Halves((a + b) % 2, Xor(a / 2, b / 2));
      ParityOfSum(a, b);
    }
  }

  lemma Halves(bit: nat, half: nat)
    requires bit < 2
    ensures (bit + 2 * half) / 2 == half && (bit + 2 * half) % 2 == bit
  {
  }

  lemma ParityOfSum(a: nat, b: nat)
    ensures (a + b) % 2 == if a % 2 != b % 2 then 1 else 0
  {
    Halves((a % 2 + b % 2) % 2, a / 2 + b / 2 + (a % 2 + b % 2) / 2);
  }

  /** A bit of the result is set exactly when it is set in one of the two and not in the other. */
  lemma {:induction false} XorSetsWhereBitsDiffer(a: nat, b: nat, k: nat)
    ensures Bit(Xor(a, b), k) == if Bit(a, k) != Bit(b, k) then 1 else 0
    decreases k
  {
    XorHalves(a, b);
    if k > 0 {
      XorSetsWhereBitsDiffer(a / 2, b / 2, k - 1);
    }
  }

  lemma Pow2Of32()
    ensures Pow2(32) == TWO_32
  {
    assert Pow2(8) == 256;
    assert Pow2(16) == 65536;
    assert Pow2(24) == 16777216;
  }

  // ---- The loop ----------------------------------------------------------------------------------

  /** `hash << 5` */
  function ShiftLeft5(h: Int32): Int32 { ToInt32(h * 32) }

  /** The number the loop body hands to `^`: a sum of two 32-bit integers, not wrapped. */
  function Mixed(h: Int32): int { ShiftLeft5(h) + h }

  /** `x ^ c` for any integer `x` and a code unit. */
  function XorInt32(x: int, c: CodeUnit): Int32 { ToInt32(Xor(ToUint32(x), c)) }

  method HashText(serialized: Text) returns (hash: Int32)
    ensures ToUint32(hash) == Recurrence(5381, serialized)
  {
    hash := 5381;
    var index := 0;
    while index < |serialized|
      invariant 0 <= index <= |serialized|
      invariant Recurrence(ToUint32(hash), serialized[index..]) == Recurrence(5381, serialized)
    {
      assert serialized[index..][1..] == serialized[index + 1..];
      RoundIsExact(hash, serialized[index]);
      hash := XorInt32(Mixed(hash), serialized[index]);
      index := index + 1;
    }
    assert serialized[index..] == [];
  }

  /** One round of the loop is one step of the recurrence. */
  lemma RoundIsExact(h: Int32, c: CodeUnit)
    ensures ToUint32(XorInt32(Mixed(h), c)) == Xor(33 * ToUint32(h) % TWO_32, c)
  {
    MixedIsExact(h);
    XorInt32IsXor(Mixed(h), c);
  }

  lemma XorInt32IsXor(x: int, c: CodeUnit)
    ensures ToUint32(XorInt32(x, c)) == Xor(ToUint32(x), c)
  {
    var y := Xor(ToUint32(x), c);
    XorOf32Bits(ToUint32(x), c);
    RemainderIsUnique(y, 0, y);
  }

  /** h := (33 h mod 2^32) xor c */
  function Recurrence(h: nat, t: Text): nat
    decreases |t|
  {
    if t == [] then h else Recurrence(Xor(33 * h % TWO_32, t[0]), t[1..])
  }

  /** No intermediate value leaves the range doubles represent exactly, and wrapping late loses nothing. */
  lemma MixedIsExact(h: Int32)
    ensures -TWO_32 <= Mixed(h) < TWO_32
    ensures ToUint32(Mixed(h)) == 33 * ToUint32(h) % TWO_32
  {
    var n := ToInt32Wraps(h * 32);
    var m := h / TWO_32;
    assert h == ToUint32(h) + TWO_32 * m;
    assert Mixed(h) == 33 * ToUint32(h) + TWO_32 * (33 * m + n);
    WrapIsInvisible(33 * ToUint32(h), 33 * m + n);
  }

  lemma XorOf32Bits(a: nat, c: CodeUnit)
    requires a < TWO_32
    ensures Xor(a, c) < TWO_32
  {
    Pow2Of32();
    XorStaysBelow(a, c, 32);
  }

  // ---- The printed hash ----------------------------------------------------------------------------

  function Base36Digit(d: int): CodeUnit
    requires 0 <= d < 36
  {
    if d < 10 then 48 + d else 87 + d
  }

  /** `n.toString(36)` for a natural number. */
  function Base36(n: nat): (t: Text)
    ensures t != []
  {
    if n < 36 then [Base36Digit(n)] else Base36(n / 36) + [Base36Digit(n % 36)]
  }

  function DigitValue(c: CodeUnit): nat { if c < 58 then if c < 48 then 0 else c - 48 else if c < 87 then 0 else c - 87 }

  /** `parseInt(t, 36)` on digits. */
  function ParseBase36(t: Text): nat {
    if t == [] then 0 else 36 * ParseBase36(t[..|t| - 1]) + DigitValue(t[|t| - 1])
  }

  lemma {:induction false} Base36RoundTrip(n: nat)
    ensures ParseBase36(Base36(n)) == n
  {
    var t := Base36(n);
    if n < 36 {
      assert t[..0] == [];
    } else {
      Base36RoundTrip(n / 36);
      assert t[..|t| - 1] == Base36(n / 36);
    }
  }

  function Pow36(n: nat): nat { if n == 0 then 1 else 36 * Pow36(n - 1) }

  lemma {:induction false} Base36Length(n: nat, digits: nat)
    requires digits > 0 && n < Pow36(digits)
    ensures |Base36(n)| <= digits
  {
    if n >= 36 {
      assert Pow36(1) == 36;
      Base36Length(n / 36, digits - 1);
    }
  }

  /** `(hash >>> 0).toString(36)` of the whole loop. */
  function HashJobInput(v: Json): Text { Base36(Recurrence(5381, StableStringify(v))) }

  method HashInput(v: Json) returns (text: Text)
    ensures text == HashJobInput(v)
  {
    var hash := HashText(StableStringify(v));
    text := Base36(ToUint32(hash));
  }

  lemma {:induction false} RecurrenceIs32Bits(h: nat, t: Text)
    requires h < TWO_32
    ensures Recurrence(h, t) < TWO_32
    decreases |t|
  {
    if t != [] {
      XorOf32Bits(33 * h % TWO_32, t[0]);
      RecurrenceIs32Bits(Xor(33 * h % TWO_32, t[0]), t[1..]);
    }
  }

  /** A hash is one to seven characters. */
  lemma HashIsShort(v: Json)
    ensures 1 <= |HashJobInput(v)| <= 7
  {
    var h := Recurrence(5381, StableStringify(v));
    RecurrenceIs32Bits(5381, StableStringify(v));
    assert Pow36(4) == 1_679_616;
    assert Pow36(7) == 78_364_164_096;
    Base36Length(h, 7);
  }

  /** Inputs that differ only in key order hash alike, so they coalesce. */
  lemma KeyOrderDoesNotChangeTheHash(a: Json, b: Json)
    requires WellFormed(a) && WellFormed(b) && Same(a, b)
    ensures HashJobInput(a) == HashJobInput(b)
  {
    SameValuesSerialiseEqually(a, b);
  }

  /** Printing loses nothing: hashes are equal exactly when the 32-bit values are. */
  lemma HashesAgreeIff(a: Json, b: Json)
    ensures HashJobInput(a) == HashJobInput(b)
       <==> Recurrence(5381, StableStringify(a)) == Recurrence(5381, StableStringify(b))
  {
    Base36RoundTrip(Recurrence(5381, StableStringify(a)));
    Base36RoundTrip(Recurrence(5381, StableStringify(b)));
  }
}
