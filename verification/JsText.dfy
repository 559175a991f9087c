/** The JavaScript string operations the models use. */
module JsText {

  predicate IsDigit(c: char) { '0' <= c <= '9' }

  /** What `trim` removes: white space and line terminators of ECMA-262. */
  predicate IsSpace(c: char) {
    || c in {' ', '\t', '\n', '\r', '\U{000B}', '\U{000C}', '\U{00A0}', '\U{1680}'}
    || '\U{2000}' <= c <= '\U{200A}'
    || c in {'\U{2028}', '\U{2029}', '\U{202F}', '\U{205F}', '\U{3000}', '\U{FEFF}'}
  }

  function TrimStart(s: string): string {
    if s != "" && IsSpace(s[0]) then TrimStart(s[1..]) else s
  }

  function TrimEnd(s: string): string {
    if s != "" && IsSpace(s[|s| - 1]) then TrimEnd(s[..|s| - 1]) else s
  }

  function Trim(s: string): string { TrimEnd(TrimStart(s)) }

  ghost predicate AllSpaces(s: string) {
    forall i :: 0 <= i < |s| ==> IsSpace(s[i])
  }

  /** Neither end is a space. */
  ghost predicate Bare(s: string) {
    s != "" ==> !IsSpace(s[0]) && !IsSpace(s[|s| - 1])
  }

  lemma {:induction false} TrimStartStrips(s: string) returns (i: nat)
    ensures i <= |s| && AllSpaces(s[..i]) && TrimStart(s) == s[i..]
    ensures i < |s| ==> !IsSpace(s[i])
  {
    if s != "" && IsSpace(s[0]) {
      var k := TrimStartStrips(s[1..]);
      i := k + 1;
      assert s[..i] == [s[0]] + s[1..][..k];
      assert s[1..][k..] == s[i..];
    } else {
      i := 0;
    }
  }

  lemma {:induction false} TrimEndStrips(s: string) returns (j: nat)
    ensures j <= |s| && AllSpaces(s[j..]) && TrimEnd(s) == s[..j]
    ensures j > 0 ==> !IsSpace(s[j - 1])
  {
    if s != "" && IsSpace(s[|s| - 1]) {
      var n := |s| - 1;
      j := TrimEndStrips(s[..n]);
      assert s[j..] == s[..n][j..] + [s[n]];
      assert s[..n][..j] == s[..j];
    } else {
      j := |s|;
    }
  }

  /** Trimming takes off white space at both ends and nothing else, until neither end is white space. */
  lemma TrimStripsTheEnds(s: string) returns (i: nat, j: nat)
    ensures i <= j <= |s| && Trim(s) == s[i..j] && AllSpaces(s[..i]) && AllSpaces(s[j..]) && Bare(Trim(s))
  {
    i := TrimStartStrips(s);
    var k := TrimEndStrips(s[i..]);
    j := i + k;
    assert s[i..][..k] == s[i..j] && s[i..][k..] == s[j..];
  }

  lemma BareStays(s: string)
    requires Bare(s)
    ensures Trim(s) == s
  {
    assert TrimStart(s) == s;
  }

  /** The decimal text of a natural number. */
  function Decimal(n: nat): (t: string)
    ensures t != ""
    ensures forall i :: 0 <= i < |t| ==> IsDigit(t[i])
  {
    if n < 10 then [DigitChar(n)] else Decimal(n / 10) + [DigitChar(n % 10)]
  }

  function DigitChar(d: nat): (c: char)
    requires d < 10
    ensures IsDigit(c) && DigitValue(c) == d
  {
    '0' + d as char
  }

  function DigitValue(c: char): nat
    requires IsDigit(c)
  {
    c as int - '0' as int
  }

  /** `Number(t)` of a run of digits. */
  function NumberOf(t: string): nat
    requires forall i :: 0 <= i < |t| ==> IsDigit(t[i])
  {
    if t == "" then 0 else 10 * NumberOf(t[..|t| - 1]) + DigitValue(t[|t| - 1])
  }

  lemma {:induction false} DecimalRoundTrip(n: nat)
    ensures NumberOf(Decimal(n)) == n
  {
    var t := Decimal(n);
    if n < 10 {
      assert t[..0] == "";
    } else {
      DecimalRoundTrip(n / 10);
      assert t[..|t| - 1] == Decimal(n / 10);
    }
  }
}
