/** Options and the few sequence operations the models share. */
module Wrappers {
  datatype Option<+T> = None | Some(value: T)

  datatype Result<+T, +E> = Ok(value: T) | Err(error: E)
}

module Sequences {

  ghost predicate NoDuplicates<T(!new)>(s: seq<T>) {
    forall i, j :: 0 <= i < j < |s| ==> s[i] != s[j]
  }

  /** `x` occurs in `s` somewhere before `y`. */
  ghost predicate Before<T(!new)>(s: seq<T>, x: T, y: T) {
    exists i, j :: 0 <= i < j < |s| && s[i] == x && s[j] == y
  }

  /** `s.filter((id) => id !== x)`. */
  function Without<T(==, !new)>(s: seq<T>, x: T): (r: seq<T>)
    ensures x !in r && |r| <= |s|
    ensures forall y :: y in r <==> y in s && y != x
    ensures x !in s ==> r == s
  {
    if s == [] then []
    else if s[0] == x then Without(s[1..], x)
    else [s[0]] + Without(s[1..], x)
  }

  lemma {:induction false} WithoutKeepsNoDuplicates<T(!new)>(s: seq<T>, x: T)
    requires NoDuplicates(s)
    ensures NoDuplicates(Without(s, x))
  {
    if s != [] {
      WithoutKeepsNoDuplicates(s[1..], x);
      assert s[0] !in s[1..];
    }
  }

  /** Filtering keeps the relative order of what it keeps. */
  lemma {:induction false} WithoutKeepsOrder<T(!new)>(s: seq<T>, x: T, a: T, b: T)
    requires a != x && b != x && Before(s, a, b)
    ensures Before(Without(s, x), a, b)
  {
    var i, j :| 0 <= i < j < |s| && s[i] == a && s[j] == b;
    var rest := Without(s[1..], x);
    if i == 0 {
      assert s[1..][j - 1] == b;
      assert b in rest;
      var k :| 0 <= k < |rest| && rest[k] == b;
      var r := Without(s, x);
      assert r == [s[0]] + rest;
      assert r[0] == a && r[k + 1] == b;
    } else {
      assert s[1..][i - 1] == a && s[1..][j - 1] == b;
      WithoutKeepsOrder(s[1..], x, a, b);
      var p, q :| 0 <= p < q < |rest| && rest[p] == a && rest[q] == b;
      var r := Without(s, x);
      if s[0] == x {
        assert r == rest;
      } else {
        assert r == [s[0]] + rest;
        assert r[p + 1] == a && r[q + 1] == b;
      }
    }
  }

  lemma BeforeAppend<T(!new)>(s: seq<T>, t: seq<T>, a: T, b: T)
    requires Before(s, a, b)
    ensures Before(s + t, a, b)
  {
    var i, j :| 0 <= i < j < |s| && s[i] == a && s[j] == b;
    assert (s + t)[i] == a && (s + t)[j] == b;
  }

  lemma Regroup<T>(a: seq<T>, b: seq<T>, c: seq<T>)
    ensures a + (b + c) == a + b + c
  {
  }
}
