/** Small shared vocabulary: optional values, ascending listings of finite sets, real quotients. */
module Collections {

  datatype Option<+T> = None | Some(value: T)

  method Any<T(==)>(s: set<T>) returns (x: T)
    requires s != {}
    ensures x in s
  {
    x :| x in s;
  }

  lemma SmallerSet<T>(a: set<T>, b: set<T>)
    requires a <= b
    ensures |a| <= |b|
  {
    assert b == a + (b - a);
  }

  ghost predicate StrictlySorted(s: seq<int>) {
    forall i, j :: 0 <= i < j < |s| ==> s[i] < s[j]
  }

  /** `r` is the ascending listing of `s`: what Python's `sorted` makes of a set. */
  ghost predicate Lists(r: seq<int>, s: set<int>) {
    && StrictlySorted(r)
    && (forall i :: 0 <= i < |r| ==> r[i] in s)
    && (forall x :: x in s ==> exists i :: 0 <= i < |r| && r[i] == x)
  }

  method LeastOf(s: set<int>) returns (m: int)
    requires s != {}
    ensures m in s && forall x :: x in s ==> m <= x
  {
    m := Any(s);
    var rest := s - {m};
    while rest != {}
      invariant m in s && rest <= s
      invariant forall x :: x in s && x !in rest ==> m <= x
      decreases rest
    {
      var x := Any(rest);
      if x < m { m := x; }
      rest := rest - {x};
    }
  }

  method Sorted(s: set<int>) returns (r: seq<int>)
    ensures Lists(r, s)
  {
    r := [];
    var rest := s;
    while rest != {}
      invariant rest <= s
      invariant StrictlySorted(r)
      invariant forall i :: 0 <= i < |r| ==> r[i] in s && r[i] !in rest
      invariant forall x :: x in s && x !in rest ==> exists i :: 0 <= i < |r| && r[i] == x
      invariant forall i, y :: 0 <= i < |r| && y in rest ==> r[i] < y
      decreases rest
    {
      var m := LeastOf(rest);
      ghost var before := r;
      r := r + [m];
      rest := rest - {m};
      forall x | x in s && x !in rest ensures exists i :: 0 <= i < |r| && r[i] == x {
        if x == m { assert r[|before|] == x; }
        else { var i :| 0 <= i < |before| && before[i] == x; assert r[i] == x; }
      }
    }
  }

  // ---------------------------------------------------------------- reals

  function Min(x: real, y: real): real {
    if x <= y then x else y
  }

  /** Fractions compare as their cross products. */
  lemma Fractions(a: real, b: real, c: real, d: real)
    requires b > 0.0 && d > 0.0 && a * d <= c * b
    ensures a / b <= c / d
  {
    var y := c / d;
    assert y * d == c;
    assert (y * b) * d == c * b;
    assert a * d <= (y * b) * d;
    assert a <= y * b;
  }
}
