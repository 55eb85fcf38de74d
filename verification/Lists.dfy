/** What std::remove and std::vector::erase do to a list of pointers. */
module Lists {

  /** The list without any copy of x, in the same order. */
  function Without<X(==)>(s: seq<X>, x: X): seq<X> {
    if s == [] then [] else Without(s[..|s| - 1], x) + (if s[|s| - 1] == x then [] else [s[|s| - 1]])
  }

  lemma {:induction false} WithoutHas<X>(s: seq<X>, x: X, y: X)
    ensures y in Without(s, x) <==> y in s && y != x
  {
    if s != [] {
      var n := |s| - 1;
      WithoutHas(s[..n], x, y);
      assert s == s[..n] + [s[n]];
    }
  }

  lemma {:induction false} WithoutNone<X>(s: seq<X>, x: X)
    requires x !in s
    ensures Without(s, x) == s
  {
    if s != [] {
      var n := |s| - 1;
      WithoutNone(s[..n], x);
      assert s == s[..n] + [s[n]];
    }
  }

  /** Of an element that occurs once, only that place is taken out. */
  lemma {:induction false} WithoutOne<X>(s: seq<X>, k: nat)
    requires k < |s| && forall j :: 0 <= j < |s| && j != k ==> s[j] != s[k]
    ensures Without(s, s[k]) == s[..k] + s[k + 1..]
  {
    var n := |s| - 1;
    if k == n {
      WithoutNone(s[..n], s[n]);
    } else {
      WithoutOne(s[..n], k);
      assert s[..n][..k] == s[..k] && s[..n][k + 1..] + [s[n]] == s[k + 1..];
    }
  }

  /** The erase-remove idiom: every element but x is moved up, in order. */
  method Remove<X(==)>(s: seq<X>, x: X) returns (r: seq<X>)
    ensures r == Without(s, x)
  {
    var i := 0;
    r := [];
    while i < |s|
      invariant i <= |s|
      invariant r == Without(s[..i], x)
    {
      if s[i] != x { r := r + [s[i]]; }
      i := i + 1;
      assert s[..i][..i - 1] == s[..i - 1];
    }
    assert s[..i] == s;
  }
}
