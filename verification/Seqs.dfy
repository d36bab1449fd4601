/** Facts about sequences that several modules share. */
module Seqs {

  ghost predicate Distinct<T>(s: seq<T>) {
    forall i, j :: 0 <= i < j < |s| ==> s[i] != s[j]
  }

  ghost predicate Disjoint<T>(p: seq<T>, q: seq<T>) {
    forall x :: x in p ==> x !in q
  }

  /** `s` with every occurrence of `x` left out. */
  function Without<T(==)>(s: seq<T>, x: T): (r: seq<T>)
    ensures x !in r
    ensures forall y | y in r :: y in s
    ensures forall y | y in s && y != x :: y in r
    ensures x !in s ==> r == s
  {
    if s == [] then [] else if s[0] == x then Without(s[1..], x) else [s[0]] + Without(s[1..], x)
  }

  lemma {:induction false} DistinctConcat<T>(p: seq<T>, q: seq<T>)
    ensures Distinct(p + q) <==> Distinct(p) && Distinct(q) && Disjoint(p, q)
  {
    var r := p + q;
    if Distinct(r) {
      assert forall i :: 0 <= i < |p| ==> p[i] == r[i];
      forall i, j | 0 <= i < j < |q| ensures q[i] != q[j] {
        assert r[i + |p|] != r[j + |p|];
      }
      forall x | x in p ensures x !in q {
        var i :| 0 <= i < |p| && p[i] == x;
        forall j | 0 <= j < |q| ensures q[j] != x {
          assert r[i] != r[j + |p|];
        }
      }
    }
    if Distinct(p) && Distinct(q) && Disjoint(p, q) {
      forall i, j | 0 <= i < j < |r| ensures r[i] != r[j] {
        if i < |p| <= j {
          assert p[i] in p && q[j - |p|] in q;
        }
      }
    }
  }

  lemma {:induction false} WithoutConcat<T>(p: seq<T>, q: seq<T>, x: T)
    ensures Without(p + q, x) == Without(p, x) + Without(q, x)
  {
    if p == [] {
      assert p + q == q;
    } else {
      assert (p + q)[1..] == p[1..] + q;
      WithoutConcat(p[1..], q, x);
    }
  }

  lemma {:induction false} WithoutDistinct<T>(s: seq<T>, x: T)
    requires Distinct(s)
    ensures Distinct(Without(s, x))
  {
    if s != [] {
      assert s == [s[0]] + s[1..];
      DistinctConcat([s[0]], s[1..]);
      WithoutDistinct(s[1..], x);
      DistinctConcat([s[0]], Without(s[1..], x));
    }
  }

  /** Leaving out an element that occurs once is cutting it out. */
  lemma {:induction false} WithoutAt<T>(p: seq<T>, x: T, q: seq<T>)
    requires x !in p && x !in q
    ensures Without(p + [x] + q, x) == p + q
  {
    WithoutConcat(p + [x], q, x);
    WithoutConcat(p, [x], x);
  }

  lemma {:induction false} FirstOut<T>(s: seq<T>)
    requires Distinct(s) && s != []
    ensures Without(s, s[0]) == s[1..] && Distinct(s[1..]) && s[0] !in s[1..]
  {
    var x, rest := s[0], s[1..];
    assert forall i :: 0 <= i < |rest| ==> rest[i] == s[i + 1];
    assert x !in rest;
    assert Without(s, x) == Without(rest, x);
  }
}
