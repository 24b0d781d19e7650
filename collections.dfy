/**
 * Sequence folds shared by the client components: the running sum of
 * `reduce((acc, x) => acc + x, 0)` and the first-occurrence order of
 * `[...new Set(xs)]`.
 */
module Collections {

  /** `xs.reduce((acc, x) => acc + x, 0)`, a left fold: the last element is added last. */
  function Sum(xs: seq<int>): (r: int)
    ensures |xs| == 0 ==> r == 0
    ensures |xs| == 1 ==> r == xs[0]
    ensures (forall i :: 0 <= i < |xs| ==> xs[i] >= 0) ==> r >= 0
  {
    if |xs| == 0 then 0 else Sum(xs[..|xs| - 1]) + xs[|xs| - 1]
  }

  predicate NoDuplicates<T(==)>(xs: seq<T>) {
    forall i, j :: 0 <= i < j < |xs| ==> xs[i] != xs[j]
  }

  /** The position of the first occurrence of `x` in `xs`. */
  function FirstIndex<T(==)>(xs: seq<T>, x: T): (k: nat)
    requires x in xs
    ensures k < |xs| && xs[k] == x
    ensures forall j :: 0 <= j < k ==> xs[j] != x
  {
    if xs[0] == x then 0 else 1 + FirstIndex(xs[1..], x)
  }

  /** `[...new Set(xs)]`: each value once, in the order it first occurs. */
  function Distinct<T(==)>(xs: seq<T>): (r: seq<T>)
    ensures NoDuplicates(r)
    ensures |r| <= |xs|
    ensures forall i :: 0 <= i < |r| ==> r[i] in xs
    ensures forall i :: 0 <= i < |xs| ==> xs[i] in r
  {
    if |xs| == 0 then []
    else
      var d := Distinct(xs[..|xs| - 1]);
      if xs[|xs| - 1] in d then d else d + [xs[|xs| - 1]]
  }

  /** `Distinct` keeps exactly the values of its input and lists none twice. */
  lemma {:induction false} DistinctMembers<T(!new)>(xs: seq<T>)
    ensures NoDuplicates(Distinct(xs))
    ensures forall x :: x in Distinct(xs) <==> x in xs
    ensures |Distinct(xs)| <= |xs|
  {
    if |xs| > 0 {
      var init := xs[..|xs| - 1];
      DistinctMembers(init);
      assert xs == init + [xs[|xs| - 1]];
    }
  }

  /** The first occurrence of a value of `xs[..n]` within `xs` lies inside the prefix, and is the same as within the prefix. */
  lemma FirstIndexPrefix<T(!new)>(xs: seq<T>, n: nat, x: T)
    requires n <= |xs| && x in xs[..n]
    ensures x in xs && FirstIndex(xs, x) == FirstIndex(xs[..n], x)
  {
    var k := FirstIndex(xs[..n], x);
    assert xs[k] == x;
    var k' := FirstIndex(xs, x);
    assert k' <= k;
    assert xs[..n][k'] == x;
  }

  /** The values of `Distinct(xs)` are listed in the order of their first occurrence in `xs`. */
  lemma {:induction false} DistinctOrder<T(!new)>(xs: seq<T>)
    ensures forall i, j :: 0 <= i < j < |Distinct(xs)| ==>
      Distinct(xs)[i] in xs && Distinct(xs)[j] in xs &&
      FirstIndex(xs, Distinct(xs)[i]) < FirstIndex(xs, Distinct(xs)[j])
  {
    DistinctMembers(xs);
    if |xs| > 0 {
      var n := |xs| - 1;
      var init := xs[..n];
      var d := Distinct(init);
      DistinctOrder(init);
      DistinctMembers(init);
      assert Distinct(xs) == if xs[n] in d then d else d + [xs[n]];
      forall i, j | 0 <= i < j < |Distinct(xs)|
        ensures FirstIndex(xs, Distinct(xs)[i]) < FirstIndex(xs, Distinct(xs)[j])
      {
        var a, b := Distinct(xs)[i], Distinct(xs)[j];
        assert a in init by { assert a == d[i]; }
        FirstIndexPrefix(xs, n, a);
        if j < |d| {
          assert b == d[j];
          FirstIndexPrefix(xs, n, b);
        } else {
          assert b == xs[n] && b !in init;
          assert FirstIndex(xs, b) == n;
        }
      }
    }
  }
}
