/** What the code relies on of Go's sort package: some sorted permutation of the input. */
module Sorting {

  ghost predicate WeakOrder<T(!new)>(less: (T, T) -> bool) {
    && (forall a, b :: less(a, b) ==> !less(b, a))
    && (forall a, b, c :: less(a, b) && !less(c, b) ==> less(a, c))
  }

  ghost predicate Sorted<T>(less: (T, T) -> bool, xs: seq<T>) {
    forall i, j :: 0 <= i < j < |xs| ==> !less(xs[j], xs[i])
  }

  /** sort.Slice and sort.Strings. Elements that tie may come out in any order. */
  method Sort<T(!new)>(xs: seq<T>, less: (T, T) -> bool) returns (ys: seq<T>)
    requires WeakOrder(less)
    ensures Sorted(less, ys) && multiset(ys) == multiset(xs)
  {
    ys := [];
    for i := 0 to |xs|
      invariant Sorted(less, ys) && multiset(ys) == multiset(xs[..i])
    {
      assert xs[..i + 1] == xs[..i] + [xs[i]];
      var k := |ys|;
      while k > 0 && less(xs[i], ys[k - 1])
        invariant 0 <= k <= |ys|
        invariant forall j :: k <= j < |ys| ==> less(xs[i], ys[j])
      {
        k := k - 1;
      }
      InsertAt(less, ys, k, xs[i]);
      InsertPermutes(ys, k, xs[i]);
      ys := ys[..k] + [xs[i]] + ys[k..];
    }
    assert xs[..|xs|] == xs;
  }

  lemma InsertPermutes<T>(xs: seq<T>, k: nat, x: T)
    requires k <= |xs|
    ensures multiset(xs[..k] + [x] + xs[k..]) == multiset(xs) + multiset{x}
  {
    assert xs == xs[..k] + xs[k..];
  }

  lemma InsertAt<T(!new)>(less: (T, T) -> bool, xs: seq<T>, k: nat, x: T)
    requires WeakOrder(less) && Sorted(less, xs) && k <= |xs|
    requires k > 0 ==> !less(x, xs[k - 1])
    requires forall j :: k <= j < |xs| ==> less(x, xs[j])
    ensures Sorted(less, xs[..k] + [x] + xs[k..])
  {
    var ys := xs[..k] + [x] + xs[k..];
    forall i | 0 <= i < k ensures !less(x, xs[i]) {
      assert i < k - 1 ==> !less(xs[k - 1], xs[i]);
    }
    assert forall i :: 0 <= i < k ==> ys[i] == xs[i];
    assert forall i :: k < i < |ys| ==> ys[i] == xs[i - 1];
    assert ys[k] == x;
  }

  /** A permutation has the same elements, and repeats none that the original did not repeat. */
  lemma SameElements<T>(xs: seq<T>, ys: seq<T>)
    requires multiset(xs) == multiset(ys)
    ensures forall x :: x in xs <==> x in ys
    ensures (forall i, j :: 0 <= i < j < |xs| ==> xs[i] != xs[j]) ==>
              (forall i, j :: 0 <= i < j < |ys| ==> ys[i] != ys[j])
  {
    forall x ensures x in xs <==> x in ys {
      assert x in xs <==> x in multiset(xs);
    }
    if forall i, j :: 0 <= i < j < |xs| ==> xs[i] != xs[j] {
      forall i, j | 0 <= i < j < |ys| ensures ys[i] != ys[j] {
        if ys[i] == ys[j] {
          CountTwice(ys, i, j);
          CountOnce(xs, ys[i]);
        }
      }
    }
  }

  lemma CountTwice<T>(xs: seq<T>, i: nat, j: nat)
    requires i < j < |xs| && xs[i] == xs[j]
    ensures multiset(xs)[xs[i]] >= 2
  {
    assert xs == xs[..j] + xs[j..];
    assert multiset(xs)[xs[i]] == multiset(xs[..j])[xs[i]] + multiset(xs[j..])[xs[i]];
    assert xs[..j][i] == xs[i] && xs[j..][0] == xs[i];
    assert xs[i] in multiset(xs[..j]) && xs[i] in multiset(xs[j..]);
  }

  lemma {:induction false} CountOnce<T>(xs: seq<T>, x: T)
    requires forall i, j :: 0 <= i < j < |xs| ==> xs[i] != xs[j]
    ensures multiset(xs)[x] <= 1
  {
    if xs != [] {
      var k := |xs| - 1;
      CountOnce(xs[..k], x);
      assert xs == xs[..k] + [xs[k]];
      if xs[k] == x {
        assert x !in xs[..k];
        assert multiset(xs[..k])[x] == 0;
      }
    }
  }
}
