/** Positional notation: the big-endian integers of the log and of event keys, and decimal file names. */
module Digits {

  /** The two radixes in use: decimal digits in file names, octets in binary fields. */
  datatype Radix = Decimal | Octets {
    function Base(): nat { if Decimal? then 10 else 256 }
    function Times(q: nat): nat { if Decimal? then 10 * q else 256 * q }
    function High(n: nat): nat { if Decimal? then n / 10 else n / 256 }
    function Low(n: nat): nat { if Decimal? then n % 10 else n % 256 }

    /** The number of values that `w` digits can take. */
    function Pow(w: nat): (p: nat)
      ensures p > 0
    {
      if w == 0 then 1 else Times(Pow(w - 1))
    }

    /** The `w` lowest digits of `n`, most significant first. */
    function Fixed(n: nat, w: nat): (ds: seq<nat>)
      ensures |ds| == w && AreDigits(ds)
    {
      if w == 0 then [] else Fixed(High(n), w - 1) + [Low(n)]
    }

    function Value(ds: seq<nat>): nat {
      if ds == [] then 0 else Times(Value(ds[..|ds| - 1])) + ds[|ds| - 1]
    }

    ghost predicate AreDigits(ds: seq<nat>) {
      forall i :: 0 <= i < |ds| ==> ds[i] < Base()
    }
  }

  lemma {:induction false} ValueOfFixed(x: Radix, n: nat, w: nat)
    requires n < x.Pow(w)
    ensures x.Value(x.Fixed(n, w)) == n
  {
    if w > 0 {
      ValueOfFixed(x, x.High(n), w - 1);
      assert x.Fixed(n, w)[..w - 1] == x.Fixed(x.High(n), w - 1);
    }
  }

  lemma {:induction false} ValueBound(x: Radix, ds: seq<nat>)
    requires x.AreDigits(ds)
    ensures x.Value(ds) < x.Pow(|ds|)
  {
    if ds != [] {
      ValueBound(x, ds[..|ds| - 1]);
    }
  }

  /** Byte-wise string order, as Go compares strings and bbolt compares keys. */
  predicate LexLess(a: seq<nat>, b: seq<nat>) {
    if b == [] then false
    else if a == [] then true
    else if a[0] != b[0] then a[0] < b[0]
    else LexLess(a[1..], b[1..])
  }

  lemma {:induction false} LexTotal(a: seq<nat>, b: seq<nat>)
    ensures LexLess(a, b) || a == b || LexLess(b, a)
    ensures !(LexLess(a, b) && LexLess(b, a))
    ensures !LexLess(a, a)
  {
    if a != [] {
      LexTotal(a[1..], if b == [] then [] else b[1..]);
      if b != [] && a[0] == b[0] && a[1..] == b[1..] {
        assert a == [a[0]] + a[1..] && b == [b[0]] + b[1..];
      }
    }
  }

  lemma {:induction false} LexTransitive(a: seq<nat>, b: seq<nat>, c: seq<nat>)
    requires LexLess(a, b) && LexLess(b, c)
    ensures LexLess(a, c)
  {
    if a != [] && a[0] == b[0] && b[0] == c[0] {
      LexTransitive(a[1..], b[1..], c[1..]);
    }
  }

  lemma {:induction false} LexSnoc(a: seq<nat>, i: nat, b: seq<nat>, j: nat)
    requires |a| == |b|
    ensures LexLess(a + [i], b + [j]) <==> LexLess(a, b) || (a == b && i < j)
  {
    if a != [] {
      assert (a + [i])[1..] == a[1..] + [i] && (b + [j])[1..] == b[1..] + [j];
      LexSnoc(a[1..], i, b[1..], j);
      if a[0] == b[0] {
        assert a == [a[0]] + a[1..] && b == [b[0]] + b[1..];
        assert a[1..] == b[1..] <==> a == b;
      }
    }
  }

  /** On digit strings of one length, string order is numeric order. */
  lemma {:induction false} LexIsNumeric(x: Radix, a: seq<nat>, b: seq<nat>)
    requires x.AreDigits(a) && x.AreDigits(b) && |a| == |b|
    ensures LexLess(a, b) <==> x.Value(a) < x.Value(b)
    ensures x.Value(a) == x.Value(b) ==> a == b
  {
    if a != [] {
      var k := |a| - 1;
      LexIsNumeric(x, a[..k], b[..k]);
      assert a == a[..k] + [a[k]] && b == b[..k] + [b[k]];
      LexSnoc(a[..k], a[k], b[..k], b[k]);
    }
  }

  lemma LexOfFixed(x: Radix, m: nat, n: nat, w: nat)
    requires m < x.Pow(w) && n < x.Pow(w)
    ensures LexLess(x.Fixed(m, w), x.Fixed(n, w)) <==> m < n
    ensures x.Fixed(m, w) == x.Fixed(n, w) ==> m == n
  {
    ValueOfFixed(x, m, w);
    ValueOfFixed(x, n, w);
    LexIsNumeric(x, x.Fixed(m, w), x.Fixed(n, w));
  }

  lemma FixedOfValue(x: Radix, ds: seq<nat>)
    requires x.AreDigits(ds)
    ensures x.Fixed(x.Value(ds), |ds|) == ds
  {
    ValueBound(x, ds);
    ValueOfFixed(x, x.Value(ds), |ds|);
    LexIsNumeric(x, x.Fixed(x.Value(ds), |ds|), ds);
  }
}
