/** The names of WAL segment files: "%08d" and back, and whether sorting names sorts sequence numbers. */
module SegmentNames {
  import opened Types
  import opened Digits

  const ZERO: byte := 48
  const MAX_INT := 0x7FFF_FFFF_FFFF_FFFF

  /** The number of decimal digits that are printed for `n`. */
  function DigitCount(n: nat): (w: nat)
    ensures w > 0 && n < Decimal.Pow(w)
    ensures w > 1 ==> n >= Decimal.Pow(w - 1)
  {
    if n < 10 then
      assert Decimal.Pow(1) == 10 * Decimal.Pow(0);
      1
    else 1 + DigitCount(n / 10)
  }

  function Width(n: nat): nat {
    if DigitCount(n) < 8 then 8 else DigitCount(n)
  }

  function Print(ds: seq<nat>): (s: Bytes)
    requires Decimal.AreDigits(ds)
    ensures |s| == |ds| && forall i :: 0 <= i < |s| ==> s[i] == ZERO + ds[i]
  {
    seq(|ds|, i requires 0 <= i < |ds| => ZERO + ds[i])
  }

  /** fmt.Sprintf("%08d", n) */
  function SegmentName(n: nat): Bytes {
    Print(Decimal.Fixed(n, Width(n)))
  }

  function TrimZeros(name: Bytes): Bytes {
    if name != [] && name[0] == ZERO then TrimZeros(name[1..]) else name
  }

  ghost predicate AllDigits(s: Bytes) {
    forall i :: 0 <= i < |s| ==> ZERO <= s[i] <= ZERO + 9
  }

  function DigitValues(s: Bytes): (ds: seq<nat>)
    requires forall i :: 0 <= i < |s| ==> ZERO <= s[i] <= ZERO + 9
    ensures |ds| == |s| && Decimal.AreDigits(ds)
  {
    seq(|s|, i requires 0 <= i < |s| => s[i] - ZERO)
  }

  /** strconv.Atoi: an optional sign, then decimal digits, within the range of int. */
  function Atoi(s: Bytes): Option<int> {
    var signed := s != [] && (s[0] == 43 || s[0] == 45);
    var body := if signed then s[1..] else s;
    if body == [] || exists i :: 0 <= i < |body| && !(ZERO <= body[i] <= ZERO + 9) then None
    else
      var v: int := Decimal.Value(DigitValues(body));
      if signed && s[0] == 45 then if v <= MAX_INT + 1 then Some(-v) else None
      else if v <= MAX_INT then Some(v) else None
  }

  function ParseSegmentSeq(name: Bytes): Option<int> {
    var trimmed := TrimZeros(name);
    if trimmed == [] then Some(0) else Atoi(trimmed)
  }

  /** Below 10^8 a name is the eight decimal digits, most significant first, in ASCII. */
  lemma EightDigits(n: nat)
    requires n < 100_000_000
    ensures var q := n / 10_000;
            SegmentName(n)
            == [48 + q / 1_000 % 10, 48 + q / 100 % 10, 48 + q / 10 % 10, 48 + q % 10,
                48 + n / 1_000 % 10, 48 + n / 100 % 10, 48 + n / 10 % 10, 48 + n % 10]
  {
    hide Width, DigitCount;
    WidthBelow(n);
    FourDigits(n);
    FourDigits(n / 10_000);
    DigitSplit(n / 10_000, n);
  }

  lemma FourDigits(n: nat)
    ensures Decimal.Fixed(n, 4) == [n / 1_000 % 10, n / 100 % 10, n / 10 % 10, n % 10]
  {
    var a, b, c := n / 10, n / 10 / 10, n / 10 / 10 / 10;
    assert b == n / 100 && c == n / 1_000;
    DigitStep(n, 3);
    DigitStep(a, 2);
    DigitStep(b, 1);
    DigitStep(c, 0);
    assert Decimal.Fixed(n, 4) == [] + [c % 10] + [b % 10] + [a % 10] + [n % 10];
  }

  lemma DigitSplit(q: nat, n: nat)
    requires q == n / 10_000
    ensures Decimal.Fixed(n, 8) == Decimal.Fixed(q, 4) + Decimal.Fixed(n, 4)
  {
    var a, b, c := n / 10, n / 10 / 10, n / 10 / 10 / 10;
    assert b == n / 100 && c == n / 1_000 && c / 10 == q;
    FourDigits(n);
    DigitStep(n, 7);
    DigitStep(a, 6);
    DigitStep(b, 5);
    DigitStep(c, 4);
    assert Decimal.Fixed(n, 8) == Decimal.Fixed(q, 4) + [c % 10] + [b % 10] + [a % 10] + [n % 10];
  }

  lemma DigitStep(n: nat, w: nat)
    ensures Decimal.Fixed(n, w + 1) == Decimal.Fixed(n / 10, w) + [n % 10] && Decimal.Fixed(n / 10, 0) == []
  {
  }

  // ----- parsing undoes printing -----

  lemma {:induction false} LeadingZero(ds: seq<nat>)
    requires ds != [] && ds[0] == 0
    ensures Decimal.Value(ds) == Decimal.Value(ds[1..])
  {
    if |ds| > 1 {
      var k := |ds| - 1;
      LeadingZero(ds[..k]);
      assert ds[..k][1..] == ds[1..][..k - 1];
    }
  }

  lemma {:induction false} TrimKeepsValue(name: Bytes)
    requires AllDigits(name)
    ensures AllDigits(TrimZeros(name)) && |TrimZeros(name)| <= |name|
    ensures Decimal.Value(DigitValues(TrimZeros(name))) == Decimal.Value(DigitValues(name))
  {
    if name != [] && name[0] == ZERO {
      TrimKeepsValue(name[1..]);
      LeadingZero(DigitValues(name));
      assert DigitValues(name)[1..] == DigitValues(name[1..]);
    }
  }

  lemma NameRoundTrip(n: nat)
    requires n <= MAX_INT
    ensures ParseSegmentSeq(SegmentName(n)) == Some(n)
  {
    hide DigitCount, TrimZeros, Width;
    WidthBelow(n);
    var ds := Decimal.Fixed(n, Width(n));
    var name := SegmentName(n);
    ValueOfFixed(Decimal, n, Width(n));
    assert DigitValues(name) == ds;
    TrimKeepsValue(name);
  }

  lemma {:induction false} PowGrows(v: nat, w: nat)
    requires v <= w
    ensures Decimal.Pow(v) <= Decimal.Pow(w)
    ensures v < w ==> Decimal.Pow(v) < Decimal.Pow(w)
    decreases w
  {
    if v < w {
      PowGrows(v, w - 1);
    }
  }

  // ----- the order of names -----

  lemma {:induction false} PrintKeepsOrder(a: seq<nat>, b: seq<nat>)
    requires Decimal.AreDigits(a) && Decimal.AreDigits(b)
    ensures LexLess(Print(a), Print(b)) <==> LexLess(a, b)
  {
    if a != [] && b != [] {
      PrintKeepsOrder(a[1..], b[1..]);
      assert Print(a)[1..] == Print(a[1..]) && Print(b)[1..] == Print(b[1..]);
    }
  }

  lemma SameWidthOrder(m: nat, n: nat)
    requires Width(m) == Width(n)
    ensures LexLess(SegmentName(m), SegmentName(n)) <==> m < n
  {
    var w := Width(m);
    PowGrows(DigitCount(m), w);
    PowGrows(DigitCount(n), w);
    LexOfFixed(Decimal, m, n, w);
    PrintKeepsOrder(Decimal.Fixed(m, w), Decimal.Fixed(n, w));
  }

  lemma Eight()
    ensures Decimal.Pow(8) == 100_000_000
  {
    assert Decimal.Pow(2) == 100;
    assert Decimal.Pow(4) == 10_000;
    assert Decimal.Pow(6) == 1_000_000;
  }

  lemma WidthBelow(n: nat)
    ensures Width(n) == 8 <==> n < 100_000_000
    ensures Width(n) >= 8 && n < Decimal.Pow(Width(n))
    ensures Width(n) > 8 ==> n >= Decimal.Pow(Width(n) - 1)
  {
    Eight();
    PowGrows(DigitCount(n), Width(n));
    if DigitCount(n) > 8 {
      PowGrows(8, DigitCount(n) - 1);
    }
  }

  /** Below 10^8 the names sort as the numbers do. */
  lemma NamesSortAsNumbers(m: nat, n: nat)
    requires m < 100_000_000 && n < 100_000_000
    ensures LexLess(SegmentName(m), SegmentName(n)) <==> m < n
  {
    WidthBelow(m);
    WidthBelow(n);
    SameWidthOrder(m, n);
  }

  lemma {:induction false} FirstDigit(n: nat, w: nat)
    requires w > 0 && n < Decimal.Pow(w)
    ensures n + 1 == Decimal.Pow(w) ==> Decimal.Fixed(n, w)[0] == 9
    ensures w > 1 && n == Decimal.Pow(w - 1) ==> Decimal.Fixed(n, w)[0] == 1
  {
    if w > 1 {
      FirstDigit(n / 10, w - 1);
    }
  }

  lemma {:induction false} WidthMonotone(m: nat, n: nat)
    requires m <= n
    ensures Width(m) <= Width(n)
  {
    WidthBelow(m);
    WidthBelow(n);
    if Width(n) < Width(m) {
      PowGrows(Width(n), Width(m) - 1);
    }
  }

  lemma BoundaryIsPower(n: nat)
    requires Width(n + 1) != Width(n)
    ensures Width(n + 1) == Width(n) + 1 && n + 1 == Decimal.Pow(Width(n))
  {
    WidthBelow(n);
    WidthBelow(n + 1);
    WidthMonotone(n, n + 1);
    PowGrows(Width(n), Width(n + 1) - 1);
  }

  /** At the end of a width, the last name sorts after its successor: 99999999 after 100000000. */
  lemma WidthBoundary(n: nat)
    requires Width(n + 1) != Width(n)
    ensures LexLess(SegmentName(n + 1), SegmentName(n))
  {
    var w := Width(n);
    BoundaryIsPower(n);
    WidthBelow(n);
    WidthBelow(n + 1);
    FirstDigit(n, w);
    FirstDigit(n + 1, w + 1);
    assert SegmentName(n + 1)[0] == ZERO + 1 && SegmentName(n)[0] == ZERO + 9;
  }

  /** Where the last sequence number of one width lies between lo and hi. */
  lemma {:induction false} FindBoundary(lo: nat, hi: nat) returns (n: nat)
    requires lo <= hi && Width(lo) != Width(hi)
    ensures lo <= n < hi && Width(n + 1) != Width(n)
    decreases hi - lo
  {
    if Width(lo + 1) != Width(lo) {
      n := lo;
    } else {
      n := FindBoundary(lo + 1, hi);
    }
  }

  /** The segments lo..hi sort in write order exactly when their first and last names are equally long. */
  lemma SortedListingIffSameWidth(lo: nat, hi: nat)
    requires lo <= hi
    ensures (forall m, n :: lo <= m < n <= hi ==> LexLess(SegmentName(m), SegmentName(n))) <==> Width(lo) == Width(hi)
  {
    if Width(lo) == Width(hi) {
      forall m, n | lo <= m < n <= hi ensures LexLess(SegmentName(m), SegmentName(n)) {
        WidthMonotone(lo, m);
        WidthMonotone(m, n);
        WidthMonotone(n, hi);
        SameWidthOrder(m, n);
      }
    } else {
      var n := FindBoundary(lo, hi);
      WidthBoundary(n);
      LexTotal(SegmentName(n), SegmentName(n + 1));
    }
  }
}
