/** Immutable blocks: querying one, and merging several into one. */
module Blocks {
  import opened Types
  import opened Heads

  /** The directories "b%020d" and "c%020d" under blocks/, named from a minimum time. */
  datatype DirName = Flushed(mint: Int64) | Compacted(mint: Int64)

  datatype BlockMeta = BlockMeta(minTime: Int64, maxTime: Int64, samples: nat)

  datatype Block = Block(dir: DirName, meta: BlockMeta, series: seq<Series>)

  // ----- the points of a store: which samples are held under which labels -----

  function PointOf(l: Labels, s: Sample): Record {
    Record(l, s.t, s.v)
  }

  ghost predicate InSeries(p: Record, series: seq<Series>) {
    exists s :: s in series && s.lset == p.labels && Sample(p.t, p.v) in s.samples
  }

  ghost function SeriesPoints(series: seq<Series>): set<Record> {
    set s, x | s in series && x in s.samples :: PointOf(s.lset, x)
  }

  ghost function BlocksPoints(blocks: seq<Block>): set<Record> {
    set b, p | b in blocks && p in SeriesPoints(b.series) :: p
  }

  /** One value for each label set and time. */
  ghost predicate SingleValued(points: set<Record>) {
    forall p, q :: p in points && q in points && p.labels == q.labels && p.t == q.t ==> p == q
  }

  ghost predicate HasKey(points: set<Record>, p: Record) {
    exists q :: q in points && q.labels == p.labels && q.t == p.t
  }

  lemma PointInSeries(series: seq<Series>, p: Record)
    ensures p in SeriesPoints(series) <==> InSeries(p, series)
  {
    if p in SeriesPoints(series) {
      var s, x :| s in series && x in s.samples && p == PointOf(s.lset, x);
      assert x == Sample(p.t, p.v);
    }
    if InSeries(p, series) {
      var s :| s in series && s.lset == p.labels && Sample(p.t, p.v) in s.samples;
      assert p == PointOf(s.lset, Sample(p.t, p.v));
    }
  }

  // ----- what the JSON encoder accepts -----

  /** Neither NaN nor an infinity: the exponent bits are not all ones. */
  predicate IsFinite(v: Bits64) {
    v / 0x10_0000_0000_0000 % 0x800 != 0x7FF
  }

  /** The IEEE 754 layout of a float64: one bit of sign, eleven of exponent, 52 of fraction. */
  ghost predicate IsFloat(v: Bits64, sign: nat, exponent: nat, fraction: nat) {
    && sign < 2 && exponent < 2048 && fraction < 0x10_0000_0000_0000
    && v == sign * 0x8000_0000_0000_0000 + exponent * 0x10_0000_0000_0000 + fraction
  }

  lemma EveryFloat(v: Bits64) returns (sign: nat, exponent: nat, fraction: nat)
    ensures IsFloat(v, sign, exponent, fraction)
  {
    sign := v / 0x8000_0000_0000_0000;
    exponent := v % 0x8000_0000_0000_0000 / 0x10_0000_0000_0000;
    fraction := v % 0x8000_0000_0000_0000 % 0x10_0000_0000_0000;
  }

  /** A float is finite exactly when its exponent field is not the greatest one. */
  lemma FiniteIff(v: Bits64, sign: nat, exponent: nat, fraction: nat)
    requires IsFloat(v, sign, exponent, fraction)
    ensures IsFinite(v) <==> exponent != 2047
  {
    assert v / 0x10_0000_0000_0000 == sign * 2048 + exponent;
  }

  /** Zero, one and the greatest finite value are; the infinities, the NaN that Go makes and Prometheus' stale marker
      are not. */
  lemma FiniteExamples()
    ensures IsFinite(0) && IsFinite(0x8000_0000_0000_0000) && IsFinite(0x3FF0_0000_0000_0000)
    ensures IsFinite(0x7FEF_FFFF_FFFF_FFFF) && IsFinite(0xFFEF_FFFF_FFFF_FFFF)
    ensures !IsFinite(0x7FF0_0000_0000_0000) && !IsFinite(0xFFF0_0000_0000_0000)
    ensures !IsFinite(0x7FF8_0000_0000_0000) && !IsFinite(0x7FF8_0000_0000_0001) && !IsFinite(0x7FF0_0000_0000_0002)
  {
  }

  predicate AllFinite(series: seq<Series>) {
    forall s :: s in series ==> forall x :: x in s.samples ==> IsFinite(x.v)
  }

  /** No value has the exponent field of the infinities and NaNs. */
  ghost predicate FinitePoints(points: set<Record>) {
    forall p, sign, exponent, fraction :: p in points && IsFloat(p.v, sign, exponent, fraction) ==> exponent != 2047
  }

  lemma FinitePoint(points: set<Record>)
    ensures FinitePoints(points) <==> forall p :: p in points ==> IsFinite(p.v)
  {
    hide IsFinite, IsFloat;
    forall p: Record
      ensures IsFinite(p.v) <==> forall sign, e, fraction :: IsFloat(p.v, sign, e, fraction) ==> e != 2047 {
      var sign, e, fraction := EveryFloat(p.v);
      forall a, b, c | IsFloat(p.v, a, b, c) ensures IsFinite(p.v) <==> b != 2047 {
        FiniteIff(p.v, a, b, c);
      }
    }
  }

  lemma FiniteSeries(series: seq<Series>)
    ensures AllFinite(series) <==> FinitePoints(SeriesPoints(series))
  {
    hide IsFinite, FinitePoints;
    FinitePoint(SeriesPoints(series));
    if FinitePoints(SeriesPoints(series)) {
      forall s, x | s in series && x in s.samples ensures IsFinite(x.v) {
        assert PointOf(s.lset, x) in SeriesPoints(series);
      }
    }
  }

  // ----- queries -----

  /** The metadata bounds every sample of the block. */
  ghost predicate Covered(b: Block) {
    forall s, x :: s in b.series && x in s.samples ==> b.meta.minTime <= x.t <= b.meta.maxTime
  }

  function Overlaps(b: Block, mint: Int64, maxt: Int64): bool {
    !(b.meta.maxTime < mint || b.meta.minTime > maxt)
  }

  ghost function BlockSelect(series: seq<Series>, mint: Int64, maxt: Int64, ms: seq<Matcher>): seq<Series> {
    if series == [] then []
    else
      var s := series[|series| - 1];
      BlockSelect(series[..|series| - 1], mint, maxt, ms)
      + if Matching(s.lset, ms) && Window(s.samples, mint, maxt) != []
        then [Series(s.lset, Window(s.samples, mint, maxt))]
        else []
  }

  /** One series is selected whole within the window, if the matchers accept it and one of its samples lies there. */
  lemma SelectOne(s: Series, mint: Int64, maxt: Int64, ms: seq<Matcher>)
    requires DistinctNames(s.lset)
    ensures BlockSelect([s], mint, maxt, ms)
            == if AllAccept(ms, s.lset) && exists x :: x in s.samples && mint <= x.t <= maxt
               then [Series(s.lset, Window(s.samples, mint, maxt))] else []
  {
    hide Matching, AllAccept;
    MatchingIsAccepting(s.lset, ms);
    WindowEmpty(s.samples, mint, maxt);
    assert [s][..0] == [];
  }

  method SelectSeries(b: Block, mint: Int64, maxt: Int64, matchers: seq<Matcher>) returns (result: seq<Series>)
    ensures result == BlockSelect(b.series, mint, maxt, matchers)
    ensures forall p: Record :: DistinctNames(p.labels) ==>
              (p in SeriesPoints(result)
               <==> p in SeriesPoints(b.series) && AllAccept(matchers, p.labels) && mint <= p.t <= maxt)
  {
    hide Matching, Window, SeriesPoints, AllAccept;
    result := [];
    for i := 0 to |b.series|
      invariant result == BlockSelect(b.series[..i], mint, maxt, matchers)
    {
      var bs := b.series[i];
      assert b.series[..i + 1][..i] == b.series[..i];
      var ok := MatchesAll(bs.lset, matchers);
      if ok {
        var samples := FilterSamples(bs.samples, mint, maxt);
        if |samples| != 0 {
          result := result + [Series(bs.lset, samples)];
        }
      }
    }
    assert b.series[..|b.series|] == b.series;
    forall p: Record | DistinctNames(p.labels)
      ensures p in SeriesPoints(result)
              <==> p in SeriesPoints(b.series) && AllAccept(matchers, p.labels) && mint <= p.t <= maxt {
      SelectedPoints(b.series, mint, maxt, matchers, p);
      MatchingIsAccepting(p.labels, matchers);
    }
  }

  /** A query of a block returns exactly its points that match and lie in the window. */
  lemma {:induction false} SelectedPoints(series: seq<Series>, mint: Int64, maxt: Int64, ms: seq<Matcher>, p: Record)
    ensures p in SeriesPoints(BlockSelect(series, mint, maxt, ms))
            <==> p in SeriesPoints(series) && Matching(p.labels, ms) && mint <= p.t <= maxt
  {
    hide Matching, Window, SeriesPoints;
    if series == [] {
      PointInSeries([], p);
    } else {
      var k := |series| - 1;
      var init, s := series[..k], series[k];
      assert series == init + [s];
      var w := Window(s.samples, mint, maxt);
      SelectedPoints(init, mint, maxt, ms, p);
      AddedPoints(init, [s], p);
      PointsOfOneSeries(s, p);
      PointsOfOneSeries(Series(s.lset, w), p);
      WindowMembers(s.samples, mint, maxt, Sample(p.t, p.v));
      if Matching(s.lset, ms) && w != [] {
        AddedPoints(BlockSelect(init, mint, maxt, ms), [Series(s.lset, w)], p);
      } else {
        assert BlockSelect(series, mint, maxt, ms) == BlockSelect(init, mint, maxt, ms);
      }
    }
  }

  lemma PointsOfOneSeries(s: Series, p: Record)
    ensures p in SeriesPoints([s]) <==> p.labels == s.lset && Sample(p.t, p.v) in s.samples
  {
    PointInSeries([s], p);
    assert s in [s];
  }

  lemma WindowMembers(samples: seq<Sample>, mint: Int64, maxt: Int64, s: Sample)
    ensures s in Window(samples, mint, maxt) <==> s in samples && mint <= s.t <= maxt
  {
  }

  lemma AddedPoints(a: seq<Series>, b: seq<Series>, p: Record)
    ensures p in SeriesPoints(a + b) <==> p in SeriesPoints(a) || p in SeriesPoints(b)
  {
    hide SeriesPoints;
    PointInSeries(a + b, p);
    PointInSeries(a, p);
    PointInSeries(b, p);
  }

  /** A block that is skipped by its time range would have contributed nothing. */
  lemma SkippingIsSound(b: Block, mint: Int64, maxt: Int64, ms: seq<Matcher>)
    requires Covered(b) && !Overlaps(b, mint, maxt)
    ensures BlockSelect(b.series, mint, maxt, ms) == []
  {
    NothingInWindow(b, b.series, mint, maxt, ms);
  }

  lemma {:induction false} NothingInWindow(b: Block, series: seq<Series>, mint: Int64, maxt: Int64, ms: seq<Matcher>)
    requires Covered(b) && !Overlaps(b, mint, maxt) && forall s :: s in series ==> s in b.series
    ensures BlockSelect(series, mint, maxt, ms) == []
  {
    if series != [] {
      var s := series[|series| - 1];
      NothingInWindow(b, series[..|series| - 1], mint, maxt, ms);
      WindowEmpty(s.samples, mint, maxt);
    }
  }
}
