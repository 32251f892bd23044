/** Converting OTLP histogram points to cumulative "le" buckets, for cumulative and for delta input. */
module Histograms {
  import opened Types
  import opened Deltas

  const TWO64 := 0x1_0000_0000_0000_0000
  const NAME: Bytes := [95, 95, 110, 97, 109, 101, 95, 95]     // __name__
  const LE: Bytes := [108, 101]                                // le
  const INF: Bytes := [43, 73, 110, 102]                       // +Inf
  const BUCKET: Bytes := [95, 98, 117, 99, 107, 101, 116]      // _bucket
  const COUNT: Bytes := [95, 99, 111, 117, 110, 116]           // _count
  const SUM: Bytes := [95, 115, 117, 109]                      // _sum

  /** A data point; `bounds` are the explicit bounds as printed by %g. */
  datatype Point = Point(bounds: seq<Bytes>, counts: seq<Bits64>, count: Bits64, sum: Option<real>)

  datatype OutSample = OutSample(labels: LabelSet, ts: Int64, value: real)

  /** labels.Builder.Set: setting a label to the empty string removes it. */
  function SetLabel(base: LabelSet, name: Bytes, value: Bytes): LabelSet {
    if value == [] then base - {name} else base[name := value]
  }

  function AppendLabel(base: LabelSet, metric: Bytes, name: Bytes, value: Bytes): LabelSet {
    SetLabel(SetLabel(base, NAME, metric), name, value)
  }

  function ReplaceMetricName(base: LabelSet, metric: Bytes): LabelSet {
    SetLabel(base, NAME, metric)
  }

  // ----- what one point becomes -----

  /** The number of observations in the first `k` buckets. */
  function Prefix(counts: seq<Bits64>, k: nat): nat {
    if k == 0 then 0 else Prefix(counts, k - 1) + if k <= |counts| then counts[k - 1] else 0
  }

  /** The label sets of a point's series: one per bound, +Inf, _count, and _sum when there is one. */
  function PointLabels(name: Bytes, base: LabelSet, dp: Point): seq<LabelSet> {
    seq(|dp.bounds|, i requires 0 <= i < |dp.bounds| => AppendLabel(base, name + BUCKET, LE, dp.bounds[i]))
    + [AppendLabel(base, name + BUCKET, LE, INF), ReplaceMetricName(base, name + COUNT)]
    + if dp.sum.Some? then [ReplaceMetricName(base, name + SUM)] else []
  }

  /** Their values in a cumulative point: the running counts modulo 2^64, the count, the sum. */
  function PointValues(dp: Point): seq<real> {
    seq(|dp.bounds| + 1, i requires 0 <= i <= |dp.bounds| => (Prefix(dp.counts, i + 1) % TWO64) as real)
    + [dp.count as real]
    + if dp.sum.Some? then [dp.sum.value] else []
  }

  /** An exponential data point; `bounds` are the upper bounds of the positive buckets as printed by %g. */
  datatype ExpPoint = ExpPoint(zeroCount: Bits64, bounds: seq<Bytes>, positive: seq<Bits64>, negative: seq<Bits64>,
                               count: Bits64, sum: Option<real>)

  /** The explicit point that an exponential one is converted like: the zero bucket joins the first positive one, and
      the negative buckets are ignored. */
  function AsExplicit(dp: ExpPoint): Point
    requires |dp.bounds| == |dp.positive|
  {
    var counts: seq<Bits64> :=
      if dp.positive == [] then [dp.zeroCount]
      else [(dp.zeroCount + dp.positive[0]) % TWO64] + dp.positive[1..] + [0];
    Point(dp.bounds, counts, dp.count, dp.sum)
  }

  // ----- emission -----

  /** The calls made to the accumulator, the samples appended, and the clock position. */
  datatype Sink = Sink(calls: seq<Call>, out: seq<OutSample>, tick: nat)

  /** The translator's hash, clock and temporality for one metric. */
  datatype Mode = Mode(hash: LabelSet -> nat, clock: nat -> int, isDelta: bool)

  function EmitOne(m: Mode, s: Sink, ts: Int64, l: LabelSet, v: real): Sink {
    if m.isDelta then
      var calls := s.calls + [Call(m.hash(l), v, m.clock(s.tick), m.clock(s.tick + 1))];
      Sink(calls, s.out + [OutSample(l, ts, SinceGap(Own(calls, m.hash(l))))], s.tick + 2)
    else s.(out := s.out + [OutSample(l, ts, v)])
  }

  function EmitAll(m: Mode, s: Sink, ts: Int64, ls: seq<LabelSet>, vs: seq<real>): Sink
    requires |ls| == |vs|
  {
    if ls == [] then s
    else
      var k := |ls| - 1;
      EmitOne(m, EmitAll(m, s, ts, ls[..k], vs[..k]), ts, ls[k], vs[k])
  }

  function EmitPoint(m: Mode, s: Sink, name: Bytes, base: LabelSet, ts: Int64, dp: Point): Sink {
    EmitAll(m, s, ts, PointLabels(name, base, dp), PointValues(dp))
  }

  // ----- the series and values of a point, in plain terms -----

  lemma NamesAre()
    ensures NAME == Ascii("__name__") && LE == Ascii("le") && INF == Ascii("+Inf")
    ensures BUCKET == Ascii("_bucket") && COUNT == Ascii("_count") && SUM == Ascii("_sum")
  {
  }

  /** The base under another metric name, with the upper bound in le; an empty value would remove the label. */
  function BucketSeries(base: LabelSet, name: Bytes, bound: Bytes): LabelSet {
    var renamed := base[Ascii("__name__") := name + Ascii("_bucket")];
    if bound == [] then renamed - {Ascii("le")} else renamed[Ascii("le") := bound]
  }

  /** One bucket for each bound and one for +Inf, the count, and the sum when there is one: each sample keeps the labels
      of the base and the point's time. */
  ghost predicate HasSeries(out: seq<OutSample>, name: Bytes, base: LabelSet, ts: Int64, bounds: seq<Bytes>,
                            hasSum: bool) {
    var n := |bounds|;
    && |out| == n + (if hasSum then 3 else 2)
    && (forall i :: 0 <= i < |out| ==> out[i].ts == ts)
    && (forall i :: 0 <= i < n ==> out[i].labels == BucketSeries(base, name, bounds[i]))
    && out[n].labels == BucketSeries(base, name, Ascii("+Inf"))
    && out[n + 1].labels == base[Ascii("__name__") := name + Ascii("_count")]
    && (hasSum ==> out[n + 2].labels == base[Ascii("__name__") := name + Ascii("_sum")])
  }

  /** What one more bucket adds, with the 64-bit counter of the code. */
  function Counted(running: real, added: Bits64): real {
    ((running.Floor + added) % 0x1_0000_0000_0000_0000) as real
  }

  function CountAt(counts: seq<Bits64>, i: nat): Bits64 {
    if i < |counts| then counts[i] else 0
  }

  /** The first bucket starts from `zero`, each one adds its own count, a missing one nothing. */
  ghost predicate HasValues(out: seq<OutSample>, zero: Bits64, counts: seq<Bits64>, n: nat, count: Bits64,
                            sum: Option<real>) {
    && |out| == n + (if sum.Some? then 3 else 2)
    && out[0].value == Counted(zero as real, CountAt(counts, 0))
    && (forall i, j :: 0 <= i && j == i + 1 <= n ==> out[j].value == Counted(out[i].value, CountAt(counts, j)))
    && out[n + 1].value == count as real
    && (sum.Some? ==> out[n + 2].value == sum.value)
  }

  lemma BucketIs(base: LabelSet, name: Bytes, bound: Bytes)
    ensures AppendLabel(base, name + BUCKET, LE, bound) == BucketSeries(base, name, bound)
    ensures ReplaceMetricName(base, name + COUNT) == base[Ascii("__name__") := name + Ascii("_count")]
    ensures ReplaceMetricName(base, name + SUM) == base[Ascii("__name__") := name + Ascii("_sum")]
  {
    NamesAre();
    Suffixes(name);
  }

  /** The samples of a point are appended in order, each under its own series; without deltas, with its own value. */
  lemma {:induction false} EmitAllSamples(m: Mode, s: Sink, ts: Int64, ls: seq<LabelSet>, vs: seq<real>)
    requires |ls| == |vs|
    ensures var out := EmitAll(m, s, ts, ls, vs).out;
            && |out| == |s.out| + |ls| && out[..|s.out|] == s.out
            && (forall i :: 0 <= i < |ls| ==> out[|s.out|..][i].labels == ls[i] && out[|s.out|..][i].ts == ts)
            && (!m.isDelta ==> forall i :: 0 <= i < |ls| ==> out[|s.out|..][i].value == vs[i])
  {
    hide Own, SinceGap;
    if ls != [] {
      EmitAllSamples(m, s, ts, ls[..|ls| - 1], vs[..|ls| - 1]);
    }
  }

  lemma PointSeries(m: Mode, s: Sink, name: Bytes, base: LabelSet, ts: Int64, dp: Point)
    ensures var out := EmitPoint(m, s, name, base, ts, dp).out;
            && |out| >= |s.out| && out[..|s.out|] == s.out
            && HasSeries(out[|s.out|..], name, base, ts, dp.bounds, dp.sum.Some?)
            && (!m.isDelta ==> HasValues(out[|s.out|..], 0, dp.counts, |dp.bounds|, dp.count, dp.sum))
  {
    hide EmitAll, AppendLabel, ReplaceMetricName, PointLabels, PointValues, Prefix, BucketSeries, Own, SinceGap;
    var ls, vs := PointLabels(name, base, dp), PointValues(dp);
    PointEntries(name, base, dp);
    EmitAllSamples(m, s, ts, ls, vs);
    BucketIs(base, name, INF);
    NamesAre();
    forall i | 0 <= i < |dp.bounds| ensures ls[i] == BucketSeries(base, name, dp.bounds[i]) {
      BucketIs(base, name, dp.bounds[i]);
    }
    NoPrefix(dp.counts);
    PrefixStep(dp.counts, 0);
    forall i, j | 0 <= i && j == i + 1 <= |dp.bounds| ensures vs[j] == Counted(vs[i], CountAt(dp.counts, j)) {
      PrefixStep(dp.counts, j);
    }
  }

  /** The zero bucket joins the first positive one, also when there is none. */
  lemma ExpPointSeries(m: Mode, s: Sink, name: Bytes, base: LabelSet, ts: Int64, dp: ExpPoint)
    requires |dp.bounds| == |dp.positive|
    ensures var out := EmitPoint(m, s, name, base, ts, AsExplicit(dp)).out;
            && |out| >= |s.out| && out[..|s.out|] == s.out
            && HasSeries(out[|s.out|..], name, base, ts, dp.bounds, dp.sum.Some?)
            && (!m.isDelta ==> HasValues(out[|s.out|..], dp.zeroCount, dp.positive, |dp.bounds|, dp.count, dp.sum))
  {
    hide EmitAll, AsExplicit, HasSeries, Own, SinceGap, EmitPoint;
    var e := AsExplicit(dp);
    ExpShape(dp);
    PointSeries(m, s, name, base, ts, e);
    var out := EmitPoint(m, s, name, base, ts, e).out[|s.out|..];
    if !m.isDelta {
      assert Counted(0.0, e.counts[0]) == Counted(dp.zeroCount as real, CountAt(dp.positive, 0));
      forall i, j | 0 <= i && j == i + 1 <= |dp.bounds|
        ensures out[j].value == Counted(out[i].value, CountAt(dp.positive, j)) {
        assert CountAt(e.counts, j) == CountAt(dp.positive, j);
      }
    }
  }

  /** Points whose bases differ in a label other than __name__ and le have no series in common. */
  lemma OtherBaseOtherSeries(name: Bytes, base: LabelSet, dp: Point, name': Bytes, base': LabelSet, dp': Point,
                             k: Bytes)
    requires k != Ascii("__name__") && k != Ascii("le")
    requires !(k in base <==> k in base') || (k in base && k in base' && base[k] != base'[k])
    ensures forall l, l' :: l in PointLabels(name, base, dp) && l' in PointLabels(name', base', dp') ==> l != l'
  {
    KeepsLabel(name, base, dp, k);
    KeepsLabel(name', base', dp', k);
  }

  /** Every series of a point has the base's value of every other label. */
  lemma KeepsLabel(name: Bytes, base: LabelSet, dp: Point, k: Bytes)
    requires k != Ascii("__name__") && k != Ascii("le")
    ensures forall l :: l in PointLabels(name, base, dp) ==> (k in l <==> k in base) && (k in base ==> l[k] == base[k])
  {
    NamesAre();
    PointEntries(name, base, dp);
    var ls := PointLabels(name, base, dp);
    forall l | l in ls ensures (k in l <==> k in base) && (k in base ==> l[k] == base[k]) {
      var i :| 0 <= i < |ls| && ls[i] == l;
    }
  }

  // ----- the code -----

  class Translator {
    const acc: Accumulator
    var app: seq<OutSample>

    constructor (acc: Accumulator)
      ensures this.acc == acc && app == []
    {
      this.acc, app := acc, [];
    }

    ghost predicate Valid()
      reads this, acc
    {
      acc.Valid()
    }

    ghost function State(): Sink
      reads this, acc
    {
      Sink(acc.calls, app, acc.tick)
    }

    /** The accumulate-and-append step that the conversion repeats for every series. */
    method Emit(lset: LabelSet, ts: Int64, v: real, isDelta: bool)
      requires Valid()
      modifies this, acc
      ensures Valid()
      ensures State() == EmitOne(Mode(acc.hash, acc.clock, isDelta), old(State()), ts, lset, v)
    {
      hide Own, SinceGap, Monotone, RunCalls;
      var value := v;
      if isDelta {
        value := acc.AccumulateDelta(lset, value);
      }
      app := app + [OutSample(lset, ts, value)];
    }

    method AppendHistogramDataPoint(name: Bytes, baseLabels: LabelSet, ts: Int64, dp: Point, isDelta: bool)
      returns (count: nat)
      requires Valid()
      modifies this, acc
      ensures Valid() && count == |dp.bounds| + (if dp.sum.Some? then 3 else 2)
      ensures State() == EmitPoint(Mode(acc.hash, acc.clock, isDelta), old(State()), name, baseLabels, ts, dp)
      ensures |app| >= |old(app)| && app[..|old(app)|] == old(app)
      ensures HasSeries(app[|old(app)|..], name, baseLabels, ts, dp.bounds, dp.sum.Some?)
      ensures !isDelta ==> HasValues(app[|old(app)|..], 0, dp.counts, |dp.bounds|, dp.count, dp.sum)
    {
      hide EmitOne, EmitAll, AppendLabel, ReplaceMetricName, Prefix, PointLabels, PointValues, Own, SinceGap,
           HasSeries, HasValues, Monotone, RunCalls;
      ghost var m := Mode(acc.hash, acc.clock, isDelta);
      ghost var s := State();
      ghost var ls, vs := PointLabels(name, baseLabels, dp), PointValues(dp);
      var bounds, bucketCounts := dp.bounds, dp.counts;
      var cumulativeCount: Bits64 := 0;
      count := 0;
      PointEntries(name, baseLabels, dp);
      NothingEmitted(m, s, ts, ls[..0], vs[..0]);
      NoPrefix(bucketCounts);
      for i := 0 to |bounds|
        invariant Valid() && count == i
        invariant cumulativeCount == Prefix(bucketCounts, i) % TWO64
        invariant State() == EmitAll(m, s, ts, ls[..i], vs[..i])
      {
        PrefixStep(bucketCounts, i);
        if i < |bucketCounts| {
          cumulativeCount := (cumulativeCount + bucketCounts[i]) % TWO64;
        }
        EmitStep(m, s, ts, ls, vs, i);
        Emit(AppendLabel(baseLabels, name + BUCKET, LE, bounds[i]), ts, cumulativeCount as real, isDelta);
        count := count + 1;
      }
      PrefixStep(bucketCounts, |bounds|);
      if |bucketCounts| > |bounds| {
        cumulativeCount := (cumulativeCount + bucketCounts[|bounds|]) % TWO64;
      }
      EmitStep(m, s, ts, ls, vs, |bounds|);
      Emit(AppendLabel(baseLabels, name + BUCKET, LE, INF), ts, cumulativeCount as real, isDelta);
      count := count + 1;
      EmitStep(m, s, ts, ls, vs, |bounds| + 1);
      Emit(ReplaceMetricName(baseLabels, name + COUNT), ts, dp.count as real, isDelta);
      count := count + 1;
      if dp.sum.Some? {
        EmitStep(m, s, ts, ls, vs, |bounds| + 2);
        Emit(ReplaceMetricName(baseLabels, name + SUM), ts, dp.sum.value, isDelta);
        count := count + 1;
      }
      assert ls[..count] == ls && vs[..count] == vs;
      PointSeries(m, s, name, baseLabels, ts, dp);
    }

    method AppendExponentialHistogramDataPoint(name: Bytes, baseLabels: LabelSet, ts: Int64, dp: ExpPoint,
                                               isDelta: bool)
      returns (count: nat)
      requires Valid() && |dp.bounds| == |dp.positive|
      modifies this, acc
      ensures Valid() && count == |dp.bounds| + (if dp.sum.Some? then 3 else 2)
      ensures State() == EmitPoint(Mode(acc.hash, acc.clock, isDelta), old(State()), name, baseLabels, ts,
                                   AsExplicit(dp))
      ensures |app| >= |old(app)| && app[..|old(app)|] == old(app)
      ensures HasSeries(app[|old(app)|..], name, baseLabels, ts, dp.bounds, dp.sum.Some?)
      ensures !isDelta ==> HasValues(app[|old(app)|..], dp.zeroCount, dp.positive, |dp.bounds|, dp.count, dp.sum)
    {
      hide EmitOne, EmitAll, AppendLabel, ReplaceMetricName, Prefix, PointLabels, PointValues, Own, SinceGap,
           HasSeries, HasValues, Monotone, RunCalls, AsExplicit;
      ghost var m := Mode(acc.hash, acc.clock, isDelta);
      ghost var s := State();
      ghost var e := AsExplicit(dp);
      ghost var ls, vs := PointLabels(name, baseLabels, e), PointValues(e);
      var n := |dp.positive|;
      count := 0;
      ExpPrefix(dp, 0);
      NoPrefix(dp.positive);
      PointEntries(name, baseLabels, e);
      NothingEmitted(m, s, ts, ls[..0], vs[..0]);
      var cumulativeCount: Bits64 := dp.zeroCount;
      for i := 0 to n
        invariant Valid() && count == i
        invariant cumulativeCount == ExpRunning(dp, i)
        invariant State() == EmitAll(m, s, ts, ls[..i], vs[..i])
      {
        ExpPrefix(dp, i);
        cumulativeCount := (cumulativeCount + dp.positive[i]) % TWO64;
        EmitStep(m, s, ts, ls, vs, i);
        Emit(AppendLabel(baseLabels, name + BUCKET, LE, dp.bounds[i]), ts, cumulativeCount as real, isDelta);
        count := count + 1;
      }
      ExpPrefix(dp, n);
      EmitStep(m, s, ts, ls, vs, n);
      Emit(AppendLabel(baseLabels, name + BUCKET, LE, INF), ts, cumulativeCount as real, isDelta);
      count := count + 1;
      EmitStep(m, s, ts, ls, vs, n + 1);
      Emit(ReplaceMetricName(baseLabels, name + COUNT), ts, dp.count as real, isDelta);
      count := count + 1;
      if dp.sum.Some? {
        EmitStep(m, s, ts, ls, vs, n + 2);
        Emit(ReplaceMetricName(baseLabels, name + SUM), ts, dp.sum.value, isDelta);
        count := count + 1;
      }
      assert ls[..count] == ls && vs[..count] == vs;
      ExpPointSeries(m, s, name, baseLabels, ts, dp);
    }
  }

  // ----- exponential points -----

  /** The running count after `i` positive buckets. */
  function ExpRunning(dp: ExpPoint, i: nat): Bits64 {
    (dp.zeroCount + Prefix(dp.positive, i)) % TWO64
  }

  /** What the first positive bucket loses by wrapping. */
  function Lost(dp: ExpPoint): nat {
    if dp.positive != [] && dp.zeroCount + dp.positive[0] >= TWO64 then TWO64 else 0
  }

  lemma ExpShape(dp: ExpPoint)
    requires |dp.bounds| == |dp.positive|
    ensures var e := AsExplicit(dp);
            && e.bounds == dp.bounds && e.count == dp.count && e.sum == dp.sum && |e.counts| == |e.bounds| + 1
            && (dp.positive == [] ==> e.counts[0] == dp.zeroCount)
            && (dp.positive != []
                ==> e.counts[0] == dp.zeroCount + dp.positive[0] - Lost(dp) && e.counts[|dp.positive|] == 0)
            && forall i :: 0 < i < |dp.positive| ==> e.counts[i] == dp.positive[i]
  {
  }

  lemma {:induction false} ExpPrefixIs(dp: ExpPoint, i: nat)
    requires |dp.bounds| == |dp.positive| && i <= |dp.positive|
    ensures Prefix(AsExplicit(dp).counts, i + 1)
            == dp.zeroCount + Prefix(dp.positive, if i < |dp.positive| then i + 1 else i) - Lost(dp)
  {
    hide Prefix, Lost, AsExplicit;
    var counts := AsExplicit(dp).counts;
    ExpShape(dp);
    PrefixStep(counts, i);
    PrefixStep(dp.positive, i);
    if i > 0 {
      ExpPrefixIs(dp, i - 1);
    } else {
      NoPrefix(counts);
      NoPrefix(dp.positive);
      NothingLost(dp);
    }
  }

  lemma NothingLost(dp: ExpPoint)
    ensures dp.positive == [] ==> Lost(dp) == 0
  {
  }

  lemma WrapLost(x: int)
    ensures (x - TWO64) % TWO64 == x % TWO64
  {
  }

  lemma WrapSum(x: nat, y: nat)
    ensures (x % TWO64 + y) % TWO64 == (x + y) % TWO64
  {
  }

  lemma ExpPrefix(dp: ExpPoint, i: nat)
    requires |dp.bounds| == |dp.positive| && i <= |dp.positive|
    ensures var e := AsExplicit(dp);
            && e.bounds == dp.bounds && e.count == dp.count && e.sum == dp.sum && |e.counts| == |e.bounds| + 1
            && Prefix(e.counts, i + 1) % TWO64 == ExpRunning(dp, if i < |dp.positive| then i + 1 else i)
            && (i < |dp.positive| ==> ExpRunning(dp, i + 1) == (ExpRunning(dp, i) + dp.positive[i]) % TWO64)
  {
    hide Prefix, AsExplicit;
    ExpShape(dp);
    ExpPrefixIs(dp, i);
    var x := dp.zeroCount + Prefix(dp.positive, if i < |dp.positive| then i + 1 else i);
    WrapLost(x);
    if i < |dp.positive| {
      PrefixStep(dp.positive, i);
      WrapSum(dp.zeroCount + Prefix(dp.positive, i), dp.positive[i]);
    }
  }

  /** Without overflow the buckets are the running totals from the zero bucket on. When the point's count also counts
      its negative observations, as the data model has it, +Inf equals _count exactly when there are none. */
  lemma ExponentialBuckets(dp: ExpPoint)
    requires |dp.bounds| == |dp.positive| && dp.zeroCount + Prefix(dp.positive, |dp.positive|) < TWO64
    ensures var vs := PointValues(AsExplicit(dp));
            var n := |dp.bounds|;
            && (forall i :: 0 <= i < n ==> vs[i] == (dp.zeroCount + Prefix(dp.positive, i + 1)) as real)
            && vs[n] == (dp.zeroCount + Prefix(dp.positive, n)) as real
            && (forall i, j :: 0 <= i <= j <= |dp.bounds| ==> vs[i] <= vs[j])
            && (dp.count == dp.zeroCount + Prefix(dp.positive, n) + Prefix(dp.negative, |dp.negative|) ==>
                  (vs[n] == vs[n + 1] <==> Prefix(dp.negative, |dp.negative|) == 0))
  {
    hide Prefix, AsExplicit, Lost, PointValues;
    var e := AsExplicit(dp);
    ExpShape(dp);
    NoLoss(dp);
    ExpPrefixIs(dp, |dp.bounds|);
    BucketsAreRunningTotals(e);
    PointEntries([], map[], e);
    forall k | 1 <= k <= |dp.bounds| ensures Prefix(e.counts, k) == dp.zeroCount + Prefix(dp.positive, k) {
      ExpPrefixIs(dp, k - 1);
    }
  }

  lemma NoLoss(dp: ExpPoint)
    requires dp.zeroCount + Prefix(dp.positive, |dp.positive|) < TWO64
    ensures Lost(dp) == 0
  {
    hide Prefix;
    if dp.positive != [] {
      NoPrefix(dp.positive);
      PrefixStep(dp.positive, 0);
      PrefixMonotone(dp.positive, 1, |dp.positive|);
    }
  }

  /** What the label sets and values of a point are, one by one. */
  lemma PointEntries(name: Bytes, base: LabelSet, dp: Point)
    ensures var n := |dp.bounds|;
            var ls, vs := PointLabels(name, base, dp), PointValues(dp);
            && |ls| == |vs| == n + (if dp.sum.Some? then 3 else 2)
            && (forall i :: 0 <= i < n ==> ls[i] == AppendLabel(base, name + BUCKET, LE, dp.bounds[i]))
            && (forall i :: 0 <= i <= n ==> vs[i] == (Prefix(dp.counts, i + 1) % TWO64) as real)
            && ls[n] == AppendLabel(base, name + BUCKET, LE, INF)
            && ls[n + 1] == ReplaceMetricName(base, name + COUNT) && vs[n + 1] == dp.count as real
            && (dp.sum.Some? ==> ls[n + 2] == ReplaceMetricName(base, name + SUM) && vs[n + 2] == dp.sum.value)
  {
    hide AppendLabel, ReplaceMetricName, Prefix;
  }

  lemma NoPrefix(counts: seq<Bits64>)
    ensures Prefix(counts, 0) == 0
  {
  }

  lemma NothingEmitted(m: Mode, s: Sink, ts: Int64, ls: seq<LabelSet>, vs: seq<real>)
    requires ls == [] && vs == []
    ensures EmitAll(m, s, ts, ls, vs) == s
  {
  }

  lemma EmitStep(m: Mode, s: Sink, ts: Int64, ls: seq<LabelSet>, vs: seq<real>, i: nat)
    requires i < |ls| == |vs|
    ensures EmitAll(m, s, ts, ls[..i + 1], vs[..i + 1])
            == EmitOne(m, EmitAll(m, s, ts, ls[..i], vs[..i]), ts, ls[i], vs[i])
  {
    assert ls[..i + 1][..i] == ls[..i] && vs[..i + 1][..i] == vs[..i];
  }

  lemma PrefixStep(counts: seq<Bits64>, k: nat)
    ensures Prefix(counts, k + 1) == Prefix(counts, k) + (if k < |counts| then counts[k] else 0)
    ensures (Prefix(counts, k) % TWO64 + (if k < |counts| then counts[k] else 0)) % TWO64
            == Prefix(counts, k + 1) % TWO64
  {
  }

  // ----- cumulative points -----

  lemma {:induction false} PrefixMonotone(counts: seq<Bits64>, i: nat, j: nat)
    requires i <= j
    ensures Prefix(counts, i) <= Prefix(counts, j)
    decreases j
  {
    if i < j {
      PrefixMonotone(counts, i, j - 1);
    }
  }

  /** A point whose counts do not overflow, with one more count than bounds, becomes non-decreasing buckets that are the
      running totals of the counts; the +Inf bucket is their total, which is _count when the point's count is. */
  lemma BucketsAreRunningTotals(dp: Point)
    requires |dp.counts| == |dp.bounds| + 1 && Prefix(dp.counts, |dp.counts|) < TWO64
    ensures var vs := PointValues(dp);
            && (forall i :: 0 <= i <= |dp.bounds| ==> vs[i] == Prefix(dp.counts, i + 1) as real)
            && (forall i, j :: 0 <= i <= j <= |dp.bounds| ==> vs[i] <= vs[j])
            && (dp.count == Prefix(dp.counts, |dp.counts|) <==> vs[|dp.bounds| + 1] == vs[|dp.bounds|])
  {
    hide Prefix;
    var vs := PointValues(dp);
    forall i | 0 <= i <= |dp.bounds| ensures vs[i] == Prefix(dp.counts, i + 1) as real {
      PrefixMonotone(dp.counts, i + 1, |dp.counts|);
    }
    forall i, j | 0 <= i <= j <= |dp.bounds| ensures vs[i] <= vs[j] {
      PrefixMonotone(dp.counts, i + 1, j + 1);
    }
  }

  /** The series of one point are pairwise distinct when its bounds are. */
  lemma PointLabelsDistinct(name: Bytes, base: LabelSet, dp: Point)
    requires forall i, j :: 0 <= i < j < |dp.bounds| ==> dp.bounds[i] != dp.bounds[j]
    requires forall i :: 0 <= i < |dp.bounds| ==> dp.bounds[i] != INF && dp.bounds[i] != []
    ensures var ls := PointLabels(name, base, dp);
            forall i, j :: 0 <= i < j < |ls| ==> ls[i] != ls[j]
  {
    var ls := PointLabels(name, base, dp);
    var n := |dp.bounds|;
    Suffixes(name);
    assert LE != NAME;
    forall i | 0 <= i <= n ensures NAME in ls[i] && ls[i][NAME] == name + BUCKET
                                   && LE in ls[i] && ls[i][LE] == if i < n then dp.bounds[i] else INF {
    }
    assert NAME in ls[n + 1] && ls[n + 1][NAME] == name + COUNT;
    assert dp.sum.Some? ==> NAME in ls[n + 2] && ls[n + 2][NAME] == name + SUM;
  }

  lemma Suffixes(name: Bytes)
    ensures name + BUCKET != name + COUNT && name + BUCKET != name + SUM && name + COUNT != name + SUM
    ensures name + BUCKET != [] && name + COUNT != [] && name + SUM != []
  {
    assert (name + BUCKET)[|name| + 1] == 98;
    assert (name + COUNT)[|name| + 1] == 99;
    assert (name + SUM)[|name| + 1] == 115;
  }

  // ----- delta points -----

  /** The sum of a series' deltas, gaps or not. */
  function DeltaSum(own: seq<Call>): real {
    if own == [] then 0.0 else DeltaSum(own[..|own| - 1]) + own[|own| - 1].delta
  }

  ghost predicate NoGap(own: seq<Call>) {
    forall i :: 0 < i < |own| ==> own[i].sweep - own[i - 1].stamp <= DELTA_TTL
  }

  lemma {:induction false} SumWithoutGap(own: seq<Call>)
    requires NoGap(own)
    ensures SinceGap(own) == DeltaSum(own)
  {
    if own != [] {
      var k := |own| - 1;
      SumWithoutGap(own[..k]);
      if k == 0 {
        assert own[..0] == [];
      }
    }
  }

  /** Emitting a point adds to each of its series' histories exactly that series' delta, and the sample it appends for
      the series is the sum since the series' last gap. */
  lemma {:induction false} EmitAllPerSeries(m: Mode, s: Sink, ts: Int64, ls: seq<LabelSet>, vs: seq<real>, k: nat)
    requires m.isDelta && k < |ls| == |vs|
    requires forall i, j :: 0 <= i < j < |ls| ==> m.hash(ls[i]) != m.hash(ls[j])
    ensures var s' := EmitAll(m, s, ts, ls, vs);
            var fp := m.hash(ls[k]);
            && |s'.out| == |s.out| + |ls|
            && |Own(s'.calls, fp)| == |Own(s.calls, fp)| + 1
            && Own(s'.calls, fp)[..|Own(s.calls, fp)|] == Own(s.calls, fp)
            && Own(s'.calls, fp)[|Own(s.calls, fp)|].delta == vs[k]
            && s'.out[|s.out| + k] == OutSample(ls[k], ts, SinceGap(Own(s'.calls, fp)))
  {
    hide Own, SinceGap;
    var n := |ls| - 1;
    var t := EmitAll(m, s, ts, ls[..n], vs[..n]);
    var c := Call(m.hash(ls[n]), vs[n], m.clock(t.tick), m.clock(t.tick + 1));
    var fp := m.hash(ls[k]);
    OwnSnoc(t.calls, c, fp);
    EmitAllOthers(m, s, ts, ls[..n], vs[..n], fp);
    if k < n {
      EmitAllPerSeries(m, s, ts, ls[..n], vs[..n], k);
    }
  }

  lemma {:induction false} EmitAllOthers(m: Mode, s: Sink, ts: Int64, ls: seq<LabelSet>, vs: seq<real>, fp: nat)
    requires m.isDelta && |ls| == |vs|
    ensures |EmitAll(m, s, ts, ls, vs).out| == |s.out| + |ls|
    ensures (forall i :: 0 <= i < |ls| ==> m.hash(ls[i]) != fp)
            ==> Own(EmitAll(m, s, ts, ls, vs).calls, fp) == Own(s.calls, fp)
  {
    hide Own, SinceGap;
    if ls != [] {
      var n := |ls| - 1;
      var t := EmitAll(m, s, ts, ls[..n], vs[..n]);
      EmitAllOthers(m, s, ts, ls[..n], vs[..n], fp);
      OwnSnoc(t.calls, Call(m.hash(ls[n]), vs[n], m.clock(t.tick), m.clock(t.tick + 1)), fp);
    }
  }

  /** A point of one histogram with its timestamp. */
  datatype TimedPoint = TimedPoint(ts: Int64, dp: Point)

  /** What a translator is given: points of the histogram in question, and values of other series. */
  datatype Item = OfHistogram(point: TimedPoint) | OfOther(ts: Int64, lset: LabelSet, value: real)

  ghost function EmitRun(m: Mode, s: Sink, name: Bytes, base: LabelSet, items: seq<Item>): Sink {
    if items == [] then s
    else
      var k := |items| - 1;
      var t := EmitRun(m, s, name, base, items[..k]);
      match items[k]
      case OfHistogram(p) => EmitPoint(m, t, name, base, p.ts, p.dp)
      case OfOther(ts, l, v) => EmitOne(m, t, ts, l, v)
  }

  /** The histogram's points among the items. */
  ghost function PointsOf(items: seq<Item>): seq<TimedPoint> {
    if items == [] then []
    else
      PointsOf(items[..|items| - 1]) +
      match items[|items| - 1]
      case OfHistogram(p) => [p]
      case OfOther(_, _, _) => []
  }

  /** No other series has the hash of one of the histogram's, and the histogram has not been seen before. */
  ghost predicate Apart(m: Mode, s: Sink, items: seq<Item>, ls: seq<LabelSet>) {
    && (forall a, b :: 0 <= a < b < |ls| ==> m.hash(ls[a]) != m.hash(ls[b]))
    && (forall a :: 0 <= a < |ls| ==> Own(s.calls, m.hash(ls[a])) == [])
    && (forall e, a :: e in items && e.OfOther? && 0 <= a < |ls| ==> m.hash(e.lset) != m.hash(ls[a]))
  }

  function LabelsFor(name: Bytes, base: LabelSet, bounds: seq<Bytes>, hasSum: bool): seq<LabelSet> {
    PointLabels(name, base, Point(bounds, [], 0, if hasSum then Some(0.0) else None))
  }

  /** The sum over the points of their value for series `k`. */
  ghost function Column(dps: seq<TimedPoint>, k: nat): real
    requires forall d :: d in dps ==> k < |PointValues(d.dp)|
  {
    if dps == [] then 0.0 else Column(dps[..|dps| - 1], k) + PointValues(dps[|dps| - 1].dp)[k]
  }

  /** All points have the given bounds, one more count than bounds, and counts that do not overflow. */
  ghost predicate SameShape(dps: seq<TimedPoint>, bounds: seq<Bytes>, hasSum: bool) {
    forall d :: d in dps ==>
      d.dp.bounds == bounds && d.dp.sum.Some? == hasSum
      && |d.dp.counts| == |bounds| + 1 && Prefix(d.dp.counts, |d.dp.counts|) < TWO64
  }

  lemma LastPoint(items: seq<Item>)
    requires items != [] && items[|items| - 1].OfHistogram?
    ensures PointsOf(items) == PointsOf(items[..|items| - 1]) + [items[|items| - 1].point]
  {
  }

  lemma ApartBefore(m: Mode, s: Sink, items: seq<Item>, ls: seq<LabelSet>, k: nat)
    requires Apart(m, s, items, ls) && k <= |items|
    ensures Apart(m, s, items[..k], ls)
  {
    hide Own;
    assert forall e :: e in items[..k] ==> e in items;
  }

  lemma ColumnSnoc(dps: seq<TimedPoint>, d: TimedPoint, k: nat)
    requires (forall e :: e in dps ==> k < |PointValues(e.dp)|) && k < |PointValues(d.dp)|
    ensures (forall e :: e in dps + [d] ==> k < |PointValues(e.dp)|)
    ensures Column(dps + [d], k) == Column(dps, k) + PointValues(d.dp)[k]
  {
    hide PointValues;
    assert (dps + [d])[..|dps|] == dps;
  }

  lemma {:induction false} RunColumns(m: Mode, s: Sink, name: Bytes, base: LabelSet, bounds: seq<Bytes>, hasSum: bool,
                                      items: seq<Item>, k: nat)
    requires m.isDelta && SameShape(PointsOf(items), bounds, hasSum) && k <= |bounds|
    requires Apart(m, s, items, LabelsFor(name, base, bounds, hasSum))
    ensures var ls := LabelsFor(name, base, bounds, hasSum);
            k < |ls| && (forall d :: d in PointsOf(items) ==> k < |PointValues(d.dp)|)
            && DeltaSum(Own(EmitRun(m, s, name, base, items).calls, m.hash(ls[k]))) == Column(PointsOf(items), k)
  {
    hide Own, EmitAll, PointValues, PointLabels, SinceGap, PointsOf, Column, SameShape, Apart;
    var ls := LabelsFor(name, base, bounds, hasSum);
    LabelCount(name, base, Point(bounds, [], 0, if hasSum then Some(0.0) else None));
    if items == [] {
      NothingYet(m, s, ls, k);
    } else {
      var n := |items| - 1;
      ShapeBefore(items, bounds, hasSum);
      ApartBefore(m, s, items, ls, n);
      RunColumns(m, s, name, base, bounds, hasSum, items[..n], k);
      var t := EmitRun(m, s, name, base, items[..n]);
      match items[n] {
        case OfHistogram(d) =>
          LastPoint(items);
          HasShape(PointsOf(items), bounds, hasSum, d);
          SameLabels(name, base, d.dp, bounds, hasSum);
          ValuesPerLabel(name, base, d.dp);
          HashesApart(m, s, items, ls);
          EmitAllPerSeries(m, t, d.ts, ls, PointValues(d.dp), k);
          LastDelta(Own(EmitPoint(m, t, name, base, d.ts, d.dp).calls, m.hash(ls[k])));
          ColumnSnoc(PointsOf(items[..n]), d, k);
        case OfOther(ts, l, v) =>
          OtherIsNoPoint(items);
          OtherHash(m, s, items, ls, k);
          OwnSnoc(t.calls, Call(m.hash(l), v, m.clock(t.tick), m.clock(t.tick + 1)), m.hash(ls[k]));
      }
    }
  }

  lemma LastDelta(own: seq<Call>)
    ensures own != [] ==> DeltaSum(own) == DeltaSum(own[..|own| - 1]) + own[|own| - 1].delta
  {
  }

  lemma NothingYet(m: Mode, s: Sink, ls: seq<LabelSet>, k: nat)
    requires k < |ls| && Apart(m, s, [], ls)
    ensures PointsOf([]) == [] && Column([], k) == 0.0 && DeltaSum(Own(s.calls, m.hash(ls[k]))) == 0.0
  {
    hide Own;
  }

  lemma OtherIsNoPoint(items: seq<Item>)
    requires items != [] && items[|items| - 1].OfOther?
    ensures PointsOf(items) == PointsOf(items[..|items| - 1])
  {
  }

  lemma OtherHash(m: Mode, s: Sink, items: seq<Item>, ls: seq<LabelSet>, k: nat)
    requires Apart(m, s, items, ls) && items != [] && items[|items| - 1].OfOther? && k < |ls|
    ensures m.hash(items[|items| - 1].lset) != m.hash(ls[k])
  {
    hide Own;
    assert items[|items| - 1] in items;
  }

  lemma HashesApart(m: Mode, s: Sink, items: seq<Item>, ls: seq<LabelSet>)
    requires Apart(m, s, items, ls)
    ensures forall a, b :: 0 <= a < b < |ls| ==> m.hash(ls[a]) != m.hash(ls[b])
  {
  }

  lemma ShapeBefore(items: seq<Item>, bounds: seq<Bytes>, hasSum: bool)
    requires items != [] && SameShape(PointsOf(items), bounds, hasSum)
    ensures SameShape(PointsOf(items[..|items| - 1]), bounds, hasSum)
  {
    hide Prefix;
    var before := PointsOf(items[..|items| - 1]);
    assert forall d :: d in before ==> d in PointsOf(items);
  }

  lemma HasShape(dps: seq<TimedPoint>, bounds: seq<Bytes>, hasSum: bool, d: TimedPoint)
    requires SameShape(dps, bounds, hasSum) && d in dps
    ensures d.dp.bounds == bounds && d.dp.sum.Some? == hasSum
            && |PointValues(d.dp)| == |bounds| + (if hasSum then 3 else 2)
  {
    hide Prefix;
  }

  lemma SameLabels(name: Bytes, base: LabelSet, dp: Point, bounds: seq<Bytes>, hasSum: bool)
    requires dp.bounds == bounds && dp.sum.Some? == hasSum
    ensures PointLabels(name, base, dp) == LabelsFor(name, base, bounds, hasSum)
  {
  }

  lemma ValuesPerLabel(name: Bytes, base: LabelSet, dp: Point)
    ensures |PointLabels(name, base, dp)| == |PointValues(dp)|
  {
  }

  lemma {:induction false} ColumnsMonotone(dps: seq<TimedPoint>, bounds: seq<Bytes>, hasSum: bool, i: nat, j: nat)
    requires SameShape(dps, bounds, hasSum) && i <= j <= |bounds|
    ensures Column(dps, i) <= Column(dps, j)
  {
    if dps != [] {
      var n := |dps| - 1;
      assert forall d :: d in dps[..n] ==> d in dps;
      ColumnsMonotone(dps[..n], bounds, hasSum, i, j);
      assert dps[n] in dps;
      BucketsAreRunningTotals(dps[n].dp);
    }
  }

  /** Delta points of one histogram with fixed distinct bounds, among any values of other series and from any state of
      the accumulator in which the histogram is new, without hash collision and without a gap longer than the TTL: after
      every point each emitted bucket is the sum of its column, and the buckets do not decrease in le. */
  lemma {:induction false} DeltaHistogramStaysCumulative(m: Mode, s: Sink, name: Bytes, base: LabelSet,
                                                         bounds: seq<Bytes>,
                                                         hasSum: bool, items: seq<Item>, i: nat, j: nat)
    requires m.isDelta && SameShape(PointsOf(items), bounds, hasSum) && i <= j <= |bounds|
    requires items != [] && items[|items| - 1].OfHistogram?
    requires var ls := LabelsFor(name, base, bounds, hasSum);
             && Apart(m, s, items, ls)
             && forall a :: 0 <= a < |ls| ==> NoGap(Own(EmitRun(m, s, name, base, items).calls, m.hash(ls[a])))
    ensures var out := EmitRun(m, s, name, base, items).out;
            var first := |EmitRun(m, s, name, base, items[..|items| - 1]).out|;
            && first + j < |out|
            && (forall d :: d in PointsOf(items) ==> j < |PointValues(d.dp)|)
            && out[first + i].value == Column(PointsOf(items), i) && out[first + j].value == Column(PointsOf(items), j)
            && out[first + i].value <= out[first + j].value
  {
    hide Own, EmitAll, PointValues, PointLabels, NoGap, SinceGap, PointsOf, Column, SameShape, Apart;
    var n := |items| - 1;
    var d := items[n].point;
    var ls := LabelsFor(name, base, bounds, hasSum);
    var t := EmitRun(m, s, name, base, items[..n]);
    LastPoint(items);
    HasShape(PointsOf(items), bounds, hasSum, d);
    SameLabels(name, base, d.dp, bounds, hasSum);
    ValuesPerLabel(name, base, d.dp);
    LabelCount(name, base, d.dp);
    HashesApart(m, s, items, ls);
    EmitAllPerSeries(m, t, d.ts, ls, PointValues(d.dp), i);
    EmitAllPerSeries(m, t, d.ts, ls, PointValues(d.dp), j);
    RunColumns(m, s, name, base, bounds, hasSum, items, i);
    RunColumns(m, s, name, base, bounds, hasSum, items, j);
    SumWithoutGap(Own(EmitRun(m, s, name, base, items).calls, m.hash(ls[i])));
    SumWithoutGap(Own(EmitRun(m, s, name, base, items).calls, m.hash(ls[j])));
    ColumnsMonotone(PointsOf(items), bounds, hasSum, i, j);
  }

  lemma LabelCount(name: Bytes, base: LabelSet, dp: Point)
    ensures |PointLabels(name, base, dp)| > |dp.bounds| + 1
  {
  }
}
