/** Merging blocks: grouping by label hash, sorting each series by time, dropping repeated times. */
module Compaction {
  import opened Types
  import opened Heads
  import opened Blocks
  import opened Sorting

  // ----- dedup -----

  ghost predicate StrictlyIncreasing(samples: seq<Sample>) {
    forall i, j :: 0 <= i < j < |samples| ==> samples[i].t < samples[j].t
  }

  /** The first sample of each run of equal times. */
  function Deduped(samples: seq<Sample>): (d: seq<Sample>)
    ensures samples != [] ==> d != []
    ensures |d| <= |samples|
  {
    if |samples| <= 1 then samples
    else
      var k := |samples| - 1;
      var d := Deduped(samples[..k]);
      if samples[k].t != d[|d| - 1].t then d + [samples[k]] else d
  }

  /** Compacts the slice in place; the result is its first `n` elements. */
  method Dedup(samples: array<Sample>) returns (n: nat)
    modifies samples
    ensures n <= samples.Length
    ensures samples[..n] == Deduped(old(samples[..]))
  {
    if samples.Length <= 1 {
      assert samples[..samples.Length] == samples[..];
      return samples.Length;
    }
    ghost var was := samples[..];
    n := 1;
    assert samples[..1] == was[..1];
    for i := 1 to samples.Length
      invariant 1 <= n <= i
      invariant samples[..n] == Deduped(was[..i])
      invariant samples[i..] == was[i..]
    {
      assert samples[i] == samples[i..][0] == was[i];
      assert was[..i + 1][..i] == was[..i];
      assert samples[n - 1] == samples[..n][n - 1];
      if samples[i].t != samples[n - 1].t {
        samples[n] := samples[i];
        n := n + 1;
        assert samples[..n] == samples[..n - 1] + [was[i]];
      }
      assert samples[i + 1..] == was[i + 1..];
    }
    assert was[..samples.Length] == was;
  }

  ghost predicate HasTime(samples: seq<Sample>, t: Int64) {
    exists s :: s in samples && s.t == t
  }

  lemma {:induction false} DedupIncreasing(samples: seq<Sample>)
    requires TimeSorted(samples)
    ensures StrictlyIncreasing(Deduped(samples))
    ensures samples != [] ==> Deduped(samples)[|Deduped(samples)| - 1].t == samples[|samples| - 1].t
  {
    if |samples| > 1 {
      DedupIncreasing(samples[..|samples| - 1]);
    }
  }

  lemma {:induction false} DedupMembers(samples: seq<Sample>)
    ensures forall s :: s in Deduped(samples) ==> s in samples
  {
    if |samples| > 1 {
      DedupMembers(samples[..|samples| - 1]);
    }
  }

  /** There is no equal time just before it. */
  predicate StartsRun(samples: seq<Sample>, k: nat)
    requires k < |samples|
  {
    k == 0 || samples[k - 1].t != samples[k].t
  }

  /** The positions of the first sample of each run of equal times, in order. */
  ghost predicate AreFirsts(samples: seq<Sample>, from: seq<nat>) {
    && (forall i, j :: 0 <= i < j < |from| ==> from[i] < from[j])
    && (forall k: nat :: k in from <==> k < |samples| && StartsRun(samples, k))
  }

  lemma FirstsSnoc(samples: seq<Sample>, s: Sample, from: seq<nat>)
    requires AreFirsts(samples, from)
    ensures AreFirsts(samples + [s], if StartsRun(samples + [s], |samples|) then from + [|samples|] else from)
  {
    var all := samples + [s];
    forall k: nat | k < |samples| ensures StartsRun(all, k) <==> StartsRun(samples, k) {
    }
    forall i | 0 <= i < |from| ensures from[i] < |samples| {
      assert from[i] in from;
    }
  }

  ghost predicate KeptFrom(samples: seq<Sample>, d: seq<Sample>, from: seq<nat>) {
    |from| == |d| && forall i :: 0 <= i < |from| ==> from[i] < |samples| && d[i] == samples[from[i]]
  }

  /** The samples at these positions are what is kept. */
  lemma {:induction false} DedupKeepsFirsts(samples: seq<Sample>) returns (from: seq<nat>)
    ensures AreFirsts(samples, from) && KeptFrom(samples, Deduped(samples), from)
    ensures samples != [] ==> Deduped(samples)[|from| - 1].t == samples[|samples| - 1].t
  {
    if samples == [] {
      from := [];
    } else {
      hide AreFirsts, StartsRun, Deduped, KeptFrom;
      var k := |samples| - 1;
      var init, s := samples[..k], samples[k];
      assert samples == init + [s];
      var before := DedupKeepsFirsts(init);
      FirstsSnoc(init, s, before);
      from := if StartsRun(samples, k) then before + [k] else before;
      DedupSnoc(init, s);
      KeptSnoc(init, s, Deduped(init), before);
    }
  }

  lemma KeptSnoc(samples: seq<Sample>, s: Sample, d: seq<Sample>, from: seq<nat>)
    requires KeptFrom(samples, d, from)
    ensures |from| == |d|
    ensures KeptFrom(samples + [s], d, from) && KeptFrom(samples + [s], d + [s], from + [|samples|])
  {
  }

  lemma DedupSnoc(samples: seq<Sample>, s: Sample)
    ensures samples == [] ==> Deduped(samples + [s]) == [s] && StartsRun(samples + [s], 0)
    ensures samples != [] ==>
              var d := Deduped(samples);
              d != [] && Deduped(samples + [s]) == (if s.t != d[|d| - 1].t then d + [s] else d)
              && (StartsRun(samples + [s], |samples|) <==> samples[|samples| - 1].t != s.t)
  {
    assert (samples + [s])[..|samples|] == samples;
  }

  lemma {:induction false} DedupTimes(samples: seq<Sample>, t: Int64)
    ensures HasTime(Deduped(samples), t) <==> HasTime(samples, t)
  {
    if |samples| > 1 {
      var k := |samples| - 1;
      DedupTimes(samples[..k], t);
      var d := Deduped(samples[..k]);
      TimeOfConcat(samples[..k], samples[k], t);
      assert samples == samples[..k] + [samples[k]];
      if samples[k].t != d[|d| - 1].t {
        TimeOfConcat(d, samples[k], t);
      } else {
        assert d[|d| - 1] in d;
      }
    }
  }

  lemma TimeOfConcat(samples: seq<Sample>, s: Sample, t: Int64)
    ensures HasTime(samples + [s], t) <==> HasTime(samples, t) || s.t == t
  {
    if HasTime(samples, t) {
      var x :| x in samples && x.t == t;
      assert x in samples + [s];
    }
    if s.t == t {
      assert (samples + [s])[|samples|] == s;
    }
  }

  // ----- sorting and thinning one series -----

  predicate Earlier(a: Sample, b: Sample) {
    a.t < b.t
  }

  method Thin(samples: seq<Sample>) returns (out: seq<Sample>)
    ensures StrictlyIncreasing(out)
    ensures forall s :: s in out ==> s in samples
    ensures forall s :: s in samples ==> HasTime(out, s.t)
  {
    var sorted := Sort(samples, Earlier);
    var a := new Sample[|sorted|](i requires 0 <= i < |sorted| => sorted[i]);
    assert a[..] == sorted;
    var n := Dedup(a);
    out := a[..n];
    assert TimeSorted(sorted);
    SameElements(samples, sorted);
    DedupIncreasing(sorted);
    DedupMembers(sorted);
    forall s | s in samples ensures HasTime(out, s.t) {
      assert s in sorted;
      DedupTimes(sorted, s.t);
    }
  }

  // ----- grouping by hash -----

  type Groups = map<nat, Series>

  /** A series joins the group of its hash, unless that group has another label set: then it is dropped. */
  function Absorb(hash: Labels -> nat, m: Groups, s: Series): Groups {
    var fp := hash(s.lset);
    if fp !in m then m[fp := s]
    else if m[fp].lset == s.lset then m[fp := Series(s.lset, m[fp].samples + s.samples)]
    else m
  }

  function AbsorbAll(hash: Labels -> nat, ss: seq<Series>): Groups {
    if ss == [] then map[] else Absorb(hash, AbsorbAll(hash, ss[..|ss| - 1]), ss[|ss| - 1])
  }

  function AllSeriesOf(blocks: seq<Block>): seq<Series> {
    if blocks == [] then [] else AllSeriesOf(blocks[..|blocks| - 1]) + blocks[|blocks| - 1].series
  }

  /** One group for each hash that occurs, holding every sample of the label set it was opened with. */
  ghost predicate Grouped(hash: Labels -> nat, ss: seq<Series>, m: Groups) {
    && (forall fp :: fp in m ==> hash(m[fp].lset) == fp)
    && (forall s :: s in ss ==> hash(s.lset) in m)
    && (forall fp :: fp in m ==> exists s :: s in ss && s.lset == m[fp].lset)
    && (forall fp, x :: fp in m ==> (x in m[fp].samples <==> InSeries(PointOf(m[fp].lset, x), ss)))
  }

  lemma InSeriesSnoc(p: Record, ss: seq<Series>, s: Series)
    ensures InSeries(p, ss + [s]) <==> InSeries(p, ss) || (s.lset == p.labels && Sample(p.t, p.v) in s.samples)
  {
    if InSeries(p, ss) {
      var y :| y in ss && y.lset == p.labels && Sample(p.t, p.v) in y.samples;
      assert y in ss + [s];
    }
    assert (ss + [s])[|ss|] == s;
  }

  lemma AbsorbKeepsGroups(hash: Labels -> nat, ss: seq<Series>, m: Groups, s: Series)
    requires Grouped(hash, ss, m)
    ensures Grouped(hash, ss + [s], Absorb(hash, m, s))
  {
    hide InSeries;
    var m' := Absorb(hash, m, s);
    forall fp, x | fp in m' ensures x in m'[fp].samples <==> InSeries(PointOf(m'[fp].lset, x), ss + [s]) {
      InSeriesSnoc(PointOf(m'[fp].lset, x), ss, s);
      if fp !in m {
        NoSuchSeries(hash, ss, m, PointOf(s.lset, x));
      }
    }
    forall fp | fp in m' ensures exists y :: y in ss + [s] && y.lset == m'[fp].lset {
      if fp in m {
        var y :| y in ss && y.lset == m[fp].lset;
        assert y in ss + [s];
      } else {
        assert (ss + [s])[|ss|] == s;
      }
    }
  }

  lemma NoSuchSeries(hash: Labels -> nat, ss: seq<Series>, m: Groups, p: Record)
    requires forall s :: s in ss ==> hash(s.lset) in m
    requires hash(p.labels) !in m
    ensures !InSeries(p, ss)
  {
  }

  lemma {:induction false} AbsorbAllGroups(hash: Labels -> nat, ss: seq<Series>)
    ensures Grouped(hash, ss, AbsorbAll(hash, ss))
  {
    hide Grouped, Absorb;
    if ss == [] {
      GroupedEmpty(hash);
    } else {
      var k := |ss| - 1;
      AbsorbAllGroups(hash, ss[..k]);
      AbsorbKeepsGroups(hash, ss[..k], AbsorbAll(hash, ss[..k]), ss[k]);
      assert ss == ss[..k] + [ss[k]];
    }
  }

  lemma GroupedEmpty(hash: Labels -> nat)
    ensures Grouped(hash, [], map[])
  {
  }

  // ----- the merge -----

  /** What a merged block is to the blocks it was made from, whatever the hash. */
  ghost predicate IsMerge(hash: Labels -> nat, series: seq<Series>, all: seq<Series>) {
    && (forall i, j :: 0 <= i < j < |series| ==> hash(series[i].lset) != hash(series[j].lset))
    && (forall s :: s in series ==> MergedFrom(s, all))
    && (forall s :: s in all ==> HasHash(hash, series, hash(s.lset)))
  }

  ghost predicate HasHash(hash: Labels -> nat, series: seq<Series>, fp: nat) {
    exists s :: s in series && hash(s.lset) == fp
  }

  ghost predicate HasLabels(series: seq<Series>, l: Labels) {
    exists s :: s in series && s.lset == l
  }

  /** One merged series: strictly increasing, every sample from an input, every input time present. */
  ghost predicate MergedFrom(s: Series, all: seq<Series>) {
    && HasLabels(all, s.lset)
    && StrictlyIncreasing(s.samples)
    && (forall x :: x in s.samples ==> InSeries(PointOf(s.lset, x), all))
    && (forall p :: InSeries(p, all) && p.labels == s.lset ==> HasTime(s.samples, p.t))
  }

  /** No two label sets that occur have the same hash. */
  ghost predicate NoCollision(hash: Labels -> nat, all: seq<Series>) {
    forall s, t :: s in all && t in all && hash(s.lset) == hash(t.lset) ==> s.lset == t.lset
  }

  function SampleCount(series: seq<Series>): nat {
    if series == [] then 0 else SampleCount(series[..|series| - 1]) + |series[|series| - 1].samples|
  }

  /** Samples are counted one by one over all series. */
  lemma {:induction false} SampleCounts(a: seq<Series>, b: seq<Series>)
    ensures SampleCount(a + b) == SampleCount(a) + SampleCount(b)
    ensures |b| == 1 ==> SampleCount(b) == |b[0].samples|
  {
    if b == [] {
      assert a + b == a;
    } else {
      var k := |b| - 1;
      SampleCounts(a, b[..k]);
      assert (a + b)[..|a + b| - 1] == a + b[..k];
      if |b| == 1 {
        assert b[..0] == [];
      }
    }
  }

  /** The merged metadata is the least minimum and the greatest maximum. */
  ghost predicate MergedBounds(meta: BlockMeta, blocks: seq<Block>) {
    && (forall b :: b in blocks ==> meta.minTime <= b.meta.minTime && b.meta.maxTime <= meta.maxTime)
    && (exists b :: b in blocks && b.meta.minTime == meta.minTime)
    && (exists b :: b in blocks && b.meta.maxTime == meta.maxTime)
  }

  method GroupSeries(hash: Labels -> nat, blocks: seq<Block>) returns (seriesMap: Groups, mint: Int64, maxt: Int64)
    requires blocks != []
    ensures seriesMap == AbsorbAll(hash, AllSeriesOf(blocks))
    ensures MergedBounds(BlockMeta(mint, maxt, 0), blocks)
  {
    hide MergedBounds, AbsorbAll;
    seriesMap := map[];
    mint, maxt := 0, 0;
    var first := true;
    AbsorbNone(hash, blocks[..0]);
    for i := 0 to |blocks|
      invariant first <==> i == 0
      invariant i > 0 ==> MergedBounds(BlockMeta(mint, maxt, 0), blocks[..i])
      invariant seriesMap == AbsorbAll(hash, AllSeriesOf(blocks[..i]))
    {
      var b := blocks[i];
      assert blocks[..i + 1] == blocks[..i] + [b];
      BoundsSnoc(blocks[..i], b, mint, maxt);
      if first || b.meta.minTime < mint {
        mint := b.meta.minTime;
      }
      if first || b.meta.maxTime > maxt {
        maxt := b.meta.maxTime;
      }
      first := false;
      seriesMap := GroupBlock(hash, AllSeriesOf(blocks[..i]), seriesMap, b);
    }
    assert blocks[..|blocks|] == blocks;
  }

  lemma AbsorbNone(hash: Labels -> nat, blocks: seq<Block>)
    requires blocks == []
    ensures AbsorbAll(hash, AllSeriesOf(blocks)) == map[]
  {
  }

  lemma BoundsSnoc(blocks: seq<Block>, b: Block, mint: Int64, maxt: Int64)
    requires blocks != [] ==> MergedBounds(BlockMeta(mint, maxt, 0), blocks)
    ensures var mint' := if blocks == [] || b.meta.minTime < mint then b.meta.minTime else mint;
            var maxt' := if blocks == [] || b.meta.maxTime > maxt then b.meta.maxTime else maxt;
            MergedBounds(BlockMeta(mint', maxt', 0), blocks + [b])
  {
    var mint' := if blocks == [] || b.meta.minTime < mint then b.meta.minTime else mint;
    var maxt' := if blocks == [] || b.meta.maxTime > maxt then b.meta.maxTime else maxt;
    assert (blocks + [b])[|blocks|] == b;
    if blocks != [] {
      var x :| x in blocks && x.meta.minTime == mint;
      var y :| y in blocks && y.meta.maxTime == maxt;
      assert x in blocks + [b] && y in blocks + [b];
    }
  }

  /** The inner loop over the series of one block. */
  method GroupBlock(hash: Labels -> nat, ghost before: seq<Series>, m: Groups, b: Block) returns (seriesMap: Groups)
    requires m == AbsorbAll(hash, before)
    ensures seriesMap == AbsorbAll(hash, before + b.series)
  {
    seriesMap := m;
    assert before + b.series[..0] == before;
    for j := 0 to |b.series|
      invariant seriesMap == AbsorbAll(hash, before + b.series[..j])
    {
      var bs := b.series[j];
      assert before + b.series[..j + 1] == before + b.series[..j] + [bs];
      assert (before + b.series[..j] + [bs])[..|before| + j] == before + b.series[..j];
      var fp := hash(bs.lset);
      if fp in seriesMap && seriesMap[fp].lset == bs.lset {
        seriesMap := seriesMap[fp := Series(bs.lset, seriesMap[fp].samples + bs.samples)];
      } else if fp !in seriesMap {
        seriesMap := seriesMap[fp := bs];
      }
    }
    assert b.series[..|b.series|] == b.series;
  }

  method MergeGroups(hash: Labels -> nat, seriesMap: Groups, ghost all: seq<Series>) returns (merged: seq<Series>)
    requires Grouped(hash, all, seriesMap)
    ensures IsMerge(hash, merged, all)
  {
    hide MergedFrom, Grouped, HasHash;
    merged := [];
    var keys := seriesMap.Keys;
    while keys != {}
      invariant keys <= seriesMap.Keys
      invariant forall s :: s in merged ==> hash(s.lset) in seriesMap.Keys - keys && MergedFrom(s, all)
      invariant forall fp :: fp in seriesMap && fp !in keys ==> HasHash(hash, merged, fp)
      invariant forall i, j :: 0 <= i < j < |merged| ==> hash(merged[i].lset) != hash(merged[j].lset)
      decreases |keys|
    {
      var fp :| fp in keys;
      keys := keys - {fp};
      var bs := seriesMap[fp];
      var samples := Thin(bs.samples);
      var s := Series(bs.lset, samples);
      ThinnedGroup(hash, seriesMap, all, fp, s);
      HashSnoc(hash, merged, s);
      merged := merged + [s];
    }
    HashesCovered(hash, seriesMap, all);
  }

  lemma HashesCovered(hash: Labels -> nat, m: Groups, all: seq<Series>)
    requires Grouped(hash, all, m)
    ensures forall s :: s in all ==> hash(s.lset) in m
  {
  }

  lemma HashSnoc(hash: Labels -> nat, merged: seq<Series>, s: Series)
    ensures forall fp :: HasHash(hash, merged, fp) || fp == hash(s.lset) ==> HasHash(hash, merged + [s], fp)
  {
    forall fp | HasHash(hash, merged, fp) || fp == hash(s.lset) ensures HasHash(hash, merged + [s], fp) {
      if fp == hash(s.lset) {
        assert (merged + [s])[|merged|] == s;
      } else {
        var y :| y in merged && hash(y.lset) == fp;
        assert y in merged + [s];
      }
    }
  }

  lemma ThinnedGroup(hash: Labels -> nat, m: Groups, all: seq<Series>, fp: nat, s: Series)
    requires Grouped(hash, all, m) && fp in m && s.lset == m[fp].lset
    requires StrictlyIncreasing(s.samples)
    requires forall x :: x in s.samples ==> x in m[fp].samples
    requires forall x :: x in m[fp].samples ==> HasTime(s.samples, x.t)
    ensures MergedFrom(s, all) && hash(s.lset) == fp
  {
    hide InSeries;
    forall p | InSeries(p, all) && p.labels == s.lset ensures HasTime(s.samples, p.t) {
      var x := Sample(p.t, p.v);
      assert p == PointOf(m[fp].lset, x);
    }
  }

  method CompactBlocks(hash: Labels -> nat, targetDir: DirName, blocks: seq<Block>) returns (b: Block)
    requires blocks != []
    ensures b.dir == targetDir
    ensures IsMerge(hash, b.series, AllSeriesOf(blocks))
    ensures MergedBounds(b.meta, blocks) && b.meta.samples == SampleCount(b.series)
  {
    hide IsMerge, Grouped;
    var seriesMap, mint, maxt := GroupSeries(hash, blocks);
    AbsorbAllGroups(hash, AllSeriesOf(blocks));
    var merged := MergeGroups(hash, seriesMap, AllSeriesOf(blocks));
    b := Block(targetDir, BlockMeta(mint, maxt, SampleCount(merged)), merged);
  }
}
