/** What compaction preserves, and exactly when. */
module CompactionLaws {
  import opened Types
  import opened Heads
  import opened Blocks
  import opened Compaction

  lemma {:induction false} AllSeriesPoints(blocks: seq<Block>, p: Record)
    ensures p in SeriesPoints(AllSeriesOf(blocks)) <==> exists b :: b in blocks && p in SeriesPoints(b.series)
  {
    hide SeriesPoints;
    if blocks == [] {
      PointInSeries([], p);
    } else {
      var k := |blocks| - 1;
      AllSeriesPoints(blocks[..k], p);
      AddedPoints(AllSeriesOf(blocks[..k]), blocks[k].series, p);
      assert blocks == blocks[..k] + [blocks[k]];
    }
  }

  lemma PointsOfBlocks(blocks: seq<Block>)
    ensures SeriesPoints(AllSeriesOf(blocks)) == BlocksPoints(blocks)
  {
    forall p ensures p in SeriesPoints(AllSeriesOf(blocks)) <==> p in BlocksPoints(blocks) {
      AllSeriesPoints(blocks, p);
    }
  }

  /** Every merged sample comes from an input. */
  lemma MergeInventsNothing(hash: Labels -> nat, series: seq<Series>, all: seq<Series>)
    requires IsMerge(hash, series, all)
    ensures SeriesPoints(series) <= SeriesPoints(all)
  {
    forall p | p in SeriesPoints(series) ensures p in SeriesPoints(all) {
      var s, x :| s in series && x in s.samples && p == PointOf(s.lset, x);
      assert MergedFrom(s, all);
      PointInSeries(all, p);
    }
  }

  lemma MergedUnderItsHash(hash: Labels -> nat, series: seq<Series>, all: seq<Series>, s: Series)
    requires IsMerge(hash, series, all) && s in all
    ensures exists m :: m in series && hash(m.lset) == hash(s.lset) && HasLabels(all, m.lset)
  {
    assert HasHash(hash, series, hash(s.lset));
    var m :| m in series && hash(m.lset) == hash(s.lset);
    assert MergedFrom(m, all);
  }

  lemma OneSeriesPerHash(hash: Labels -> nat, series: seq<Series>, all: seq<Series>, l: Labels, m: Labels)
    requires IsMerge(hash, series, all) && HasLabels(series, l) && HasLabels(series, m) && hash(l) == hash(m)
    ensures l == m
  {
    var s :| s in series && s.lset == l;
    var t :| t in series && t.lset == m;
    var i :| 0 <= i < |series| && series[i] == s;
    var j :| 0 <= j < |series| && series[j] == t;
    assert i == j;
  }

  /** A label set is in the merge exactly of those inputs whose hashes tell them apart. */
  lemma MergeKeepsLabelsIffNoCollision(hash: Labels -> nat, series: seq<Series>, all: seq<Series>)
    requires IsMerge(hash, series, all)
    ensures (forall s :: s in all ==> HasLabels(series, s.lset)) <==> NoCollision(hash, all)
  {
    hide IsMerge;
    if NoCollision(hash, all) {
      forall s | s in all ensures HasLabels(series, s.lset) {
        MergedUnderItsHash(hash, series, all, s);
        var m :| m in series && hash(m.lset) == hash(s.lset) && HasLabels(all, m.lset);
        var t :| t in all && t.lset == m.lset;
      }
    }
    if forall s :: s in all ==> HasLabels(series, s.lset) {
      forall s, t | s in all && t in all && hash(s.lset) == hash(t.lset) ensures s.lset == t.lset {
        OneSeriesPerHash(hash, series, all, s.lset, t.lset);
      }
    }
  }

  /** Without a collision every label set and time of the inputs is in the merge. */
  lemma MergeKeepsKeys(hash: Labels -> nat, series: seq<Series>, all: seq<Series>)
    requires IsMerge(hash, series, all) && NoCollision(hash, all)
    ensures forall p :: p in SeriesPoints(all) ==> HasKey(SeriesPoints(series), p)
  {
    hide IsMerge, NoCollision, SeriesPoints;
    MergeKeepsLabelsIffNoCollision(hash, series, all);
    forall p | p in SeriesPoints(all) ensures HasKey(SeriesPoints(series), p) {
      PointInSeries(all, p);
      var s :| s in all && s.lset == p.labels;
      assert HasLabels(series, s.lset);
      var m :| m in series && m.lset == p.labels;
      MemberIsMerged(hash, series, all, m);
      var x :| x in m.samples && x.t == p.t;
      PointInSeries(series, PointOf(m.lset, x));
    }
  }

  lemma MemberIsMerged(hash: Labels -> nat, series: seq<Series>, all: seq<Series>, m: Series)
    requires IsMerge(hash, series, all) && m in series
    ensures forall p :: InSeries(p, all) && p.labels == m.lset ==> HasTime(m.samples, p.t)
  {
    assert MergedFrom(m, all);
  }

  /** If moreover each label set has one value per time, the merge holds exactly the points of its inputs. */
  lemma MergeIsExact(hash: Labels -> nat, series: seq<Series>, all: seq<Series>)
    requires IsMerge(hash, series, all) && NoCollision(hash, all) && SingleValued(SeriesPoints(all))
    ensures SeriesPoints(series) == SeriesPoints(all)
  {
    hide IsMerge, NoCollision, SeriesPoints;
    MergeInventsNothing(hash, series, all);
    MergeKeepsKeys(hash, series, all);
    KeysAndValues(SeriesPoints(series), SeriesPoints(all));
  }

  /** A merge has one value per label set and time. */
  lemma MergeIsSingleValued(hash: Labels -> nat, series: seq<Series>, all: seq<Series>)
    requires IsMerge(hash, series, all)
    ensures SingleValued(SeriesPoints(series))
  {
    hide IsMerge, StrictlyIncreasing;
    forall p, q | p in SeriesPoints(series) && q in SeriesPoints(series) && p.labels == q.labels && p.t == q.t
        ensures p == q {
      var s, x :| s in series && x in s.samples && p == PointOf(s.lset, x);
      var t, y :| t in series && y in t.samples && q == PointOf(t.lset, y);
      SameLabelsSameSeries(hash, series, all, s, t);
      OneSampleAtATime(s.samples, x, y);
    }
  }

  lemma SameLabelsSameSeries(hash: Labels -> nat, series: seq<Series>, all: seq<Series>, s: Series, t: Series)
    requires IsMerge(hash, series, all) && s in series && t in series && s.lset == t.lset
    ensures s == t && StrictlyIncreasing(s.samples)
  {
    hide StrictlyIncreasing;
    var i :| 0 <= i < |series| && series[i] == s;
    var j :| 0 <= j < |series| && series[j] == t;
    assert i == j;
    assert MergedFrom(s, all);
  }

  lemma OneSampleAtATime(samples: seq<Sample>, x: Sample, y: Sample)
    requires StrictlyIncreasing(samples) && x in samples && y in samples && x.t == y.t
    ensures x == y
  {
    var i :| 0 <= i < |samples| && samples[i] == x;
    var j :| 0 <= j < |samples| && samples[j] == y;
    assert i == j;
  }

  /** When no input series is empty, the merge holds exactly the points of its inputs if and only if no label sets
      collide and each has one value per time. */
  lemma {:induction false} MergeIsExactIff(hash: Labels -> nat, series: seq<Series>, all: seq<Series>)
    requires IsMerge(hash, series, all) && forall s :: s in all ==> s.samples != []
    ensures SeriesPoints(series) == SeriesPoints(all) <==> NoCollision(hash, all) && SingleValued(SeriesPoints(all))
  {
    hide IsMerge, NoCollision, SeriesPoints, SingleValued;
    if NoCollision(hash, all) && SingleValued(SeriesPoints(all)) {
      MergeIsExact(hash, series, all);
    }
    if SeriesPoints(series) == SeriesPoints(all) {
      MergeIsSingleValued(hash, series, all);
      forall s | s in all ensures HasLabels(series, s.lset) {
        var p := PointOf(s.lset, s.samples[0]);
        PointInSeries(all, p);
        PointInSeries(series, p);
      }
      MergeKeepsLabelsIffNoCollision(hash, series, all);
    }
  }

  lemma KeysAndValues(part: set<Record>, whole: set<Record>)
    requires part <= whole && SingleValued(whole) && forall p :: p in whole ==> HasKey(part, p)
    ensures part == whole
  {
    forall p | p in whole ensures p in part {
      assert HasKey(part, p);
      var q :| q in part && q.labels == p.labels && q.t == p.t;
      assert q in whole;
    }
  }

  /** The merged time range covers every merged sample. */
  lemma MergeIsCovered(hash: Labels -> nat, merged: Block, blocks: seq<Block>)
    requires IsMerge(hash, merged.series, AllSeriesOf(blocks)) && MergedBounds(merged.meta, blocks)
    requires forall b :: b in blocks ==> Covered(b)
    ensures Covered(merged)
  {
    forall s, x | s in merged.series && x in s.samples ensures merged.meta.minTime <= x.t <= merged.meta.maxTime {
      var p := PointOf(s.lset, x);
      MergeInventsNothing(hash, merged.series, AllSeriesOf(blocks));
      assert p in SeriesPoints(merged.series);
      AllSeriesPoints(blocks, p);
      var b :| b in blocks && p in SeriesPoints(b.series);
      var s', x' :| s' in b.series && x' in s'.samples && p == PointOf(s'.lset, x');
      assert Covered(b) && x'.t == x.t;
    }
  }

  /** For every window and every list of matchers, a query sees the same points before and after. */
  lemma CompactionPreservesQueries(hash: Labels -> nat, merged: Block, blocks: seq<Block>,
                                   mint: Int64, maxt: Int64, ms: seq<Matcher>)
    requires IsMerge(hash, merged.series, AllSeriesOf(blocks)) && NoCollision(hash, AllSeriesOf(blocks))
    requires SingleValued(BlocksPoints(blocks))
    ensures SeriesPoints(BlockSelect(AllSeriesOf([merged]), mint, maxt, ms))
            == SeriesPoints(BlockSelect(AllSeriesOf(blocks), mint, maxt, ms))
  {
    hide IsMerge, NoCollision, SeriesPoints, BlocksPoints, BlockSelect, SingleValued;
    var all := AllSeriesOf(blocks);
    PointsOfBlocks(blocks);
    MergeIsExact(hash, merged.series, all);
    assert AllSeriesOf([merged]) == merged.series by {
      assert [merged][..0] == [];
    }
    forall p ensures p in SeriesPoints(BlockSelect(merged.series, mint, maxt, ms))
                     <==> p in SeriesPoints(BlockSelect(all, mint, maxt, ms)) {
      SelectedPoints(merged.series, mint, maxt, ms, p);
      SelectedPoints(all, mint, maxt, ms, p);
    }
  }
}
