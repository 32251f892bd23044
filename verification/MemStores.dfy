/** The in-memory head: series found by a hash of their labels, with buckets for collisions. */
module MemStores {
  import opened Types
  import opened Digits
  import opened Heads
  import opened Sorting

  class MemSeries {
    const ref: nat
    const lset: Labels
    var samples: seq<Sample>

    constructor (ref: nat, lset: Labels)
      ensures this.ref == ref && this.lset == lset && samples == []
    {
      this.ref, this.lset, samples := ref, lset, [];
    }
  }

  type Buckets = map<nat, seq<MemSeries>>
  type Index = map<Labels, MemSeries>

  /** The members of a bucket hash to its key, are indexed, and are pairwise distinct. */
  ghost predicate GoodBucket(hash: Labels -> nat, index: Index, h: nat, bucket: seq<MemSeries>) {
    && bucket != []
    && (forall ms :: ms in bucket ==> hash(ms.lset) == h && ms.lset in index && index[ms.lset] == ms)
    && (forall i, j :: 0 <= i < j < |bucket| ==> bucket[i] != bucket[j])
  }

  ghost predicate GoodBuckets(hash: Labels -> nat, series: Buckets, index: Index) {
    && (forall l :: l in index ==> index[l].lset == l && hash(l) in series && index[l] in series[hash(l)])
    && (forall h :: h in series ==> GoodBucket(hash, index, h, series[h]))
  }

  /** References are positive, handed out so far, and unique. */
  ghost predicate GoodRefs(index: Index, nextRef: nat) {
    && (forall l :: l in index ==> 1 <= index[l].ref <= nextRef)
    && (forall l, m :: l in index && m in index && index[l].ref == index[m].ref ==> l == m)
  }

  lemma BucketOf(hash: Labels -> nat, series: Buckets, index: Index, l: Labels)
    requires GoodBuckets(hash, series, index)
    ensures l in index ==> index[l].lset == l && hash(l) in series && index[l] in series[hash(l)]
    ensures hash(l) in series ==> forall ms :: ms in series[hash(l)] ==> ms.lset in index && index[ms.lset] == ms
  {
    if hash(l) in series {
      assert GoodBucket(hash, index, hash(l), series[hash(l)]);
    }
  }

  lemma CreateKeepsBuckets(hash: Labels -> nat, series: Buckets, index: Index, l: Labels, ms: MemSeries)
    requires GoodBuckets(hash, series, index) && l !in index && ms.lset == l && ms !in index.Values
    ensures var bucket := if hash(l) in series then series[hash(l)] else [];
            GoodBuckets(hash, series[hash(l) := bucket + [ms]], index[l := ms])
  {
    var bucket := if hash(l) in series then series[hash(l)] else [];
    var series', index' := series[hash(l) := bucket + [ms]], index[l := ms];
    forall h | h in series' ensures GoodBucket(hash, index', h, series'[h]) {
      if h in series {
        assert GoodBucket(hash, index, h, series[h]);
        forall m | m in series[h] ensures m != ms && index'[m.lset] == m {
          assert index[m.lset] == m;
        }
      }
    }
  }

  /** Replacing a bucket by a part of it, with the index restricted to match, keeps the buckets good. */
  lemma ShrinkKeepsBuckets(hash: Labels -> nat, series: Buckets, index: Index, fp: nat, bucket: seq<MemSeries>,
                           index': Index)
    requires GoodBuckets(hash, series, index) && fp in series
    requires forall i, j :: 0 <= i < j < |bucket| ==> bucket[i] != bucket[j]
    requires forall ms :: ms in bucket ==> ms in series[fp] && ms.lset in index'
    requires forall l :: l in index' ==> l in index && index'[l] == index[l] && (hash(l) == fp ==> index[l] in bucket)
    requires forall l :: l in index && hash(l) != fp ==> l in index'
    ensures GoodBuckets(hash, if |bucket| == 0 then series - {fp} else series[fp := bucket], index')
  {
    var series' := if |bucket| == 0 then series - {fp} else series[fp := bucket];
    forall h | h in series' ensures GoodBucket(hash, index', h, series'[h]) {
      assert GoodBucket(hash, index, h, series[h]);
    }
  }

  lemma ShrinkKeepsRefs(index: Index, index': Index, nextRef: nat)
    requires GoodRefs(index, nextRef) && forall l :: l in index' ==> l in index && index'[l] == index[l]
    ensures GoodRefs(index', nextRef)
  {
  }

  /** A bucket is exactly the indexed series whose labels hash to its key. */
  lemma BucketExact(hash: Labels -> nat, series: Buckets, index: Index, fp: nat)
    requires GoodBuckets(hash, series, index) && fp in series
    ensures forall l :: l in index ==> (hash(l) == fp <==> index[l] in series[fp])
    ensures forall ms :: ms in series[fp] ==> ms.lset in index && index[ms.lset] == ms
    ensures forall i, j :: 0 <= i < j < |series[fp]| ==> series[fp][i] != series[fp][j]
    ensures forall l :: l in index ==> index[l].lset == l
  {
    assert GoodBucket(hash, index, fp, series[fp]);
  }

  lemma DistinctSeries(hash: Labels -> nat, series: Buckets, index: Index, l: Labels)
    requires GoodBuckets(hash, series, index) && l in index
    ensures forall m :: m in index && m != l ==> index[m] != index[l]
  {
  }

  // ----- sorted names -----

  /** Byte order, as a relation on Go strings. */
  predicate NameBefore(a: Bytes, b: Bytes) {
    LexLess(a, b)
  }

  /** The names of a set in ascending string order. */
  method SortedNames(nameSet: set<Bytes>) returns (result: seq<Bytes>)
    ensures forall i, j :: 0 <= i < j < |result| ==> LexLess(result[i], result[j])
    ensures forall n :: n in result <==> n in nameSet
  {
    var found: seq<Bytes> := [];
    var rest := nameSet;
    while rest != {}
      invariant rest <= nameSet
      invariant forall n :: n in found <==> n in nameSet - rest
      invariant forall i, j :: 0 <= i < j < |found| ==> found[i] != found[j]
      decreases |rest|
    {
      var n :| n in rest;
      assert n !in found;
      rest := rest - {n};
      found := found + [n];
    }
    NameBeforeIsOrder();
    result := Sort(found, NameBefore);
    SameElements(found, result);
    forall i, j | 0 <= i < j < |result| ensures LexLess(result[i], result[j]) {
      LexTotal(result[i], result[j]);
    }
  }

  lemma NameBeforeIsOrder()
    ensures WeakOrder(NameBefore)
  {
    forall a: Bytes, b: Bytes | NameBefore(a, b) ensures !NameBefore(b, a) {
      LexTotal(a, b);
    }
    forall a: Bytes, b: Bytes, c: Bytes | NameBefore(a, b) && !NameBefore(c, b) ensures NameBefore(a, c) {
      LexTotal(b, c);
      if LexLess(b, c) {
        LexTransitive(a, b, c);
      }
    }
  }

  /** Milliseconds of a time in nanoseconds, rounded down. */
  function UnixMilli(t: int): int {
    t / 1_000_000
  }

  class MemStore {
    const hash: Labels -> nat

    /** In nanoseconds; zero means that samples are never pruned. */
    const retention: int
    var series: Buckets
    var nextRef: nat

    /** The plain map that the hashed buckets stand for. */
    ghost var index: Index

    /** The index is sound and complete for any hash, even a constant one. */
    ghost predicate Valid()
      reads this
    {
      GoodBuckets(hash, series, index) && GoodRefs(index, nextRef)
    }

    ghost function Contents(): Head
      reads this, index.Values
    {
      map l | l in index :: index[l].samples
    }

    constructor (hash: Labels -> nat, retention: int)
      ensures Valid() && this.hash == hash && this.retention == retention && Contents() == map[] && index == map[]
    {
      this.hash, this.retention := hash, retention;
      series, nextRef, index := map[], 0, map[];
    }

    method FindSeries(bucket: seq<MemSeries>, lset: Labels) returns (found: MemSeries?)
      ensures found == null ==> forall ms :: ms in bucket ==> ms.lset != lset
      ensures found != null ==> found in bucket && found.lset == lset
    {
      for i := 0 to |bucket|
        invariant forall j :: 0 <= j < i ==> bucket[j].lset != lset
      {
        if bucket[i].lset == lset {
          return bucket[i];
        }
      }
      return null;
    }

    method AppendSamples(pending: seq<Record>)
      requires Valid()
      modifies this, index.Values
      ensures Valid() && fresh(index.Values - old(index.Values))
      ensures Contents() == AppendAll(old(Contents()), pending)
    {
      for i := 0 to |pending|
        invariant Valid() && fresh(index.Values - old(index.Values))
        invariant Contents() == AppendAll(old(Contents()), pending[..i])
      {
        assert pending[..i + 1][..i] == pending[..i];
        AppendSample(pending[i]);
      }
      assert pending[..|pending|] == pending;
    }

    /** The first half of a round of appendSamples: the series of a label set, created when missing. */
    method FindOrCreate(lset: Labels) returns (ms: MemSeries)
      requires Valid()
      modifies this
      ensures Valid() && lset in index && index[lset] == ms
      ensures lset in old(index) ==> index == old(index)
      ensures lset !in old(index) ==> fresh(ms) && ms.samples == [] && index == old(index)[lset := ms]
    {
      hide GoodBuckets;
      var fp := hash(lset);
      var bucket := if fp in series then series[fp] else [];
      BucketOf(hash, series, index, lset);
      var found := FindSeries(bucket, lset);
      if found == null {
        nextRef := nextRef + 1;
        ms := new MemSeries(nextRef, lset);
        CreateKeepsBuckets(hash, series, index, lset, ms);
        series := series[fp := bucket + [ms]];
        index := index[lset := ms];
      } else {
        ms := found;
      }
    }

    /** One round of the loop of appendSamples. */
    method AppendSample(p: Record)
      requires Valid()
      modifies this, index.Values
      ensures Valid() && fresh(index.Values - old(index.Values))
      ensures Contents() == AppendOne(old(Contents()), p)
    {
      hide GoodBuckets, GoodRefs;
      var ms := FindOrCreate(p.labels);
      DistinctSeries(hash, series, index, p.labels);
      ms.samples := ms.samples + [Sample(p.t, p.v)];
    }

    /** FlushHead replaces the buckets by an empty map. */
    method Clear()
      requires Valid()
      modifies this
      ensures Valid() && Contents() == map[] && index == map[]
    {
      series := map[];
      index := map[];
    }

    /** The series in some iteration order of the buckets: every label set of the map once. */
    method AllSeries() returns (all: seq<MemSeries>)
      requires Valid()
      ensures forall l :: l in index ==> index[l] in all && index[l].lset == l
      ensures forall i, j :: 0 <= i < j < |all| ==> all[i].lset != all[j].lset
      ensures forall ms :: ms in all ==> ms.lset in index && index[ms.lset] == ms
    {
      all := [];
      var keys := series.Keys;
      while keys != {}
        invariant keys <= series.Keys
        invariant forall l :: l in index && hash(l) !in keys ==> index[l] in all && index[l].lset == l
        invariant forall ms :: ms in all ==> ms.lset in index && index[ms.lset] == ms && hash(ms.lset) !in keys
        invariant forall i, j :: 0 <= i < j < |all| ==> all[i].lset != all[j].lset
        decreases |keys|
      {
        var fp :| fp in keys;
        keys := keys - {fp};
        assert GoodBucket(hash, index, fp, series[fp]);
        all := all + series[fp];
      }
    }

    method Select(mint: Int64, maxt: Int64, matchers: seq<Matcher>) returns (result: seq<Series>)
      requires Valid()
      ensures IsSelection(result, Contents(), mint, maxt, matchers)
      ensures FindsByLabel(result, Contents(), mint, maxt, matchers)
    {
      hide GoodBuckets, GoodRefs, SelectList, IsSelection, Window, Matching, FindsByLabel;
      result := [];
      var all := AllSeries();
      ghost var ls := seq(|all|, i requires 0 <= i < |all| => all[i].lset);
      EmptySelectList(Contents(), ls[..0], mint, maxt, matchers);
      for i := 0 to |all|
        invariant result == SelectList(Contents(), ls[..i], mint, maxt, matchers)
      {
        var ms := all[i];
        assert ms in all;
        SelectListStep(Contents(), ls, i, mint, maxt, matchers);
        var ok := MatchesAll(ms.lset, matchers);
        if ok {
          var samples := FilterSamples(ms.samples, mint, maxt);
          if |samples| > 0 {
            result := result + [Series(ms.lset, samples)];
          }
        }
      }
      assert ls[..|all|] == ls;
      forall l | l in Contents() ensures l in ls {
        var i :| 0 <= i < |all| && all[i] == index[l];
        assert ls[i] == l;
      }
      SelectListIsSelection(Contents(), ls, mint, maxt, matchers);
      SelectionFindsByLabel(result, Contents(), mint, maxt, matchers);
    }

    method LabelNames(mint: Int64, maxt: Int64, matchers: seq<Matcher>) returns (names: seq<Bytes>)
      requires Valid()
      ensures forall i, j :: 0 <= i < j < |names| ==> LexLess(names[i], names[j])
      ensures forall n :: n in names <==> n in SelectedNames(Contents(), mint, maxt, matchers)
      ensures forall n :: n in names <==>
                exists l: Labels, i :: l in Contents() && Selected(Contents(), l, mint, maxt, matchers)
                               && 0 <= i < |l| && l[i].name == n
    {
      hide Selected, GoodBuckets, GoodRefs;
      var nameSet := CollectNames(mint, maxt, matchers);
      names := SortedNames(nameSet);
    }

    /** The loop of LabelNames over the buckets. */
    method CollectNames(mint: Int64, maxt: Int64, matchers: seq<Matcher>) returns (names: set<Bytes>)
      requires Valid()
      ensures names == SelectedNames(Contents(), mint, maxt, matchers)
    {
      hide GoodBuckets, GoodRefs, Window, Matching;
      names := {};
      var all := AllSeries();
      ghost var h := Contents();
      for i := 0 to |all|
        invariant forall n :: n in names ==> n in SelectedNames(h, mint, maxt, matchers)
        invariant forall j :: 0 <= j < i && Selected(h, all[j].lset, mint, maxt, matchers) ==>
                                NamesOf(all[j].lset) <= names
      {
        var ms := all[i];
        assert ms in all;
        SelectedMeans(h, ms.lset, mint, maxt, matchers);
        var ok := MatchesAll(ms.lset, matchers);
        if ok {
          var overlap := HasOverlap(ms.samples, mint, maxt);
          if overlap {
            names := names + NamesOf(ms.lset);
          }
        }
      }
      forall n | n in SelectedNames(h, mint, maxt, matchers) ensures n in names {
        var l: Labels, k :| l in h && Selected(h, l, mint, maxt, matchers) && 0 <= k < |l| && l[k].name == n;
        var i :| 0 <= i < |all| && all[i] == index[l];
      }
    }

    /** sort.Search over the samples of one series, and the slice that is kept. */
    method PruneSamples(samples: seq<Sample>, cutoff: Int64) returns (kept: seq<Sample>)
      ensures kept == Pruned(samples, cutoff)
      ensures |kept| <= |samples| && kept == samples[|samples| - |kept|..]
      ensures TimeSorted(samples) ==>
                (forall i :: 0 <= i < |samples| - |kept| ==> samples[i].t < cutoff)
                && forall x :: x in kept ==> x.t >= cutoff
    {
      hide SearchIndex, TimeSorted;
      var lo, hi := 0, |samples|;
      while lo < hi
        invariant 0 <= lo <= hi <= |samples|
        invariant lo > 0 ==> samples[lo - 1].t < cutoff
        invariant hi < |samples| ==> samples[hi].t >= cutoff
        invariant SearchIndex(samples, cutoff, lo, hi) == SearchIndex(samples, cutoff, 0, |samples|)
      {
        var mid := (lo + hi) / 2;
        SearchStep(samples, cutoff, lo, hi, mid);
        if samples[mid].t >= cutoff {
          hi := mid;
        } else {
          lo := mid + 1;
        }
      }
      SearchDone(samples, cutoff, lo);
      PrunedSeries(samples, cutoff, lo);
      if lo == 0 {
        return samples;
      }
      return samples[lo..];
    }

    /** Trims every series of a bucket, from the last to the first, and removes the ones left empty. */
    method TrimBucket(orig: seq<MemSeries>, cutoff: Int64) returns (bucket: seq<MemSeries>)
      requires forall i, j :: 0 <= i < j < |orig| ==> orig[i] != orig[j]
      modifies set ms | ms in orig
      ensures forall ms :: ms in orig ==> ms.samples == Pruned(old(ms.samples), cutoff)
      ensures forall ms :: ms in bucket <==> ms in orig && ms.samples != []
      ensures forall i, j :: 0 <= i < j < |bucket| ==> bucket[i] != bucket[j]
    {
      hide Pruned;
      bucket := orig;
      for i := |orig| downto 0
        invariant i <= |bucket| && bucket[..i] == orig[..i]
        invariant forall j :: 0 <= j < i ==> orig[j].samples == old(orig[j].samples)
        invariant forall j :: i <= j < |orig| ==> orig[j].samples == Pruned(old(orig[j].samples), cutoff)
        invariant forall j :: i <= j < |orig| && orig[j].samples != [] ==> orig[j] in bucket[i..]
        invariant forall ms :: ms in bucket[i..] ==> ms in orig[i..] && ms.samples != []
        invariant forall j, k :: 0 <= j < k < |bucket| ==> bucket[j] != bucket[k]
      {
        var ms := bucket[i];
        assert ms == bucket[..i + 1][i] == orig[i];
        assert orig[i..] == [ms] + orig[i + 1..] && bucket[i..] == [ms] + bucket[i + 1..];
        ms.samples := PruneSamples(ms.samples, cutoff);
        if |ms.samples| == 0 {
          bucket := bucket[..i] + bucket[i + 1..];
        }
      }
      assert bucket[0..] == bucket && orig[0..] == orig;
    }

    /** Puts a trimmed bucket back, or deletes its key when nothing is left in it. */
    method StoreBucket(fp: nat, bucket: seq<MemSeries>)
      requires Valid() && fp in series
      requires forall i, j :: 0 <= i < j < |bucket| ==> bucket[i] != bucket[j]
      requires forall ms :: ms in bucket <==> ms in series[fp] && ms.samples != []
      modifies this
      ensures Valid()
      ensures index == map l | l in old(index) && (hash(l) == fp ==> old(index)[l].samples != []) :: old(index)[l]
      ensures series == if |bucket| == 0 then old(series) - {fp} else old(series)[fp := bucket]
    {
      hide GoodRefs, GoodBuckets;
      BucketExact(hash, series, index, fp);
      ghost var index' := map l | l in index && (hash(l) == fp ==> index[l].samples != []) :: index[l];
      ShrinkKeepsBuckets(hash, series, index, fp, bucket, index');
      ShrinkKeepsRefs(index, index', nextRef);
      index := index';
      if |bucket| == 0 {
        series := series - {fp};
      } else {
        series := series[fp := bucket];
      }
    }

    /** One round of the loop of Prune. */
    method PruneBucket(fp: nat, cutoff: Int64)
      requires Valid() && fp in series
      modifies this, index.Values
      ensures Valid() && index.Values <= old(index.Values)
      ensures Contents() == PrunedIn(old(Contents()), hash, {fp}, cutoff)
      ensures forall h :: h != fp ==>
                            (h in series <==> h in old(series)) && (h in series ==> series[h] == old(series)[h])
    {
      hide Pruned, GoodRefs, GoodBuckets, PrunedIn;
      BucketExact(hash, series, index, fp);
      ghost var before := Contents();
      var bucket := TrimBucket(series[fp], cutoff);
      assert forall l :: l in index ==>
                           index[l].samples == if hash(l) == fp then Pruned(before[l], cutoff) else before[l];
      StoreBucket(fp, bucket);
      PrunedInIs(before, Contents(), hash, fp, cutoff);
    }

    /** `now` is in nanoseconds since 1970; the cutoff is in milliseconds, rounded down, and an int64. */
    method Prune(now: int)
      requires Valid() && MIN_TIME * 1_000_000 <= now - retention < 0x8000_0000_0000_0000 * 1_000_000
      modifies this, index.Values
      ensures Valid()
      ensures retention == 0 ==> Contents() == old(Contents())
      ensures retention != 0 ==>
                exists c: Int64 :: c * 1_000_000 <= now - retention < (c + 1) * 1_000_000
                                   && Contents() == PrunedHead(old(Contents()), c)
    {
      if retention != 0 {
        PruneBefore(UnixMilli(now - retention));
      }
    }

    /** The loop of Prune over the buckets. */
    method PruneBefore(cutoff: Int64)
      requires Valid()
      modifies this, index.Values
      ensures Valid()
      ensures Contents() == PrunedHead(old(Contents()), cutoff)
    {
      hide Pruned, GoodRefs, PrunedIn, PrunedHead;
      var keys := series.Keys;
      ghost var done: set<nat> := {};
      ghost var h := Contents();
      PrunedInNone(h, hash, cutoff);
      while keys != {}
        invariant Valid() && index.Values <= old(index.Values)
        invariant keys <= series.Keys && keys !! done && old(series).Keys == keys + done
        invariant Contents() == PrunedIn(h, hash, done, cutoff)
        decreases |keys|
      {
        var fp :| fp in keys;
        keys := keys - {fp};
        PrunedInOneMore(h, hash, done, fp, cutoff);
        PruneBucket(fp, cutoff);
        done := done + {fp};
      }
      assert forall l :: l in h ==> hash(l) in old(series);
      PrunedInAll(h, hash, done, cutoff);
    }
  }
}
