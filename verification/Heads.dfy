/** The head as a plain map from label sets to sample sequences: what MemStore's hashed index stands for. */
module Heads {
  import opened Types

  type Head = map<Labels, seq<Sample>>

  function SamplesAt(h: Head, l: Labels): seq<Sample> {
    if l in h then h[l] else []
  }

  function AppendOne(h: Head, r: Record): Head {
    h[r.labels := SamplesAt(h, r.labels) + [Sample(r.t, r.v)]]
  }

  function AppendAll(h: Head, rs: seq<Record>): Head {
    if rs == [] then h else AppendOne(AppendAll(h, rs[..|rs| - 1]), rs[|rs| - 1])
  }

  /** The samples that a run of records holds for one label set, in order. */
  function SamplesOf(rs: seq<Record>, l: Labels): seq<Sample> {
    if rs == [] then []
    else
      var r := rs[|rs| - 1];
      SamplesOf(rs[..|rs| - 1], l) + if r.labels == l then [Sample(r.t, r.v)] else []
  }

  /** Appending a batch adds to every series exactly its own samples, in order, and nothing else. */
  lemma {:induction false} AppendAllPerSeries(h: Head, rs: seq<Record>, l: Labels)
    ensures SamplesAt(AppendAll(h, rs), l) == SamplesAt(h, l) + SamplesOf(rs, l)
    ensures l in AppendAll(h, rs) <==> l in h || SamplesOf(rs, l) != []
  {
    if rs != [] {
      AppendAllPerSeries(h, rs[..|rs| - 1], l);
    }
  }

  lemma {:induction false} AppendAllConcat(h: Head, a: seq<Record>, b: seq<Record>)
    ensures AppendAll(h, a + b) == AppendAll(AppendAll(h, a), b)
  {
    if b == [] {
      assert a + b == a;
    } else {
      AppendAllConcat(h, a, b[..|b| - 1]);
      assert (a + b)[..|a + b| - 1] == a + b[..|b| - 1];
    }
  }

  lemma {:induction false} SamplesOfConcat(a: seq<Record>, b: seq<Record>, l: Labels)
    ensures SamplesOf(a + b, l) == SamplesOf(a, l) + SamplesOf(b, l)
  {
    if b == [] {
      assert a + b == a;
    } else {
      hide SamplesOf;
      var k := |b| - 1;
      SamplesOfConcat(a, b[..k], l);
      assert b == b[..k] + [b[k]] && a + b == a + b[..k] + [b[k]];
      SamplesOfLast(b[..k], b[k], l);
      SamplesOfLast(a + b[..k], b[k], l);
    }
  }

  lemma SamplesOfLast(rs: seq<Record>, r: Record, l: Labels)
    ensures SamplesOf(rs + [r], l) == SamplesOf(rs, l) + if r.labels == l then [Sample(r.t, r.v)] else []
  {
    assert (rs + [r])[..|rs|] == rs;
  }

  // ----- batches -----

  type Batch = seq<Record>

  function Flatten(bs: seq<Batch>): seq<Record> {
    if bs == [] then [] else Flatten(bs[..|bs| - 1]) + bs[|bs| - 1]
  }

  function Without(bs: seq<Batch>, i: nat): seq<Batch>
    requires i < |bs|
  {
    bs[..i] + bs[i + 1..]
  }

  lemma FlattenSnoc(bs: seq<Batch>, b: Batch)
    ensures Flatten(bs + [b]) == Flatten(bs) + b
  {
    assert (bs + [b])[..|bs|] == bs;
  }

  lemma {:induction false} FlattenAppend(a: seq<Batch>, b: seq<Batch>)
    ensures Flatten(a + b) == Flatten(a) + Flatten(b)
  {
    if b == [] {
      assert a + b == a;
    } else {
      var k := |b| - 1;
      FlattenAppend(a, b[..k]);
      assert (a + b)[..|a + b| - 1] == a + b[..k];
    }
  }

  lemma {:induction false} FlattenFirst(bs: seq<Batch>)
    requires bs != []
    ensures Flatten(bs) == bs[0] + Flatten(bs[1..])
  {
    if |bs| == 1 {
      assert bs[..0] == [] && bs[1..] == [];
    } else {
      var k := |bs| - 1;
      FlattenFirst(bs[..k]);
      assert bs[..k][1..] == bs[1..][..k - 1];
      assert Flatten(bs[1..]) == Flatten(bs[1..][..k - 1]) + bs[k];
    }
  }

  /** Taking one batch out leaves its records and the others'. */
  lemma WithoutRecords(bs: seq<Batch>, i: nat)
    requires i < |bs|
    ensures forall r :: r in Flatten(bs) <==> r in Flatten(Without(bs, i)) || r in bs[i]
  {
    hide Flatten;
    var a, b := bs[..i], bs[i + 1..];
    assert bs == a + [bs[i]] + b;
    FlattenAppend(a + [bs[i]], b);
    FlattenAppend(a, b);
    FlattenSnoc(a, bs[i]);
  }

  /** A query result: every matching series with a sample in the window exactly once, with those samples. */
  datatype Series = Series(lset: Labels, samples: seq<Sample>)

  ghost predicate Selected(h: Head, l: Labels, mint: Int64, maxt: Int64, ms: seq<Matcher>) {
    l in h && Matching(l, ms) && Window(h[l], mint, maxt) != []
  }

  ghost predicate DistinctLabels(result: seq<Series>) {
    forall i, j :: 0 <= i < j < |result| ==> result[i].lset != result[j].lset
  }

  ghost predicate IsSelection(result: seq<Series>, h: Head, mint: Int64, maxt: Int64, ms: seq<Matcher>) {
    && (forall l :: Selected(h, l, mint, maxt, ms) ==> Series(l, Window(h[l], mint, maxt)) in result)
    && (forall r :: r in result ==> Selected(h, r.lset, mint, maxt, ms) && r.samples == Window(h[r.lset], mint, maxt))
    && DistinctLabels(result)
  }

  /** The selection obtained by visiting label sets in the given order. */
  ghost function SelectList(h: Head, ls: seq<Labels>, mint: Int64, maxt: Int64, ms: seq<Matcher>): seq<Series> {
    if ls == [] then []
    else
      var l := ls[|ls| - 1];
      SelectList(h, ls[..|ls| - 1], mint, maxt, ms)
      + if Selected(h, l, mint, maxt, ms) then [Series(l, Window(h[l], mint, maxt))] else []
  }

  lemma {:induction false} SelectListMembers(h: Head, ls: seq<Labels>, mint: Int64, maxt: Int64, ms: seq<Matcher>)
    ensures forall r :: r in SelectList(h, ls, mint, maxt, ms) <==>
                        r.lset in ls && Selected(h, r.lset, mint, maxt, ms)
                            && r.samples == Window(h[r.lset], mint, maxt)
  {
    hide Selected;
    if ls != [] {
      SelectListMembers(h, ls[..|ls| - 1], mint, maxt, ms);
      assert ls == ls[..|ls| - 1] + [ls[|ls| - 1]];
    }
  }

  lemma EmptySelectList(h: Head, ls: seq<Labels>, mint: Int64, maxt: Int64, ms: seq<Matcher>)
    requires ls == []
    ensures SelectList(h, ls, mint, maxt, ms) == []
  {
  }

  lemma SelectListStep(h: Head, ls: seq<Labels>, i: nat, mint: Int64, maxt: Int64, ms: seq<Matcher>)
    requires i < |ls| && ls[i] in h
    ensures SelectList(h, ls[..i + 1], mint, maxt, ms)
            == SelectList(h, ls[..i], mint, maxt, ms)
               + if Matching(ls[i], ms) && Window(h[ls[i]], mint, maxt) != []
                 then [Series(ls[i], Window(h[ls[i]], mint, maxt))]
                 else []
  {
    assert ls[..i + 1][..i] == ls[..i];
  }

  lemma {:induction false} SelectListDistinct(h: Head, ls: seq<Labels>, mint: Int64, maxt: Int64, ms: seq<Matcher>)
    requires forall i, j :: 0 <= i < j < |ls| ==> ls[i] != ls[j]
    ensures DistinctLabels(SelectList(h, ls, mint, maxt, ms))
  {
    hide Selected;
    if ls != [] {
      var k := |ls| - 1;
      SelectListDistinct(h, ls[..k], mint, maxt, ms);
      SelectListMembers(h, ls[..k], mint, maxt, ms);
      var before := SelectList(h, ls[..k], mint, maxt, ms);
      forall i | 0 <= i < |before| ensures before[i].lset != ls[k] {
        assert before[i] in before;
        var j :| 0 <= j < k && ls[..k][j] == before[i].lset;
      }
      var result := SelectList(h, ls, mint, maxt, ms);
      assert result == before
          || (|result| == |before| + 1 && result[..|before|] == before && result[|before|].lset == ls[k]);
    }
  }

  /** Visiting every label set once, in any order, gives the selection. */
  lemma SelectListIsSelection(h: Head, ls: seq<Labels>, mint: Int64, maxt: Int64, ms: seq<Matcher>)
    requires forall i, j :: 0 <= i < j < |ls| ==> ls[i] != ls[j]
    requires forall l :: l in h ==> l in ls
    ensures IsSelection(SelectList(h, ls, mint, maxt, ms), h, mint, maxt, ms)
  {
    hide Selected, SelectList;
    SelectListDistinct(h, ls, mint, maxt, ms);
    SelectListMembers(h, ls, mint, maxt, ms);
    forall l | Selected(h, l, mint, maxt, ms) ensures l in h {
      SelectedMeans(h, l, mint, maxt, ms);
    }
  }

  lemma SelectedMeans(h: Head, l: Labels, mint: Int64, maxt: Int64, ms: seq<Matcher>)
    ensures Selected(h, l, mint, maxt, ms) <==> l in h && Matching(l, ms) && Window(h[l], mint, maxt) != []
  {
  }

  /** A series is selected when the matchers accept its labels and one of its samples lies in the window. */
  lemma SelectedIff(h: Head, l: Labels, mint: Int64, maxt: Int64, ms: seq<Matcher>)
    requires l in h && DistinctNames(l)
    ensures Selected(h, l, mint, maxt, ms)
            <==> AllAccept(ms, l) && exists x :: x in h[l] && mint <= x.t <= maxt
  {
    hide Matching, AllAccept;
    MatchingIsAccepting(l, ms);
    WindowEmpty(h[l], mint, maxt);
  }

  ghost predicate Found(result: seq<Series>, l: Labels, x: Sample) {
    exists r :: r in result && r.lset == l && x in r.samples
  }

  /** What one equality matcher finds: the samples in the window of the series with that label. */
  ghost predicate FindsByLabel(result: seq<Series>, h: Head, mint: Int64, maxt: Int64, ms: seq<Matcher>) {
    forall n, v, l, x :: IsEquality(ms, n, v) && v != [] && l in h && DistinctNames(l) ==>
      (Found(result, l, x) <==> Label(n, v) in l && x in h[l] && mint <= x.t <= maxt)
  }

  lemma SelectionFindsByLabel(result: seq<Series>, h: Head, mint: Int64, maxt: Int64, ms: seq<Matcher>)
    requires IsSelection(result, h, mint, maxt, ms)
    ensures FindsByLabel(result, h, mint, maxt, ms)
  {
    hide IsSelection;
    forall n, v, l, x | IsEquality(ms, n, v) && v != [] && l in h && DistinctNames(l)
      ensures Found(result, l, x) <==> Label(n, v) in l && x in h[l] && mint <= x.t <= maxt {
      EqualitySelects(result, h, mint, maxt, ms, n, v, l, x);
    }
  }

  lemma EqualitySelects(result: seq<Series>, h: Head, mint: Int64, maxt: Int64, ms: seq<Matcher>, n: Bytes, v: Bytes,
                        l: Labels, x: Sample)
    requires IsSelection(result, h, mint, maxt, ms) && IsEquality(ms, n, v) && v != [] && l in h && DistinctNames(l)
    ensures Found(result, l, x) <==> Label(n, v) in l && x in h[l] && mint <= x.t <= maxt
  {
    hide Matching, IsEquality;
    EqualityMatches(l, ms, n, v);
    var w := Window(h[l], mint, maxt);
    if x in w && Matching(l, ms) {
      assert Selected(h, l, mint, maxt, ms);
      assert Series(l, w) in result;
    }
  }

  function NamesOf(l: Labels): set<Bytes> {
    set i | 0 <= i < |l| :: l[i].name
  }

  /** The label names of the series that Select would return. */
  ghost function SelectedNames(h: Head, mint: Int64, maxt: Int64, ms: seq<Matcher>): set<Bytes> {
    set l: Labels, i | l in h && Selected(h, l, mint, maxt, ms) && 0 <= i < |l| :: l[i].name
  }

  /** LabelNames lists the names of the series that Select returns. */
  lemma NamesOfSelection(result: seq<Series>, h: Head, mint: Int64, maxt: Int64, ms: seq<Matcher>, n: Bytes)
    requires IsSelection(result, h, mint, maxt, ms)
    ensures n in SelectedNames(h, mint, maxt, ms)
            <==> exists s, i :: s in result && 0 <= i < |s.lset| && s.lset[i].name == n
  {
    hide Window, Matching;
    if n in SelectedNames(h, mint, maxt, ms) {
      var l: Labels, i :| l in h && Selected(h, l, mint, maxt, ms) && 0 <= i < |l| && l[i].name == n;
      assert Series(l, Window(h[l], mint, maxt)) in result;
    }
    if s, i :| s in result && 0 <= i < |s.lset| && s.lset[i].name == n {
      SelectedMeans(h, s.lset, mint, maxt, ms);
    }
  }

  // ----- pruning -----

  /** The index that sort.Search finds for T >= cutoff between lo and hi, whether or not the samples are sorted. */
  function SearchIndex(samples: seq<Sample>, cutoff: Int64, lo: nat, hi: nat): (k: nat)
    requires lo <= hi <= |samples|
    requires lo > 0 ==> samples[lo - 1].t < cutoff
    requires hi < |samples| ==> samples[hi].t >= cutoff
    ensures lo <= k <= hi
    ensures k > 0 ==> samples[k - 1].t < cutoff
    ensures k < |samples| ==> samples[k].t >= cutoff
    decreases hi - lo
  {
    if lo == hi then lo
    else
      var mid := (lo + hi) / 2;
      if samples[mid].t >= cutoff then SearchIndex(samples, cutoff, lo, mid)
      else SearchIndex(samples, cutoff, mid + 1, hi)
  }

  function Pruned(samples: seq<Sample>, cutoff: Int64): seq<Sample> {
    samples[SearchIndex(samples, cutoff, 0, |samples|)..]
  }

  lemma SearchDone(samples: seq<Sample>, cutoff: Int64, k: nat)
    requires k <= |samples|
    requires k > 0 ==> samples[k - 1].t < cutoff
    requires k < |samples| ==> samples[k].t >= cutoff
    ensures SearchIndex(samples, cutoff, k, k) == k
  {
  }

  lemma SearchStep(samples: seq<Sample>, cutoff: Int64, lo: nat, hi: nat, mid: nat)
    requires lo < hi <= |samples| && mid == (lo + hi) / 2
    requires lo > 0 ==> samples[lo - 1].t < cutoff
    requires hi < |samples| ==> samples[hi].t >= cutoff
    ensures lo <= mid < hi
    ensures SearchIndex(samples, cutoff, lo, hi)
            == if samples[mid].t >= cutoff then SearchIndex(samples, cutoff, lo, mid)
               else SearchIndex(samples, cutoff, mid + 1, hi)
  {
  }

  /** The samples at or after the cutoff. */
  function AtOrAfter(samples: seq<Sample>, cutoff: Int64): seq<Sample> {
    if samples == [] then []
    else AtOrAfter(samples[..|samples| - 1], cutoff)
         + if samples[|samples| - 1].t >= cutoff then [samples[|samples| - 1]] else []
  }

  /** No sample before the cutoff follows one at or after it; every time-sorted series is like this. */
  ghost predicate SplitAt(samples: seq<Sample>, cutoff: Int64) {
    forall i, j :: 0 <= i < j < |samples| && samples[i].t >= cutoff ==> samples[j].t >= cutoff
  }

  ghost predicate TimeSorted(samples: seq<Sample>) {
    forall i, j :: 0 <= i < j < |samples| ==> samples[i].t <= samples[j].t
  }

  /** What pruning leaves of a head. */
  function PrunedHead(h: Head, cutoff: Int64): Head {
    map l | l in h && Pruned(h[l], cutoff) != [] :: Pruned(h[l], cutoff)
  }

  /** Pruning applied to the series of some hash buckets only. */
  ghost function PrunedIn(h: Head, hash: Labels -> nat, done: set<nat>, cutoff: Int64): Head {
    map l | l in h && (hash(l) in done ==> Pruned(h[l], cutoff) != []) ::
      if hash(l) in done then Pruned(h[l], cutoff) else h[l]
  }

  lemma PrunedInIs(before: Head, after: Head, hash: Labels -> nat, fp: nat, cutoff: Int64)
    requires forall l :: l in after <==> l in before && (hash(l) == fp ==> Pruned(before[l], cutoff) != [])
    requires forall l :: l in after ==> after[l] == if hash(l) == fp then Pruned(before[l], cutoff) else before[l]
    ensures after == PrunedIn(before, hash, {fp}, cutoff)
  {
    hide Pruned;
  }

  lemma PrunedInNone(h: Head, hash: Labels -> nat, cutoff: Int64)
    ensures PrunedIn(h, hash, {}, cutoff) == h
  {
    hide Pruned;
  }

  lemma PrunedInOneMore(h: Head, hash: Labels -> nat, done: set<nat>, fp: nat, cutoff: Int64)
    requires fp !in done
    ensures PrunedIn(PrunedIn(h, hash, done, cutoff), hash, {fp}, cutoff) == PrunedIn(h, hash, done + {fp}, cutoff)
  {
    hide Pruned;
  }

  lemma PrunedInAll(h: Head, hash: Labels -> nat, done: set<nat>, cutoff: Int64)
    requires forall l :: l in h ==> hash(l) in done
    ensures PrunedIn(h, hash, done, cutoff) == PrunedHead(h, cutoff)
  {
    hide Pruned;
  }

  function FilteredHead(h: Head, cutoff: Int64): Head {
    map l | l in h && AtOrAfter(h[l], cutoff) != [] :: AtOrAfter(h[l], cutoff)
  }

  lemma {:induction false} AllBefore(samples: seq<Sample>, cutoff: Int64)
    ensures AtOrAfter(samples, cutoff) == [] <==> forall s :: s in samples ==> s.t < cutoff
    ensures |AtOrAfter(samples, cutoff)| <= |samples|
    ensures AtOrAfter(samples, cutoff) == samples <==> forall s :: s in samples ==> s.t >= cutoff
    ensures forall s :: s in AtOrAfter(samples, cutoff) ==> s in samples && s.t >= cutoff
  {
    if samples != [] {
      var k := |samples| - 1;
      AllBefore(samples[..k], cutoff);
      assert samples == samples[..k] + [samples[k]];
    }
  }

  lemma {:induction false} AtOrAfterConcat(a: seq<Sample>, b: seq<Sample>, cutoff: Int64)
    ensures AtOrAfter(a + b, cutoff) == AtOrAfter(a, cutoff) + AtOrAfter(b, cutoff)
  {
    if b == [] {
      assert a + b == a;
    } else {
      AtOrAfterConcat(a, b[..|b| - 1], cutoff);
      assert (a + b)[..|a + b| - 1] == a + b[..|b| - 1];
    }
  }

  /** Cut anywhere, a series keeps of its front what is late and of its rest what is late. */
  lemma FilterAtCut(samples: seq<Sample>, cutoff: Int64, k: nat)
    requires k <= |samples|
    ensures AtOrAfter(samples, cutoff) == AtOrAfter(samples[..k], cutoff) + AtOrAfter(samples[k..], cutoff)
  {
    assert samples == samples[..k] + samples[k..];
    AtOrAfterConcat(samples[..k], samples[k..], cutoff);
  }

  lemma LateIsRest(samples: seq<Sample>, cutoff: Int64, k: nat)
    requires k <= |samples|
    requires forall i :: 0 <= i < k ==> samples[i].t < cutoff
    requires forall i :: k <= i < |samples| ==> samples[i].t >= cutoff
    ensures AtOrAfter(samples, cutoff) == samples[k..]
  {
    hide AtOrAfter;
    FilterAtCut(samples, cutoff, k);
    AllBefore(samples[..k], cutoff);
    AllBefore(samples[k..], cutoff);
  }

  lemma SplitIsFiltered(samples: seq<Sample>, cutoff: Int64)
    requires SplitAt(samples, cutoff)
    ensures Pruned(samples, cutoff) == AtOrAfter(samples, cutoff)
  {
    hide AtOrAfter, SearchIndex;
    var k := SearchIndex(samples, cutoff, 0, |samples|);
    LateIsRest(samples, cutoff, k);
  }

  lemma NothingLateBefore(samples: seq<Sample>, cutoff: Int64, k: nat)
    requires k <= |samples| && samples[k..] == AtOrAfter(samples, cutoff)
    ensures forall i :: 0 <= i < k ==> samples[i].t < cutoff
    ensures forall i :: k <= i < |samples| ==> samples[i].t >= cutoff
  {
    hide AtOrAfter;
    var front, back := samples[..k], samples[k..];
    FilterAtCut(samples, cutoff, k);
    AllBefore(samples, cutoff);
    AllBefore(back, cutoff);
    AllBefore(front, cutoff);
    assert AtOrAfter(back, cutoff) == back;
    assert |AtOrAfter(front, cutoff)| == 0;
    assert forall i :: 0 <= i < k ==> samples[i] == front[i] && front[i] in front;
    assert forall i :: k <= i < |samples| ==> samples[i] == back[i - k] && back[i - k] in back;
  }

  lemma FilteredIsSplit(samples: seq<Sample>, cutoff: Int64)
    requires Pruned(samples, cutoff) == AtOrAfter(samples, cutoff)
    ensures SplitAt(samples, cutoff)
  {
    hide AtOrAfter, SearchIndex;
    NothingLateBefore(samples, cutoff, SearchIndex(samples, cutoff, 0, |samples|));
  }

  /** Binary-search trimming is filtering by time exactly when the series is split at the cutoff. */
  lemma PruneIsFilterIffSplit(samples: seq<Sample>, cutoff: Int64)
    ensures Pruned(samples, cutoff) == AtOrAfter(samples, cutoff) <==> SplitAt(samples, cutoff)
  {
    hide AtOrAfter, Pruned, SplitAt;
    if SplitAt(samples, cutoff) {
      SplitIsFiltered(samples, cutoff);
    }
    if Pruned(samples, cutoff) == AtOrAfter(samples, cutoff) {
      FilteredIsSplit(samples, cutoff);
    }
  }

  /** On time-sorted series pruning keeps exactly the samples at or after the cutoff. */
  /** What is cut off a sorted series is what was before the cutoff. */
  lemma PrunedSeries(samples: seq<Sample>, cutoff: Int64, k: nat)
    requires k <= |samples| && (k > 0 ==> samples[k - 1].t < cutoff) && (k < |samples| ==> samples[k].t >= cutoff)
    ensures TimeSorted(samples) ==>
              (forall i :: 0 <= i < k ==> samples[i].t < cutoff) && forall x :: x in samples[k..] ==> x.t >= cutoff
  {
  }

  lemma PruneSortedHead(h: Head, cutoff: Int64)
    requires forall l :: l in h ==> TimeSorted(h[l])
    ensures PrunedHead(h, cutoff) == FilteredHead(h, cutoff)
  {
    hide AtOrAfter, Pruned;
    forall l | l in h ensures Pruned(h[l], cutoff) == AtOrAfter(h[l], cutoff) {
      assert SplitAt(h[l], cutoff);
      PruneIsFilterIffSplit(h[l], cutoff);
    }
  }
}
