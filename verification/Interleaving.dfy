/** Concurrent commits: each logs its batch under the WAL's mutex and later applies it under the head's mutex, and
    the two steps of different commits interleave in any way. */
module Interleaving {
  import opened Types
  import opened Codec
  import opened Wal
  import opened WalLaws
  import opened Heads
  import opened Blocks
  import opened Engine
  import opened EngineLaws

  /** The batches in the order of the log, the head, and the batches that are logged but not yet applied. */
  datatype System = System(logged: seq<Batch>, head: Head, waiting: seq<Batch>)

  /** One commit finishes Log, or one waiting commit, whichever it is, runs appendSamples. */
  datatype Step = LogBatch(batch: Batch) | ApplyBatch(i: nat)

  const START: System := System([], map[], [])

  predicate Enabled(s: System, e: Step) {
    e.ApplyBatch? ==> e.i < |s.waiting|
  }

  function Next(s: System, e: Step): System {
    match e
    case LogBatch(batch) => s.(logged := s.logged + [batch], waiting := s.waiting + [batch])
    case ApplyBatch(i) =>
      if i < |s.waiting| then s.(head := AppendAll(s.head, s.waiting[i]), waiting := Without(s.waiting, i)) else s
  }

  /** The state that an interleaving of any number of commits reaches. */
  function Run(es: seq<Step>): System {
    if es == [] then START else Next(Run(es[..|es| - 1]), es[|es| - 1])
  }

  ghost predicate Legal(es: seq<Step>) {
    es == [] || (Legal(es[..|es| - 1]) && Enabled(Run(es[..|es| - 1]), es[|es| - 1]))
  }

  // ----- no sample is lost or duplicated -----

  /** For every series, the log holds what the head holds and what the waiting batches hold, counted with
      multiplicity. The log is the batches end to end, so each batch is contiguous in it. */
  ghost predicate Conserved(s: System) {
    forall l :: multiset(SamplesOf(Flatten(s.logged), l))
                == multiset(SamplesAt(s.head, l)) + multiset(SamplesOf(Flatten(s.waiting), l))
  }

  lemma SamplesOfSnoc(bs: seq<Batch>, b: Batch, l: Labels)
    ensures multiset(SamplesOf(Flatten(bs + [b]), l)) == multiset(SamplesOf(Flatten(bs), l)) + multiset(SamplesOf(b, l))
  {
    FlattenSnoc(bs, b);
    SamplesOfConcat(Flatten(bs), b, l);
  }

  lemma RemovedBatch(bs: seq<Batch>, i: nat, l: Labels)
    requires i < |bs|
    ensures multiset(SamplesOf(Flatten(bs), l))
            == multiset(SamplesOf(Flatten(Without(bs, i)), l)) + multiset(SamplesOf(bs[i], l))
  {
    hide Flatten, SamplesOf;
    var a, b := bs[..i], bs[i + 1..];
    assert bs == a + [bs[i]] + b;
    FlattenAppend(a + [bs[i]], b);
    FlattenAppend(a, b);
    SamplesOfSnoc(a, bs[i], l);
    SamplesOfConcat(Flatten(a + [bs[i]]), Flatten(b), l);
    SamplesOfConcat(Flatten(a), Flatten(b), l);
  }

  lemma StepConserves(s: System, e: Step)
    requires Conserved(s) && Enabled(s, e)
    ensures Conserved(Next(s, e))
  {
    hide SamplesOf, SamplesAt, AppendAll, Flatten;
    var t := Next(s, e);
    forall l ensures multiset(SamplesOf(Flatten(t.logged), l))
                     == multiset(SamplesAt(t.head, l)) + multiset(SamplesOf(Flatten(t.waiting), l)) {
      match e {
        case LogBatch(b) =>
          SamplesOfSnoc(s.logged, b, l);
          SamplesOfSnoc(s.waiting, b, l);
        case ApplyBatch(i) =>
          RemovedBatch(s.waiting, i, l);
          AppendAllPerSeries(s.head, s.waiting[i], l);
      }
    }
  }

  lemma {:induction false} EveryInterleavingConserves(es: seq<Step>)
    requires Legal(es)
    ensures Conserved(Run(es))
  {
    hide Conserved, Next, Enabled;
    if es == [] {
      StartConserves();
    } else {
      var k := |es| - 1;
      EveryInterleavingConserves(es[..k]);
      StepConserves(Run(es[..k]), es[k]);
    }
  }

  lemma StartConserves()
    ensures Conserved(START)
  {
  }

  /** When no commit is under way, replaying the log rebuilds every series of the head up to the order of its
      samples. */
  lemma QuiescentReplayAgrees(es: seq<Step>, l: Labels)
    requires Legal(es) && Run(es).waiting == []
    ensures multiset(SamplesAt(AppendAll(map[], Flatten(Run(es).logged)), l)) == multiset(SamplesAt(Run(es).head, l))
  {
    hide Run, Legal;
    EveryInterleavingConserves(es);
    AppendAllPerSeries(map[], Flatten(Run(es).logged), l);
    assert SamplesOf(Flatten(Run(es).waiting), l) == [];
  }

  // ----- order -----

  /** Two commits whose batches are logged in one order and applied in the other. */
  ghost function Crossed(a: Batch, b: Batch): seq<Step> {
    [LogBatch(a), LogBatch(b), ApplyBatch(1), ApplyBatch(0)]
  }

  lemma CrossedRun(a: Batch, b: Batch)
    ensures Legal(Crossed(a, b))
    ensures Run(Crossed(a, b)) == System([a, b], AppendAll(AppendAll(map[], b), a), [])
  {
    hide AppendAll;
    var es := Crossed(a, b);
    assert es[..3][..2] == es[..2] && es[..2][..1] == es[..1] && es[..1][..0] == [];
    assert Run(es[..1]) == System([a], map[], [a]) && Legal(es[..1]);
    assert Run(es[..2]) == System([a, b], map[], [a, b]) && Legal(es[..2]);
    assert Without([a, b], 1) == [a] && Without([a], 0) == [];
    assert Run(es[..3]) == System([a, b], AppendAll(map[], b), [a]) && Legal(es[..3]);
  }

  /** Such commits leave a head that the replay reverses, whenever their samples differ. */
  lemma OrderCanDiffer(l: Labels, x: Sample, y: Sample)
    ensures var es := Crossed([PointOf(l, x)], [PointOf(l, y)]);
            && Legal(es) && Run(es).waiting == []
            && SamplesAt(AppendAll(map[], Flatten(Run(es).logged)), l) == [x, y]
            && SamplesAt(Run(es).head, l) == [y, x]
  {
    hide Legal, Run, Crossed, AppendAll, SamplesAt;
    var a, b := [PointOf(l, x)], [PointOf(l, y)];
    CrossedRun(a, b);
    FlattenTwo(a, b);
    AppendTwo(l, x, y);
    AppendTwo(l, y, x);
    AppendAllConcat(map[], b, a);
  }

  lemma FlattenTwo(a: Batch, b: Batch)
    ensures Flatten([a, b]) == a + b
  {
    assert [a, b][..1] == [a] && [a][..0] == [];
    assert Flatten([a]) == [] + a == a;
  }

  lemma AppendTwo(l: Labels, x: Sample, y: Sample)
    ensures SamplesAt(AppendAll(map[], [PointOf(l, x)] + [PointOf(l, y)]), l) == [x, y]
  {
    var r, q := PointOf(l, x), PointOf(l, y);
    AppendAllPerSeries(map[], [r] + [q], l);
    SamplesOfConcat([r], [q], l);
    assert [r][..0] == [] && [q][..0] == [];
    assert SamplesOf([r], l) == [x] && SamplesOf([q], l) == [y];
  }

  /** If every commit applies in log order, the replay is the head itself, in the same order. */
  lemma {:induction false} LogOrderKeepsOrder(es: seq<Step>)
    requires Legal(es) && forall e :: e in es && e.ApplyBatch? ==> e.i == 0
    ensures AppendAll(map[], Flatten(Run(es).logged)) == AppendAll(Run(es).head, Flatten(Run(es).waiting))
  {
    hide AppendAll;
    if es != [] {
      var k := |es| - 1;
      var t := Run(es[..k]);
      assert forall e :: e in es[..k] ==> e in es;
      assert es[k] in es;
      LogOrderKeepsOrder(es[..k]);
      match es[k] {
        case LogBatch(b) =>
          FlattenSnoc(t.logged, b);
          FlattenSnoc(t.waiting, b);
          AppendAllConcat(map[], Flatten(t.logged), b);
          AppendAllConcat(t.head, Flatten(t.waiting), b);
        case ApplyBatch(_) =>
          FlattenFirst(t.waiting);
          AppendAllConcat(t.head, t.waiting[0], Flatten(t.waiting[1..]));
          assert Without(t.waiting, 0) == t.waiting[1..];
      }
    }
  }

  ghost predicate Touches(b: Batch, l: Labels) {
    SamplesOf(b, l) != []
  }

  /** The batches that touch one series are applied in log order. */
  ghost predicate InOrderFor(es: seq<Step>, l: Labels) {
    es == [] ||
    (InOrderFor(es[..|es| - 1], l)
     && var waiting := Run(es[..|es| - 1]).waiting;
        var e := es[|es| - 1];
        (e.ApplyBatch? && e.i < |waiting| && Touches(waiting[e.i], l) ==>
           forall j :: 0 <= j < e.i ==> !Touches(waiting[j], l)))
  }

  lemma {:induction false} NoneTouches(bs: seq<Batch>, l: Labels)
    requires forall j :: 0 <= j < |bs| ==> !Touches(bs[j], l)
    ensures SamplesOf(Flatten(bs), l) == []
  {
    if bs != [] {
      var k := |bs| - 1;
      NoneTouches(bs[..k], l);
      SamplesOfConcat(Flatten(bs[..k]), bs[k], l);
    }
  }

  /** What applying batch `i` takes from the waiting samples of one series, when no earlier batch touches it. */
  lemma AppliedInOrder(bs: seq<Batch>, i: nat, l: Labels)
    requires i < |bs| && (Touches(bs[i], l) ==> forall j :: 0 <= j < i ==> !Touches(bs[j], l))
    ensures SamplesOf(Flatten(bs), l) == SamplesOf(bs[i], l) + SamplesOf(Flatten(Without(bs, i)), l)
  {
    hide Flatten, SamplesOf;
    var a, b := bs[..i], bs[i + 1..];
    assert bs == a + [bs[i]] + b;
    FlattenAppend(a + [bs[i]], b);
    FlattenAppend(a, b);
    FlattenSnoc(a, bs[i]);
    SamplesOfConcat(Flatten(a + [bs[i]]), Flatten(b), l);
    SamplesOfConcat(Flatten(a), bs[i], l);
    SamplesOfConcat(Flatten(a), Flatten(b), l);
    if Touches(bs[i], l) {
      NoneTouches(a, l);
    }
  }

  /** The logged samples of a series are the live ones followed by those that are waiting. */
  ghost predicate SeriesInOrder(s: System, l: Labels) {
    SamplesOf(Flatten(s.logged), l) == SamplesAt(s.head, l) + SamplesOf(Flatten(s.waiting), l)
  }

  lemma LoggingKeepsOrder(s: System, b: Batch, l: Labels)
    requires SeriesInOrder(s, l)
    ensures SeriesInOrder(Next(s, LogBatch(b)), l)
  {
    hide SamplesAt, SamplesOf, Flatten;
    FlattenSnoc(s.logged, b);
    FlattenSnoc(s.waiting, b);
    SamplesOfConcat(Flatten(s.logged), b, l);
    SamplesOfConcat(Flatten(s.waiting), b, l);
    var live, waiting, added := SamplesAt(s.head, l), SamplesOf(Flatten(s.waiting), l), SamplesOf(b, l);
    assert live + waiting + added == live + (waiting + added);
  }

  lemma ApplyingKeepsOrder(s: System, i: nat, l: Labels)
    requires SeriesInOrder(s, l) && i < |s.waiting|
    requires Touches(s.waiting[i], l) ==> forall j :: 0 <= j < i ==> !Touches(s.waiting[j], l)
    ensures SeriesInOrder(Next(s, ApplyBatch(i)), l)
  {
    hide SamplesAt, SamplesOf, Flatten, AppendAll, Touches, Without;
    AppliedInOrder(s.waiting, i, l);
    AppendAllPerSeries(s.head, s.waiting[i], l);
    var live, own, rest := SamplesAt(s.head, l), SamplesOf(s.waiting[i], l),
        SamplesOf(Flatten(Without(s.waiting, i)), l);
    assert live + (own + rest) == live + own + rest;
  }

  /** For the order within one series it is enough that the batches touching it are applied in log order: the replayed
      series is the live one followed by what is still waiting. */
  lemma {:induction false} SeriesOrderIsKept(es: seq<Step>, l: Labels)
    requires Legal(es) && InOrderFor(es, l)
    ensures SeriesInOrder(Run(es), l)
    ensures SamplesAt(AppendAll(map[], Flatten(Run(es).logged)), l)
            == SamplesAt(Run(es).head, l) + SamplesOf(Flatten(Run(es).waiting), l)
  {
    hide AppendAll, SamplesAt, SamplesOf, Flatten, Touches, Next, SeriesInOrder;
    if es == [] {
      NothingFlat(l);
    } else {
      var k := |es| - 1;
      SeriesOrderIsKept(es[..k], l);
      match es[k] {
        case LogBatch(b) => LoggingKeepsOrder(Run(es[..k]), b, l);
        case ApplyBatch(i) => ApplyingKeepsOrder(Run(es[..k]), i, l);
      }
    }
    ReplayedInOrder(Run(es), l);
  }

  lemma ReplayedInOrder(s: System, l: Labels)
    requires SeriesInOrder(s, l)
    ensures SamplesAt(AppendAll(map[], Flatten(s.logged)), l) == SamplesAt(s.head, l) + SamplesOf(Flatten(s.waiting), l)
  {
    hide AppendAll, SamplesOf, Flatten;
    AppendAllPerSeries(map[], Flatten(s.logged), l);
  }

  lemma NothingFlat(l: Labels)
    ensures SeriesInOrder(START, l)
  {
  }

  // ----- a commit between the two halves of a flush -----

  /** FlushHead copies the head under one lock and empties it under another. A batch committed in between is visible
      afterwards exactly when each of its points was already in the copied head or in a block. */
  lemma CommitInsideFlushIsVisibleIff(h: Head, open: seq<Block>, b: Block, batch: Batch)
    requires IsHeadBlock(b, h)
    ensures var during := AppendAll(h, batch);
            var cleared: Head := map[];
            HeadPoints(during) + BlocksPoints(open) <= HeadPoints(cleared) + BlocksPoints(open + [b])
            <==> RecordSet(batch) <= HeadPoints(h) + BlocksPoints(open)
  {
    hide IsHeadBlock, HeadPoints, BlocksPoints, SeriesPoints, RecordSet;
    HeadBlockPoints(b, h);
    AppendedPoints(h, batch);
    BlocksPointsSnoc(open, b);
    NoHeadPoints();
  }

  /** Such a batch, applied to the head only after FlushHead has emptied it, depends on the log. It stays there whole
      exactly when it ends below the limit of the segment, for the segment is then not rotated, and truncation spares
      it. */
  lemma {:induction false} LateBatchStaysIff(s: LogState, max: int, batch: Batch)
    requires AllClean(s.files) && s.current in s.files && (forall n :: n in s.files ==> n <= s.current)
    requires batch != [] && AllFit(batch) && forall i, j :: 0 <= i < j < |batch| ==> batch[i] != batch[j]
    ensures var after := LogAll(s, max, batch);
            var left := WalPoints(Truncated(after.files, after.current));
            && (RecordSet(batch) <= left <==> s.size + |EncodeAll(batch)| < max)
            && (batch[0] in left ==> RecordSet(batch) <= left)
  {
    hide LogAll, Replay, AllClean, AllFit, EncodeAll;
    var after := LogAll(s, max, batch);
    LoggedSegments(s, max, batch);
    StaysInSegmentIff(s, max, batch);
    var left := Truncated(after.files, after.current);
    if after.current == s.current {
      forall r | r in batch ensures r in WalPoints(left) {
        assert s.current in left && r in Replay(left[s.current]).records;
      }
    } else {
      assert batch[0] !in batch[1..];
      forall n | n in left ensures batch[0] !in Replay(left[n]).records {
      }
      assert batch[0] in RecordSet(batch) && batch[0] !in WalPoints(left);
    }
  }

  /** How the records of a batch lie in the log: the first in the segment that was open, and in later segments only
      others. */
  ghost predicate Spread(s: LogState, after: LogState, batch: Batch)
    requires s.current in s.files && batch != []
  {
    && AllClean(after.files) && after.current in after.files && after.current >= s.current
    && (forall n :: n in after.files ==> n <= after.current)
    && (after.current == s.current ==>
          Replay(after.files[s.current]).records == Replay(s.files[s.current]).records + batch)
    && (forall n, r :: n in after.files && n > s.current && r in Replay(after.files[n]).records ==> r in batch[1..])
  }

  lemma SpreadFirst(s: LogState, max: int, r: Record)
    requires AllClean(s.files) && s.current in s.files && (forall n :: n in s.files ==> n <= s.current) && Fits(r)
    ensures Spread(s, LogOne(s, max, r), [r])
  {
    hide Replay, Clean, Encode, Fits;
    CleanAppend(s.files[s.current], r);
    CleanEmpty();
  }

  lemma SpreadNext(s: LogState, t: LogState, max: int, init: Batch, r: Record)
    requires s.current in s.files && init != [] && Spread(s, t, init) && Fits(r)
    ensures Spread(s, LogOne(t, max, r), init + [r])
  {
    hide Replay, Clean, Encode, Fits;
    CleanAppend(t.files[t.current], r);
    CleanEmpty();
    assert (init + [r])[1..] == init[1..] + [r];
    var before := Replay(s.files[s.current]).records;
    assert before + init + [r] == before + (init + [r]);
  }

  lemma {:induction false} LoggedSegments(s: LogState, max: int, batch: Batch)
    requires AllClean(s.files) && s.current in s.files && (forall n :: n in s.files ==> n <= s.current)
    requires batch != [] && AllFit(batch)
    ensures Spread(s, LogAll(s, max, batch), batch)
  {
    hide Replay, AllClean, Encode, Fits, Spread, LogOne;
    var k := |batch| - 1;
    assert batch == batch[..k] + [batch[k]] && batch[k] in batch;
    if k > 0 {
      LoggedSegments(s, max, batch[..k]);
      SpreadNext(s, LogAll(s, max, batch[..k]), max, batch[..k], batch[k]);
    } else {
      assert batch[..0] == [] && batch == [batch[0]];
      SpreadFirst(s, max, batch[0]);
    }
  }
}
