/** Flushing, expiring and compacting outside the guards that the engine's runs keep: what is lost, and exactly when. */
module Hazards {
  import opened Types
  import opened Codec
  import opened Wal
  import opened WalLaws
  import opened Heads
  import opened Blocks
  import opened Compaction
  import opened CompactionLaws
  import opened Disks
  import opened Engine
  import opened EngineLaws
  import opened Durability
  import opened Recovery
  import opened EngineRuns
  import opened Calls
  import Interleaving

  // ----- flushing into an occupied directory -----

  /** The disk after FlushHead, whether or not its directory was free. */
  ghost function DiskAfterFlush(s: State, b: Block): Snapshot {
    Snapshot(Truncated(s.log.files, s.log.current), s.dirs[b.dir := Complete(b)])
  }

  /** What a flush leaves to be recovered: the head's points, those of the segments that are kept, and those of the
      other directories. */
  lemma AfterFlush(s: State, b: Block)
    requires IsHeadBlock(b, s.head)
    ensures Recoverable(DiskAfterFlush(s, b))
            == HeadPoints(s.head) + WalPoints(DiskAfterFlush(s, b).files) + DirPoints(s.dirs - {b.dir})
    ensures Recoverable(DiskAfterFlush(s, b)) <= DiskPoints(s) + HeadPoints(s.head)
  {
    hide WalPoints, DirPoints, HeadPoints, SeriesPoints, IsHeadBlock, Truncated, OwnPoints;
    HeadBlockPoints(b, s.head);
    SplitPoints(s.dirs, b.dir);
    PutPoints(s.dirs, b.dir, Complete(b));
    BackedPoints(b, s.dirs[b.dir := Complete(b)]);
    FewerWalPoints(s.log.files, s.log.current);
  }

  /** After any run, a flush leaves every label set and time that is due from the horizon on exactly when each one that
      was overwritten is also in the head, in the current segment, or in another directory. */
  lemma {:induction false} FlushKeepsDueIff(hash: Labels -> nat, es: seq<Action>, b: Block)
    requires Legal(hash, START, es) && AtRest(Run(START, es)) && IsHeadBlock(b, Run(START, es).head)
    ensures var s := Run(START, es);
            var after := DiskAfterFlush(s, b);
            var others := HeadPoints(s.head) + WalPoints(after.files) + DirPoints(s.dirs - {b.dir});
            (forall p :: p in Due(es) && p.t >= Horizon(es) ==> HasKey(Recoverable(after), p))
            <==> (forall p :: p in OwnPoints(b.dir, s.dirs) && p.t >= Horizon(es) ==> HasKey(others, p))
  {
    hide Legal, Run, Due, Horizon, NothingMergedOrExpired, WalPoints, DirPoints, HeadPoints, BlocksPoints, SeriesPoints,
         IsHeadBlock, DiskAfterFlush, OwnPoints, Listed, Recoverable;
    var s := Run(START, es);
    var others := HeadPoints(s.head) + WalPoints(DiskAfterFlush(s, b).files) + DirPoints(s.dirs - {b.dir});
    var own := OwnPoints(b.dir, s.dirs);
    DurableOverRuns(hash, es);
    QueriesSeeWhatIsDue(hash, es);
    RestIsListed(hash, es);
    ListedPoints(s.open, s.dirs);
    SplitPoints(s.dirs, b.dir);
    AfterFlush(s, b);
    if forall p :: p in own && p.t >= Horizon(es) ==> HasKey(others, p) {
      forall p | p in Due(es) && p.t >= Horizon(es) ensures HasKey(others, p) {
        var q :| q in LivePoints(s) && q.labels == p.labels && q.t == p.t;
        KeyElsewhere(others, own, q);
      }
    }
    assert own <= Due(es);
  }

  /** A flush that fails, because a value cannot be encoded, has emptied its directory all the same. It leaves what is
      due from the horizon on exactly when each label set and time that was there is also in the log or in another
      directory. */
  lemma {:induction false} FailedFlushKeepsDueIff(hash: Labels -> nat, es: seq<Action>, b: Block)
    requires Legal(hash, START, es) && AtRest(Run(START, es)) && IsHeadBlock(b, Run(START, es).head)
    ensures var s := Run(START, es);
            var left := WalPoints(s.log.files) + DirPoints(s.dirs - {b.dir});
            && Recoverable(Snapshot(s.log.files, s.dirs[b.dir := MetaAlone(b)])) == left
            && ((forall p :: p in Due(es) && p.t >= Horizon(es) ==> HasKey(left, p))
                <==> (forall p :: p in OwnPoints(b.dir, s.dirs) && p.t >= Horizon(es) ==> HasKey(left, p)))
  {
    hide Legal, Run, Due, Horizon, NothingMergedOrExpired, WalPoints, DirPoints, SeriesPoints, IsHeadBlock, OwnPoints,
         Recoverable, SingleValued, AtRest;
    var s := Run(START, es);
    var left := WalPoints(s.log.files) + DirPoints(s.dirs - {b.dir});
    var own := OwnPoints(b.dir, s.dirs);
    DurableOverRuns(hash, es);
    AfterFailedFlush(s, b);
    if forall p :: p in own && p.t >= Horizon(es) ==> HasKey(left, p) {
      forall p | p in Due(es) && p.t >= Horizon(es) ensures HasKey(left, p) {
        var q :| q in DiskPoints(s) && q.labels == p.labels && q.t == p.t;
        KeyElsewhere(left, own, q);
      }
    }
    assert own <= Due(es);
  }

  lemma AfterFailedFlush(s: State, b: Block)
    ensures Recoverable(Snapshot(s.log.files, s.dirs[b.dir := MetaAlone(b)]))
            == WalPoints(s.log.files) + DirPoints(s.dirs - {b.dir})
    ensures DiskPoints(s) == WalPoints(s.log.files) + DirPoints(s.dirs - {b.dir}) + OwnPoints(b.dir, s.dirs)
  {
    hide WalPoints, DirPoints, SeriesPoints;
    SplitPoints(s.dirs, b.dir);
    PutPoints(s.dirs, b.dir, MetaAlone(b));
    assert OwnPoints(b.dir, s.dirs[b.dir := MetaAlone(b)]) == {};
  }

  lemma KeyElsewhere(others: set<Record>, own: set<Record>, q: Record)
    requires q in others || (q in own && HasKey(others, q))
    ensures HasKey(others, q)
  {
  }

  /** While nothing has been merged or expired, the disk holds all that is due after a flush exactly when every point of
      the block that was overwritten is in the head, in the current segment, or in another directory. */
  lemma {:induction false} FlushIsDurableIff(hash: Labels -> nat, es: seq<Action>, b: Block)
    requires Legal(hash, START, es) && AtRest(Run(START, es)) && NothingMergedOrExpired(es)
    requires IsHeadBlock(b, Run(START, es).head)
    ensures var s := Run(START, es);
            var after := DiskAfterFlush(s, b);
            Recoverable(after) == Due(es)
            <==> OwnPoints(b.dir, s.dirs) <= HeadPoints(s.head) + WalPoints(after.files) + DirPoints(s.dirs - {b.dir})
  {
    hide Legal, Run, Due, Horizon, NothingMergedOrExpired, WalPoints, DirPoints, HeadPoints, BlocksPoints, SeriesPoints,
         IsHeadBlock, DiskAfterFlush, OwnPoints, Listed, Recoverable;
    var s := Run(START, es);
    DurableOverRuns(hash, es);
    QueriesSeeWhatIsDue(hash, es);
    RestIsListed(hash, es);
    ListedPoints(s.open, s.dirs);
    SplitPoints(s.dirs, b.dir);
    AfterFlush(s, b);
  }

  lemma RestIsListed(hash: Labels -> nat, es: seq<Action>)
    requires Legal(hash, START, es) && AtRest(Run(START, es))
    ensures Listed(Run(START, es).open, Run(START, es).dirs)
    ensures GoodLog(Run(START, es).log)
    ensures CleanTail(Run(START, es).log) ==> AllClean(Run(START, es).log.files)
  {
    hide Legal, Run, Listed, Covered, AllClean, AllFinish, CleanTail, Safe, DataWithin, WalPoints, DirPoints,
         LivePoints, AppendAll, Logged, RecordSet, Unapplied;
    StartHolds(hash);
    RunKeeps(hash, START, es);
    CleanLog(Run(START, es).log);
  }

  lemma FewerWalPoints(files: Files, k: int)
    ensures WalPoints(Truncated(files, k)) <= WalPoints(files)
  {
    hide Replay;
  }

  /** A store that is restarted right after a flush which had no segment to remove has the same head again. Its next
      flush goes into the same directory and loses nothing: it is a legal continuation of the run. */
  lemma {:induction false} RestartBetweenFlushes(hash: Labels -> nat, es: seq<Action>, b: Block, n: nat,
                                                 open: seq<Block>, c: Block)
    requires Legal(hash, START, es) && AtRest(Run(START, es)) && HeadFollowsLog(es)
    requires Legal(hash, START, es + FlushEvents(b, []) + [Crash] + [Reopen(n, open)])
    requires Enabled(hash, Run(START, es), BeginFlush(b))
    requires IsHeadBlock(c, Run(START, es + FlushEvents(b, []) + [Crash] + [Reopen(n, open)]).head)
    ensures c.dir == b.dir
    ensures Legal(hash, START, es + FlushEvents(b, []) + [Crash] + [Reopen(n, open)] + FlushEvents(c, []))
  {
    hide Legal, Run, HeadFollowsLog, Due, FlushEvents, IsHeadBlock, OwnPoints, HeadPoints, AppendAll, Logged,
         LogRecords, Reopened;
    var flushed := es + FlushEvents(b, []);
    FlushRun(hash, es, b, [], []);
    LastEvent(hash, flushed + [Crash], Reopen(n, open));
    LastEvent(hash, flushed, Crash);
    var s, t := Run(START, es), Run(START, flushed + [Crash] + [Reopen(n, open)]);
    SameHeadAgain(hash, es, n);
    assert t.head == s.head;
    HeadBlocksAgree(b, c, s.head);
    CompleteData(s.dirs, b);
    FlushRun(hash, flushed + [Crash] + [Reopen(n, open)], c, [], []);
  }

  lemma CompleteData(dirs: Dirs, b: Block)
    ensures OwnPoints(b.dir, dirs[b.dir := Complete(b)]) == SeriesPoints(b.series)
  {
  }

  lemma SameHeadAgain(hash: Labels -> nat, es: seq<Action>, n: nat)
    requires Legal(hash, START, es) && AtRest(Run(START, es)) && HeadFollowsLog(es)
    requires LatestSegment(Run(START, es).log.files, n)
    ensures AppendAll(map[], LogRecords(Run(START, es).log.files, n + 1)) == Run(START, es).head
  {
    hide Legal, Run, HeadFollowsLog, AppendAll, LogRecords, AllClean, Safe, ListMatches, DiskPoints, LivePoints,
         RecordSet, Covered;
    StartHolds(hash);
    RunKeeps(hash, START, es);
    VerbatimIs(hash, es);
    NothingUnapplied(Run(START, es));
    assert n == Run(START, es).log.current;
  }

  /** All blocks of one head have the same time range and directory. */
  lemma HeadBlocksAgree(b: Block, c: Block, h: Head)
    requires IsHeadBlock(b, h) && IsHeadBlock(c, h)
    ensures c.dir == b.dir && SeriesPoints(c.series) == SeriesPoints(b.series) == HeadPoints(h)
  {
    hide IsHeadBlock, HeadPoints, SeriesPoints;
    HeadBlockPoints(b, h);
    HeadBlockPoints(c, h);
    LeastIsLeast(b, c, h);
    LeastIsLeast(c, b, h);
    assert b.dir == Flushed(b.meta.minTime) && c.dir == Flushed(c.meta.minTime) by {
      NamedByTime(b, h);
      NamedByTime(c, h);
    }
  }

  lemma NamedByTime(b: Block, h: Head)
    requires IsHeadBlock(b, h)
    ensures b.dir == Flushed(b.meta.minTime)
  {
  }

  lemma LeastIsLeast(b: Block, c: Block, h: Head)
    requires IsHeadBlock(b, h) && IsHeadBlock(c, h)
    ensures b.meta.minTime <= c.meta.minTime
  {
    var s, x :| s in c.series && x in s.samples && x.t == c.meta.minTime;
    assert Series(s.lset, h[s.lset]) in b.series;
  }

  // ----- a commit inside a flush -----

  /** A batch is logged and appended to the head after FlushHead has copied it and before it is emptied. The flush keeps
      all that was due. But if the first record is new, no query sees it until the next restart, which brings the batch
      back exactly when it had ended below the limit of the segment. */
  lemma {:induction false} CommitInsideFlush(hash: Labels -> nat, es: seq<Action>, b: Block, max: int,
                                             batch: seq<Record>)
    requires Legal(hash, START, es) && AtRest(Run(START, es)) && IsHeadBlock(b, Run(START, es).head)
    requires OwnPoints(b.dir, Run(START, es).dirs) <= HeadPoints(Run(START, es).head)
    requires batch != [] && AllFit(batch) && forall i, j :: 0 <= i < j < |batch| ==> batch[i] != batch[j]
    requires batch[0] !in Due(es) && CleanTail(Run(START, es).log)
    ensures var s := Run(START, es);
            var log := LogAll(s.log, max, batch);
            var disk := Recoverable(Snapshot(Truncated(log.files, log.current), s.dirs[b.dir := Complete(b)]));
            && (forall p :: p in Due(es) && p.t >= Horizon(es) ==> HasKey(disk, p))
            && batch[0] !in BlocksPoints(s.open + [b])
            && (RecordSet(batch) <= disk <==> s.log.size + |EncodeAll(batch)| < max)
  {
    hide Legal, Run, Due, Horizon, NothingMergedOrExpired, WalPoints, DirPoints, HeadPoints, BlocksPoints, SeriesPoints,
         IsHeadBlock, OwnPoints, Listed, LogAll, AllFit, EncodeAll, Truncated, AllClean, CleanTail;
    var s := Run(START, es);
    QueriesSeeWhatIsDue(hash, es);
    RestIsListed(hash, es);
    ListedPoints(s.open, s.dirs);
    SplitPoints(s.dirs, b.dir);
    PutPoints(s.dirs, b.dir, Complete(b));
    BackedPoints(b, s.dirs[b.dir := Complete(b)]);
    HeadBlockPoints(b, s.head);
    BlocksPointsSnoc(s.open, b);
    var dirs' := s.dirs[b.dir := Complete(b)];
    assert DirPoints(dirs') == LivePoints(s);
    Interleaving.LateBatchStaysIff(s.log, max, batch);
    var log := LogAll(s.log, max, batch);
    var disk := Recoverable(Snapshot(Truncated(log.files, log.current), dirs'));
    forall p | p in Due(es) && p.t >= Horizon(es) ensures HasKey(disk, p) {
      var q :| q in LivePoints(s) && q.labels == p.labels && q.t == p.t;
      assert q in disk;
    }
    assert batch[0] in RecordSet(batch);
  }

  // ----- expiring blocks that share a directory -----

  /** After the age pass the kept blocks stand in their directories exactly when blocks that share a directory expire
      together, as they do when no two listed blocks share one. */
  lemma AgePassKeepsBlocksIff(open: seq<Block>, dirs: Dirs, cutoff: Int64)
    requires Listed(open, dirs)
    ensures (forall b :: b in Unexpired(open, cutoff) ==> Stands(b, WithoutExpired(dirs, open, cutoff)))
            <==> ExpireTogether(open, cutoff)
    ensures DistinctDirs(open) ==> ExpireTogether(open, cutoff)
  {
    hide SeriesPoints, WithoutExpired, Unexpired;
    var dirs' := WithoutExpired(dirs, open, cutoff);
    UnexpiredMembers(open, cutoff);
    ExpiredAreGone(dirs, open, cutoff);
    if ExpireTogether(open, cutoff) {
      forall b | b in Unexpired(open, cutoff) ensures Stands(b, dirs') {
        OthersRemain(dirs, open, cutoff, b.dir);
        assert Stands(b, dirs);
      }
    }
    if !ExpireTogether(open, cutoff) {
      var a, b :| a in open && b in open && a.dir == b.dir && a.meta.maxTime < cutoff && b.meta.maxTime >= cutoff;
      assert b in Unexpired(open, cutoff) && !Stands(b, dirs');
    }
    if DistinctDirs(open) {
      forall a, b | a in open && b in open && a.dir == b.dir ensures a == b {
        var i :| 0 <= i < |open| && open[i] == a;
        var j :| 0 <= j < |open| && open[j] == b;
        assert i == j;
      }
    }
  }

  lemma {:induction false} OthersRemain(dirs: Dirs, open: seq<Block>, cutoff: Int64, d: DirName)
    requires forall a :: a in open && a.dir == d ==> a.meta.maxTime >= cutoff
    ensures d in WithoutExpired(dirs, open, cutoff) <==> d in dirs
    ensures d in dirs ==> WithoutExpired(dirs, open, cutoff)[d] == dirs[d]
  {
    if open != [] {
      var k := |open| - 1;
      assert open == open[..k] + [open[k]];
      OthersRemain(dirs, open[..k], cutoff, d);
    }
  }

  /** After any run, the age pass leaves every label set and time that is due from the later of horizon and cutoff on
      exactly when each one in the directory of an expired block is also in the log or in a directory that is left. */
  lemma {:induction false} AgePassKeepsDueIff(hash: Labels -> nat, es: seq<Action>, cutoff: Int64)
    requires Legal(hash, START, es) && AtRest(Run(START, es))
    ensures var s := Run(START, es);
            var left := Recoverable(Snapshot(s.log.files, WithoutExpired(s.dirs, s.open, cutoff)));
            var h := LaterOf(Horizon(es), cutoff);
            (forall p :: p in Due(es) && p.t >= h ==> HasKey(left, p))
            <==> (forall a, p :: a in s.open && a.meta.maxTime < cutoff && p in OwnPoints(a.dir, s.dirs) && p.t >= h ==>
                    HasKey(left, p))
  {
    hide Legal, Run, Due, Horizon, NothingMergedOrExpired, WalPoints, DirPoints, SeriesPoints, OwnPoints,
         WithoutExpired;
    var s := Run(START, es);
    var dirs' := WithoutExpired(s.dirs, s.open, cutoff);
    var left := Recoverable(Snapshot(s.log.files, dirs'));
    var h := LaterOf(Horizon(es), cutoff);
    DurableOverRuns(hash, es);
    if forall a, p :: a in s.open && a.meta.maxTime < cutoff && p in OwnPoints(a.dir, s.dirs) && p.t >= h
        ==> HasKey(left, p) {
      forall p | p in Due(es) && p.t >= h ensures HasKey(left, p) {
        var q :| q in DiskPoints(s) && q.labels == p.labels && q.t == p.t;
        if q !in left {
          LostToExpiry(s.dirs, s.open, cutoff, q);
          var a :| a in s.open && a.meta.maxTime < cutoff && q in OwnPoints(a.dir, s.dirs);
          assert HasKey(left, q);
        }
      }
    }
    forall a: Block, p: Record | p in OwnPoints(a.dir, s.dirs) ensures p in Due(es) {
      SplitPoints(s.dirs, a.dir);
    }
  }

  /** What the age pass takes from the directories was in that of an expired block. */
  lemma LostToExpiry(dirs: Dirs, open: seq<Block>, cutoff: Int64, q: Record)
    requires q in DirPoints(dirs) && q !in DirPoints(WithoutExpired(dirs, open, cutoff))
    ensures exists a :: a in open && a.meta.maxTime < cutoff && q in OwnPoints(a.dir, dirs)
  {
    hide SeriesPoints, WithoutExpired, DirPoints;
    var dirs' := WithoutExpired(dirs, open, cutoff);
    DirPoint(dirs, q);
    DirPoint(dirs', q);
    var d :| IsWhole(d, dirs) && q in SeriesPoints(BlockAt(d, dirs).series);
    OnlyExpiredGo(dirs, open, cutoff, d);
    if a :| a in open && a.meta.maxTime < cutoff && a.dir == d {
      assert q in OwnPoints(a.dir, dirs);
    }
  }

  /** A directory that the age pass removes was that of an expired block. */
  lemma {:induction false} OnlyExpiredGo(dirs: Dirs, open: seq<Block>, cutoff: Int64, d: DirName)
    requires IsWhole(d, dirs)
    ensures var left := WithoutExpired(dirs, open, cutoff);
            (IsWhole(d, left) && BlockAt(d, left) == BlockAt(d, dirs))
            || exists a :: a in open && a.meta.maxTime < cutoff && a.dir == d
  {
    if forall a :: a in open && a.dir == d ==> a.meta.maxTime >= cutoff {
      OthersRemain(dirs, open, cutoff, d);
    }
  }

  // ----- compacting onto a source -----

  /** Compaction keeps every label set and time of the blocks on disk exactly when its target is none of the sources,
      or there is nothing to keep. */
  lemma {:induction false} CompactionSurvivesIff(hash: Labels -> nat, es: seq<Action>, merged: Block)
    requires Legal(hash, START, es) && AtRest(Run(START, es))
    requires IsMerge(hash, merged.series, AllSeriesOf(Run(START, es).open))
             && NoCollision(hash, AllSeriesOf(Run(START, es).open))
    ensures var s := Run(START, es);
            (forall p :: p in DirPoints(s.dirs) ==> HasKey(DirPoints(CompactedDirs(s.dirs, merged, s.open)), p))
            <==> (forall b :: b in s.open ==> b.dir != merged.dir) || DirPoints(s.dirs) == {}
  {
    hide Legal, Run, IsMerge, NoCollision, DirPoints, SeriesPoints, BlocksPoints, CompactedDirs, Listed;
    var s := Run(START, es);
    var dirs' := CompactedDirs(s.dirs, merged, s.open);
    RestIsListed(hash, es);
    ListedPoints(s.open, s.dirs);
    if b :| b in s.open && b.dir == merged.dir {
      OntoSourceEmpties(s.dirs, merged, s.open, b);
      if p :| p in DirPoints(s.dirs) {
        assert !HasKey(DirPoints(dirs'), p);
      }
    } else {
      TargetSurvives(s.dirs, merged, s.open);
      BackedPoints(merged, dirs');
      PointsOfBlocks(s.open);
      MergeKeepsKeys(hash, merged.series, AllSeriesOf(s.open));
      forall p | p in DirPoints(s.dirs) ensures HasKey(DirPoints(dirs'), p) {
        var q :| q in SeriesPoints(merged.series) && q.labels == p.labels && q.t == p.t;
        assert q in DirPoints(dirs');
      }
    }
  }

  lemma TargetSurvives(dirs: Dirs, merged: Block, open: seq<Block>)
    requires forall b :: b in open ==> b.dir != merged.dir
    ensures Backed(merged, CompactedDirs(dirs, merged, open))
  {
    assert merged.dir !in set b | b in open :: b.dir;
  }

  /** A compaction whose target is one of its sources leaves not one block on disk. */
  lemma OntoSourceEmpties(dirs: Dirs, merged: Block, open: seq<Block>, b: Block)
    requires Listed(open, dirs) && b in open && b.dir == merged.dir
    ensures DirPoints(CompactedDirs(dirs, merged, open)) == {}
  {
    hide SeriesPoints;
    var dirs' := CompactedDirs(dirs, merged, open);
    var gone := set x | x in open :: x.dir;
    assert forall x :: x in open ==> x.dir in gone;
    forall d ensures !IsWhole(d, dirs') {
      if d in dirs' {
        assert d != merged.dir && d !in gone && dirs'[d] == dirs[d];
        assert IsWhole(d, dirs) ==> BlockAt(d, dirs).dir == d;
      }
    }
  }

  /** Events that do not replace the block list; flushes only add to it. */
  ghost predicate OnlyGrows(es: seq<Action>) {
    forall e :: e in es ==> !e.Reopen? && !e.EndMerge? && !e.EndRetention?
  }

  lemma GrowStep(s: State, e: Action)
    requires !e.Reopen? && !e.EndMerge? && !e.EndRetention?
    ensures s.open <= Apply(s, e).open
  {
    hide AppendAll, LogRecords, Unexpired, Removed, RecordSet, Reopened, Rotate, WriteRecord, InFlight, StageOn;
  }

  lemma {:induction false} ListGrows(s: State, es: seq<Action>)
    requires OnlyGrows(es)
    ensures s.open <= Run(s, es).open
  {
    hide Apply;
    if es != [] {
      var k := |es| - 1;
      assert es[k] in es && forall e :: e in es[..k] ==> e in es;
      ListGrows(s, es[..k]);
      GrowStep(Run(s, es[..k]), es[k]);
    }
  }

  /** If the first of the compacted blocks had the least time, as it has in a list that openBlocks built, then as long
      as the list only grows, the next compaction targets the directory of its own first source. */
  lemma {:induction false} NextCompactionHitsItsSource(hash: Labels -> nat, dataFirst: DirName -> bool,
                                                       es: seq<Action>, merged: Block,
                                                       more: seq<Action>)
    requires Legal(hash, START, es) && AtRest(Run(START, es)) && Enabled(hash, Run(START, es), BeginMerge(merged))
    requires var open := Run(START, es).open;
             && open != [] && (forall b :: b in open ==> open[0].meta.minTime <= b.meta.minTime)
             && merged.dir == Compacted(open[0].meta.minTime)
    requires OnlyGrows(more)
    ensures var open := Run(START, es + MergeEvents(dataFirst, merged, Run(START, es).open) + more).open;
            open != [] && open[0] == merged && open[0].dir == Compacted(open[0].meta.minTime)
  {
    hide Legal, Run, MergeEvents, IsMerge, NoCollision, Due, CallPassed, MergeHistory, OwnPoints, BlocksPoints,
         CompactedDirs;
    var s := Run(START, es);
    MergeRun(hash, dataFirst, es, merged, []);
    RunAppend(START, es + MergeEvents(dataFirst, merged, s.open), more);
    ListGrows(MergedState(s, merged), more);
    assert s.open[0] in s.open;
  }

  /** After any run, compacting a list whose first block lies in its own target leaves not one block on disk. */
  lemma {:induction false} RecompactionEmptiesDisk(hash: Labels -> nat, es: seq<Action>, merged: Block)
    requires Legal(hash, START, es) && AtRest(Run(START, es))
    requires var open := Run(START, es).open;
             open != [] && open[0].dir == Compacted(open[0].meta.minTime)
                 && merged.dir == Compacted(open[0].meta.minTime)
    ensures DirPoints(CompactedDirs(Run(START, es).dirs, merged, Run(START, es).open)) == {}
  {
    hide Legal, Run, DirPoints, CompactedDirs;
    RestIsListed(hash, es);
    OntoSourceEmpties(Run(START, es).dirs, merged, Run(START, es).open, Run(START, es).open[0]);
  }

  // ----- runs that lose what is due -----

  function OneSeries(r: Record): Series {
    Series(r.labels, [Sample(r.t, r.v)])
  }

  /** The block that FlushHead builds from a head with one sample. */
  function OneBlock(r: Record): Block {
    Block(Flushed(r.t), BlockMeta(r.t, r.t, 1), [OneSeries(r)])
  }

  /** The block of a head with two samples of different series, the first one not later. */
  function TwoBlock(r: Record, q: Record): Block {
    Block(Flushed(r.t), BlockMeta(r.t, q.t, 2), [OneSeries(r), OneSeries(q)])
  }

  lemma AppendSingle(h: Head, r: Record)
    ensures AppendAll(h, [r]) == AppendOne(h, r)
  {
    assert [r][..|[r]| - 1] == [];
  }

  lemma OneIsHeadBlock(r: Record)
    ensures IsHeadBlock(OneBlock(r), AppendAll(map[], [r]))
    ensures SeriesPoints(OneBlock(r).series) == {r}
  {
    var b := OneBlock(r);
    AppendSingle(map[], r);
    assert [] + [Sample(r.t, r.v)] == [Sample(r.t, r.v)];
    assert OneSeries(r) in b.series && Sample(r.t, r.v) in OneSeries(r).samples;
  }

  lemma TwoIsHeadBlock(r: Record, q: Record)
    requires r.labels != q.labels && r.t <= q.t
    ensures IsHeadBlock(TwoBlock(r, q), AppendAll(AppendAll(map[], [r]), [q]))
  {
    var b := TwoBlock(r, q);
    AppendSingle(map[], r);
    AppendSingle(AppendAll(map[], [r]), q);
    assert [] + [Sample(r.t, r.v)] == [Sample(r.t, r.v)] && [] + [Sample(q.t, q.v)] == [Sample(q.t, q.v)];
    assert b.series[0] == OneSeries(r) && b.series[1] == OneSeries(q);
    assert OneSeries(r) in b.series && Sample(r.t, r.v) in OneSeries(r).samples;
    assert OneSeries(q) in b.series && Sample(q.t, q.v) in OneSeries(q).samples;
  }

  /** A log whose only segment is the open one. */
  function SoleSegment(n: nat, content: Bytes): LogState {
    LogState(map[n := content], n, |content|)
  }

  lemma LogFills(n: nat, max: int, r: Record)
    requires |Encode(r)| >= max
    ensures LogAll(SoleSegment(n, []), max, [r]) == LogState(map[n := Encode(r), n + 1 := []], n + 1, 0)
  {
    assert [r][..0] == [];
    assert [] + Encode(r) == Encode(r);
    assert map[n := []][n := Encode(r)][n + 1 := []] == map[n := Encode(r), n + 1 := []];
  }

  lemma RecordsOfOne(r: Record)
    requires Fits(r)
    ensures Replay(Encode(r)) == Replayed([r], Finished) && Replay([]) == Replayed([], Finished)
  {
    ConcatSnoc(Encode, [], r);
    assert [] + [r] == [r] && [] + Encode(r) == Encode(r);
    ReplayAll([r]);
    ReplayAll([]);
  }

  /** A store that has just been opened on an empty directory. */
  lemma Opened(hash: Labels -> nat)
    ensures var s := Run(START, [Reopen(0, [])]);
            && Legal(hash, START, [Reopen(0, [])])
            && s == START.(log := SoleSegment(0, []), phase := Idle, verbatim := true) && Due([Reopen(0, [])]) == {}
  {
    hide Legal, Run;
    assert LogRecords(map[], 1) == [] by {
      assert LogRecords(map[], 0) == [];
    }
    FirstStep(hash, START, Reopen(0, []), START.(log := SoleSegment(0, []), phase := Idle, verbatim := true));
    assert [Reopen(0, [])][..0] == [];
  }

  // ----- a flush that overwrites the only copy -----

  /** Two points are committed, of which the first fills a segment. */
  lemma TwoCommits(hash: Labels -> nat, max: int, r: Record, q: Record) returns (es: seq<Action>)
    requires Fits(r) && Fits(q) && |Encode(q)| < max <= |Encode(r)|
    ensures Legal(hash, START, es) && r in Due(es)
    ensures Run(START, es)
            == START.(log := LogState(map[0 := Encode(r), 1 := Encode(q)], 1, |Encode(q)|), phase := Idle,
                                     head := AppendAll(AppendAll(map[], [r]), [q]), promised := {r, q},
                                         verbatim := true)
  {
    hide Legal, Run, Due, CommitEvents, LogAll, AppendAll, CallPassed, LogHistory, Encode;
    Opened(hash);
    es := [Reopen(0, [])];
    var s0 := Run(START, es);
    assert AllFit([r]) && AllFit([q]);
    assert RecordSet([r]) == {r} && RecordSet([q]) == {q};
    CommitRun(hash, es, s0, max, [r], []);
    es := es + CommitEvents(s0.log, max, [r]);
    LogFills(0, max, r);
    var s1 := Run(START, es);
    CommitRun(hash, es, s1, max, [q], []);
    es := es + CommitEvents(s1.log, max, [q]);
    LogFits(map[0 := Encode(r)], 1, max, q);
    assert {} + {r} + {q} == {r, q};
  }

  lemma LogFits(older: Files, n: nat, max: int, r: Record)
    requires |Encode(r)| < max
    ensures LogAll(LogState(older[n := []], n, 0), max, [r]) == LogState(older[n := Encode(r)], n, |Encode(r)|)
  {
    hide Encode;
    assert [r][..|[r]| - 1] == [];
    assert [] + Encode(r) == Encode(r);
    assert older[n := []][n := Encode(r)] == older[n := Encode(r)];
  }

  /** They are flushed. */
  lemma TwoFlushed(hash: Labels -> nat, max: int, r: Record, q: Record) returns (es: seq<Action>)
    requires Fits(r) && Fits(q) && |Encode(q)| < max <= |Encode(r)| && r.labels != q.labels && r.t == q.t
    ensures Legal(hash, START, es) && r in Due(es)
    ensures var s := Run(START, es);
            && AtRest(s) && s.log.files == map[1 := Encode(q)] && s.log.current == 1
            && s.dirs == map[Flushed(q.t) := Complete(TwoBlock(r, q))] && s.horizon == MIN_TIME
  {
    hide Legal, Run, Due, Horizon, FlushEvents, AppendAll, CallPassed, FlushHistory, Encode, IsHeadBlock, HeadPoints,
         LogRecords, Fits, WithoutSegments;
    es := TwoCommits(hash, max, r, q);
    var b := TwoBlock(r, q);
    TwoIsHeadBlock(r, q);
    FlushRun(hash, es, b, [0], []);
    OlderIsRemoved(Encode(r), Encode(q));
    es := es + FlushEvents(b, [0]);
  }

  lemma Restarted(hash: Labels -> nat, es: seq<Action>, n: nat, open: seq<Block>)
    requires Legal(hash, START, es) && !Run(START, es).phase.Down?
    requires LatestSegment(Run(START, es).log.files, n) && AllFinish(Run(START, es).log.files)
    requires OpenedFrom(open, Run(START, es).dirs)
    ensures var s := Run(START, es);
            var es' := es + [Crash] + [Reopen(n, open)];
            && Legal(hash, START, es') && Due(es) <= Due(es')
            && Run(START, es') == s.(log := Reopened(s.log.files, n),
                                     head := AppendAll(map[], LogRecords(s.log.files, n + 1)),
                                     open := open, waiting := [], verbatim := true, phase := Idle, upkeep := Quiet,
                                     promised := s.promised + RecordSet(Unapplied(s)))
  {
    hide Legal, Run, Due, LatestSegment, AllFinish, OpenedFrom, Reopened, LogRecords, AppendAll, Unapplied, RecordSet;
    Extend(hash, START, es, Crash);
    Extend(hash, START, es + [Crash], Reopen(n, open));
    var es' := es + [Crash] + [Reopen(n, open)];
    assert es'[..|es|] == es;
    DueGrows(hash, es', |es|);
  }

  /** After a restart only the second is in the head. */
  lemma FlushAndRestart(hash: Labels -> nat, max: int, r: Record, q: Record) returns (es: seq<Action>)
    requires Fits(r) && Fits(q) && |Encode(q)| < max <= |Encode(r)| && r.labels != q.labels && r.t == q.t
    ensures Legal(hash, START, es) && r in Due(es) && Horizon(es) == MIN_TIME
    ensures var s := Run(START, es);
            && AtRest(s) && s.log.files == map[1 := Encode(q)] && s.log.current == 1
            && s.head == AppendAll(map[], [q]) && s.dirs == map[Flushed(q.t) := Complete(TwoBlock(r, q))]
  {
    hide Legal, Run, Due, Horizon, AppendAll, Encode, LogRecords, Fits, OpenedFrom, AllFinish, Reopened, RecordSet;
    es := TwoFlushed(hash, max, r, q);
    OpenedAgain(TwoBlock(r, q));
    OneSegment(1, q);
    Restarted(hash, es, 1, [TwoBlock(r, q)]);
    OneReopened(1, Encode(q));
    es := es + [Crash] + [Reopen(1, [TwoBlock(r, q)])];
    FewEventsHorizon(es);
  }

  lemma OneReopened(n: nat, content: Bytes)
    ensures Reopened(map[n := content], n).current == n
  {
  }

  lemma FewEventsHorizon(es: seq<Action>)
    ensures Horizon(es) == Run(START, es).horizon
  {
    HorizonAgrees(es);
  }

  lemma OlderIsRemoved(a: Bytes, b: Bytes)
    ensures WithoutSegments(map[0 := a, 1 := b], [0]) == map[1 := b]
  {
    assert [0][..|[0]| - 1] == [];
    assert map[0 := a, 1 := b] - {0} == map[1 := b];
  }

  lemma OpenedAgain(b: Block)
    ensures OpenedFrom([b], map[b.dir := Complete(b)])
  {
    assert BlockAt(b.dir, map[b.dir := Complete(b)]) == b;
    assert b in [b];
  }

  lemma OneSegment(n: nat, r: Record)
    requires Fits(r)
    ensures LogRecords(map[n := Encode(r)], n + 1) == [r]
    ensures Reopened(map[n := Encode(r)], n).files == map[n := Encode(r)]
    ensures WalPoints(map[n := Encode(r)]) == {r}
    ensures AllFinish(map[n := Encode(r)])
  {
    hide Encode, Replay;
    RecordsOfOne(r);
    NothingBelowFirst(map[n := Encode(r)], n);
    assert [] + [r] == [r];
    assert map[n := Encode(r)][n := Encode(r)] == map[n := Encode(r)];
    assert WalPoints(map[n := Encode(r)]) == {r} by {
      assert r in [r];
      forall p ensures p in WalPoints(map[n := Encode(r)]) <==> p == r {
        assert n in map[n := Encode(r)];
      }
    }
  }

  lemma {:induction false} NothingBelowFirst(files: Files, n: nat)
    requires forall m :: m in files ==> m >= n
    ensures LogRecords(files, n) == []
  {
    NothingBelow(files, n);
  }

  /** Two points of one time, of which the first fills a segment: committed, flushed, and after a restart flushed again,
      the second flush goes into the directory of the first and the first point is gone, although it is due. */
  lemma {:induction false} OverwriteLosesPoint(hash: Labels -> nat, max: int, r: Record, q: Record)
    returns (es: seq<Action>, c: Block)
    requires Fits(r) && Fits(q) && |Encode(q)| < max <= |Encode(r)| && r.labels != q.labels && r.t == q.t
    ensures Legal(hash, START, es) && AtRest(Run(START, es)) && IsHeadBlock(c, Run(START, es).head)
    ensures r in Due(es) && Horizon(es) == MIN_TIME && r in Recoverable(DiskOf(Run(START, es)))
    ensures !HasKey(Recoverable(DiskAfterFlush(Run(START, es), c)), r)
  {
    hide Legal, Run, Due, Horizon, AppendAll, Encode, IsHeadBlock, WalPoints, DirPoints, SeriesPoints;
    es := FlushAndRestart(hash, max, r, q);
    c := OneBlock(q);
    OneIsHeadBlock(q);
    OneSegment(1, q);
    var s := Run(START, es);
    assert Truncated(s.log.files, 1) == s.log.files;
    OnlyDirPoints(map[c.dir := Complete(c)], c);
    OnlyDirPoints(s.dirs, TwoBlock(r, q));
    assert s.dirs[c.dir := Complete(c)] == map[c.dir := Complete(c)];
    assert r in SeriesPoints(TwoBlock(r, q).series) by {
      FirstOfTwo(r, q);
    }
  }

  lemma FirstOfTwo(r: Record, q: Record)
    ensures r in SeriesPoints(TwoBlock(r, q).series)
  {
    var b := TwoBlock(r, q);
    assert b.series[0] == OneSeries(r);
    assert OneSeries(r) in b.series && Sample(r.t, r.v) in OneSeries(r).samples
        && r == PointOf(r.labels, Sample(r.t, r.v));
  }

  lemma OnlyDirPoints(dirs: Dirs, b: Block)
    requires dirs == map[b.dir := Complete(b)]
    ensures DirPoints(dirs) == SeriesPoints(b.series)
  {
    hide SeriesPoints;
    SplitPoints(dirs, b.dir);
    assert dirs - {b.dir} == map[];
  }

  // ----- an age pass over a shared directory -----

  lemma TwoSegmentsRemoved(n: nat, a: Bytes, b: Bytes)
    ensures WithoutSegments(map[n := a, n + 1 := b, n + 2 := []], [n, n + 1]) == map[n + 2 := []]
  {
    var files := map[n := a, n + 1 := b, n + 2 := []];
    assert [n, n + 1][..1] == [n] && [n][..0] == [];
    assert WithoutSegments(files, []) == files;
    assert WithoutSegments(files, [n]) == files - {n};
    assert files - {n} - {n + 1} == map[n + 2 := []];
  }

  lemma LogFillsNext(older: Files, n: nat, max: int, r: Record)
    requires |Encode(r)| >= max
    ensures LogAll(LogState(older[n := []], n, 0), max, [r]) == LogState(older[n := Encode(r)][n + 1 := []], n + 1, 0)
  {
    hide Encode;
    assert [r][..|[r]| - 1] == [];
    assert [] + Encode(r) == Encode(r);
    assert older[n := []][n := Encode(r)] == older[n := Encode(r)];
  }

  /** A point is flushed and committed again with a later one. */
  lemma {:induction false} TwoAfterOne(hash: Labels -> nat, max: int, r: Record, q: Record) returns (es: seq<Action>)
    requires Fits(r) && Fits(q) && max <= |Encode(r)| && max <= |Encode(q)| && r.labels != q.labels && r.t < q.t
    ensures Legal(hash, START, es) && AtRest(Run(START, es)) && q in Due(es) && Run(START, es).horizon == MIN_TIME
    ensures var s := Run(START, es);
            && s.open == [OneBlock(r)] && s.dirs == map[Flushed(r.t) := Complete(OneBlock(r))]
            && s.head == AppendAll(AppendAll(map[], [r]), [q]) && s.log.current >= 2
            && s.log.files == map[s.log.current - 2 := Encode(r), s.log.current - 1 := Encode(q), s.log.current := []]
            && s.log.size == 0
  {
    hide Legal, Run, Due, Horizon, CommitEvents, LogAll, AppendAll, CallPassed, LogHistory, Encode, Fits;
    Opened(hash);
    es := CommitAndFlush(hash, max, [Reopen(0, [])], r);
    var s := Run(START, es);
    var n := s.log.current;
    assert AllFit([r]) && AllFit([q]) && RecordSet([q]) == {q};
    CommitRun(hash, es, s, max, [r], []);
    LogFills(n, max, r);
    es := es + CommitEvents(s.log, max, [r]);
    var s1 := Run(START, es);
    CommitRun(hash, es, s1, max, [q], []);
    assert s1.log == LogState((map[n := Encode(r)])[n + 1 := []], n + 1, 0);
    LogFillsNext(map[n := Encode(r)], n + 1, max, q);
    es := es + CommitEvents(s1.log, max, [q]);
  }

  /** A flush then goes into the directory of the first block. */
  lemma {:induction false} SharedDirectory(hash: Labels -> nat, max: int, r: Record, q: Record)
    returns (es: seq<Action>)
    requires Fits(r) && Fits(q) && max <= |Encode(r)| && max <= |Encode(q)| && r.labels != q.labels && r.t < q.t
    ensures Legal(hash, START, es) && Fresh(Run(START, es)) && q in Due(es) && Horizon(es) == MIN_TIME
    ensures Run(START, es).open == [OneBlock(r), TwoBlock(r, q)]
    ensures Run(START, es).dirs == map[Flushed(r.t) := Complete(TwoBlock(r, q))]
  {
    hide Legal, Run, Due, Horizon, FlushEvents, AppendAll, CallPassed, FlushHistory, Encode, Fits, IsHeadBlock,
         HeadPoints, WithoutSegments, SeriesPoints, OwnPoints;
    es := TwoAfterOne(hash, max, r, q);
    var s := Run(START, es);
    var n := s.log.current - 2;
    TwoIsHeadBlock(r, q);
    OneIsHeadBlock(r);
    CompleteData(map[], OneBlock(r));
    HeadBlockPoints(TwoBlock(r, q), s.head);
    FirstOfTwo(r, q);
    FlushRun(hash, es, TwoBlock(r, q), [n, n + 1], []);
    TwoSegmentsRemoved(n, Encode(r), Encode(q));
    es := es + FlushEvents(TwoBlock(r, q), [n, n + 1]);
    FewEventsHorizon(es);
  }

  /** An age pass between their times then removes the shared directory for the first block, and the later point, which
      is due and has not expired, is gone. */
  lemma {:induction false} AgePassLosesPoint(hash: Labels -> nat, max: int, r: Record, q: Record)
    returns (es: seq<Action>)
    requires Fits(r) && Fits(q) && max <= |Encode(r)| && max <= |Encode(q)| && r.labels != q.labels && r.t < q.t
    ensures Legal(hash, START, es) && AtRest(Run(START, es)) && q in Due(es) && Horizon(es) == MIN_TIME
    ensures q in Recoverable(DiskOf(Run(START, es)))
    ensures var s := Run(START, es);
            !HasKey(Recoverable(Snapshot(s.log.files, WithoutExpired(s.dirs, s.open, q.t))), q)
  {
    hide Legal, Run, Due, Horizon, WalPoints, DirPoints, SeriesPoints, Encode, Fits;
    es := SharedDirectory(hash, max, r, q);
    var s := Run(START, es);
    EmptyLog(s.log.current);
    OnlyDirPoints(s.dirs, TwoBlock(r, q));
    SecondOfTwo(r, q);
    SharedIsGone(r, q);
    NoDirPoints();
  }

  lemma SecondOfTwo(r: Record, q: Record)
    ensures q in SeriesPoints(TwoBlock(r, q).series)
  {
    var b := TwoBlock(r, q);
    assert b.series[1] == OneSeries(q);
    assert OneSeries(q) in b.series && Sample(q.t, q.v) in OneSeries(q).samples
        && q == PointOf(q.labels, Sample(q.t, q.v));
  }

  lemma SharedIsGone(r: Record, q: Record)
    requires r.t < q.t
    ensures WithoutExpired(map[Flushed(r.t) := Complete(TwoBlock(r, q))], [OneBlock(r), TwoBlock(r, q)], q.t) == map[]
  {
    var dirs := map[Flushed(r.t) := Complete(TwoBlock(r, q))];
    assert [OneBlock(r), TwoBlock(r, q)][..1] == [OneBlock(r)] && [OneBlock(r)][..0] == [];
    assert WithoutExpired(dirs, [], q.t) == dirs;
    assert WithoutExpired(dirs, [OneBlock(r)], q.t) == dirs - {Flushed(r.t)};
    assert dirs - {Flushed(r.t)} == map[];
  }

  lemma NoDirPoints()
    ensures DirPoints(map[]) == {}
  {
  }

  // ----- compacting twice -----

  /** Opened on an empty directory, or between flushes when every record fills a segment. */
  ghost predicate Fresh(s: State) {
    AtRest(s) && s.head == map[] && s.log == SoleSegment(s.log.current, [])
  }

  /** One point is committed and flushed. */
  lemma CommitAndFlush(hash: Labels -> nat, max: int, es: seq<Action>, r: Record) returns (es': seq<Action>)
    requires Legal(hash, START, es) && Fresh(Run(START, es)) && Flushed(r.t) !in Run(START, es).dirs
    requires Fits(r) && max <= |Encode(r)|
    ensures Legal(hash, START, es') && Fresh(Run(START, es')) && Due(es') == Due(es) + {r}
    ensures Run(START, es').open == Run(START, es).open + [OneBlock(r)]
    ensures Run(START, es').dirs == Run(START, es).dirs[Flushed(r.t) := Complete(OneBlock(r))]
    ensures Run(START, es').horizon == Run(START, es).horizon
  {
    hide Legal, Run, Due, CommitEvents, FlushEvents, LogAll, AppendAll, CallPassed, LogHistory, FlushHistory, Encode,
         Fits, IsHeadBlock, HeadPoints, WithoutSegments;
    var s := Run(START, es);
    assert AllFit([r]) && RecordSet([r]) == {r};
    CommitRun(hash, es, s, max, [r], []);
    LogFills(s.log.current, max, r);
    var es1 := es + CommitEvents(s.log, max, [r]);
    OneIsHeadBlock(r);
    FlushRun(hash, es1, OneBlock(r), [s.log.current], []);
    FullIsRemoved(s.log.current, Encode(r));
    es' := es1 + FlushEvents(OneBlock(r), [s.log.current]);
  }

  lemma FullIsRemoved(n: nat, a: Bytes)
    ensures WithoutSegments(map[n := a, n + 1 := []], [n]) == map[n + 1 := []]
  {
    assert [n][..|[n]| - 1] == [];
    assert map[n := a, n + 1 := []] - {n} == map[n + 1 := []];
  }

  /** The merge of the blocks of two points of different series. */
  function TwoMerged(r: Record, q: Record): Block {
    Block(Compacted(r.t), BlockMeta(r.t, q.t, 2), [OneSeries(r), OneSeries(q)])
  }

  lemma TwoIsMerge(hash: Labels -> nat, r: Record, q: Record)
    requires r.t < q.t && hash(r.labels) != hash(q.labels)
    ensures IsMergeOf(hash, TwoMerged(r, q), [OneBlock(r), OneBlock(q)])
  {
    hide IsMerge;
    var open := [OneBlock(r), OneBlock(q)];
    var all := [OneSeries(r), OneSeries(q)];
    SeriesOfOne(OneBlock(r));
    assert open[..1] == [OneBlock(r)] && [OneSeries(r)] + [OneSeries(q)] == all;
    assert AllSeriesOf(open) == all;
    assert open[0] == OneBlock(r) && open[1] == OneBlock(q);
    TwoIsMergeOfSeries(hash, r, q);
  }

  lemma SeriesOfOne(b: Block)
    ensures AllSeriesOf([b]) == b.series
  {
    assert [b][..|[b]| - 1] == [] && [] + b.series == b.series;
  }

  lemma TwoIsMergeOfSeries(hash: Labels -> nat, r: Record, q: Record)
    requires hash(r.labels) != hash(q.labels)
    ensures var all := [OneSeries(r), OneSeries(q)];
            IsMerge(hash, all, all)
  {
    var all := [OneSeries(r), OneSeries(q)];
    assert all[0] == OneSeries(r) && all[1] == OneSeries(q);
    forall s | s in all ensures MergedFrom(s, all) {
      forall p | InSeries(p, all) && p.labels == s.lset ensures HasTime(s.samples, p.t) {
        assert Sample(p.t, p.v) in s.samples;
      }
      forall x | x in s.samples ensures InSeries(PointOf(s.lset, x), all) {
      }
    }
  }

  /** Three points, each committed and flushed, with a compaction before the third: a second compaction, whatever it
      merges, leaves nothing that can be recovered, although all three are due. */
  lemma {:induction false} RecompactionLosesAll(hash: Labels -> nat, dataFirst: DirName -> bool, max: int, r: Record,
                                                q: Record, p: Record)
    returns (es: seq<Action>)
    requires Fits(r) && Fits(q) && Fits(p) && max <= |Encode(r)| && max <= |Encode(q)| && max <= |Encode(p)|
    requires r.t < q.t && hash(r.labels) != hash(q.labels)
    ensures Legal(hash, START, es) && AtRest(Run(START, es)) && |Run(START, es).open| == 2
    ensures Due(es) == {r, q, p} && Horizon(es) == MIN_TIME
    ensures var s := Run(START, es);
            forall merged: Block :: merged.dir == Compacted(s.open[0].meta.minTime) ==>
              Recoverable(Snapshot(s.log.files, CompactedDirs(s.dirs, merged, s.open))) == {}
  {
    hide Legal, Run, Due, Horizon, MergeEvents, CallPassed, MergeHistory, Encode, Fits, IsMergeOf, WalPoints, DirPoints,
         OwnPoints, CompactedDirs;
    Opened(hash);
    es := [Reopen(0, [])];
    es := CommitAndFlush(hash, max, es, r);
    es := CommitAndFlush(hash, max, es, q);
    TwoIsMerge(hash, r, q);
    var s := Run(START, es);
    assert s.open == [OneBlock(r), OneBlock(q)];
    MergeRun(hash, dataFirst, es, TwoMerged(r, q), []);
    es := es + MergeEvents(dataFirst, TwoMerged(r, q), s.open);
    MergedIsAlone(s.dirs, TwoMerged(r, q), s.open);
    es := CommitAndFlush(hash, max, es, p);
    FewEventsHorizon(es);
    var t := Run(START, es);
    EmptyLog(t.log.current);
    forall merged: Block | merged.dir == Compacted(t.open[0].meta.minTime)
      ensures Recoverable(Snapshot(t.log.files, CompactedDirs(t.dirs, merged, t.open))) == {} {
      RecompactionEmptiesDisk(hash, es, merged);
    }
  }

  /** No directory named after a flush is left. */
  lemma MergedIsAlone(dirs: Dirs, merged: Block, open: seq<Block>)
    requires forall d :: d in dirs ==> exists b :: b in open && b.dir == d
    requires merged.dir.Compacted?
    ensures forall t :: Flushed(t) !in CompactedDirs(dirs, merged, open)
  {
    var gone := set b | b in open :: b.dir;
    assert forall b :: b in open ==> b.dir in gone;
  }

  lemma EmptyLog(n: nat)
    ensures WalPoints(map[n := []]) == {}
  {
    NoEncoding();
    ReplayAll([]);
  }
}
