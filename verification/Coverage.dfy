/** Metadata that bounds its samples, over whole runs: what makes skipping blocks and expiring them by their range
    right. */
module Coverage {
  import opened Types
  import opened Codec
  import opened Wal
  import opened WalLaws
  import opened Heads
  import opened Blocks
  import opened Compaction
  import opened CompactionLaws
  import opened Disks
  import opened Engine
  import opened EngineLaws
  import opened Durability

  ghost predicate EachCovered(blocks: seq<Block>) {
    forall b :: b in blocks ==> Covered(b)
  }

  ghost predicate Within(points: set<Record>, meta: BlockMeta) {
    forall p :: p in points ==> meta.minTime <= p.t <= meta.maxTime
  }

  lemma CoveredIsWithin(b: Block)
    ensures Covered(b) <==> Within(SeriesPoints(b.series), b.meta)
  {
    if Within(SeriesPoints(b.series), b.meta) {
      forall s, x | s in b.series && x in s.samples ensures b.meta.minTime <= x.t <= b.meta.maxTime {
        assert PointOf(s.lset, x) in SeriesPoints(b.series);
      }
    }
  }

  lemma PutGood(dirs: Dirs, d: DirName, c: BlockDir)
    requires GoodDirs(dirs) && (IsWhole(d, dirs[d := c]) ==> Covered(BlockAt(d, dirs[d := c])))
    ensures GoodDirs(dirs[d := c])
  {
    hide Covered;
    var dirs' := dirs[d := c];
    forall e | IsWhole(e, dirs') ensures Covered(BlockAt(e, dirs')) {
      if e != d {
        assert IsWhole(e, dirs) && BlockAt(e, dirs') == BlockAt(e, dirs);
      }
    }
  }

  lemma HeadBlockCovered(b: Block, h: Head)
    requires IsHeadBlock(b, h)
    ensures Covered(b)
  {
  }

  lemma MergeOfIsCovered(hash: Labels -> nat, b: Block, open: seq<Block>)
    requires IsMergeOf(hash, b, open) && EachCovered(open)
    ensures Covered(b)
  {
    hide IsMerge, NoCollision, Covered, MergedBounds;
    MergeIsCovered(hash, b, open);
  }

  lemma OpenedAreCovered(blocks: seq<Block>, dirs: Dirs)
    requires OpenedFrom(blocks, dirs) && GoodDirs(dirs)
    ensures EachCovered(blocks)
  {
    hide Covered;
    forall b | b in blocks ensures Covered(b) {
      assert Backed(b, dirs);
    }
  }

  lemma ExpiredPoints(b: Block, p: Record, cutoff: Int64)
    requires Covered(b) && b.meta.maxTime < cutoff && p in SeriesPoints(b.series)
    ensures p.t < cutoff
  {
    var s, x :| s in b.series && x in s.samples && p == PointOf(s.lset, x);
  }

  /** Covered blocks expire whole. */
  lemma CoveredExpireWhole(open: seq<Block>, cutoff: Int64)
    requires EachCovered(open)
    ensures ExpireWhole(open, cutoff)
  {
    hide Covered, SeriesPoints;
    forall b, p | b in open && b.meta.maxTime < cutoff && p in SeriesPoints(b.series) ensures p.t < cutoff {
      ExpiredPoints(b, p, cutoff);
    }
  }

  // ----- over runs -----

  /** If meta.json is being written over older data, it bounds that data. */
  ghost predicate BoundsOldData(s: State, e: Action) {
    && (e.FlushStep? && s.phase.FlushOpen? && s.phase.part == 0 ==>
          Within(DataPoints(s.phase.blk.dir, s.dirs), s.phase.blk.meta))
    && (e.MergeStep? && s.upkeep.MergeOpen? && s.upkeep.part == 0 ==>
          Within(DataPoints(s.upkeep.target.dir, s.dirs), s.upkeep.target.meta))
  }

  ghost predicate AlwaysBoundsOldData(es: seq<Action>) {
    es == [] || (AlwaysBoundsOldData(es[..|es| - 1]) && BoundsOldData(Run(START, es[..|es| - 1]), es[|es| - 1]))
  }

  /** At every moment of the run, what a restart would read is covered. */
  ghost predicate AlwaysGood(es: seq<Action>) {
    forall k :: 0 <= k <= |es| ==> GoodDirs(Run(START, es[..k]).dirs)
  }

  /** One stage of writing a covered block. Only the first, which puts new metadata before old data, can go wrong. */
  lemma StageGoodIff(open: seq<Block>, dirs: Dirs, b: Block, part: nat, room: set<Record>)
    requires Writing(open, dirs, b, part, room) && GoodDirs(dirs) && Covered(b)
    ensures GoodDirs(StageOn(dirs, b, part)) <==> (part == 0 ==> Within(DataPoints(b.dir, dirs), b.meta))
  {
    hide Covered, SeriesPoints, Within, GoodDirs, Stands;
    var dirs' := StageOn(dirs, b, part);
    if part == 0 && dirs[b.dir].data.Some? {
      CoveredIsWithin(BlockAt(b.dir, dirs'));
      GoodMeans(dirs', b.dir);
    }
    if part == 0 && dirs[b.dir].data.None? {
      assert Within({}, b.meta) by { NothingOutside(b.meta); }
    }
    if part == 0 ==> Within(DataPoints(b.dir, dirs), b.meta) {
      PutGood(dirs, b.dir, NextStage(dirs[b.dir], b, part));
    }
  }

  lemma GoodMeans(dirs: Dirs, d: DirName)
    requires IsWhole(d, dirs)
    ensures GoodDirs(dirs) ==> Covered(BlockAt(d, dirs))
  {
    hide Covered;
  }

  lemma NothingOutside(meta: BlockMeta)
    ensures Within({}, meta)
  {
  }

  lemma RemovedGood(dirs: Dirs, d: DirName, left: Remnant)
    requires GoodDirs(dirs)
    ensures GoodDirs(Removed(dirs, d, left))
  {
    hide Covered, Removed, SeriesPoints;
    RemovedPoints(dirs, d, left);
  }

  lemma StepCovered(hash: Labels -> nat, s: State, e: Action)
    requires Inv(hash, s) && Enabled(hash, s, e) && GoodDirs(s.dirs) && EachCovered(s.open)
    ensures EachCovered(Apply(s, e).open)
  {
    hide Covered, AllClean, AllFinish, Safe, DataWithin, WalPoints, DirPoints, IsHeadBlock, IsMergeOf, Logged,
         AppendAll, LogRecords, LivePoints, OpenedFrom, Writing, Removed, GoodDirs, StageOn, Reopened, Unexpired,
         HeadPoints, BlocksPoints, Unapplied, Owed, RecordSet, AllFit, Listed, ExpireTogether, ExpireWhole, CleanTail,
         Settled, TornLog;
    match e {
      case InstallFlush => HeadBlockCovered(s.phase.blk, s.head);
      case EndMerge => MergeOfIsCovered(hash, s.upkeep.target, s.open);
      case EndRetention => UnexpiredMembers(s.open, s.upkeep.cutoff);
      case Reopen(n, open) => OpenedAreCovered(open, s.dirs);
      case _ =>
    }
  }

  lemma StepGoodIff(hash: Labels -> nat, s: State, e: Action)
    requires Inv(hash, s) && Enabled(hash, s, e) && GoodDirs(s.dirs) && EachCovered(s.open)
    ensures GoodDirs(Apply(s, e).dirs) <==> BoundsOldData(s, e)
  {
    hide Covered, AllClean, AllFinish, Safe, DataWithin, WalPoints, DirPoints, IsHeadBlock, IsMergeOf, Logged,
         AppendAll, LogRecords, LivePoints, OpenedFrom, Writing, Removed, GoodDirs, StageOn, Reopened, Unexpired,
         HeadPoints, BlocksPoints, Unapplied, Owed, RecordSet, AllFit, Listed, ExpireTogether, ExpireWhole, CleanTail,
         Settled, TornLog, Within, DataPoints, EachCovered, GoodLog, OwnPoints;
    match e {
      case BeginFlush(b) => PutGood(s.dirs, b.dir, MetaEmptied(s.dirs, b.dir));
      case BeginMerge(b) => PutGood(s.dirs, b.dir, MetaEmptied(s.dirs, b.dir));
      case FlushStep =>
        HeadBlockCovered(s.phase.blk, s.head);
        StageGoodIff(s.open, s.dirs, s.phase.blk, s.phase.part, HeadPoints(s.head));
      case MergeStep =>
        MergeOfIsCovered(hash, s.upkeep.target, s.open);
        StageGoodIff(s.open, s.dirs, s.upkeep.target, s.upkeep.part, BlocksPoints(s.open));
      case RemoveSource(b, left) => RemovedGood(s.dirs, b.dir, left);
      case DropBlock(b, left) => RemovedGood(s.dirs, b.dir, left);
      case _ =>
    }
  }

  lemma AlwaysGoodStep(es: seq<Action>)
    requires es != []
    ensures var front := es[..|es| - 1];
            && (AlwaysGood(es) <==> AlwaysGood(front) && GoodDirs(Run(START, es).dirs))
            && (AlwaysGood(front) ==> GoodDirs(Run(START, front).dirs))
  {
    hide GoodDirs, Run;
    var front := es[..|es| - 1];
    assert front[..|front|] == front && es[..|es|] == es;
    assert forall i :: 0 <= i <= |front| ==> front[..i] == es[..i];
  }

  /** Over every run: at every moment each directory that a restart would read has metadata that covers its samples
      exactly when, each time meta.json was written over older data, it bounded that data. In such a run the listed
      blocks are covered, too. */
  lemma {:induction false} CoveredOverRuns(hash: Labels -> nat, es: seq<Action>)
    requires Legal(hash, START, es)
    ensures AlwaysGood(es) <==> AlwaysBoundsOldData(es)
    ensures AlwaysGood(es) ==> EachCovered(Run(START, es).open)
  {
    hide Inv, Apply, Enabled, GoodDirs, EachCovered, BoundsOldData;
    if es == [] {
      StartIsCovered();
    } else {
      var front, e := es[..|es| - 1], es[|es| - 1];
      CoveredOverRuns(hash, front);
      AlwaysGoodStep(es);
      if AlwaysGood(front) {
        StartHolds(hash);
        RunKeeps(hash, START, front);
        StepCovered(hash, Run(START, front), e);
        StepGoodIff(hash, Run(START, front), e);
      }
    }
  }

  lemma StartIsCovered()
    ensures AlwaysGood([]) && EachCovered(Run(START, []).open)
  {
  }
}
