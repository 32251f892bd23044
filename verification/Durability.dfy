/** Durability over every run of the engine, whatever commits, rotations, flushes, merges, retention passes,
    crashes and reopenings it is made of. */
module Durability {
  import opened Types
  import opened Codec
  import opened Wal
  import opened WalLaws
  import opened Heads
  import opened Blocks
  import opened Compaction
  import opened CompactionLaws
  import opened Disks
  import opened Engine
  import opened EngineLaws

  // ----- commit -----

  lemma PrefixGrows(batch: seq<Record>, k: nat)
    requires k < |batch|
    ensures RecordSet(batch[..k + 1]) == RecordSet(batch[..k]) + {batch[k]}
  {
    assert batch[..k + 1] == batch[..k] + [batch[k]];
  }

  /** Commits do not touch blocks, whatever the compaction goroutine is doing. */
  lemma SameLists(hash: Labels -> nat, s: State, s': State)
    requires ListMatches(hash, s) && (s.phase.Idle? || s.phase.Logging?) && (s'.phase.Idle? || s'.phase.Logging?)
    requires s'.open == s.open && s'.dirs == s.dirs && s'.upkeep == s.upkeep && s'.horizon == s.horizon
    ensures ListMatches(hash, s')
  {
    hide Writing, Listed, IsMergeOf, ExpireTogether, IsWhole;
  }

  lemma NothingUnapplied(s: State)
    requires !s.phase.Logging? && s.waiting == []
    ensures RecordSet(Unapplied(s)) == {} && Owed(s) == s.promised
    ensures AppendAll(s.head, Unapplied(s)) == s.head
  {
    assert Unapplied(s) == [];
  }

  /** What the invariant says of the disk, when data and log only move among what is owed. */
  lemma SameOwed(s: State, s': State)
    requires s'.phase.Idle? || s'.phase.Logging? || s'.phase.Down?
    requires Unapplied(s') == Unapplied(s) && s'.promised == s.promised
    ensures Owed(s') == Owed(s)
  {
  }

  lemma BeginCommitKeeps(hash: Labels -> nat, s: State, batch: seq<Record>)
    requires Inv(hash, s) && Enabled(hash, s, BeginCommit(batch))
    ensures Inv(hash, Apply(s, BeginCommit(batch)))
  {
    hide Replay, Clean, AllClean, LogRecords, Safe, WalPoints, DirPoints, HeadPoints, DataWithin, ListMatches,
         BlocksPoints, Flatten, AppendAll, Owed;
    var s' := Apply(s, BeginCommit(batch));
    assert InFlight(s) == [] == InFlight(s');
    SameOwed(s, s');
    SameLists(hash, s, s');
  }

  lemma WriteNextKeeps(hash: Labels -> nat, s: State)
    requires Inv(hash, s) && Enabled(hash, s, WriteNext)
    ensures Inv(hash, Apply(s, WriteNext))
  {
    hide Replay, Clean, AllClean, LogRecords, Safe, WalPoints, DirPoints, HeadPoints, AppendAll, ListMatches,
         RecordSet, DataWithin, Encode, BlocksPoints, Flatten;
    var batch, k := s.phase.batch, s.phase.written;
    var r := batch[k];
    var s' := Apply(s, WriteNext);
    CleanLog(s.log);
    WrittenPoints(s.log, r);
    assert Unapplied(s') == Unapplied(s) + [r] by {
      assert batch[..k + 1] == batch[..k] + [r];
    }
    MoreRecords(Unapplied(s), r);
    assert Owed(s') == Owed(s) + {r};
    SafeBoth(WalPoints(s.log.files) + DirPoints(Settled(s)), Owed(s), {r}, s.horizon, s.exact);
    assert WalPoints(s'.log.files) + DirPoints(Settled(s')) == WalPoints(s.log.files) + DirPoints(Settled(s)) + {r};
    MoreDue(s.dirs, Owed(s), Owed(s'));
    WriteAppends(s.log, r);
    CleanLog(s'.log);
    SameLists(hash, s, s');
    if s.verbatim {
      AppendAllConcat(map[], Logged(s.log), [r]);
      AppendAllConcat(s.head, Unapplied(s), [r]);
    }
  }

  lemma MoreRecords(rs: seq<Record>, r: Record)
    ensures RecordSet(rs + [r]) == RecordSet(rs) + {r}
  {
  }

  lemma MoreDue(dirs: Dirs, due: set<Record>, due': set<Record>)
    requires DataWithin(dirs, due) && due <= due'
    ensures DataWithin(dirs, due')
  {
    hide DataPoints;
  }

  lemma RotateKeeps(hash: Labels -> nat, s: State)
    requires Inv(hash, s) && Enabled(hash, s, RotateNow)
    ensures Inv(hash, Apply(s, RotateNow))
  {
    hide Replay, Clean, AllClean, LogRecords, Safe, WalPoints, DirPoints, HeadPoints, AppendAll, ListMatches,
         RecordSet, DataWithin, BlocksPoints, Flatten;
    var s' := Apply(s, RotateNow);
    CleanLog(s.log);
    RotatedPoints(s.log);
    RotateAddsNothing(s.log);
    CleanLog(s'.log);
    SameLists(hash, s, s');
  }

  lemma EndLogKeeps(hash: Labels -> nat, s: State)
    requires Inv(hash, s) && Enabled(hash, s, EndLog)
    ensures Inv(hash, Apply(s, EndLog))
  {
    hide Replay, Clean, AllClean, LogRecords, Safe, WalPoints, DirPoints, HeadPoints, AppendAll, RecordSet, DataWithin,
         ListMatches, BlocksPoints, Flatten, Owed;
    var s' := Apply(s, EndLog);
    FlattenSnoc(s.waiting, s.phase.batch);
    assert InFlight(s) == s.phase.batch;
    SameOwed(s, s');
    SameLists(hash, s, s');
  }

  lemma UnappliedSplit(s: State, i: nat)
    requires i < |s.waiting|
    ensures RecordSet(Unapplied(s))
            == RecordSet(s.waiting[i]) + RecordSet(Unapplied(s.(waiting := Without(s.waiting, i))))
    ensures i == 0 ==> Unapplied(s) == s.waiting[0] + Unapplied(s.(waiting := Without(s.waiting, 0)))
  {
    hide Flatten;
    WithoutRecords(s.waiting, i);
    if i == 0 {
      FlattenFirst(s.waiting);
      assert Without(s.waiting, 0) == s.waiting[1..];
    }
  }

  lemma AppendHeadKeeps(hash: Labels -> nat, s: State, i: nat)
    requires Inv(hash, s) && Enabled(hash, s, AppendHead(i))
    ensures Inv(hash, Apply(s, AppendHead(i)))
  {
    hide Replay, Clean, AllClean, LogRecords, Safe, WalPoints, DirPoints, HeadPoints, AppendAll, RecordSet, DataWithin,
         ListMatches, BlocksPoints, Flatten, Unapplied;
    var s' := Apply(s, AppendHead(i));
    var batch := s.waiting[i];
    UnappliedSplit(s, i);
    SameUnapplied(s', s.(waiting := Without(s.waiting, i)));
    assert Owed(s') == Owed(s);
    AppendedPoints(s.head, batch);
    SafeBoth(LivePoints(s), s.promised, RecordSet(batch), s.horizon, s.exact);
    assert LivePoints(s') == LivePoints(s) + RecordSet(batch);
    SameLists(hash, s, s');
    if s'.verbatim {
      AppendAllConcat(s.head, batch, Unapplied(s'));
    }
  }

  lemma SameUnapplied(s: State, s': State)
    requires s'.waiting == s.waiting && s'.phase == s.phase
    ensures Unapplied(s') == Unapplied(s)
  {
  }

  // ----- writing a block directory -----

  /** A change to one directory leaves the blocks of the others standing. */
  lemma OthersStand(open: seq<Block>, dirs: Dirs, dirs': Dirs, d: DirName)
    requires dirs' - {d} == dirs - {d}
    ensures forall x :: x in open && x.dir != d && Stands(x, dirs) ==> Stands(x, dirs')
    ensures forall e :: e != d ==> (IsWhole(e, dirs) <==> IsWhole(e, dirs'))
    ensures forall e :: e != d && IsWhole(e, dirs) ==> BlockAt(e, dirs') == BlockAt(e, dirs)
  {
    hide SeriesPoints;
    forall e | e != d ensures (e in dirs <==> e in dirs') && (e in dirs ==> dirs[e] == dirs'[e]) {
      assert e in dirs <==> e in dirs - {d};
      assert e in dirs' <==> e in dirs' - {d};
      if e in dirs {
        assert dirs[e] == (dirs - {d})[e] == (dirs' - {d})[e] == dirs'[e];
      }
    }
  }

  lemma BeginWriting(open: seq<Block>, dirs: Dirs, b: Block, room: set<Record>)
    requires Listed(open, dirs) && OwnPoints(b.dir, dirs) <= room
    ensures Writing(open, dirs[b.dir := MetaEmptied(dirs, b.dir)], b, 0, room)
  {
    hide SeriesPoints;
    var dirs' := dirs[b.dir := MetaEmptied(dirs, b.dir)];
    assert dirs' - {b.dir} == dirs - {b.dir};
    OthersStand(open, dirs, dirs', b.dir);
    forall x | x in open && x.dir == b.dir ensures SeriesPoints(x.series) <= room {
      assert Stands(x, dirs);
    }
  }

  lemma StageRest(dirs: Dirs, b: Block, part: nat)
    ensures StageOn(dirs, b, part) - {b.dir} == dirs - {b.dir}
  {
  }

  lemma NextWriting(open: seq<Block>, dirs: Dirs, b: Block, part: nat, room: set<Record>)
    requires Writing(open, dirs, b, part, room) && part < 2
    ensures Writing(open, StageOn(dirs, b, part), b, part + 1, room)
  {
    hide SeriesPoints;
    StageRest(dirs, b, part);
    OthersStand(open, dirs, StageOn(dirs, b, part), b.dir);
  }

  /** With its last file the directory is complete. */
  lemma WritingEnds(open: seq<Block>, dirs: Dirs, b: Block, room: set<Record>)
    requires Writing(open, dirs, b, 2, room)
    ensures var dirs' := StageOn(dirs, b, 2);
            && Backed(b, dirs')
            && (forall d :: IsWhole(d, dirs') && d != b.dir ==> BlockAt(d, dirs') in open)
            && (room <= SeriesPoints(b.series) ==> Listed(open + [b], dirs'))
  {
    hide SeriesPoints;
    var dirs' := StageOn(dirs, b, 2);
    StageRest(dirs, b, 2);
    OthersStand(open, dirs, dirs', b.dir);
    assert (open + [b])[|open|] == b;
    assert forall x :: x in open ==> x in open + [b];
  }

  // ----- all data is due, and the settled directories hold what the log does not -----

  lemma BeginsWithin(dirs: Dirs, d: DirName, due: set<Record>)
    requires DataWithin(dirs, due)
    ensures DataWithin(dirs[d := MetaEmptied(dirs, d)], due)
  {
    hide SeriesPoints;
    var dirs' := dirs[d := MetaEmptied(dirs, d)];
    forall e | e in dirs' ensures DataPoints(e, dirs') <= due {
      assert DataPoints(e, dirs') == DataPoints(e, dirs);
    }
  }

  lemma StageWithin(dirs: Dirs, b: Block, part: nat, due: set<Record>)
    requires DataWithin(dirs, due) && b.dir in dirs && (part == 2 ==> SeriesPoints(b.series) <= due)
    requires part <= 2
    ensures DataWithin(StageOn(dirs, b, part), due)
  {
    hide SeriesPoints;
    var dirs' := StageOn(dirs, b, part);
    forall e | e in dirs' ensures DataPoints(e, dirs') <= due {
      assert e != b.dir ==> DataPoints(e, dirs') == DataPoints(e, dirs);
    }
  }

  lemma RemovedWithin(dirs: Dirs, d: DirName, left: Remnant, due: set<Record>)
    requires DataWithin(dirs, due)
    ensures DataWithin(Removed(dirs, d, left), due)
  {
    hide SeriesPoints;
    var dirs' := Removed(dirs, d, left);
    forall e | e in dirs' ensures DataPoints(e, dirs') <= due {
      assert DataPoints(e, dirs') <= DataPoints(e, dirs);
    }
  }

  lemma DirsWithin(dirs: Dirs, due: set<Record>)
    requires DataWithin(dirs, due)
    ensures DirPoints(dirs) <= due
  {
    hide SeriesPoints;
    forall p | p in DirPoints(dirs) ensures p in due {
      DirPoint(dirs, p);
      var d :| IsWhole(d, dirs) && p in SeriesPoints(BlockAt(d, dirs).series);
      assert DataPoints(d, dirs) == SeriesPoints(BlockAt(d, dirs).series);
    }
  }

  /** The directory being written adds only points that are due. */
  lemma DiskIsSafe(hash: Labels -> nat, s: State)
    requires Inv(hash, s)
    ensures Safe(DiskPoints(s), Owed(s), s.horizon, s.exact)
  {
    hide Safe, DataWithin, WalPoints, DirPoints, Running, AllClean, Owed, AllFit;
    var settled := WalPoints(s.log.files) + DirPoints(Settled(s));
    DirsWithin(s.dirs, Owed(s));
    if s.upkeep.MergeOpen? {
      SplitPoints(s.dirs, s.upkeep.target.dir);
    } else if s.phase.FlushOpen? {
      SplitPoints(s.dirs, s.phase.blk.dir);
    }
    SafeIsSubset(settled, Owed(s), s.horizon, s.exact);
    SafeMore(settled, DiskPoints(s), Owed(s), s.horizon, s.exact);
  }

  lemma SafeIsSubset(have: set<Record>, due: set<Record>, horizon: Int64, exact: bool)
    requires Safe(have, due, horizon, exact)
    ensures have <= due
  {
  }

  lemma WritingHas(open: seq<Block>, dirs: Dirs, b: Block, part: nat, room: set<Record>)
    requires Writing(open, dirs, b, part, room)
    ensures b.dir in dirs && part <= 2
  {
  }

  /** When the block's points are held elsewhere, its directory being complete changes nothing that can be recovered. */
  lemma CompletePoints(base: set<Record>, open: seq<Block>, dirs: Dirs, b: Block, room: set<Record>)
    requires Writing(open, dirs, b, 2, room) && SeriesPoints(b.series) <= base + DirPoints(dirs - {b.dir})
    ensures base + DirPoints(StageOn(dirs, b, 2)) == base + DirPoints(dirs - {b.dir})
  {
    hide SeriesPoints, DirPoints, Writing, OwnPoints;
    var dirs' := StageOn(dirs, b, 2);
    StageRest(dirs, b, 2);
    SplitPoints(dirs', b.dir);
    WritingEnds(open, dirs, b, room);
    BackedPoints(b, dirs');
  }

  lemma BackedPoints(b: Block, dirs: Dirs)
    requires Backed(b, dirs)
    ensures OwnPoints(b.dir, dirs) == SeriesPoints(b.series)
    ensures SeriesPoints(b.series) <= DirPoints(dirs)
  {
    hide SeriesPoints, DirPoints;
    SplitPoints(dirs, b.dir);
  }

  // ----- flush -----

  lemma BeginFlushKeeps(hash: Labels -> nat, s: State, b: Block)
    requires Inv(hash, s) && Enabled(hash, s, BeginFlush(b))
    ensures Inv(hash, Apply(s, BeginFlush(b)))
  {
    hide Replay, Clean, AllClean, Logged, Safe, WalPoints, DirPoints, HeadPoints, AppendAll, IsHeadBlock, BlocksPoints,
         Listed, Writing, SeriesPoints, OwnPoints, DataWithin;
    var s' := Apply(s, BeginFlush(b));
    BeginWriting(s.open, s.dirs, b, HeadPoints(s.head));
    NothingUnapplied(s);
    BeginsWithin(s.dirs, b.dir, s.promised);
    SplitPoints(s.dirs, b.dir);
    NothingUnapplied(s');
    assert Settled(s') == s.dirs - {b.dir};
    assert WalPoints(s.log.files) + DirPoints(Settled(s')) == WalPoints(s.log.files) + DirPoints(s.dirs);
  }

  lemma FlushStepKeeps(hash: Labels -> nat, s: State)
    requires Inv(hash, s) && Enabled(hash, s, FlushStep)
    ensures Inv(hash, Apply(s, FlushStep))
  {
    hide Replay, Clean, AllClean, Logged, Safe, WalPoints, DirPoints, HeadPoints, AppendAll, IsHeadBlock, BlocksPoints,
         Listed, Writing, SeriesPoints, StageOn, DataWithin;
    var b, part := s.phase.blk, s.phase.part;
    var s' := Apply(s, FlushStep);
    HeadBlockPoints(b, s.head);
    NothingUnapplied(s);
    NothingUnapplied(s');
    WritingHas(s.open, s.dirs, b, part, HeadPoints(s.head));
    StageRest(s.dirs, b, part);
    SafeIsSubset(WalPoints(s.log.files) + DirPoints(Settled(s)), s.promised, s.horizon, s.exact);
    StageWithin(s.dirs, b, part, s.promised);
    if part == 2 {
      CompletePoints(WalPoints(s.log.files), s.open, s.dirs, b, HeadPoints(s.head));
    }
    FlushStepMatches(s);
  }

  lemma FlushStepMatches(s: State)
    requires s.phase.FlushOpen? && FlushMatches(s)
    ensures FlushMatches(Apply(s, FlushStep))
  {
    hide IsHeadBlock, Listed, Writing, HeadPoints, SeriesPoints, StageOn;
    var b, part := s.phase.blk, s.phase.part;
    WritingHas(s.open, s.dirs, b, part, HeadPoints(s.head));
    if part < 2 {
      NextWriting(s.open, s.dirs, b, part, HeadPoints(s.head));
    } else {
      WritingEnds(s.open, s.dirs, b, HeadPoints(s.head));
      HeadBlockPoints(b, s.head);
    }
  }

  lemma AbortFlushKeeps(hash: Labels -> nat, s: State)
    requires Inv(hash, s) && Enabled(hash, s, AbortFlush)
    ensures Inv(hash, Apply(s, AbortFlush))
  {
    hide Replay, Clean, AllClean, AllFinish, Logged, Safe, WalPoints, DirPoints, HeadPoints, AppendAll, IsHeadBlock,
         BlocksPoints, SeriesPoints, DataWithin;
    var b := s.phase.blk;
    NothingUnapplied(s);
    NothingUnapplied(Apply(s, AbortFlush));
    SplitPoints(s.dirs, b.dir);
    assert OwnPoints(b.dir, s.dirs) == {};
    assert DirPoints(s.dirs - {b.dir}) == DirPoints(s.dirs);
  }

  lemma InstallFlushKeeps(hash: Labels -> nat, s: State)
    requires Inv(hash, s) && Enabled(hash, s, InstallFlush)
    ensures Inv(hash, Apply(s, InstallFlush))
  {
    hide Replay, Clean, AllClean, Logged, Safe, WalPoints, DirPoints, HeadPoints, AppendAll, SeriesPoints, BlocksPoints,
         Listed, IsHeadBlock, DataWithin;
    var b := s.phase.blk;
    var s' := Apply(s, InstallFlush);
    HeadBlockPoints(b, s.head);
    BlocksPointsSnoc(s.open, b);
    ListedPoints(s'.open, s'.dirs);
    NoHeadPoints();
    NothingUnapplied(s);
    NothingUnapplied(s');
    assert LivePoints(s') == LivePoints(s) == DirPoints(s'.dirs);
  }

  lemma FewerSegments(files: Files, n: nat)
    ensures WalPoints(files - {n}) <= WalPoints(files)
  {
    hide Replay;
  }

  lemma RemoveSegmentKeeps(hash: Labels -> nat, s: State, n: nat)
    requires Inv(hash, s) && Enabled(hash, s, RemoveSegment(n))
    ensures Inv(hash, Apply(s, RemoveSegment(n)))
  {
    hide Replay, Clean, AllClean, AllFinish, Logged, Safe, WalPoints, DirPoints, HeadPoints, AppendAll, BlocksPoints,
         Listed, DataWithin;
    var s' := Apply(s, RemoveSegment(n));
    RemovedSegment(s.log, n);
    FewerSegments(s.log.files, n);
    NothingUnapplied(s);
    NothingUnapplied(s');
    SafeIsSubset(DiskPoints(s), s.promised, s.horizon, s.exact);
    NoHeadPoints();
    SafeMore(DirPoints(s.dirs), DiskPoints(s'), s.promised, s.horizon, s.exact);
  }

  lemma EndFlushKeeps(hash: Labels -> nat, s: State)
    requires Inv(hash, s) && Enabled(hash, s, EndFlush)
    ensures Inv(hash, Apply(s, EndFlush))
  {
    hide Replay, Clean, AllClean, Logged, Safe, DirPoints, HeadPoints, WalPoints, AppendAll, BlocksPoints, Listed,
         DataWithin;
    NothingUnapplied(s);
    NothingUnapplied(Apply(s, EndFlush));
  }

  // ----- compaction -----

  lemma MergedPoints(hash: Labels -> nat, b: Block, open: seq<Block>)
    requires IsMergeOf(hash, b, open)
    ensures SeriesPoints(b.series) <= BlocksPoints(open)
    ensures forall p :: p in BlocksPoints(open) ==> HasKey(SeriesPoints(b.series), p)
  {
    hide SeriesPoints, IsMerge, NoCollision, MergedBounds, BlocksPoints;
    PointsOfBlocks(open);
    MergeInventsNothing(hash, b.series, AllSeriesOf(open));
    MergeKeepsKeys(hash, b.series, AllSeriesOf(open));
  }

  lemma SourcesElsewhere(open: seq<Block>, dirs: Dirs, b: Block, part: nat)
    requires Writing(open, dirs, b, part, BlocksPoints(open)) && forall x :: x in open ==> x.dir != b.dir
    ensures BlocksPoints(open) <= DirPoints(dirs - {b.dir})
  {
    hide SeriesPoints, DirPoints;
    forall p | p in BlocksPoints(open) ensures p in DirPoints(dirs - {b.dir}) {
      var x :| x in open && p in SeriesPoints(x.series);
      StandsElsewhere(x, dirs, b.dir);
    }
  }

  lemma BeginMergeKeeps(hash: Labels -> nat, s: State, b: Block)
    requires Inv(hash, s) && Enabled(hash, s, BeginMerge(b))
    ensures Inv(hash, Apply(s, BeginMerge(b)))
  {
    hide Replay, Clean, AllClean, Logged, WalPoints, DirPoints, HeadPoints, AppendAll, IsMerge, NoCollision, Owed,
         MergedBounds, BlocksPoints, Writing, SeriesPoints, HasKey, DataWithin, Unapplied;
    var s' := Apply(s, BeginMerge(b));
    assert Listed(s.open, s.dirs);
    TargetIsFree(s.open, s.dirs, b);
    BeginWriting(s.open, s.dirs, b, BlocksPoints(s.open));
    BeginsWithin(s.dirs, b.dir, Owed(s));
    SplitPoints(s.dirs, b.dir);
    assert Settled(s') == s.dirs - {b.dir} && Settled(s) == s.dirs;
    assert OwnPoints(b.dir, s.dirs) == {};
    SameLedger(s, s');
    assert DirPoints(s.dirs - {b.dir}) == DirPoints(s.dirs);
    assert s'.log == s.log && Settled(s') == s.dirs - {b.dir};
  }

  lemma SameLedger(s: State, s': State)
    requires s'.promised == s.promised && s'.waiting == s.waiting && s'.phase == s.phase
    ensures Owed(s') == Owed(s) && Unapplied(s') == Unapplied(s)
  {
  }

  lemma TargetIsFree(open: seq<Block>, dirs: Dirs, b: Block)
    requires Listed(open, dirs) && forall x :: x in open ==> x.dir != b.dir
    ensures !IsWhole(b.dir, dirs)
  {
  }

  lemma MergeStepKeeps(hash: Labels -> nat, s: State)
    requires Inv(hash, s) && Enabled(hash, s, MergeStep)
    ensures Inv(hash, Apply(s, MergeStep))
  {
    hide Replay, Clean, AllClean, Logged, Safe, WalPoints, DirPoints, HeadPoints, AppendAll, IsMergeOf, Owed,
         BlocksPoints, Writing, SeriesPoints, StageOn, DataWithin, Unapplied;
    var b, part := s.upkeep.target, s.upkeep.part;
    var s' := Apply(s, MergeStep);
    TargetIsNoSource(hash, b, s.open);
    MergedPoints(hash, b, s.open);
    SourcesElsewhere(s.open, s.dirs, b, part);
    WritingHas(s.open, s.dirs, b, part, BlocksPoints(s.open));
    StageRest(s.dirs, b, part);
    SafeIsSubset(WalPoints(s.log.files) + DirPoints(Settled(s)), Owed(s), s.horizon, s.exact);
    StageWithin(s.dirs, b, part, Owed(s));
    if part == 2 {
      CompletePoints(WalPoints(s.log.files), s.open, s.dirs, b, BlocksPoints(s.open));
    }
    SameLedger(s, s');
    MergeStepMatches(hash, s);
  }

  lemma TargetIsNoSource(hash: Labels -> nat, b: Block, open: seq<Block>)
    requires IsMergeOf(hash, b, open)
    ensures forall x :: x in open ==> x.dir != b.dir
  {
    hide IsMerge, NoCollision, MergedBounds;
  }

  lemma MergeStepMatches(hash: Labels -> nat, s: State)
    requires s.upkeep.MergeOpen? && ListMatches(hash, s)
    ensures ListMatches(hash, Apply(s, MergeStep))
  {
    hide IsMergeOf, Writing, BlocksPoints, SeriesPoints, StageOn;
    var b, part := s.upkeep.target, s.upkeep.part;
    WritingHas(s.open, s.dirs, b, part, BlocksPoints(s.open));
    if part < 2 {
      NextWriting(s.open, s.dirs, b, part, BlocksPoints(s.open));
    } else {
      WritingEnds(s.open, s.dirs, b, BlocksPoints(s.open));
    }
  }

  lemma SourceGoneMatches(hash: Labels -> nat, s: State, b: Block, left: Remnant)
    requires ListMatches(hash, s) && s.upkeep.MergeDone? && b in s.open
    ensures ListMatches(hash, Apply(s, RemoveSource(b, left)))
    ensures Backed(s.upkeep.target, Apply(s, RemoveSource(b, left)).dirs)
  {
    hide IsMerge, NoCollision, MergedBounds, Removed, SeriesPoints;
    RemovedPoints(s.dirs, b.dir, left);
  }

  /** While the merged block is complete, a source may go: its label sets and times are in the merge. */
  lemma SourceGoneSafe(hash: Labels -> nat, s: State, b: Block, left: Remnant, p: Record)
    requires ListMatches(hash, s) && s.upkeep.MergeDone? && b in s.open && p in DiskPoints(s)
    ensures HasKey(DiskPoints(Apply(s, RemoveSource(b, left))), p)
  {
    hide WalPoints, DirPoints, SeriesPoints, IsMergeOf, Removed, BlocksPoints;
    var m := s.upkeep.target;
    var s' := Apply(s, RemoveSource(b, left));
    SplitPoints(s.dirs, b.dir);
    RemovedPoints(s.dirs, b.dir, left);
    if p !in DiskPoints(s') {
      SourceGoneMatches(hash, s, b, left);
      TargetIsNoSource(hash, m, s.open);
      SourceIsMerged(hash, s, b, p);
      BackedPoints(m, s'.dirs);
      var q :| q in SeriesPoints(m.series) && q.labels == p.labels && q.t == p.t;
      assert q in DiskPoints(s');
    }
  }

  lemma SourceIsMerged(hash: Labels -> nat, s: State, b: Block, p: Record)
    requires ListMatches(hash, s) && s.upkeep.MergeDone? && b in s.open && b.dir != s.upkeep.target.dir
    requires p in OwnPoints(b.dir, s.dirs)
    ensures HasKey(SeriesPoints(s.upkeep.target.series), p)
  {
    hide SeriesPoints, IsMergeOf;
    MergedPoints(hash, s.upkeep.target, s.open);
    var c := BlockAt(b.dir, s.dirs);
    assert c in s.open && p in SeriesPoints(c.series);
    assert p in BlocksPoints(s.open);
  }

  lemma RemoveSourceKeeps(hash: Labels -> nat, s: State, b: Block, left: Remnant)
    requires Inv(hash, s) && Enabled(hash, s, RemoveSource(b, left))
    ensures Inv(hash, Apply(s, RemoveSource(b, left)))
  {
    hide Replay, Clean, AllClean, Logged, WalPoints, DirPoints, HeadPoints, AppendAll, BlocksPoints, ListMatches, Owed,
         HasKey, Removed, SeriesPoints, DataWithin, Unapplied;
    var s' := Apply(s, RemoveSource(b, left));
    SourceGoneMatches(hash, s, b, left);
    RemovedWithin(s.dirs, b.dir, left, Owed(s));
    forall p | p in DiskPoints(s) ensures HasKey(DiskPoints(s'), p) {
      SourceGoneSafe(hash, s, b, left, p);
    }
    RemovedPoints(s.dirs, b.dir, left);
    SameLedger(s, s');
    SafeReplace(DiskPoints(s), DiskPoints(s'), Owed(s), s.horizon);
  }

  lemma MergedLiveSafe(hash: Labels -> nat, s: State)
    requires s.upkeep.MergeDone? && IsMergeOf(hash, s.upkeep.target, s.open)
    requires Safe(LivePoints(s), s.promised, s.horizon, false)
    ensures Safe(LivePoints(Apply(s, EndMerge)), s.promised, s.horizon, false)
  {
    hide HeadPoints, SeriesPoints, BlocksPoints, IsMergeOf;
    var m := s.upkeep.target;
    var s' := Apply(s, EndMerge);
    MergedPoints(hash, m, s.open);
    BlocksPointsSnoc([], m);
    assert [] + [m] == [m];
    NoBlocksPoints();
    forall p | p in LivePoints(s) ensures HasKey(LivePoints(s'), p) {
      if p in BlocksPoints(s.open) {
        var q :| q in SeriesPoints(m.series) && q.labels == p.labels && q.t == p.t;
        assert q in LivePoints(s');
      }
    }
    SafeReplace(LivePoints(s), LivePoints(s'), s.promised, s.horizon);
  }

  lemma EndMergeKeeps(hash: Labels -> nat, s: State)
    requires Inv(hash, s) && Enabled(hash, s, EndMerge)
    ensures Inv(hash, Apply(s, EndMerge))
  {
    hide Replay, Clean, AllClean, Logged, LivePoints, WalPoints, DirPoints, HeadPoints, Safe, AppendAll, IsMergeOf,
         RecordSet, Listed, DataWithin, Owed, Unapplied;
    var m := s.upkeep.target;
    var s' := Apply(s, EndMerge);
    MergedLiveSafe(hash, s);
    MergedIsListed(s, m);
    SameLedger(s, s');
  }

  lemma NoBlocksPoints()
    ensures BlocksPoints([]) == {}
  {
  }

  lemma MergedIsListed(s: State, m: Block)
    requires Backed(m, s.dirs) && forall b :: b in s.open ==> !IsWhole(b.dir, s.dirs)
    requires forall d :: IsWhole(d, s.dirs) && d != m.dir ==> BlockAt(d, s.dirs) in s.open
    ensures Listed([m], s.dirs)
  {
    hide SeriesPoints;
  }

  // ----- retention -----

  lemma BeginRetentionKeeps(hash: Labels -> nat, s: State, cutoff: Int64)
    requires Inv(hash, s) && Enabled(hash, s, BeginRetention(cutoff))
    ensures Inv(hash, Apply(s, BeginRetention(cutoff)))
  {
    hide Replay, Clean, AllClean, Logged, WalPoints, DirPoints, HeadPoints, AppendAll, BlocksPoints, HasKey, DataWithin,
         ExpireTogether, ExpireWhole, SeriesPoints, Owed, Unapplied;
    SameLedger(s, Apply(s, BeginRetention(cutoff)));
    assert Listed(s.open, s.dirs);
  }

  /** The directory of an expired block holds no point from the cutoff on. */
  lemma DroppedIsOld(hash: Labels -> nat, s: State, b: Block, left: Remnant, p: Record)
    requires ListMatches(hash, s) && Enabled(hash, s, DropBlock(b, left))
    ensures p in OwnPoints(b.dir, s.dirs) ==> p.t < s.upkeep.cutoff <= s.horizon
  {
    hide SeriesPoints;
    if p in OwnPoints(b.dir, s.dirs) {
      var c := BlockAt(b.dir, s.dirs);
      assert c in s.open && c.dir == b.dir && p in SeriesPoints(c.series);
    }
  }

  lemma DroppedSafe(hash: Labels -> nat, s: State, b: Block, left: Remnant, p: Record)
    requires ListMatches(hash, s) && Enabled(hash, s, DropBlock(b, left))
    requires p in DiskPoints(s) && p.t >= s.horizon
    ensures p in DiskPoints(Apply(s, DropBlock(b, left)))
  {
    hide WalPoints, DirPoints, OwnPoints, Removed, ListMatches;
    SplitPoints(s.dirs, b.dir);
    RemovedPoints(s.dirs, b.dir, left);
    DroppedIsOld(hash, s, b, left, p);
  }

  lemma DropBlockKeeps(hash: Labels -> nat, s: State, b: Block, left: Remnant)
    requires Inv(hash, s) && Enabled(hash, s, DropBlock(b, left))
    ensures Inv(hash, Apply(s, DropBlock(b, left)))
  {
    hide Replay, Clean, AllClean, Logged, WalPoints, DirPoints, HeadPoints, AppendAll, BlocksPoints, ListMatches, Owed,
         Removed, SeriesPoints, DataWithin, Unapplied;
    var s' := Apply(s, DropBlock(b, left));
    DroppedListMatches(hash, s, b, left);
    RemovedWithin(s.dirs, b.dir, left, Owed(s));
    RemovedPoints(s.dirs, b.dir, left);
    forall p | p in DiskPoints(s) && p.t >= s.horizon ensures HasKey(DiskPoints(s'), p) {
      DroppedSafe(hash, s, b, left, p);
    }
    SameLedger(s, s');
    SafeReplace(DiskPoints(s), DiskPoints(s'), Owed(s), s.horizon);
  }

  lemma DroppedListMatches(hash: Labels -> nat, s: State, b: Block, left: Remnant)
    requires ListMatches(hash, s) && Enabled(hash, s, DropBlock(b, left))
    ensures ListMatches(hash, Apply(s, DropBlock(b, left)))
  {
    hide SeriesPoints, Removed;
    RemovedPoints(s.dirs, b.dir, left);
    var dirs' := Removed(s.dirs, b.dir, left);
    forall x | x in s.open && x.meta.maxTime >= s.upkeep.cutoff ensures Stands(x, dirs') {
      assert x.dir != b.dir;
    }
  }

  lemma {:induction false} UnexpiredMembers(open: seq<Block>, cutoff: Int64)
    ensures forall b :: b in Unexpired(open, cutoff) <==> b in open && b.meta.maxTime >= cutoff
    ensures |Unexpired(open, cutoff)| <= |open|
  {
    if open != [] {
      UnexpiredMembers(open[..|open| - 1], cutoff);
      assert open == open[..|open| - 1] + [open[|open| - 1]];
    }
  }

  lemma RetainedLiveSafe(s: State, kept: seq<Block>, cutoff: Int64)
    requires forall b :: b in kept <==> b in s.open && b.meta.maxTime >= cutoff
    requires ExpireWhole(s.open, cutoff) && cutoff <= s.horizon
    requires Safe(LivePoints(s), s.promised, s.horizon, false)
    ensures Safe(LivePoints(s.(open := kept)), s.promised, s.horizon, false)
  {
    hide HeadPoints, SeriesPoints;
    var s' := s.(open := kept);
    forall p | p in LivePoints(s) && p.t >= s.horizon ensures HasKey(LivePoints(s'), p) {
      if p in BlocksPoints(s.open) {
        var b :| b in s.open && p in SeriesPoints(b.series);
        assert b.meta.maxTime >= cutoff;
        assert p in LivePoints(s');
      }
    }
    assert BlocksPoints(kept) <= BlocksPoints(s.open);
    SafeReplace(LivePoints(s), LivePoints(s'), s.promised, s.horizon);
  }

  lemma EndRetentionKeeps(hash: Labels -> nat, s: State)
    requires Inv(hash, s) && Enabled(hash, s, EndRetention)
    ensures Inv(hash, Apply(s, EndRetention))
  {
    hide Replay, Clean, AllClean, Logged, WalPoints, HeadPoints, DirPoints, LivePoints, AppendAll, ExpireWhole,
         Unexpired, Safe, BlocksPoints, RecordSet, Listed, SeriesPoints, DataWithin, Owed, Unapplied;
    var cutoff := s.upkeep.cutoff;
    var s' := Apply(s, EndRetention);
    UnexpiredMembers(s.open, cutoff);
    RetainedIsListed(hash, s, s'.open);
    RetainedLiveSafe(s, s'.open, cutoff);
    SameLive(s.(open := s'.open), s');
    SameLedger(s, s');
  }

  lemma SameLive(s: State, s': State)
    requires s'.head == s.head && s'.open == s.open
    ensures LivePoints(s') == LivePoints(s)
  {
  }

  lemma RetainedIsListed(hash: Labels -> nat, s: State, kept: seq<Block>)
    requires ListMatches(hash, s) && Enabled(hash, s, EndRetention)
    requires forall b :: b in kept <==> b in s.open && b.meta.maxTime >= s.upkeep.cutoff
    ensures Listed(kept, s.dirs)
  {
    hide SeriesPoints;
    forall d | IsWhole(d, s.dirs) ensures BlockAt(d, s.dirs) in kept {
      assert BlockAt(d, s.dirs).dir == d;
    }
  }

  // ----- crash and recovery -----

  lemma CrashKeeps(hash: Labels -> nat, s: State)
    requires Inv(hash, s) && Enabled(hash, s, Crash)
    ensures Inv(hash, Apply(s, Crash))
  {
    hide Replay, Clean, AllClean, Logged, WalPoints, DirPoints, HeadPoints, AppendAll, Safe, ListMatches, DataWithin,
         Unapplied, Running;
    var s' := Apply(s, Crash);
    DiskIsSafe(hash, s);
    NothingUnapplied(s');
    assert Owed(s') == Owed(s) && Settled(s') == s.dirs;
  }

  lemma CrashTornKeeps(hash: Labels -> nat, s: State, cut: nat)
    requires Inv(hash, s) && Enabled(hash, s, CrashTorn(cut))
    ensures Inv(hash, Apply(s, CrashTorn(cut)))
  {
    hide Replay, Clean, AllClean, Logged, WalPoints, DirPoints, HeadPoints, AppendAll, Safe, ListMatches, DataWithin,
         Unapplied, Running, TornLog, Encode, Fits;
    var next := s.phase.batch[s.phase.written];
    var s' := Apply(s, CrashTorn(cut));
    DiskIsSafe(hash, s);
    NothingUnapplied(s');
    TornPoints(s.log, next, cut);
    assert Owed(s') == Owed(s) && Settled(s') == s.dirs;
  }

  lemma ReopenKeeps(hash: Labels -> nat, s: State, n: nat, open: seq<Block>)
    requires Inv(hash, s) && Enabled(hash, s, Reopen(n, open))
    ensures Inv(hash, Apply(s, Reopen(n, open)))
  {
    hide Replay, Clean, AllClean, LogRecords, WalPoints, DirPoints, HeadPoints, AppendAll, SeriesPoints, BlocksPoints,
         Safe, Reopened, Listed, RecordSet, DataWithin;
    var s' := Apply(s, Reopen(n, open));
    var files := s.log.files;
    ReopenedPoints(files, n);
    ReopenedRest(s.log, n);
    ReopenedCurrent(files, n);
    ReplayedPoints(files, n);
    AppendedPoints(map[], LogRecords(files, n + 1));
    NoHeadPoints();
    OpenedIsListed(open, s.dirs);
    ListedPoints(open, s.dirs);
    NothingUnapplied(s);
    NothingUnapplied(s');
    DiskIsSafe(hash, s);
    assert HeadPoints(s'.head) == WalPoints(s'.log.files);
    assert LivePoints(s') == DiskPoints(s);
  }

  lemma ReopenedCurrent(files: Files, n: nat)
    ensures Reopened(files, n).current == n
  {
  }

  // ----- whole runs -----

  lemma {:induction false} StepKeeps(hash: Labels -> nat, s: State, e: Action)
    requires Inv(hash, s) && Enabled(hash, s, e)
    ensures Inv(hash, Apply(s, e))
  {
    hide Inv, Apply;
    match e
    case BeginCommit(batch) => BeginCommitKeeps(hash, s, batch);
    case WriteNext => WriteNextKeeps(hash, s);
    case RotateNow => RotateKeeps(hash, s);
    case EndLog => EndLogKeeps(hash, s);
    case AppendHead(i) => AppendHeadKeeps(hash, s, i);
    case BeginFlush(b) => BeginFlushKeeps(hash, s, b);
    case FlushStep => FlushStepKeeps(hash, s);
    case AbortFlush => AbortFlushKeeps(hash, s);
    case InstallFlush => InstallFlushKeeps(hash, s);
    case RemoveSegment(n) => RemoveSegmentKeeps(hash, s, n);
    case EndFlush => EndFlushKeeps(hash, s);
    case BeginMerge(b) => BeginMergeKeeps(hash, s, b);
    case MergeStep => MergeStepKeeps(hash, s);
    case RemoveSource(b, left) => RemoveSourceKeeps(hash, s, b, left);
    case EndMerge => EndMergeKeeps(hash, s);
    case BeginRetention(cutoff) => BeginRetentionKeeps(hash, s, cutoff);
    case DropBlock(b, left) => DropBlockKeeps(hash, s, b, left);
    case EndRetention => EndRetentionKeeps(hash, s);
    case Crash => CrashKeeps(hash, s);
    case CrashTorn(cut) => CrashTornKeeps(hash, s, cut);
    case Reopen(n, open) => ReopenKeeps(hash, s, n, open);
  }

  lemma StartHolds(hash: Labels -> nat)
    ensures Inv(hash, START)
  {
  }

  lemma {:induction false} RunKeeps(hash: Labels -> nat, s: State, es: seq<Action>)
    requires Inv(hash, s) && Legal(hash, s, es)
    ensures Inv(hash, Run(s, es))
  {
    hide Inv, Apply, Enabled;
    if es != [] {
      var k := |es| - 1;
      RunKeeps(hash, s, es[..k]);
      StepKeeps(hash, Run(s, es[..k]), es[k]);
    }
  }
}
