/** The filesystem store: its methods, each a run of the engine. */
module FSStores {
  import opened Types
  import opened Digits
  import opened Codec
  import opened SegmentNames
  import opened Sorting
  import opened Wal
  import opened WalLaws
  import opened Heads
  import opened MemStores
  import opened Blocks
  import opened Compaction
  import opened CompactionLaws
  import opened Disks
  import opened Engine
  import opened EngineLaws
  import opened Durability
  import opened Coverage
  import opened Recovery
  import opened EngineRuns
  import opened Calls

  lemma FlushKeepsCovered(blocks: seq<Block>, b: Block, h: Head)
    requires EachCovered(blocks) && IsHeadBlock(b, h)
    ensures EachCovered(blocks + [b])
  {
    hide IsHeadBlock, Covered;
    HeadBlockCovered(b, h);
  }

  lemma CompactKeepsCovered(hash: Labels -> nat, merged: Block, blocks: seq<Block>)
    requires EachCovered(blocks)
    requires IsMerge(hash, merged.series, AllSeriesOf(blocks)) && MergedBounds(merged.meta, blocks)
    ensures EachCovered([merged])
  {
    hide IsMerge, MergedBounds, Covered;
    MergeIsCovered(hash, merged, blocks);
  }

  lemma NothingInfinite()
    ensures FinitePoints({})
  {
  }

  lemma MergedIsFinite(hash: Labels -> nat, merged: Block, blocks: seq<Block>)
    requires IsMerge(hash, merged.series, AllSeriesOf(blocks))
    ensures FinitePoints(BlocksPoints(blocks)) ==> FinitePoints(SeriesPoints(merged.series))
    ensures FinitePoints(SeriesPoints(merged.series)) ==> FinitePoints(BlocksPoints([merged]))
  {
    hide IsMerge, SeriesPoints, IsFinite, IsFloat;
    PointsOfBlocks(blocks);
    MergeInventsNothing(hash, merged.series, AllSeriesOf(blocks));
  }

  lemma SafeIsMerge(hash: Labels -> nat, merged: Block, blocks: seq<Block>)
    requires |blocks| >= 2 && CompactionSafe(hash, blocks) && merged.dir == Compacted(blocks[0].meta.minTime)
    requires IsMerge(hash, merged.series, AllSeriesOf(blocks)) && MergedBounds(merged.meta, blocks)
    ensures IsMergeOf(hash, merged, blocks)
  {
    hide IsMerge, NoCollision, MergedBounds;
  }

  lemma CompactedIs(dirs: Dirs, merged: Block, blocks: seq<Block>)
    ensures WithoutSources(dirs[merged.dir := Complete(merged)], blocks) == CompactedDirs(dirs, merged, blocks)
  {
    WithoutSourcesIs(dirs[merged.dir := Complete(merged)], blocks);
  }

  lemma ExpiryKeepsCovered(blocks: seq<Block>, cutoff: Int64)
    requires EachCovered(blocks)
    ensures EachCovered(Unexpired(blocks, cutoff))
  {
    hide Covered;
    UnexpiredMembers(blocks, cutoff);
  }

  class FSStore {
    const hash: Labels -> nat
    const mem: MemStore
    const wal: WAL
    const disk: Disk
    var blocks: seq<Block>

    /** Every event since the store's directory was created, restarts included. */
    ghost var trail: seq<Action>

    /** The parts fit together. */
    ghost predicate Sound()
      reads this, mem, wal, wal.disk
    {
      mem.Valid() && mem.hash == hash && wal.Valid() && wal.disk == disk
    }

    /** The metadata of every listed block bounds its samples. */
    ghost predicate AllCovered()
      reads this
    {
      EachCovered(blocks)
    }

    /** Moreover the store is where a legal run of the engine has brought it. */
    ghost predicate Valid()
      reads this, mem, wal, disk, wal.disk, mem.index.Values
    {
      Sound() && Legal(hash, START, trail) && At(Run(START, trail))
    }

    ghost predicate At(s: State)
      reads this, mem, wal, disk, wal.disk, mem.index.Values
    {
      && AtRest(s) && s.log == wal.State() && s.dirs == disk.dirs && s.head == mem.Contents() && s.open == blocks
    }

    /** The fields of a store whose parts have been opened. */
    constructor Assemble(hash: Labels -> nat, mem: MemStore, wal: WAL, blocks: seq<Block>, ghost trail: seq<Action>)
      ensures this.hash == hash && this.mem == mem && this.wal == wal && disk == wal.disk
      ensures this.blocks == blocks && this.trail == trail
    {
      this.hash, this.mem, this.wal, this.disk := hash, mem, wal, wal.disk;
      this.blocks, this.trail := blocks, trail;
    }

    /** openBlocks: every directory that openBlock accepts, by minimum time. */
    static method OpenBlocks(dirs: Dirs) returns (blocks: seq<Block>)
      ensures OpenedFrom(blocks, dirs)
      ensures forall i, j :: 0 <= i < j < |blocks| ==> blocks[i].meta.minTime <= blocks[j].meta.minTime
    {
      var found: seq<Block> := [];
      var entries := dirs.Keys;
      while entries != {}
        invariant entries <= dirs.Keys
        invariant forall b :: b in found ==> b.dir !in entries && Backed(b, dirs)
        invariant forall d :: IsWhole(d, dirs) && d !in entries ==> BlockAt(d, dirs) in found
        invariant DistinctDirs(found)
        decreases |entries|
      {
        var d :| d in entries;
        entries := entries - {d};
        if IsWhole(d, dirs) {
          found := found + [BlockAt(d, dirs)];
        }
      }
      OlderIsOrder();
      blocks := Sort(found, Older);
      SameElements(found, blocks);
      SortKeepsDirs(found, blocks);
    }

    /** NewFSStore over what is on disk; null stands for the error that a failed replay returns. */
    static method NewFSStore(hash: Labels -> nat, disk: Disk, walSegmentSize: int, ghost was: seq<Action>)
      returns (s: FSStore?, ghost n: nat)
      requires forall m :: m in disk.files ==> m <= MAX_INT
      modifies disk
      ensures LatestSegment(old(disk.files), n)
      ensures disk.files == Reopened(old(disk.files), n).files && disk.dirs == old(disk.dirs)
      ensures WriteOrder(disk.files) ==>
                var replayed := ReplayFiles(disk.files, SegmentNumbers(disk.files, n + 1));
                && (s == null <==> replayed.end != Finished)
                && (s != null ==> s.mem.Contents() == AppendAll(map[], replayed.records))
      ensures s != null ==> OpenedFrom(s.blocks, disk.dirs) && s.Sound() && (GoodDirs(disk.dirs) ==> s.AllCovered())
      ensures s != null ==> fresh(s) && fresh(s.mem) && fresh(s.wal) && fresh(s.mem.index.Values) && s.disk == disk
      ensures WriteOrder(disk.files) && Legal(hash, START, was) && Run(START, was).phase.Down?
              && DiskOf(Run(START, was)) == old(disk.Now())
              ==> && (s != null <==> AllFinish(old(disk.files)))
                  && (s != null ==>
                        && s.Valid() && s.trail == was + [Reopen(n, s.blocks)] && Due(s.trail) == Due(was)
                        && CallPassed(was, s.trail, old(disk.history), disk.history))
    {
      hide Legal, Run, CallPassed, LatestSegment, WriteOrder, Inv, LogRecords, AppendAll, ReplayFiles, OpenedFrom, Due,
           GoodDirs, GoodBuckets, GoodRefs, SegmentNumbers, Reopened, EachCovered, AllFinish;
      var wal, mem, blocks, end := Load(hash, disk, walSegmentSize);
      n := wal.segmentSeq;
      if end != Finished {
        s := null;
      } else {
        s := new FSStore.Assemble(hash, mem, wal, blocks, was + [Reopen(n, blocks)]);
      }
      ReopenReplays(old(disk.files), n);
      if Legal(hash, START, was) && Run(START, was).phase.Down? && DiskOf(Run(START, was)) == old(disk.Now())
          && s != null && WriteOrder(disk.files) {
        ReopenRun(hash, was, n, blocks, old(disk.history));
      }
    }

    /** The parts of a store: the log is opened, the blocks are read, and the log is replayed into an empty head. */
    static method Load(hash: Labels -> nat, disk: Disk, walSegmentSize: int)
      returns (wal: WAL, mem: MemStore, blocks: seq<Block>, end: End)
      requires forall m :: m in disk.files ==> m <= MAX_INT
      modifies disk
      ensures fresh(wal) && fresh(mem) && fresh(mem.index.Values) && wal.disk == disk && mem.hash == hash
      ensures wal.Valid() && mem.Valid() && OpenedFrom(blocks, disk.dirs)
      ensures LatestSegment(old(disk.files), wal.segmentSeq) && wal.State() == Reopened(old(disk.files), wal.segmentSeq)
      ensures GoodDirs(disk.dirs) ==> EachCovered(blocks)
      ensures disk.dirs == old(disk.dirs) && disk.history == old(disk.history) + [disk.Now()]
      ensures WriteOrder(disk.files) ==>
                var replayed := ReplayFiles(disk.files, SegmentNumbers(disk.files, wal.segmentSeq + 1));
                end == replayed.end && (end == Finished ==> mem.Contents() == AppendAll(map[], replayed.records))
    {
      hide IsListing, ReplayListed, Numbers, NameLess, LatestSegment, WriteOrder, Replay, AppendAll, ReplayFiles,
           OpenedFrom, GoodBuckets, GoodRefs, SegmentNumbers, Reopened, EachCovered, GoodDirs;
      wal := new WAL(disk, walSegmentSize);
      mem := new MemStore(hash, 0);
      blocks := OpenBlocks(disk.dirs);
      if GoodDirs(disk.dirs) {
        OpenedAreCovered(blocks, disk.dirs);
      }
      var calls, e := wal.Replay();
      end := e;
      if end == Finished {
        ReplayInto(mem, calls);
      }
    }

    /** The function given to Replay: each record is appended and committed on its own. */
    static method ReplayInto(mem: MemStore, calls: seq<Record>)
      requires mem.Valid()
      modifies mem, mem.index.Values
      ensures mem.Valid() && fresh(mem.index.Values - old(mem.index.Values))
      ensures mem.Contents() == AppendAll(old(mem.Contents()), calls)
    {
      hide AppendAll, GoodBuckets, GoodRefs;
      AppendNone(mem.Contents(), calls[..0]);
      for i := 0 to |calls|
        invariant mem.Valid() && fresh(mem.index.Values - old(mem.index.Values))
        invariant mem.Contents() == AppendAll(old(mem.Contents()), calls[..i])
      {
        AppendOneMore(old(mem.Contents()), calls, i);
        mem.AppendSamples([calls[i]]);
      }
      assert calls[..|calls|] == calls;
    }

    /** Log and head end with the batch. When its records fit the format, and the log does not end in a bare header, the
        call is a run, and the batch is due. */
    method Commit(pending: seq<Record>)
      requires Sound()
      modifies this`trail, mem, wal, disk, mem.index.Values
      ensures Sound() && fresh(mem.index.Values - old(mem.index.Values))
      ensures mem.Contents() == AppendAll(old(mem.Contents()), pending)
      ensures wal.State() == LogAll(old(wal.State()), wal.maxSegSize, pending) && disk.dirs == old(disk.dirs)
      ensures disk.history == old(disk.history) + LogHistory(old(wal.State()), disk.dirs, wal.maxSegSize, pending)
      ensures old(Valid() && CleanTail(wal.State())) && AllFit(pending) ==>
                && Valid() && Due(trail) == old(Due(trail)) + RecordSet(pending)
                && CallPassed(old(trail), trail, old(disk.history), disk.history)
    {
      hide Legal, Run, Due, CommitEvents, CallPassed, LogAll, LogHistory, AppendAll, RecordSet, GoodBuckets, GoodRefs,
           AllFit, CleanTail, MemStore.Contents;
      ghost var s := Run(START, trail);
      if Valid() && CleanTail(wal.State()) && AllFit(pending) {
        CommitRun(hash, trail, s, wal.maxSegSize, pending, disk.history);
      }
      wal.Log(pending);
      mem.AppendSamples(pending);
      trail := trail + CommitEvents(s.log, wal.maxSegSize, pending);
    }

    /** The snapshot of the head that FlushHead takes, with its time range. */
    method CollectHead() returns (allSeries: seq<Series>, mint: Int64, maxt: Int64)
      requires mem.Valid()
      ensures allSeries == [] <==> HeadPoints(mem.Contents()) == {}
      ensures allSeries != [] ==>
                IsHeadBlock(Block(Flushed(mint), BlockMeta(mint, maxt, SampleCount(allSeries)), allSeries),
                            mem.Contents())
    {
      hide Selected, SelectList, Window, Matching, GoodBuckets, GoodRefs, IsRange, IsSelection, IsHeadBlock, HeadPoints;
      var all := mem.AllSeries();
      ghost var h := mem.Contents();
      ghost var ls := seq(|all|, i requires 0 <= i < |all| => all[i].lset);
      allSeries, mint, maxt := [], 0, 0;
      EmptySelectList(h, ls[..0], MIN_TIME, MAX_TIME, []);
      for i := 0 to |all|
        invariant allSeries == SelectList(h, ls[..i], MIN_TIME, MAX_TIME, [])
        invariant allSeries != [] ==> IsRange(allSeries, mint, maxt)
      {
        var ms := all[i];
        assert ms in all;
        SelectListStep(h, ls, i, MIN_TIME, MAX_TIME, []);
        WholeWindow(ms.samples);
        NoMatchers(ms.lset);
        if |ms.samples| != 0 {
          var lo, hi := Widen(ms.samples, |allSeries| == 0, mint, maxt);
          RangeSnoc(allSeries, Series(ms.lset, ms.samples), mint, maxt, lo, hi);
          mint, maxt := lo, hi;
          allSeries := allSeries + [Series(ms.lset, ms.samples)];
        }
      }
      assert ls[..|all|] == ls;
      forall l | l in h ensures l in ls {
        var i :| 0 <= i < |all| && all[i] == mem.index[l];
        assert ls[i] == l;
      }
      SelectListIsSelection(h, ls, MIN_TIME, MAX_TIME, []);
      SelectionIsHeadBlock(allSeries, h, mint, maxt);
    }

    /** writeBlock: meta.json and then data.json are created, each empty before it is written. The JSON encoder writes
        nothing and fails when a value is NaN or infinite. */
    method WriteBlock(b: Block) returns (ok: bool)
      modifies disk
      ensures ok <==> FinitePoints(SeriesPoints(b.series))
      ensures disk.files == old(disk.files)
              && disk.dirs == old(disk.dirs)[b.dir := if ok then Complete(b) else MetaAlone(b)]
      ensures b.dir in disk.dirs && disk.dirs[b.dir] == BlockDir(Some(b.meta), if ok then Some(b.series) else None)
      ensures disk.history == old(disk.history)
                              + if ok then BlockHistory(disk.files, old(disk.dirs), b)
                                else FailedHistory(disk.files, old(disk.dirs), b)
    {
      hide AllFinite, FinitePoints, SeriesPoints;
      FiniteSeries(b.series);
      ghost var dirs := disk.dirs;
      ghost var c0 := MetaEmptied(dirs, b.dir);
      disk.CreateMeta(b.dir);
      disk.WriteMeta(b.dir, b.meta);
      assert disk.dirs == dirs[b.dir := NextStage(c0, b, 0)];
      disk.CreateData(b.dir);
      assert disk.dirs == dirs[b.dir := MetaAlone(b)];
      if !AllFinite(b.series) {
        return false;
      }
      disk.WriteData(b.dir, b.series);
      assert disk.dirs == dirs[b.dir := Complete(b)];
      return true;
    }

    /** The head becomes a block, whatever its directory held, unless a value is NaN or infinite: then head, log and
        list stay. If the directory was no block with other points, the call is a run, and nothing that is due is
        lost. */
    method FlushHead() returns (ok: bool)
      requires Sound()
      modifies this`trail, this`blocks, mem, disk
      ensures Sound() && (ok <==> old(FinitePoints(HeadPoints(mem.Contents()))))
      ensures HeadPoints(mem.Contents()) + BlocksPoints(blocks)
              == old(HeadPoints(mem.Contents()) + BlocksPoints(blocks))
      ensures ok ==> HeadPoints(mem.Contents()) == {}
      ensures old(AllCovered()) ==> AllCovered()
      ensures old(HeadPoints(mem.Contents())) == {} ==>
                && blocks == old(blocks) && disk.dirs == old(disk.dirs) && disk.history == old(disk.history)
                && wal.State() == old(wal.State()) && trail == old(trail) && mem.Contents() == old(mem.Contents())
      ensures old(HeadPoints(mem.Contents())) != {} ==>
                if ok then FlushedInto(old(mem.Contents()), old(blocks), old(disk.dirs), blocks, disk.dirs)
                           && disk.files == Truncated(old(disk.files), wal.segmentSeq)
                else blocks == old(blocks) && mem.Contents() == old(mem.Contents()) && wal.State() == old(wal.State())
                     && FlushFailed(old(mem.Contents()), old(disk.dirs), disk.dirs)
      ensures old(Valid() && FlushDirSafe(mem.Contents(), disk.dirs))
              && (ok || old(FlushDirFree(mem.Contents(), blocks))) ==>
                && Valid() && Due(trail) == old(Due(trail))
                && CallPassed(old(trail), trail, old(disk.history), disk.history)
    {
      hide Legal, Run, Due, CallPassed, IsHeadBlock, HeadPoints, BlocksPoints, OwnPoints, Truncated, EachCovered,
           FinitePoints, GoodBuckets, GoodRefs, MemStore.Contents, FlushedInto, FlushFailed;
      var allSeries, mint, maxt := CollectHead();
      if |allSeries| == 0 {
        NothingPassed(trail, disk.history);
        NothingInfinite();
        return true;
      }
      var blockDir := Flushed(mint);
      ok := FlushBlock(Block(blockDir, BlockMeta(mint, maxt, SampleCount(allSeries)), allSeries));
    }

    /** The list and the directories after a flush. */
    ghost predicate FlushedInto(h: Head, was: seq<Block>, dirs: Dirs, now: seq<Block>, dirsNow: Dirs) {
      && |now| == |was| + 1 && was <= now
      && IsHeadBlock(now[|was|], h) && dirsNow == dirs[now[|was|].dir := Complete(now[|was|])]
      && now[|was|].meta.samples == SampleCount(now[|was|].series)
    }

    ghost predicate FlushFailed(h: Head, dirs: Dirs, dirsNow: Dirs) {
      exists b :: IsHeadBlock(b, h) && dirsNow == dirs[b.dir := MetaAlone(b)]
    }

    /** FlushHead from writeBlock on. */
    method FlushBlock(b: Block) returns (ok: bool)
      requires Sound() && IsHeadBlock(b, mem.Contents()) && b.meta.samples == SampleCount(b.series)
      modifies this`trail, this`blocks, mem, disk
      ensures Sound() && (ok <==> old(FinitePoints(HeadPoints(mem.Contents()))))
      ensures HeadPoints(mem.Contents()) + BlocksPoints(blocks)
              == old(HeadPoints(mem.Contents()) + BlocksPoints(blocks))
      ensures ok ==> HeadPoints(mem.Contents()) == {}
      ensures old(AllCovered()) ==> AllCovered()
      ensures if ok then FlushedInto(old(mem.Contents()), old(blocks), old(disk.dirs), blocks, disk.dirs)
                         && disk.files == Truncated(old(disk.files), wal.segmentSeq)
              else blocks == old(blocks) && mem.Contents() == old(mem.Contents()) && wal.State() == old(wal.State())
                   && FlushFailed(old(mem.Contents()), old(disk.dirs), disk.dirs)
      ensures old(Valid() && FlushDirSafe(mem.Contents(), disk.dirs))
              && (ok || old(FlushDirFree(mem.Contents(), blocks))) ==>
                && Valid() && Due(trail) == old(Due(trail))
                && CallPassed(old(trail), trail, old(disk.history), disk.history)
    {
      hide Legal, Run, Due, CallPassed, IsHeadBlock, HeadPoints, BlocksPoints, OwnPoints, Truncated, FlushEvents,
           EachCovered, FlushHistory, BlockHistory, FailedHistory, FailedEvents, RemovalHistory, WithoutSegments,
           GoodBuckets, GoodRefs, MemStore.Contents, FinitePoints, AllFinite, SampleCount, SeriesPoints, Complete,
           MetaAlone;
      ghost var h, s := mem.Contents(), Run(START, trail);
      ghost var safe := Valid() && FlushDirSafe(h, disk.dirs);
      ghost var free := FlushDirFree(h, blocks);
      FlushedLive(h, blocks, b);
      HeadBlockPoints(b, h);
      FiniteSeries(b.series);
      if AllCovered() {
        FlushKeepsCovered(blocks, b, h);
      }
      ok := WriteBlock(b);
      if !ok {
        if safe && free {
          FailedFlushRun(hash, trail, b, old(disk.history));
        }
        trail := trail + FailedEvents(b);
        return;
      }
      blocks := blocks + [b];
      mem.Clear();
      ghost var order := wal.Truncate(wal.segmentSeq);
      if safe {
        FlushRun(hash, trail, b, order, old(disk.history));
        FlushHistoryIs(old(disk.history), s, b, order);
      }
      trail := trail + FlushEvents(b, order);
    }

    /** Two or more blocks become one, whatever the hash and the target directory, if the merge can be encoded, as it
        can when the blocks could; else the list stays. If label sets do not collide and the target is none of the
        sources, the call is a run, and nothing that is due is lost. */
    method Compact() returns (ok: bool)
      requires Sound()
      modifies this`trail, this`blocks, disk
      ensures Sound() && disk.files == old(disk.files)
      ensures old(FinitePoints(BlocksPoints(blocks))) ==> ok
      ensures ok && |old(blocks)| >= 2 ==> FinitePoints(BlocksPoints(blocks))
      ensures old(AllCovered()) ==> AllCovered()
      ensures |old(blocks)| < 2 ==>
                ok && blocks == old(blocks) && disk.dirs == old(disk.dirs) && disk.history == old(disk.history)
      ensures |old(blocks)| >= 2 ==>
                if ok then CompactedInto(old(blocks), old(disk.dirs), blocks, disk.dirs)
                else blocks == old(blocks) && CompactFailed(blocks, old(disk.dirs), disk.dirs)
      ensures ok && old(Valid() && CompactionSafe(hash, blocks)) ==>
                && Valid() && Due(trail) == old(Due(trail))
                && CallPassed(old(trail), trail, old(disk.history), disk.history)
    {
      hide Legal, Run, Due, CallPassed, FinitePoints, BlocksPoints, MemStore.Contents, CompactedInto, CompactFailed;
      if |blocks| < 2 {
        NothingPassed(trail, disk.history);
        ok := true;
      } else {
        ok := CompactAll();
      }
    }

    /** The list and the directories after a compaction. */
    ghost predicate CompactedInto(was: seq<Block>, dirs: Dirs, now: seq<Block>, dirsNow: Dirs)
      requires was != []
    {
      && |now| == 1 && now[0].dir == Compacted(was[0].meta.minTime)
      && IsMerge(hash, now[0].series, AllSeriesOf(was)) && MergedBounds(now[0].meta, was)
      && dirsNow == CompactedDirs(dirs, now[0], was)
      && now[0].meta.samples == SampleCount(now[0].series)
    }

    ghost predicate CompactFailed(blocks: seq<Block>, dirs: Dirs, dirsNow: Dirs)
      requires blocks != []
    {
      exists m: Block ::
        && m.dir == Compacted(blocks[0].meta.minTime) && dirsNow == dirs[m.dir := MetaAlone(m)]
        && IsMerge(hash, m.series, AllSeriesOf(blocks)) && !FinitePoints(SeriesPoints(m.series))
    }

    method CompactAll() returns (ok: bool)
      requires Sound() && |blocks| >= 2
      modifies this`trail, this`blocks, disk
      ensures Sound() && disk.files == old(disk.files)
      ensures old(FinitePoints(BlocksPoints(blocks))) ==> ok
      ensures ok ==> FinitePoints(BlocksPoints(blocks))
      ensures old(AllCovered()) ==> AllCovered()
      ensures if ok then CompactedInto(old(blocks), old(disk.dirs), blocks, disk.dirs)
              else blocks == old(blocks) && CompactFailed(blocks, old(disk.dirs), disk.dirs)
      ensures ok && old(Valid() && CompactionSafe(hash, blocks)) ==>
                && Valid() && Due(trail) == old(Due(trail))
                && CallPassed(old(trail), trail, old(disk.history), disk.history)
    {
      hide Legal, Run, Due, CallPassed, IsMerge, NoCollision, MergedBounds, MergeEvents, MergeHistory, BlockHistory,
           SourceHistory, WithoutSources, GoodBuckets, GoodRefs, OwnPoints, BlocksPoints, EachCovered, IsMergeOf,
           CompactionSafe, CompactedDirs, Complete, MemStore.Contents, FinitePoints, AllFinite, FailedHistory;
      var targetDir := Compacted(blocks[0].meta.minTime);
      var merged := CompactBlocks(hash, targetDir, blocks);
      MergedIsFinite(hash, merged, blocks);
      if AllCovered() {
        CompactKeepsCovered(hash, merged, blocks);
      }
      if Valid() && CompactionSafe(hash, blocks) {
        SafeIsMerge(hash, merged, blocks);
        MergeRun(hash, disk.dataFirst, trail, merged, disk.history);
      }
      ok := WriteBlock(merged);
      if !ok {
        return;
      }
      CompactedIs(old(disk.dirs), merged, blocks);
      RemoveDirs();
      MergeHistoryIs(old(disk.history), disk.dataFirst, disk.files, old(disk.dirs), merged, blocks);
      trail := trail + MergeEvents(disk.dataFirst, merged, blocks);
      blocks := [merged];
    }

    /** os.RemoveAll on the directory of every source block. */
    method RemoveDirs()
      modifies disk
      ensures disk.files == old(disk.files) && disk.dirs == WithoutSources(old(disk.dirs), blocks)
      ensures disk.history == old(disk.history) + SourceHistory(disk.dataFirst, disk.files, old(disk.dirs), blocks)
    {
      for i := 0 to |blocks|
        invariant disk.files == old(disk.files) && disk.dirs == WithoutSources(old(disk.dirs), blocks[..i])
        invariant disk.history
                  == old(disk.history) + SourceHistory(disk.dataFirst, disk.files, old(disk.dirs), blocks[..i])
      {
        assert blocks[..i + 1][..i] == blocks[..i];
        Assoc(old(disk.history), SourceHistory(disk.dataFirst, disk.files, old(disk.dirs), blocks[..i]),
              RemoveHistory(disk.files, disk.dirs, blocks[i].dir, disk.dataFirst(blocks[i].dir)));
        disk.RemoveDir(blocks[i].dir);
      }
      assert blocks[..|blocks|] == blocks;
    }

    /** The loop of applyRetention over the blocks' ages. */
    method AgePass(cutoff: Int64) returns (kept: seq<Block>)
      modifies disk
      ensures kept == Unexpired(blocks, cutoff)
      ensures disk.files == old(disk.files) && disk.dirs == WithoutExpired(old(disk.dirs), blocks, cutoff)
      ensures disk.history == old(disk.history)
              + DropHistory(disk.dataFirst, disk.files, old(disk.dirs), blocks, cutoff)
    {
      kept := [];
      for i := 0 to |blocks|
        invariant kept == Unexpired(blocks[..i], cutoff)
        invariant disk.files == old(disk.files) && disk.dirs == WithoutExpired(old(disk.dirs), blocks[..i], cutoff)
        invariant disk.history
                  == old(disk.history) + DropHistory(disk.dataFirst, disk.files, old(disk.dirs), blocks[..i], cutoff)
      {
        assert blocks[..i + 1][..i] == blocks[..i];
        if blocks[i].meta.maxTime < cutoff {
          Assoc(old(disk.history), DropHistory(disk.dataFirst, disk.files, old(disk.dirs), blocks[..i], cutoff),
                RemoveHistory(disk.files, disk.dirs, blocks[i].dir, disk.dataFirst(blocks[i].dir)));
          disk.RemoveDir(blocks[i].dir);
        } else {
          kept := kept + [blocks[i]];
        }
      }
      assert blocks[..|blocks|] == blocks;
    }

    /** The age pass of applyRetention. If blocks that share a directory expire together, and blocks expire whole, the
        call is a run. */
    method DropExpired(cutoff: Int64)
      requires Sound()
      modifies this`trail, this`blocks, disk
      ensures Sound() && disk.files == old(disk.files)
      ensures old(AllCovered()) ==> AllCovered()
      ensures blocks == Unexpired(old(blocks), cutoff)
              && disk.dirs == WithoutExpired(old(disk.dirs), old(blocks), cutoff)
      ensures old(Valid() && ExpireTogether(blocks, cutoff) && ExpireWhole(blocks, cutoff)) ==>
                && Valid() && Due(trail) == old(Due(trail)) && Horizon(trail) == LaterOf(old(Horizon(trail)), cutoff)
                && CallPassed(old(trail), trail, old(disk.history), disk.history)
    {
      hide Legal, Run, Due, CallPassed, Horizon, RetentionEvents, GoodBuckets, GoodRefs, ExpireTogether, ExpireWhole,
           EachCovered, MemStore.Contents;
      if AllCovered() {
        ExpiryKeepsCovered(blocks, cutoff);
      }
      if Valid() && ExpireTogether(blocks, cutoff) && ExpireWhole(blocks, cutoff) {
        RetentionRun(hash, disk.dataFirst, trail, cutoff, disk.history);
      }
      var kept := AgePass(cutoff);
      trail := trail + RetentionEvents(disk.dataFirst, blocks, cutoff);
      blocks := kept;
    }

    /** A query shows exactly the points of the head and of the listed blocks that match and lie in the window. Blocks
        that are skipped by their range contribute nothing, as long as the ranges are right. */
    method Select(mint: Int64, maxt: Int64, matchers: seq<Matcher>)
      returns (allSeries: seq<Series>, ghost fromHead: seq<Series>)
      requires Sound() && AllCovered()
      ensures IsSelection(fromHead, mem.Contents(), mint, maxt, matchers)
      ensures allSeries == fromHead + BlockSelect(AllSeriesOf(blocks), mint, maxt, matchers)
      ensures forall p :: p in SeriesPoints(allSeries) <==>
                            p in HeadPoints(mem.Contents()) + BlocksPoints(blocks)
                            && Matching(p.labels, matchers) && mint <= p.t <= maxt
      ensures forall p: Record :: DistinctNames(p.labels) ==>
                (p in SeriesPoints(allSeries)
                 <==> p in HeadPoints(mem.Contents()) + BlocksPoints(blocks)
                      && AllAccept(matchers, p.labels) && mint <= p.t <= maxt)
      ensures forall n, v, p: Record :: IsEquality(matchers, n, v) && v != [] && DistinctNames(p.labels) ==>
                (p in SeriesPoints(allSeries)
                 <==> p in HeadPoints(mem.Contents()) + BlocksPoints(blocks)
                      && Label(n, v) in p.labels && mint <= p.t <= maxt)
    {
      hide DistinctNames, AllAccept, IsEquality, GoodBuckets, GoodRefs, IsSelection, Matching, Window, SeriesPoints,
           HeadPoints, BlocksPoints, Covered, BlockSelect;
      allSeries := mem.Select(mint, maxt, matchers);
      fromHead := allSeries;
      NothingSelected(AllSeriesOf(blocks[..0]), mint, maxt, matchers);
      for i := 0 to |blocks|
        invariant allSeries == fromHead + BlockSelect(AllSeriesOf(blocks[..i]), mint, maxt, matchers)
      {
        var b := blocks[i];
        assert blocks[..i + 1][..i] == blocks[..i];
        BlockSelectConcat(AllSeriesOf(blocks[..i]), b.series, mint, maxt, matchers);
        if b.meta.maxTime < mint || b.meta.minTime > maxt {
          SkippingIsSound(b, mint, maxt, matchers);
        } else {
          var blockSeries := SelectSeries(b, mint, maxt, matchers);
          allSeries := allSeries + blockSeries;
        }
      }
      assert blocks[..|blocks|] == blocks;
      forall p ensures p in SeriesPoints(allSeries) <==>
                         p in HeadPoints(mem.Contents()) + BlocksPoints(blocks)
                         && Matching(p.labels, matchers) && mint <= p.t <= maxt {
        SelectPoint(fromHead, mem.Contents(), blocks, mint, maxt, matchers, p);
      }
      forall p: Record | DistinctNames(p.labels)
        ensures Matching(p.labels, matchers) <==> AllAccept(matchers, p.labels) {
        MatchingIsAccepting(p.labels, matchers);
      }
      forall n, v, p: Record | IsEquality(matchers, n, v) && v != [] && DistinctNames(p.labels)
        ensures Matching(p.labels, matchers) <==> Label(n, v) in p.labels {
        EqualityMatches(p.labels, matchers, n, v);
      }
    }

    method LabelNames(mint: Int64, maxt: Int64, matchers: seq<Matcher>) returns (result: seq<Bytes>)
      requires Sound()
      ensures forall i, j :: 0 <= i < j < |result| ==> LexLess(result[i], result[j])
      ensures forall n :: n in result <==>
                n in SelectedNames(mem.Contents(), mint, maxt, matchers)
                    || n in BlockNames(blocks, mint, maxt, matchers)
      ensures forall n :: n in result <==>
                (exists l: Labels, i :: l in mem.Contents() && Selected(mem.Contents(), l, mint, maxt, matchers)
                                        && 0 <= i < |l| && l[i].name == n)
                || exists b, s, i :: b in blocks && b.meta.minTime <= maxt && b.meta.maxTime >= mint && s in b.series
                                     && Matching(s.lset, matchers) && 0 <= i < |s.lset| && s.lset[i].name == n
    {
      hide GoodBuckets, GoodRefs, Matching, Selected;
      var names := mem.LabelNames(mint, maxt, matchers);
      var nameSet := set n | n in names;
      ghost var fromHead := nameSet;
      for i := 0 to |blocks|
        invariant forall n :: n in nameSet <==> n in fromHead || n in BlockNames(blocks[..i], mint, maxt, matchers)
      {
        var b := blocks[i];
        BlockNamesSnoc(blocks[..i], b, mint, maxt, matchers);
        assert blocks[..i + 1] == blocks[..i] + [b];
        if b.meta.maxTime < mint || b.meta.minTime > maxt {
        } else {
          var names := MatchingNames(b, matchers);
          nameSet := nameSet + names;
        }
      }
      assert blocks[..|blocks|] == blocks;
      result := SortedNames(nameSet);
      NamesMean(mem.Contents(), blocks, mint, maxt, matchers);
    }
  }

  // ----- queries -----

  /** The label names of a block's matching series, whether or not they have a sample in the window. */
  ghost function SeriesNames(series: seq<Series>, ms: seq<Matcher>): set<Bytes> {
    set s, i | s in series && Matching(s.lset, ms) && 0 <= i < |s.lset| :: s.lset[i].name
  }

  ghost function BlockNames(blocks: seq<Block>, mint: Int64, maxt: Int64, ms: seq<Matcher>): set<Bytes> {
    set b, n | b in blocks && Overlaps(b, mint, maxt) && n in SeriesNames(b.series, ms) :: n
  }

  /** Where a listed name comes from. */
  lemma NamesMean(h: Head, blocks: seq<Block>, mint: Int64, maxt: Int64, ms: seq<Matcher>)
    ensures forall n :: n in SelectedNames(h, mint, maxt, ms) <==>
              exists l: Labels, i :: l in h && Selected(h, l, mint, maxt, ms) && 0 <= i < |l| && l[i].name == n
    ensures forall n :: n in BlockNames(blocks, mint, maxt, ms) <==>
              exists b, s, i :: b in blocks && b.meta.minTime <= maxt && b.meta.maxTime >= mint && s in b.series
                                && Matching(s.lset, ms) && 0 <= i < |s.lset| && s.lset[i].name == n
  {
    hide Matching, Selected;
    forall n | n in BlockNames(blocks, mint, maxt, ms)
      ensures exists b, s, i :: b in blocks && b.meta.minTime <= maxt && b.meta.maxTime >= mint && s in b.series
                                && Matching(s.lset, ms) && 0 <= i < |s.lset| && s.lset[i].name == n {
      var b :| b in blocks && Overlaps(b, mint, maxt) && n in SeriesNames(b.series, ms);
      var s, i :| s in b.series && Matching(s.lset, ms) && 0 <= i < |s.lset| && s.lset[i].name == n;
    }
    forall b, s, i | b in blocks && b.meta.minTime <= maxt && b.meta.maxTime >= mint && s in b.series
                     && Matching(s.lset, ms) && 0 <= i < |s.lset|
      ensures s.lset[i].name in BlockNames(blocks, mint, maxt, ms) {
      assert Overlaps(b, mint, maxt) && s.lset[i].name in SeriesNames(b.series, ms);
    }
  }

  lemma BlockNamesSnoc(blocks: seq<Block>, b: Block, mint: Int64, maxt: Int64, ms: seq<Matcher>)
    ensures BlockNames(blocks + [b], mint, maxt, ms)
            == BlockNames(blocks, mint, maxt, ms) + if Overlaps(b, mint, maxt) then SeriesNames(b.series, ms) else {}
  {
    hide SeriesNames, Overlaps;
    assert forall x :: x in blocks + [b] <==> x in blocks || x == b;
  }

  method MatchingNames(b: Block, matchers: seq<Matcher>) returns (names: set<Bytes>)
    ensures names == SeriesNames(b.series, matchers)
    ensures forall n :: n in names <==>
              exists s, i :: s in b.series && Matching(s.lset, matchers) && 0 <= i < |s.lset| && s.lset[i].name == n
  {
    hide Matching;
    names := {};
    for i := 0 to |b.series|
      invariant names == SeriesNames(b.series[..i], matchers)
    {
      var bs := b.series[i];
      assert b.series[..i + 1] == b.series[..i] + [bs];
      assert forall x :: x in b.series[..i + 1] <==> x in b.series[..i] || x == bs;
      var ok := MatchesAll(bs.lset, matchers);
      if ok {
        names := names + NamesOf(bs.lset);
      }
    }
    assert b.series[..|b.series|] == b.series;
  }

  /** Every label name of a series that Select returns is listed by LabelNames. */
  lemma NamesCoverSelection(h: Head, blocks: seq<Block>, fromHead: seq<Series>, mint: Int64, maxt: Int64,
                            ms: seq<Matcher>, s: Series, i: nat)
    requires IsSelection(fromHead, h, mint, maxt, ms) && forall b :: b in blocks ==> Covered(b)
    requires s in fromHead + BlockSelect(AllSeriesOf(blocks), mint, maxt, ms) && i < |s.lset|
    ensures s.lset[i].name in SelectedNames(h, mint, maxt, ms) + BlockNames(blocks, mint, maxt, ms)
  {
    hide Matching, Window, Selected;
    if s in fromHead {
      assert Selected(h, s.lset, mint, maxt, ms);
      SelectedMeans(h, s.lset, mint, maxt, ms);
    } else {
      SelectedFromBlock(blocks, mint, maxt, ms, s);
      var b, x :| b in blocks && Overlaps(b, mint, maxt) && x in b.series && x.lset == s.lset && Matching(x.lset, ms);
      assert x.lset[i].name in SeriesNames(b.series, ms);
    }
  }

  lemma {:induction false} SelectedFromBlock(blocks: seq<Block>, mint: Int64, maxt: Int64, ms: seq<Matcher>, s: Series)
    requires s in BlockSelect(AllSeriesOf(blocks), mint, maxt, ms) && forall b :: b in blocks ==> Covered(b)
    ensures exists b, x ::
              b in blocks && Overlaps(b, mint, maxt) && x in b.series && x.lset == s.lset && Matching(x.lset, ms)
  {
    hide Matching, Window, Covered;
    if blocks != [] {
      var k := |blocks| - 1;
      var b := blocks[k];
      assert blocks == blocks[..k] + [b];
      BlockSelectConcat(AllSeriesOf(blocks[..k]), b.series, mint, maxt, ms);
      if s in BlockSelect(AllSeriesOf(blocks[..k]), mint, maxt, ms) {
        SelectedFromBlock(blocks[..k], mint, maxt, ms, s);
      } else {
        if !Overlaps(b, mint, maxt) {
          SkippingIsSound(b, mint, maxt, ms);
        }
        SelectedMember(b.series, mint, maxt, ms, s);
      }
    }
  }

  lemma {:induction false} SelectedMember(series: seq<Series>, mint: Int64, maxt: Int64, ms: seq<Matcher>, s: Series)
    requires s in BlockSelect(series, mint, maxt, ms)
    ensures exists x :: x in series && x.lset == s.lset && Matching(x.lset, ms)
  {
    hide Matching, Window;
    if series != [] {
      var k := |series| - 1;
      assert series == series[..k] + [series[k]];
      if s in BlockSelect(series[..k], mint, maxt, ms) {
        SelectedMember(series[..k], mint, maxt, ms, s);
      }
    }
  }

  lemma NothingSelected(series: seq<Series>, mint: Int64, maxt: Int64, ms: seq<Matcher>)
    requires series == []
    ensures BlockSelect(series, mint, maxt, ms) == []
  {
  }

  lemma {:induction false} BlockSelectConcat(a: seq<Series>, b: seq<Series>, mint: Int64, maxt: Int64, ms: seq<Matcher>)
    ensures BlockSelect(a + b, mint, maxt, ms) == BlockSelect(a, mint, maxt, ms) + BlockSelect(b, mint, maxt, ms)
  {
    hide Matching, Window;
    if b == [] {
      assert a + b == a;
    } else {
      BlockSelectConcat(a, b[..|b| - 1], mint, maxt, ms);
      assert (a + b)[..|a + b| - 1] == a + b[..|b| - 1];
    }
  }

  lemma SelectPoint(fromHead: seq<Series>, h: Head, open: seq<Block>, mint: Int64, maxt: Int64, ms: seq<Matcher>,
                    p: Record)
    requires IsSelection(fromHead, h, mint, maxt, ms)
    ensures p in SeriesPoints(fromHead + BlockSelect(AllSeriesOf(open), mint, maxt, ms)) <==>
            p in HeadPoints(h) + BlocksPoints(open) && Matching(p.labels, ms) && mint <= p.t <= maxt
  {
    hide SeriesPoints, BlockSelect, IsSelection, HeadPoints, BlocksPoints, Matching;
    AddedPoints(fromHead, BlockSelect(AllSeriesOf(open), mint, maxt, ms), p);
    SelectedPoints(AllSeriesOf(open), mint, maxt, ms, p);
    PointsOfBlocks(open);
    HeadSelectionPoint(fromHead, h, mint, maxt, ms, p);
  }

  lemma HeadSelectionPoint(result: seq<Series>, h: Head, mint: Int64, maxt: Int64, ms: seq<Matcher>, p: Record)
    requires IsSelection(result, h, mint, maxt, ms)
    ensures p in SeriesPoints(result) <==> p in HeadPoints(h) && Matching(p.labels, ms) && mint <= p.t <= maxt
  {
    hide SeriesPoints, HeadPoints, Matching, Window, Selected;
    var x := Sample(p.t, p.v);
    PointInSeries(result, p);
    HeadPoint(h, p);
    SelectedMeans(h, p.labels, mint, maxt, ms);
    if p.labels in h {
      WindowMembers(h[p.labels], mint, maxt, x);
    }
    if p in HeadPoints(h) && Matching(p.labels, ms) && mint <= p.t <= maxt {
      assert Series(p.labels, Window(h[p.labels], mint, maxt)) in result;
    }
  }

  // ----- opening -----

  predicate Older(a: Block, b: Block) {
    a.meta.minTime < b.meta.minTime
  }

  lemma OlderIsOrder()
    ensures WeakOrder(Older)
  {
  }

  lemma SortKeepsDirs(found: seq<Block>, blocks: seq<Block>)
    requires DistinctDirs(found) && multiset(found) == multiset(blocks)
    ensures DistinctDirs(blocks)
  {
    SameElements(found, blocks);
    forall i, j | 0 <= i < j < |blocks| ensures blocks[i].dir != blocks[j].dir {
      assert blocks[i] in blocks && blocks[j] in blocks;
      var k :| 0 <= k < |found| && found[k] == blocks[i];
      var m :| 0 <= m < |found| && found[m] == blocks[j];
      assert k != m;
    }
  }

  lemma AppendNone(h: Head, rs: seq<Record>)
    requires rs == []
    ensures AppendAll(h, rs) == h
  {
  }

  lemma AppendOneMore(h: Head, rs: seq<Record>, i: nat)
    requires i < |rs|
    ensures AppendAll(h, rs[..i + 1]) == AppendAll(AppendAll(h, rs[..i]), [rs[i]])
  {
    assert rs[..i + 1] == rs[..i] + [rs[i]];
    AppendAllConcat(h, rs[..i], [rs[i]]);
  }

  // ----- flushing -----

  const MAX_TIME: Int64 := 0x7FFF_FFFF_FFFF_FFFF

  /** The least and the greatest time of all samples. */
  ghost predicate IsRange(series: seq<Series>, mint: Int64, maxt: Int64) {
    && (forall s, x :: s in series && x in s.samples ==> mint <= x.t <= maxt)
    && (exists s, x :: s in series && x in s.samples && x.t == mint)
    && (exists s, x :: s in series && x in s.samples && x.t == maxt)
  }

  method Widen(samples: seq<Sample>, first: bool, mint0: Int64, maxt0: Int64) returns (mint: Int64, maxt: Int64)
    requires samples != []
    ensures forall x :: x in samples ==> mint <= x.t <= maxt
    ensures !first ==> mint <= mint0 && maxt0 <= maxt
    ensures (!first && mint == mint0) || exists x :: x in samples && x.t == mint
    ensures (!first && maxt == maxt0) || exists x :: x in samples && x.t == maxt
  {
    mint, maxt := mint0, maxt0;
    var f := first;
    for i := 0 to |samples|
      invariant f <==> first && i == 0
      invariant forall j :: 0 <= j < i ==> mint <= samples[j].t <= maxt
      invariant !first ==> mint <= mint0 && maxt0 <= maxt
      invariant f || (!first && mint == mint0) || exists x :: x in samples && x.t == mint
      invariant f || (!first && maxt == maxt0) || exists x :: x in samples && x.t == maxt
    {
      var sample := samples[i];
      assert sample in samples;
      if f || sample.t < mint {
        mint := sample.t;
      }
      if f || sample.t > maxt {
        maxt := sample.t;
      }
      f := false;
    }
  }

  lemma RangeSnoc(series: seq<Series>, s: Series, mint0: Int64, maxt0: Int64, mint: Int64, maxt: Int64)
    requires series != [] ==> IsRange(series, mint0, maxt0)
    requires forall x :: x in s.samples ==> mint <= x.t <= maxt
    requires series != [] ==> mint <= mint0 && maxt0 <= maxt
    requires (series != [] && mint == mint0) || exists x :: x in s.samples && x.t == mint
    requires (series != [] && maxt == maxt0) || exists x :: x in s.samples && x.t == maxt
    ensures IsRange(series + [s], mint, maxt)
  {
    var all := series + [s];
    assert all[|series|] == s;
    assert forall y :: y in series ==> y in all;
    if x :| x in s.samples && x.t == mint {
      assert s in all && x in s.samples;
    } else {
      var y, x :| y in series && x in y.samples && x.t == mint0;
      assert y in all;
    }
    if x :| x in s.samples && x.t == maxt {
      assert s in all && x in s.samples;
    } else {
      var y, x :| y in series && x in y.samples && x.t == maxt0;
      assert y in all;
    }
  }

  lemma {:induction false} WholeWindow(samples: seq<Sample>)
    ensures Window(samples, MIN_TIME, MAX_TIME) == samples
  {
    if samples != [] {
      WholeWindow(samples[..|samples| - 1]);
      assert samples == samples[..|samples| - 1] + [samples[|samples| - 1]];
    }
  }

  lemma NoMatchers(l: Labels)
    ensures Matching(l, [])
  {
  }

  lemma SelectionIsHeadBlock(all: seq<Series>, h: Head, mint: Int64, maxt: Int64)
    requires IsSelection(all, h, MIN_TIME, MAX_TIME, [])
    requires all != [] ==> IsRange(all, mint, maxt)
    ensures all == [] <==> HeadPoints(h) == {}
    ensures all != [] ==> IsHeadBlock(Block(Flushed(mint), BlockMeta(mint, maxt, SampleCount(all)), all), h)
  {
    hide Window;
    forall l | l in h ensures Window(h[l], MIN_TIME, MAX_TIME) == h[l] && Matching(l, []) {
      WholeWindow(h[l]);
    }
    forall l | l in h && h[l] != [] ensures Series(l, h[l]) in all {
      assert Selected(h, l, MIN_TIME, MAX_TIME, []);
    }
    if all != [] {
      assert all[0] in all && all[0].samples[0] in h[all[0].lset];
      assert PointOf(all[0].lset, all[0].samples[0]) in HeadPoints(h);
    } else if p :| p in HeadPoints(h) {
      var l, x :| l in h && x in h[l] && p == PointOf(l, x);
      assert Series(l, h[l]) in all;
    }
  }

  /** What was in the head is in the new block. */
  lemma FlushedLive(h: Head, open: seq<Block>, b: Block)
    requires IsHeadBlock(b, h)
    ensures BlocksPoints(open + [b]) == HeadPoints(h) + BlocksPoints(open)
    ensures HeadPoints(map[]) == {}
  {
    hide IsHeadBlock, HeadPoints, BlocksPoints, SeriesPoints;
    HeadBlockPoints(b, h);
    BlocksPointsSnoc(open, b);
    NoHeadPoints();
  }
}
