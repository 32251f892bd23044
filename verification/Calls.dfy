/** Whole calls of the store as runs of the engine: their events, their effect, and the disk states on the way. */
module Calls {
  import opened Types
  import opened Codec
  import opened Wal
  import opened WalLaws
  import opened Heads
  import opened Blocks
  import opened Compaction
  import opened Disks
  import opened Engine
  import opened Durability
  import opened Recovery
  import opened EngineRuns

  /** The disk has gone, during a call, only through states of the events that the call added to the run. */
  ghost predicate CallPassed(was: seq<Action>, trail: seq<Action>, before: seq<Snapshot>, history: seq<Snapshot>) {
    was <= trail && before <= history && Passes(Run(START, was), trail[|was|..], history[|before|..])
  }

  /** Events added to a run, with the disk states on their way. */
  lemma AddCall(hash: Labels -> nat, trail: seq<Action>, es: seq<Action>, before: seq<Snapshot>, moments: seq<Snapshot>)
    requires Legal(hash, START, trail) && Legal(hash, Run(START, trail), es) && Passes(Run(START, trail), es, moments)
    ensures Legal(hash, START, trail + es) && Run(START, trail + es) == Run(Run(START, trail), es)
    ensures CallPassed(trail, trail + es, before, before + moments)
  {
    hide Passes, Run, Legal;
    Append(hash, START, trail, es);
    assert (trail + es)[|trail|..] == es;
    assert (before + moments)[|before|..] == moments;
  }

  lemma NothingPassed(trail: seq<Action>, before: seq<Snapshot>)
    ensures CallPassed(trail, trail, before, before)
  {
    hide Run;
    PassesNothing(Run(START, trail), []);
    assert trail[|trail|..] == [];
    assert before[|before|..] == [];
  }

  /** Between calls everything that is due has been promised. */
  lemma IdleDue(hash: Labels -> nat, es: seq<Action>)
    requires Legal(hash, START, es) && Run(START, es).phase.Idle? && Run(START, es).waiting == []
    ensures Due(es) == Run(START, es).promised
  {
    hide Account, Run, Legal, Horizon, NothingMergedOrExpired;
    AccountMatches(hash, es);
    NothingUnapplied(Run(START, es));
  }

  // ----- commit -----

  ghost function CommitEvents(log: LogState, max: int, batch: seq<Record>): seq<Action> {
    [BeginCommit(batch)] + WriteEvents(log, max, batch) + [EndLog] + [AppendHead(0)]
  }

  ghost function Committed(s: State, max: int, batch: seq<Record>): State {
    s.(log := LogAll(s.log, max, batch), head := AppendAll(s.head, batch), promised := s.promised + RecordSet(batch))
  }

  lemma CommitCall(hash: Labels -> nat, s: State, max: int, batch: seq<Record>)
    requires s.phase.Idle? && s.waiting == [] && AllFit(batch) && CleanTail(s.log)
    ensures var es := CommitEvents(s.log, max, batch);
            && Legal(hash, s, es) && Run(s, es) == Committed(s, max, batch)
            && Passes(s, es, LogHistory(s.log, s.dirs, max, batch))
  {
    hide Legal, Run, LogAll, LogHistory, AppendAll, WriteRecord, RecordSet, AllFit, IsHeadBlock, IsMergeOf,
         OpenedFrom, LatestSegment, Passes, OwnPoints, HeadPoints, BlocksPoints;
    var e1 := [BeginCommit(batch)];
    FirstStep(hash, s, e1[0], s.(phase := Logging(batch, 0)));
    assert batch[..|batch|] == batch;
    var writes, moments := WriteEvents(s.log, max, batch), LogHistory(s.log, s.dirs, max, batch);
    WriteRun(hash, Run(s, e1), max, |batch|);
    Append(hash, s, e1, writes);
    PassesAppend(hash, s, e1, writes, [], moments);
    assert [] + moments == moments;
    var logged := s.(log := LogAll(s.log, max, batch), waiting := [batch]);
    assert [] + [batch] == [batch] && Without([batch], 0) == [];
    StepTo(hash, s, e1 + writes, EndLog, logged, moments);
    StepTo(hash, s, e1 + writes + [EndLog], AppendHead(0), Committed(s, max, batch), moments);
  }

  lemma CommitRun(hash: Labels -> nat, trail: seq<Action>, s: State, max: int, batch: seq<Record>,
                  before: seq<Snapshot>)
    requires Legal(hash, START, trail) && s == Run(START, trail) && s.phase.Idle? && s.waiting == [] && AllFit(batch)
             && CleanTail(s.log)
    ensures var es := trail + CommitEvents(s.log, max, batch);
            && Legal(hash, START, es) && Run(START, es) == Committed(s, max, batch)
            && Due(es) == Due(trail) + RecordSet(batch)
            && CallPassed(trail, es, before, before + LogHistory(s.log, s.dirs, max, batch))
  {
    hide Legal, Run, LogAll, LogHistory, AppendAll, RecordSet, Due, CommitEvents, AllFit, Passes, CallPassed;
    CommitCall(hash, s, max, batch);
    AddCall(hash, trail, CommitEvents(s.log, max, batch), before, LogHistory(s.log, s.dirs, max, batch));
    IdleDue(hash, trail);
    IdleDue(hash, trail + CommitEvents(s.log, max, batch));
  }

  // ----- flush -----

  /** What keeps FlushHead from losing points: the directory named after the head's least time is no readable
      block, or one whose points the head has too. */
  ghost predicate FlushDirSafe(h: Head, dirs: Dirs) {
    forall b: Block :: IsHeadBlock(b, h) ==> OwnPoints(b.dir, dirs) <= HeadPoints(h)
  }

  /** No listed block lies where the head would be flushed to. */
  ghost predicate FlushDirFree(h: Head, open: seq<Block>) {
    forall b: Block, x: Block :: IsHeadBlock(b, h) && x in open ==> x.dir != b.dir
  }

  lemma StageTo(dirs: Dirs, b: Block, c: BlockDir, part: nat)
    ensures StageOn(dirs[b.dir := c], b, part) == dirs[b.dir := NextStage(c, b, part)]
  {
    assert dirs[b.dir := c][b.dir := NextStage(c, b, part)] == dirs[b.dir := NextStage(c, b, part)];
  }

  ghost function FlushEvents(b: Block, order: seq<nat>): seq<Action> {
    [BeginFlush(b), FlushStep, FlushStep, FlushStep, InstallFlush] + RemoveEvents(order) + [EndFlush]
  }

  ghost function FlushHistory(files: Files, dirs: Dirs, b: Block, order: seq<nat>): seq<Snapshot> {
    BlockHistory(files, dirs, b) + RemovalHistory(files, dirs[b.dir := Complete(b)], order)
  }

  ghost function FlushedState(s: State, b: Block, order: seq<nat>): State {
    s.(log := s.log.(files := WithoutSegments(s.log.files, order)), dirs := s.dirs[b.dir := Complete(b)],
       head := map[], open := s.open + [b], verbatim := false)
  }

  lemma FlushHistoryIs(before: seq<Snapshot>, s: State, b: Block, order: seq<nat>)
    ensures before + BlockHistory(s.log.files, s.dirs, b)
            + RemovalHistory(s.log.files, s.dirs[b.dir := Complete(b)], order)
            == before + FlushHistory(s.log.files, s.dirs, b, order)
  {
    hide BlockHistory, RemovalHistory;
  }

  /** One stage of writing the flushed block. */
  lemma FlushMoves(hash: Labels -> nat, s: State, es: seq<Action>, b: Block, c: BlockDir, part: nat,
                   moments: seq<Snapshot>)
    requires Legal(hash, s, es) && Passes(s, es, moments)
    requires Run(s, es) == s.(dirs := s.dirs[b.dir := c], phase := FlushOpen(b, part))
    ensures var t := s.(dirs := s.dirs[b.dir := NextStage(c, b, part)],
                        phase := if part < 2 then FlushOpen(b, part + 1) else FlushDone(b));
            && Legal(hash, s, es + [FlushStep]) && Run(s, es + [FlushStep]) == t
            && Passes(s, es + [FlushStep], moments + [DiskOf(t)])
  {
    hide Legal, Run, Passes, StageOn, NextStage, IsHeadBlock, IsMergeOf, OpenedFrom, LatestSegment, OwnPoints;
    StageTo(s.dirs, b, c, part);
    StepTo(hash, s, es, FlushStep, s.(dirs := s.dirs[b.dir := NextStage(c, b, part)],
                                      phase := if part < 2 then FlushOpen(b, part + 1) else FlushDone(b)), moments);
  }

  lemma Four<T>(a: T, b: T, c: T, d: T)
    ensures [a] + [b] == [a, b] && [a, b] + [c] == [a, b, c] && [a, b, c] + [d] == [a, b, c, d]
  {
  }

  /** The first three file operations of writeBlock. */
  lemma FlushStarts(hash: Labels -> nat, s: State, b: Block)
    requires AtRest(s) && IsHeadBlock(b, s.head) && OwnPoints(b.dir, s.dirs) <= HeadPoints(s.head)
    ensures var es := [BeginFlush(b), FlushStep, FlushStep];
            && Legal(hash, s, es) && Passes(s, es, FailedHistory(s.log.files, s.dirs, b))
            && Run(s, es) == s.(dirs := s.dirs[b.dir := MetaAlone(b)], phase := FlushOpen(b, 2))
  {
    hide Legal, Run, IsHeadBlock, IsMergeOf, OpenedFrom, LatestSegment, Passes, OwnPoints, HeadPoints;
    var c0 := MetaEmptied(s.dirs, b.dir);
    var c1 := NextStage(c0, b, 0);
    assert NextStage(c1, b, 1) == MetaAlone(b);
    var m := BlockHistory(s.log.files, s.dirs, b);
    var e := BeginFlush(b);
    FirstStep(hash, s, e, s.(dirs := s.dirs[b.dir := c0], phase := FlushOpen(b, 0)));
    Four(e, FlushStep, FlushStep, FlushStep);
    Four(m[0], m[1], m[2], m[3]);
    FlushMoves(hash, s, [e], b, c0, 0, [m[0]]);
    FlushMoves(hash, s, [e, FlushStep], b, c1, 1, [m[0], m[1]]);
    assert [m[0], m[1], m[2]] == m[..3];
  }

  lemma FlushWrites(hash: Labels -> nat, s: State, b: Block)
    requires AtRest(s) && IsHeadBlock(b, s.head) && OwnPoints(b.dir, s.dirs) <= HeadPoints(s.head)
    ensures var es := [BeginFlush(b), FlushStep, FlushStep, FlushStep];
            && Legal(hash, s, es) && Passes(s, es, BlockHistory(s.log.files, s.dirs, b))
            && Run(s, es) == s.(dirs := s.dirs[b.dir := Complete(b)], phase := FlushDone(b))
  {
    hide Legal, Run, IsHeadBlock, IsMergeOf, OpenedFrom, LatestSegment, Passes, OwnPoints, HeadPoints;
    assert NextStage(MetaAlone(b), b, 2) == Complete(b);
    var m := BlockHistory(s.log.files, s.dirs, b);
    FlushStarts(hash, s, b);
    Four(BeginFlush(b), FlushStep, FlushStep, FlushStep);
    FlushMoves(hash, s, [BeginFlush(b), FlushStep, FlushStep], b, MetaAlone(b), 2, m[..3]);
    assert m[..3] + [m[3]] == m;
  }

  ghost function FailedEvents(b: Block): seq<Action> {
    [BeginFlush(b), FlushStep, FlushStep] + [AbortFlush]
  }

  /** A flush whose data cannot be encoded leaves head and log alone, and a directory that is no block. */
  lemma FailedFlushRun(hash: Labels -> nat, trail: seq<Action>, b: Block, before: seq<Snapshot>)
    requires Legal(hash, START, trail) && AtRest(Run(START, trail))
    requires IsHeadBlock(b, Run(START, trail).head) && forall x :: x in Run(START, trail).open ==> x.dir != b.dir
    requires OwnPoints(b.dir, Run(START, trail).dirs) <= HeadPoints(Run(START, trail).head)
    ensures var s := Run(START, trail);
            var es := trail + FailedEvents(b);
            && Legal(hash, START, es) && Run(START, es) == s.(dirs := s.dirs[b.dir := MetaAlone(b)])
                && Due(es) == Due(trail)
            && CallPassed(trail, es, before, before + FailedHistory(s.log.files, s.dirs, b))
  {
    hide Legal, Run, Due, IsHeadBlock, CallPassed, Passes, OwnPoints, HeadPoints, IsMergeOf, OpenedFrom, LatestSegment,
         FailedHistory;
    var s := Run(START, trail);
    FlushStarts(hash, s, b);
    StepTo(hash, s, [BeginFlush(b), FlushStep, FlushStep], AbortFlush, s.(dirs := s.dirs[b.dir := MetaAlone(b)]),
           FailedHistory(s.log.files, s.dirs, b));
    AddCall(hash, trail, FailedEvents(b), before, FailedHistory(s.log.files, s.dirs, b));
    IdleDue(hash, trail);
    IdleDue(hash, trail + FailedEvents(b));
  }

  lemma FlushCall(hash: Labels -> nat, s: State, b: Block, order: seq<nat>)
    requires AtRest(s) && IsHeadBlock(b, s.head) && OwnPoints(b.dir, s.dirs) <= HeadPoints(s.head)
    requires forall i :: 0 <= i < |order| ==> order[i] < s.log.current
    ensures var es := FlushEvents(b, order);
            && Legal(hash, s, es) && Run(s, es) == FlushedState(s, b, order)
            && Passes(s, es, FlushHistory(s.log.files, s.dirs, b, order))
  {
    hide Legal, Run, AllFit, IsHeadBlock, IsMergeOf, OpenedFrom, LatestSegment, Passes, BlockHistory,
         WithoutSegments, RemovalHistory, OwnPoints, HeadPoints;
    FlushWrites(hash, s, b);
    var e4 := [BeginFlush(b), FlushStep, FlushStep, FlushStep];
    var m := BlockHistory(s.log.files, s.dirs, b);
    var t := s.(dirs := s.dirs[b.dir := Complete(b)], head := map[], open := s.open + [b], verbatim := false,
                phase := Truncating);
    StepTo(hash, s, e4, InstallFlush, t, m);
    var e5 := e4 + [InstallFlush];
    RemoveRun(hash, t, order);
    Append(hash, s, e5, RemoveEvents(order));
    PassesAppend(hash, s, e5, RemoveEvents(order), m, RemovalHistory(t.log.files, t.dirs, order));
    StepTo(hash, s, e5 + RemoveEvents(order), EndFlush, FlushedState(s, b, order),
           FlushHistory(s.log.files, s.dirs, b, order));
    assert e5 == [BeginFlush(b), FlushStep, FlushStep, FlushStep, InstallFlush];
  }

  lemma FlushRun(hash: Labels -> nat, trail: seq<Action>, b: Block, order: seq<nat>, before: seq<Snapshot>)
    requires Legal(hash, START, trail) && AtRest(Run(START, trail))
    requires IsHeadBlock(b, Run(START, trail).head)
    requires OwnPoints(b.dir, Run(START, trail).dirs) <= HeadPoints(Run(START, trail).head)
    requires forall i :: 0 <= i < |order| ==> order[i] < Run(START, trail).log.current
    ensures var s := Run(START, trail);
            var es := trail + FlushEvents(b, order);
            && Legal(hash, START, es) && Run(START, es) == FlushedState(s, b, order) && Due(es) == Due(trail)
            && CallPassed(trail, es, before, before + FlushHistory(s.log.files, s.dirs, b, order))
  {
    hide Legal, Run, Due, IsHeadBlock, FlushEvents, FlushHistory, CallPassed, Passes, WithoutSegments, OwnPoints,
         HeadPoints;
    var s := Run(START, trail);
    FlushCall(hash, s, b, order);
    AddCall(hash, trail, FlushEvents(b, order), before, FlushHistory(s.log.files, s.dirs, b, order));
    IdleDue(hash, trail);
    IdleDue(hash, trail + FlushEvents(b, order));
  }

  // ----- compaction -----

  /** What keeps Compact from losing points: the target directory is none of the sources, and no two label sets in the
      blocks have the same hash. */
  ghost predicate CompactionSafe(hash: Labels -> nat, blocks: seq<Block>) {
    |blocks| >= 2 ==>
      var target := Compacted(blocks[0].meta.minTime);
      && (forall b :: b in blocks ==> b.dir != target)
      && NoCollision(hash, AllSeriesOf(blocks))
  }

  /** The block directories after compact has written its target and removed every source. */
  ghost function CompactedDirs(dirs: Dirs, merged: Block, open: seq<Block>): Dirs {
    dirs[merged.dir := Complete(merged)] - (set b | b in open :: b.dir)
  }

  ghost function MergeEvents(dataFirst: DirName -> bool, merged: Block, open: seq<Block>): seq<Action> {
    [BeginMerge(merged), MergeStep, MergeStep, MergeStep] + SourceEvents(dataFirst, open) + [EndMerge]
  }

  ghost function MergeHistory(dataFirst: DirName -> bool, files: Files, dirs: Dirs, merged: Block,
                              open: seq<Block>): seq<Snapshot> {
    BlockHistory(files, dirs, merged) + SourceHistory(dataFirst, files, dirs[merged.dir := Complete(merged)], open)
  }

  ghost function MergedState(s: State, merged: Block): State {
    s.(dirs := CompactedDirs(s.dirs, merged, s.open), open := [merged], exact := false)
  }

  lemma MergeHistoryIs(before: seq<Snapshot>, dataFirst: DirName -> bool, files: Files, dirs: Dirs, merged: Block,
                       open: seq<Block>)
    ensures before + BlockHistory(files, dirs, merged)
            + SourceHistory(dataFirst, files, dirs[merged.dir := Complete(merged)], open)
            == before + MergeHistory(dataFirst, files, dirs, merged, open)
  {
    hide BlockHistory, SourceHistory;
  }

  /** One stage of writing the merged block. */
  lemma MergeMoves(hash: Labels -> nat, s: State, es: seq<Action>, b: Block, c: BlockDir, part: nat,
                   moments: seq<Snapshot>)
    requires Legal(hash, s, es) && Passes(s, es, moments)
    requires Run(s, es) == s.(dirs := s.dirs[b.dir := c], exact := false, upkeep := MergeOpen(b, part))
    ensures var t := s.(dirs := s.dirs[b.dir := NextStage(c, b, part)], exact := false,
                        upkeep := if part < 2 then MergeOpen(b, part + 1) else MergeDone(b));
            && Legal(hash, s, es + [MergeStep]) && Run(s, es + [MergeStep]) == t
            && Passes(s, es + [MergeStep], moments + [DiskOf(t)])
  {
    hide Legal, Run, Passes, StageOn, NextStage, IsHeadBlock, IsMergeOf, OpenedFrom, LatestSegment, OwnPoints;
    StageTo(s.dirs, b, c, part);
    StepTo(hash, s, es, MergeStep, s.(dirs := s.dirs[b.dir := NextStage(c, b, part)], exact := false,
                                      upkeep := if part < 2 then MergeOpen(b, part + 1) else MergeDone(b)), moments);
  }

  lemma MergeWrites(hash: Labels -> nat, s: State, b: Block)
    requires AtRest(s) && IsMergeOf(hash, b, s.open)
    ensures var es := [BeginMerge(b), MergeStep, MergeStep, MergeStep];
            && Legal(hash, s, es) && Passes(s, es, BlockHistory(s.log.files, s.dirs, b))
            && Run(s, es) == s.(dirs := s.dirs[b.dir := Complete(b)], exact := false, upkeep := MergeDone(b))
  {
    hide Legal, Run, IsHeadBlock, IsMergeOf, OpenedFrom, LatestSegment, Passes, OwnPoints, BlocksPoints;
    var c0 := MetaEmptied(s.dirs, b.dir);
    var c1 := NextStage(c0, b, 0);
    var c2 := NextStage(c1, b, 1);
    assert NextStage(c2, b, 2) == Complete(b);
    var m := BlockHistory(s.log.files, s.dirs, b);
    var e := BeginMerge(b);
    FirstStep(hash, s, e, s.(dirs := s.dirs[b.dir := c0], exact := false, upkeep := MergeOpen(b, 0)));
    Four(e, MergeStep, MergeStep, MergeStep);
    Four(m[0], m[1], m[2], m[3]);
    MergeMoves(hash, s, [e], b, c0, 0, [m[0]]);
    MergeMoves(hash, s, [e, MergeStep], b, c1, 1, [m[0], m[1]]);
    MergeMoves(hash, s, [e, MergeStep, MergeStep], b, c2, 2, [m[0], m[1], m[2]]);
    assert [m[0], m[1], m[2], m[3]] == m;
  }

  lemma MergeCall(hash: Labels -> nat, dataFirst: DirName -> bool, s: State, merged: Block)
    requires AtRest(s) && IsMergeOf(hash, merged, s.open)
    ensures var es := MergeEvents(dataFirst, merged, s.open);
            && Legal(hash, s, es) && Run(s, es) == MergedState(s, merged)
            && Passes(s, es, MergeHistory(dataFirst, s.log.files, s.dirs, merged, s.open))
  {
    hide Legal, Run, AllFit, IsHeadBlock, IsMergeOf, OpenedFrom, LatestSegment, Passes, BlockHistory, SourceHistory,
         SourceEvents, WithoutSources, OwnPoints, BlocksPoints;
    MergeWrites(hash, s, merged);
    var e4 := [BeginMerge(merged), MergeStep, MergeStep, MergeStep];
    var t := Run(s, e4);
    assert t.open[..|t.open|] == s.open;
    SourceRun(hash, dataFirst, t, |t.open|);
    var es := SourceEvents(dataFirst, s.open);
    Append(hash, s, e4, es);
    PassesAppend(hash, s, e4, es, BlockHistory(s.log.files, s.dirs, merged),
                 SourceHistory(dataFirst, t.log.files, t.dirs, s.open));
    WithoutSourcesIs(t.dirs, s.open);
    StepTo(hash, s, e4 + es, EndMerge, MergedState(s, merged),
           MergeHistory(dataFirst, s.log.files, s.dirs, merged, s.open));
  }

  lemma MergeRun(hash: Labels -> nat, dataFirst: DirName -> bool, trail: seq<Action>, merged: Block,
                 before: seq<Snapshot>)
    requires Legal(hash, START, trail) && AtRest(Run(START, trail))
    requires IsMergeOf(hash, merged, Run(START, trail).open)
    ensures var s := Run(START, trail);
            var es := trail + MergeEvents(dataFirst, merged, s.open);
            && Legal(hash, START, es) && Run(START, es) == MergedState(s, merged) && Due(es) == Due(trail)
            && CallPassed(trail, es, before, before + MergeHistory(dataFirst, s.log.files, s.dirs, merged, s.open))
  {
    hide Legal, Run, IsMergeOf, Due, MergeEvents, MergeHistory, CallPassed, Passes, CompactedDirs, OwnPoints,
         BlocksPoints;
    var s := Run(START, trail);
    MergeCall(hash, dataFirst, s, merged);
    var es := MergeEvents(dataFirst, merged, s.open);
    AddCall(hash, trail, es, before, MergeHistory(dataFirst, s.log.files, s.dirs, merged, s.open));
    IdleDue(hash, trail);
    IdleDue(hash, trail + es);
  }

  // ----- retention -----

  function LaterOf(a: Int64, b: Int64): Int64 {
    if b > a then b else a
  }

  ghost function RetentionEvents(dataFirst: DirName -> bool, open: seq<Block>, cutoff: Int64): seq<Action> {
    [BeginRetention(cutoff)] + DropEvents(dataFirst, open, cutoff) + [EndRetention]
  }

  ghost function RetainedState(s: State, cutoff: Int64): State {
    s.(dirs := WithoutExpired(s.dirs, s.open, cutoff), open := Unexpired(s.open, cutoff), exact := false,
       horizon := LaterOf(s.horizon, cutoff))
  }

  lemma RetentionCall(hash: Labels -> nat, dataFirst: DirName -> bool, s: State, cutoff: Int64)
    requires AtRest(s) && ExpireTogether(s.open, cutoff) && ExpireWhole(s.open, cutoff)
    ensures var es := RetentionEvents(dataFirst, s.open, cutoff);
            && Legal(hash, s, es) && Run(s, es) == RetainedState(s, cutoff)
            && Passes(s, es, DropHistory(dataFirst, s.log.files, s.dirs, s.open, cutoff))
  {
    hide Legal, Run, AllFit, IsHeadBlock, IsMergeOf, OpenedFrom, LatestSegment, Passes, DropHistory, DropEvents,
         WithoutExpired, Unexpired, ExpireTogether, ExpireWhole, OwnPoints;
    var t := s.(exact := false, horizon := LaterOf(s.horizon, cutoff), upkeep := Retaining(cutoff));
    var e1 := [BeginRetention(cutoff)];
    FirstStep(hash, s, e1[0], t);
    assert t.open[..|t.open|] == s.open;
    DropRun(hash, dataFirst, t, |t.open|);
    var es, moments := DropEvents(dataFirst, s.open, cutoff),
        DropHistory(dataFirst, s.log.files, s.dirs, s.open, cutoff);
    Append(hash, s, e1, es);
    PassesAppend(hash, s, e1, es, [], moments);
    assert [] + moments == moments;
    ExpiredAreGone(s.dirs, s.open, cutoff);
    StepTo(hash, s, e1 + es, EndRetention, RetainedState(s, cutoff), moments);
  }

  lemma RetentionRun(hash: Labels -> nat, dataFirst: DirName -> bool, trail: seq<Action>, cutoff: Int64,
                     before: seq<Snapshot>)
    requires Legal(hash, START, trail) && AtRest(Run(START, trail))
    requires ExpireTogether(Run(START, trail).open, cutoff) && ExpireWhole(Run(START, trail).open, cutoff)
    ensures var s := Run(START, trail);
            var es := trail + RetentionEvents(dataFirst, s.open, cutoff);
            && Legal(hash, START, es) && Run(START, es) == RetainedState(s, cutoff)
            && Due(es) == Due(trail) && Horizon(es) == LaterOf(Horizon(trail), cutoff)
            && CallPassed(trail, es, before, before + DropHistory(dataFirst, s.log.files, s.dirs, s.open, cutoff))
  {
    hide Legal, Run, Due, Horizon, RetentionEvents, DropHistory, CallPassed, Passes, WithoutExpired, Unexpired,
         ExpireTogether, ExpireWhole;
    var s := Run(START, trail);
    RetentionCall(hash, dataFirst, s, cutoff);
    var es := RetentionEvents(dataFirst, s.open, cutoff);
    AddCall(hash, trail, es, before, DropHistory(dataFirst, s.log.files, s.dirs, s.open, cutoff));
    IdleDue(hash, trail);
    IdleDue(hash, trail + es);
    HorizonAgrees(trail);
    HorizonAgrees(trail + es);
  }

  // ----- restart -----

  /** Restarting on what a run left behind is a step of that run. */
  lemma ReopenRun(hash: Labels -> nat, was: seq<Action>, n: nat, blocks: seq<Block>, before: seq<Snapshot>)
    requires Legal(hash, START, was) && Run(START, was).phase.Down?
    requires LatestSegment(Run(START, was).log.files, n) && AllFinish(Run(START, was).log.files)
    requires OpenedFrom(blocks, Run(START, was).dirs)
    ensures var s := Run(START, was);
            var es := was + [Reopen(n, blocks)];
            && Legal(hash, START, es)
            && Run(START, es) == s.(log := Reopened(s.log.files, n),
                                    head := AppendAll(map[], LogRecords(s.log.files, n + 1)),
                                    open := blocks, waiting := [], verbatim := true, phase := Idle, upkeep := Quiet)
            && Due(es) == Due(was)
            && CallPassed(was, es, before, before + [Snapshot(Reopened(s.log.files, n).files, s.dirs)])
  {
    hide Legal, Run, Due, CallPassed, LatestSegment, AllFinish, OpenedFrom, Reopened, LogRecords, AppendAll;
    Extend(hash, START, was, Reopen(n, blocks));
    DueAfterReopen(was, n, blocks);
    ReopenPassed(hash, was, n, blocks, before);
  }

  /** Opening the newest segment is the one disk effect of a restart. */
  lemma ReopenPassed(hash: Labels -> nat, was: seq<Action>, n: nat, blocks: seq<Block>, before: seq<Snapshot>)
    requires Legal(hash, START, was) && Enabled(hash, Run(START, was), Reopen(n, blocks))
    ensures var s := Run(START, was);
            CallPassed(was, was + [Reopen(n, blocks)], before,
                       before + [Snapshot(Reopened(s.log.files, n).files, s.dirs)])
  {
    hide Legal, Run, Enabled, Passes, Reopened, CallPassed, AppendAll, LogRecords;
    var s, e := Run(START, was), Reopen(n, blocks);
    NoEvents(hash, s);
    Extend(hash, s, [], e);
    PassesNothing(s, []);
    PassesStep(s, [], e, []);
    assert [] + [e] == [e];
    assert [] + [DiskOf(Run(s, [e]))] == [DiskOf(Run(s, [e]))];
    AddCall(hash, was, [e], before, [DiskOf(Run(s, [e]))]);
  }

  lemma DueAfterReopen(was: seq<Action>, n: nat, blocks: seq<Block>)
    ensures Due(was + [Reopen(n, blocks)]) == Due(was)
  {
    assert (was + [Reopen(n, blocks)])[..|was|] == was;
  }
}
