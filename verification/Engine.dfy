/** The filesystem store as a machine whose steps are single disk or memory effects, so that a crash can fall
    between any two of them. FSStore's methods are runs of this machine. */
module Engine {
  import opened Types
  import opened Codec
  import opened Wal
  import opened WalLaws
  import opened Heads
  import opened Blocks
  import opened Disks
  import opened Compaction

  /** What commits and flushes are doing. */
  datatype Phase =
    | Down                                          // no process
    | Idle                                          // between calls
    | Logging(batch: seq<Record>, written: nat)     // inside Commit, in WAL.Log
    | FlushOpen(blk: Block, part: nat)              // inside FlushHead: the block's files are being written
    | FlushDone(blk: Block)                         // block complete, head not yet cleared
    | Truncating                                    // head cleared, old segments being removed

  /** What the compaction goroutine is doing; commits go on beside it. */
  datatype Upkeep =
    | Quiet
    | MergeOpen(target: Block, part: nat)           // inside compact: the target's files are being written
    | MergeDone(target: Block)                      // target complete, sources being removed
    | Retaining(cutoff: Int64)                      // inside applyRetention

  /** Disk (segment files and block directories), memory (segment number and size, head, block list), the batches that
      are logged but not yet in the head, in log order, the two activities, and what a specification remembers: the
      points that must survive, the retention horizon, whether nothing has been merged or expired yet, and whether the
      head and the batches that wait are still the replay of the log. */
  datatype State = State(
    log: LogState, dirs: Dirs,
    head: Head, open: seq<Block>, waiting: seq<Batch>,
    phase: Phase, upkeep: Upkeep,
    promised: set<Record>, horizon: Int64, exact: bool, verbatim: bool)

  const START := State(LogState(map[], 0, 0), map[], map[], [], [], Down, Quiet, {}, MIN_TIME, true, false)

  // ----- points -----

  ghost function WalPoints(files: Files): set<Record> {
    set n, r | n in files && r in Replay(files[n]).records :: r
  }

  ghost function DirPoints(dirs: Dirs): set<Record> {
    set d, p | d in dirs && IsWhole(d, dirs) && p in SeriesPoints(BlockAt(d, dirs).series) :: p
  }

  /** The points in data.json of a directory, whether or not openBlock accepts it. */
  ghost function DataPoints(d: DirName, dirs: Dirs): set<Record> {
    match OldData(d, dirs)
    case None => {}
    case Some(series) => SeriesPoints(series)
  }

  /** The points of a directory that openBlock accepts. */
  ghost function OwnPoints(d: DirName, dirs: Dirs): set<Record> {
    if IsWhole(d, dirs) then SeriesPoints(BlockAt(d, dirs).series) else {}
  }

  ghost function HeadPoints(h: Head): set<Record> {
    set l, x | l in h && x in h[l] :: PointOf(l, x)
  }

  ghost function RecordSet(rs: seq<Record>): set<Record> {
    set r | r in rs
  }

  /** What is recoverable from disk. */
  ghost function DiskPoints(s: State): set<Record> {
    WalPoints(s.log.files) + DirPoints(s.dirs)
  }

  /** What a query can see. */
  ghost function LivePoints(s: State): set<Record> {
    HeadPoints(s.head) + BlocksPoints(s.open)
  }

  /** The part of the batch under way that has reached the log. */
  function InFlight(s: State): seq<Record> {
    if s.phase.Logging? && s.phase.written <= |s.phase.batch| then s.phase.batch[..s.phase.written] else []
  }

  /** What has reached the log and not the head, in log order. */
  function Unapplied(s: State): seq<Record> {
    Flatten(s.waiting) + InFlight(s)
  }

  // ----- the steps -----

  /** The block FlushHead builds: every non-empty series of the head once, and its exact time range. */
  ghost predicate IsHeadBlock(b: Block, h: Head) {
    && (forall l :: l in h && h[l] != [] ==> Series(l, h[l]) in b.series)
    && (forall s :: s in b.series ==> s.lset in h && s.samples == h[s.lset] && s.samples != [])
    && DistinctLabels(b.series)
    && Covered(b)
    && (exists s, x :: s in b.series && x in s.samples && x.t == b.meta.minTime)
    && (exists s, x :: s in b.series && x in s.samples && x.t == b.meta.maxTime)
    && b.dir == Flushed(b.meta.minTime)
  }

  /** The block list that openBlocks builds: every complete directory once. */
  ghost predicate OpenedFrom(open: seq<Block>, dirs: Dirs) {
    && (forall b :: b in open ==> Backed(b, dirs))
    && (forall d :: IsWhole(d, dirs) ==> BlockAt(d, dirs) in open)
    && DistinctDirs(open)
  }

  ghost predicate Backed(b: Block, dirs: Dirs) {
    IsWhole(b.dir, dirs) && BlockAt(b.dir, dirs) == b
  }

  ghost predicate DistinctDirs(open: seq<Block>) {
    forall i, j :: 0 <= i < j < |open| ==> open[i].dir != open[j].dir
  }

  /** The directory of a listed block holds its points. It may hold more: a later flush into the same directory has
      overwritten it with a block that contains it. */
  ghost predicate Stands(b: Block, dirs: Dirs) {
    IsWhole(b.dir, dirs) && SeriesPoints(b.series) <= SeriesPoints(BlockAt(b.dir, dirs).series)
  }

  /** How the block list of a running store and the directories correspond. */
  ghost predicate Listed(open: seq<Block>, dirs: Dirs) {
    && (forall b :: b in open ==> Stands(b, dirs))
    && (forall d :: IsWhole(d, dirs) ==> BlockAt(d, dirs) in open)
  }

  /** Blocks that share a directory expire together. */
  ghost predicate ExpireTogether(open: seq<Block>, cutoff: Int64) {
    forall a, b :: a in open && b in open && a.dir == b.dir && a.meta.maxTime < cutoff ==> b.meta.maxTime < cutoff
  }

  /** Blocks whose range ends before the cutoff hold only earlier samples, as they do when the range covers them. */
  ghost predicate ExpireWhole(open: seq<Block>, cutoff: Int64) {
    forall b, p :: b in open && b.meta.maxTime < cutoff && p in SeriesPoints(b.series) ==> p.t < cutoff
  }

  ghost predicate IsMergeOf(hash: Labels -> nat, b: Block, open: seq<Block>) {
    && IsMerge(hash, b.series, AllSeriesOf(open))
    && NoCollision(hash, AllSeriesOf(open))
    && MergedBounds(b.meta, open)
    && forall x :: x in open ==> x.dir != b.dir
  }

  function Unexpired(open: seq<Block>, cutoff: Int64): seq<Block> {
    if open == [] then []
    else
      var b := open[|open| - 1];
      Unexpired(open[..|open| - 1], cutoff) + if b.meta.maxTime < cutoff then [] else [b]
  }

  datatype Action =
    | BeginCommit(batch: seq<Record>)
    | WriteNext
    | RotateNow
    | EndLog
    | AppendHead(i: nat)
    | BeginFlush(blk: Block)
    | FlushStep
    | AbortFlush
    | InstallFlush
    | RemoveSegment(n: nat)
    | EndFlush
    | BeginMerge(target: Block)
    | MergeStep
    | RemoveSource(b: Block, left: Remnant)
    | EndMerge
    | BeginRetention(cutoff: Int64)
    | DropBlock(b: Block, left: Remnant)
    | EndRetention
    | Crash
    | CrashTorn(cut: nat)
    | Reopen(n: nat, open: seq<Block>)

  /** The open segment is whole records; after a bare header it is not, although it opens. */
  ghost predicate CleanTail(log: LogState) {
    log.current in log.files && Clean(log.files[log.current])
  }

  /** Every segment replays without an error, so that a process can start. */
  ghost predicate AllFinish(files: Files) {
    forall n :: n in files ==> Replay(files[n]).end == Finished
  }

  /** The log of a process that dies when it has written `cut` bytes of the next record. */
  function TornLog(log: LogState, next: Record, cut: nat): LogState {
    if log.current in log.files && cut <= |Encode(next)| then
      log.(files := log.files[log.current := log.files[log.current] + Encode(next)[..cut]])
    else log
  }

  /** No call is under way, in any goroutine. */
  predicate AtRest(s: State) {
    s.phase.Idle? && s.upkeep.Quiet? && s.waiting == []
  }

  ghost predicate Enabled(hash: Labels -> nat, s: State, e: Action) {
    match e
    case BeginCommit(batch) => s.phase.Idle? && AllFit(batch) && CleanTail(s.log)
    case WriteNext => s.phase.Logging? && s.phase.written < |s.phase.batch|
    case RotateNow => s.phase.Logging?
    case EndLog => s.phase.Logging? && s.phase.written == |s.phase.batch|
    case AppendHead(i) => (s.phase.Idle? || s.phase.Logging?) && i < |s.waiting|
    case BeginFlush(b) => AtRest(s) && IsHeadBlock(b, s.head) && OwnPoints(b.dir, s.dirs) <= HeadPoints(s.head)
    case FlushStep => s.phase.FlushOpen?
    case AbortFlush => s.phase.FlushOpen? && s.phase.part != 1 && forall x :: x in s.open ==> x.dir != s.phase.blk.dir
    case InstallFlush => s.phase.FlushDone?
    case RemoveSegment(n) => s.phase.Truncating? && n < s.log.current
    case EndFlush => s.phase.Truncating?
    case BeginMerge(b) => CanBegin(s) && IsMergeOf(hash, b, s.open)
    case MergeStep => s.upkeep.MergeOpen?
    case RemoveSource(b, _) => s.upkeep.MergeDone? && b in s.open
    case EndMerge => s.upkeep.MergeDone? && forall b :: b in s.open ==> !IsWhole(b.dir, s.dirs)
    case BeginRetention(cutoff) => CanBegin(s) && ExpireTogether(s.open, cutoff) && ExpireWhole(s.open, cutoff)
    case DropBlock(b, _) => s.upkeep.Retaining? && b in s.open && b.meta.maxTime < s.upkeep.cutoff
    case EndRetention =>
      s.upkeep.Retaining? && forall b :: b in s.open && b.meta.maxTime < s.upkeep.cutoff ==> !IsWhole(b.dir, s.dirs)
    case Crash => !s.phase.Down?
    case CrashTorn(cut) =>
      s.phase.Logging? && s.phase.written < |s.phase.batch| && cut < |Encode(s.phase.batch[s.phase.written])|
    case Reopen(n, open) =>
      s.phase.Down? && LatestSegment(s.log.files, n) && AllFinish(s.log.files) && OpenedFrom(open, s.dirs)
  }

  /** Compaction and retention may begin between commits or during one. */
  predicate CanBegin(s: State) {
    s.upkeep.Quiet? && (s.phase.Idle? || s.phase.Logging?)
  }

  /** The next file operation of writeBlock on the directory of `b`. */
  function StageOn(dirs: Dirs, b: Block, part: nat): Dirs {
    if b.dir in dirs then dirs[b.dir := NextStage(dirs[b.dir], b, part)] else dirs
  }

  ghost function Apply(s: State, e: Action): State {
    match e
    case BeginCommit(batch) => s.(phase := Logging(batch, 0))
    case WriteNext =>
      if s.phase.Logging? && s.phase.written < |s.phase.batch| then
        s.(log := WriteRecord(s.log, s.phase.batch[s.phase.written]),
           phase := Logging(s.phase.batch, s.phase.written + 1))
      else s
    case RotateNow => s.(log := Rotate(s.log))
    case EndLog => if s.phase.Logging? then s.(waiting := s.waiting + [s.phase.batch], phase := Idle) else s
    case AppendHead(i) =>
      if i < |s.waiting| then
        s.(head := AppendAll(s.head, s.waiting[i]), promised := s.promised + RecordSet(s.waiting[i]),
           waiting := Without(s.waiting, i), verbatim := s.verbatim && i == 0)
      else s
    case BeginFlush(b) => s.(dirs := s.dirs[b.dir := MetaEmptied(s.dirs, b.dir)], phase := FlushOpen(b, 0))
    case FlushStep =>
      if s.phase.FlushOpen? then
        s.(dirs := StageOn(s.dirs, s.phase.blk, s.phase.part),
           phase := if s.phase.part < 2 then FlushOpen(s.phase.blk, s.phase.part + 1) else FlushDone(s.phase.blk))
      else s
    case AbortFlush => if s.phase.FlushOpen? then s.(phase := Idle) else s
    case InstallFlush =>
      if s.phase.FlushDone? then
        s.(open := s.open + [s.phase.blk], head := map[], verbatim := false, phase := Truncating)
      else s
    case RemoveSegment(n) => s.(log := s.log.(files := s.log.files - {n}))
    case EndFlush => s.(phase := Idle)
    case BeginMerge(b) =>
      s.(dirs := s.dirs[b.dir := MetaEmptied(s.dirs, b.dir)], exact := false, upkeep := MergeOpen(b, 0))
    case MergeStep =>
      if s.upkeep.MergeOpen? then
        s.(dirs := StageOn(s.dirs, s.upkeep.target, s.upkeep.part),
           upkeep := if s.upkeep.part < 2 then MergeOpen(s.upkeep.target, s.upkeep.part + 1)
                     else MergeDone(s.upkeep.target))
      else s
    case RemoveSource(b, left) => s.(dirs := Removed(s.dirs, b.dir, left))
    case EndMerge => if s.upkeep.MergeDone? then s.(open := [s.upkeep.target], upkeep := Quiet) else s
    case BeginRetention(cutoff) =>
      s.(horizon := if cutoff > s.horizon then cutoff else s.horizon, exact := false, upkeep := Retaining(cutoff))
    case DropBlock(b, left) => s.(dirs := Removed(s.dirs, b.dir, left))
    case EndRetention =>
      if s.upkeep.Retaining? then s.(open := Unexpired(s.open, s.upkeep.cutoff), upkeep := Quiet) else s
    case Crash => s.(phase := Down, upkeep := Quiet, promised := s.promised + RecordSet(Unapplied(s)), waiting := [])
    case CrashTorn(cut) =>
      if s.phase.Logging? && s.phase.written < |s.phase.batch| then
        s.(log := TornLog(s.log, s.phase.batch[s.phase.written], cut),
           phase := Down, upkeep := Quiet, promised := s.promised + RecordSet(Unapplied(s)), waiting := [])
      else s
    case Reopen(n, open) =>
      s.(log := Reopened(s.log.files, n), head := AppendAll(map[], LogRecords(s.log.files, n + 1)),
         open := open, waiting := [], verbatim := true, phase := Idle, upkeep := Quiet)
  }

  ghost function Run(s: State, es: seq<Action>): State {
    if es == [] then s else Apply(Run(s, es[..|es| - 1]), es[|es| - 1])
  }

  ghost predicate Legal(hash: Labels -> nat, s: State, es: seq<Action>) {
    es == [] || (Legal(hash, s, es[..|es| - 1]) && Enabled(hash, Run(s, es[..|es| - 1]), es[|es| - 1]))
  }

  // ----- the invariant -----

  /** `have` holds only points of `due`, and every label set and time of `due` from the horizon on. */
  ghost predicate Safe(have: set<Record>, due: set<Record>, horizon: Int64, exact: bool) {
    && have <= due
    && (forall p :: p in due && p.t >= horizon ==> HasKey(have, p))
    && (exact ==> have == due)
  }

  /** Every directory that can be read has metadata that covers its samples. */
  ghost predicate GoodDirs(dirs: Dirs) {
    forall d :: IsWhole(d, dirs) ==> Covered(BlockAt(d, dirs))
  }

  /** All data on disk, readable as a block or not. */
  ghost predicate DataWithin(dirs: Dirs, due: set<Record>) {
    forall d :: d in dirs ==> DataPoints(d, dirs) <= due
  }

  ghost predicate GoodLog(log: LogState) {
    log.current in log.files && forall n :: n in log.files ==> n <= log.current
  }

  /** The directories without the one that is being written. */
  ghost function Settled(s: State): Dirs {
    if s.upkeep.MergeOpen? then s.dirs - {s.upkeep.target.dir}
    else if s.phase.FlushOpen? then s.dirs - {s.phase.blk.dir}
    else s.dirs
  }

  /** The directory of `b` while its files are being written; blocks listed there lie within `room`. */
  ghost predicate Writing(open: seq<Block>, dirs: Dirs, b: Block, part: nat, room: set<Record>) {
    && part <= 2 && b.dir in dirs
    && dirs[b.dir].meta == (if part == 0 then None else Some(b.meta))
    && (part == 2 ==> dirs[b.dir].data.None?)
    && (forall d :: IsWhole(d, dirs) && d != b.dir ==> BlockAt(d, dirs) in open)
    && (forall x :: x in open ==> if x.dir == b.dir then SeriesPoints(x.series) <= room else Stands(x, dirs))
  }

  ghost predicate FlushMatches(s: State) {
    match s.phase
    case FlushOpen(b, part) => IsHeadBlock(b, s.head) && Writing(s.open, s.dirs, b, part, HeadPoints(s.head))
    case FlushDone(b) => IsHeadBlock(b, s.head) && Listed(s.open + [b], s.dirs)
    case _ => Listed(s.open, s.dirs)
  }

  /** How the block list and the block directories correspond during each activity. */
  ghost predicate ListMatches(hash: Labels -> nat, s: State) {
    match s.upkeep
    case Quiet => FlushMatches(s)
    case MergeOpen(b, part) => IsMergeOf(hash, b, s.open) && Writing(s.open, s.dirs, b, part, BlocksPoints(s.open))
    case MergeDone(b) =>
      IsMergeOf(hash, b, s.open) && Backed(b, s.dirs)
      && forall d :: IsWhole(d, s.dirs) && d != b.dir ==> BlockAt(d, s.dirs) in s.open
    case Retaining(cutoff) =>
      (forall d :: IsWhole(d, s.dirs) ==> BlockAt(d, s.dirs) in s.open)
      && (forall b :: b in s.open && b.meta.maxTime >= cutoff ==> Stands(b, s.dirs))
      && ExpireTogether(s.open, cutoff) && ExpireWhole(s.open, cutoff) && s.horizon >= cutoff
  }

  /** What holds while a process runs. */
  ghost predicate Running(hash: Labels -> nat, s: State) {
    && GoodLog(s.log) && AllFinish(s.log.files)
    && ListMatches(hash, s)
    && Safe(LivePoints(s), s.promised, s.horizon, s.exact)
    && HeadPoints(s.head) + RecordSet(Unapplied(s)) <= WalPoints(s.log.files)
    && (s.verbatim ==> AppendAll(map[], Logged(s.log)) == AppendAll(s.head, Unapplied(s)))
  }

  /** Everything that is due: what was promised, and what the log holds beyond it. */
  ghost function Owed(s: State): set<Record> {
    s.promised + RecordSet(Unapplied(s))
  }

  ghost predicate Inv(hash: Labels -> nat, s: State) {
    && AllClean(s.log.files - {s.log.current}) && (s.log.files != map[] ==> GoodLog(s.log))
    && (s.phase.Logging? ==> CleanTail(s.log))
    && (s.phase.Logging? ==> s.phase.written <= |s.phase.batch| && AllFit(s.phase.batch))
    && (s.waiting != [] ==> s.phase.Idle? || s.phase.Logging?)
    && (!s.upkeep.Quiet? ==> !s.exact && (s.phase.Idle? || s.phase.Logging?))
    && DataWithin(s.dirs, Owed(s))
    && Safe(WalPoints(s.log.files) + DirPoints(Settled(s)), Owed(s), s.horizon, s.exact)
    && (s.phase.Truncating? ==>
          s.head == map[] && !s.verbatim && Safe(DirPoints(s.dirs), s.promised, s.horizon, s.exact))
    && (!s.phase.Down? ==> Running(hash, s))
  }
}
