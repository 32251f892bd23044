/** The directory tree of a store: segment files and block directories, with every state it has been in. */
module Disks {
  import opened Types
  import opened Heads
  import opened Blocks

  /** The WAL directory, by segment number. */
  type Files = map<nat, Bytes>

  /** The two files of a block directory, meta.json and data.json; None is a file that is missing or cannot be read. */
  datatype BlockDir = BlockDir(meta: Option<BlockMeta>, data: Option<seq<Series>>)

  type Dirs = map<DirName, BlockDir>

  /** What a process that starts at this moment would find. */
  datatype Snapshot = Snapshot(files: Files, dirs: Dirs)

  /** What openBlock accepts. */
  predicate IsWhole(d: DirName, dirs: Dirs) {
    d in dirs && dirs[d].meta.Some? && dirs[d].data.Some?
  }

  function BlockAt(d: DirName, dirs: Dirs): Block
    requires IsWhole(d, dirs)
  {
    Block(d, dirs[d].meta.value, dirs[d].data.value)
  }

  function OldData(d: DirName, dirs: Dirs): Option<seq<Series>> {
    if d in dirs then dirs[d].data else None
  }

  // ----- writing and removing a block directory -----

  function Complete(b: Block): BlockDir {
    BlockDir(Some(b.meta), Some(b.series))
  }

  /** os.Create empties meta.json, while older data may still be there. */
  function MetaEmptied(dirs: Dirs, d: DirName): BlockDir {
    BlockDir(None, OldData(d, dirs))
  }

  /** The next state of the directory: meta.json written, data.json emptied, data.json written. */
  function NextStage(c: BlockDir, b: Block, part: nat): BlockDir {
    if part == 0 then c.(meta := Some(b.meta))
    else if part == 1 then c.(data := None)
    else c.(data := Some(b.series))
  }

  /** The states the disk goes through in writeBlock. */
  ghost function BlockHistory(files: Files, dirs: Dirs, b: Block): seq<Snapshot> {
    var c0 := MetaEmptied(dirs, b.dir);
    var c1 := NextStage(c0, b, 0);
    [Snapshot(files, dirs[b.dir := c0]), Snapshot(files, dirs[b.dir := c1]),
     Snapshot(files, dirs[b.dir := NextStage(c1, b, 1)]), Snapshot(files, dirs[b.dir := Complete(b)])]
  }

  /** What is left when the data cannot be encoded. */
  function MetaAlone(b: Block): BlockDir {
    BlockDir(Some(b.meta), None)
  }

  /** The states the disk goes through in a writeBlock that fails to encode the data. */
  ghost function FailedHistory(files: Files, dirs: Dirs, b: Block): seq<Snapshot> {
    BlockHistory(files, dirs, b)[..3]
  }

  /** Metadata before data, each file empty before it is written, while older data stays until then. */
  lemma BlockStates(files: Files, dirs: Dirs, b: Block)
    ensures var older := if b.dir in dirs then dirs[b.dir].data else None;
            && BlockHistory(files, dirs, b)
               == [Snapshot(files, dirs[b.dir := BlockDir(None, older)]),
                   Snapshot(files, dirs[b.dir := BlockDir(Some(b.meta), older)]),
                   Snapshot(files, dirs[b.dir := BlockDir(Some(b.meta), None)]),
                   Snapshot(files, dirs[b.dir := BlockDir(Some(b.meta), Some(b.series))])]
            && FailedHistory(files, dirs, b)
               == [Snapshot(files, dirs[b.dir := BlockDir(None, older)]),
                   Snapshot(files, dirs[b.dir := BlockDir(Some(b.meta), older)]),
                   Snapshot(files, dirs[b.dir := BlockDir(Some(b.meta), None)])]
  {
  }

  /** What os.RemoveAll has left of a directory. */
  datatype Remnant = DataOnly | MetaOnly | NoFile | Gone

  function Removed(dirs: Dirs, d: DirName, left: Remnant): Dirs {
    if d !in dirs || left == Gone then dirs - {d}
    else
      match left
      case DataOnly => dirs[d := dirs[d].(meta := None)]
      case MetaOnly => dirs[d := dirs[d].(data := None)]
      case NoFile => dirs[d := BlockDir(None, None)]
  }

  function FirstRemnant(dataFirst: bool): Remnant {
    if dataFirst then MetaOnly else DataOnly
  }

  /** The states the disk goes through while a directory is removed. */
  ghost function RemoveHistory(files: Files, dirs: Dirs, d: DirName, dataFirst: bool): seq<Snapshot> {
    [Snapshot(files, Removed(dirs, d, FirstRemnant(dataFirst))), Snapshot(files, Removed(dirs, d, NoFile)),
     Snapshot(files, dirs - {d})]
  }

  /** Each method is one system call, or one os.RemoveAll; a crash can fall between any two recorded states. */
  class Disk {
    /** Which of the two files of a directory os.RemoveAll happens to remove first. */
    const dataFirst: DirName -> bool

    var files: Files
    var dirs: Dirs
    ghost var history: seq<Snapshot>

    ghost function Now(): Snapshot
      reads this
    {
      Snapshot(files, dirs)
    }

    constructor (files: Files, dirs: Dirs, dataFirst: DirName -> bool)
      ensures this.files == files && this.dirs == dirs && this.dataFirst == dataFirst && history == []
    {
      this.files, this.dirs, this.dataFirst, history := files, dirs, dataFirst, [];
    }

    /** Opening a segment with O_CREATE. */
    method CreateSegment(n: nat)
      modifies this
      ensures files == old(files)[n := if n in old(files) then old(files)[n] else []] && dirs == old(dirs)
      ensures history == old(history) + [Now()]
    {
      if n !in files {
        files := files[n := []];
      }
      assert n in old(files) ==> old(files)[n := old(files)[n]] == old(files);
      history := history + [Now()];
    }

    /** Writing through the handle of segment `n`; the bytes are lost when the file has been removed. */
    method AppendSegment(n: nat, data: Bytes)
      modifies this
      ensures files == (if n in old(files) then old(files)[n := old(files)[n] + data] else old(files))
              && dirs == old(dirs)
      ensures history == old(history) + [Now()]
    {
      if n in files {
        files := files[n := files[n] + data];
      }
      history := history + [Now()];
    }

    method RemoveSegment(n: nat)
      modifies this
      ensures files == old(files) - {n} && dirs == old(dirs)
      ensures history == old(history) + [Now()]
    {
      files := files - {n};
      history := history + [Now()];
    }

    /** os.MkdirAll, then os.Create of meta.json. */
    method CreateMeta(d: DirName)
      modifies this
      ensures files == old(files) && dirs == old(dirs)[d := MetaEmptied(old(dirs), d)]
      ensures history == old(history) + [Now()]
    {
      dirs := dirs[d := MetaEmptied(dirs, d)];
      history := history + [Now()];
    }

    method WriteMeta(d: DirName, meta: BlockMeta)
      requires d in dirs
      modifies this
      ensures files == old(files) && dirs == old(dirs)[d := old(dirs)[d].(meta := Some(meta))]
      ensures history == old(history) + [Now()]
    {
      dirs := dirs[d := dirs[d].(meta := Some(meta))];
      history := history + [Now()];
    }

    /** os.Create of data.json. */
    method CreateData(d: DirName)
      requires d in dirs
      modifies this
      ensures files == old(files) && dirs == old(dirs)[d := old(dirs)[d].(data := None)]
      ensures history == old(history) + [Now()]
    {
      dirs := dirs[d := dirs[d].(data := None)];
      history := history + [Now()];
    }

    method WriteData(d: DirName, series: seq<Series>)
      requires d in dirs
      modifies this
      ensures files == old(files) && dirs == old(dirs)[d := old(dirs)[d].(data := Some(series))]
      ensures history == old(history) + [Now()]
    {
      dirs := dirs[d := dirs[d].(data := Some(series))];
      history := history + [Now()];
    }

    method RemoveDir(d: DirName)
      modifies this
      ensures files == old(files) && dirs == old(dirs) - {d}
      ensures history == old(history) + RemoveHistory(files, old(dirs), d, dataFirst(d))
    {
      dirs := Removed(dirs, d, FirstRemnant(dataFirst(d)));
      history := history + [Now()];
      dirs := Removed(dirs, d, NoFile);
      assert dirs == Removed(old(dirs), d, NoFile);
      history := history + [Now()];
      dirs := dirs - {d};
      assert dirs == old(dirs) - {d};
      history := history + [Now()];
    }
  }
}
