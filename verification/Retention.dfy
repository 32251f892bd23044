/** The two passes of applyRetention over the block list. */
module Retention {
  import opened Types
  import opened Blocks
  import opened Engine
  import opened Durability
  import opened Coverage

  // ----- age -----

  /** The age pass keeps, in order, exactly the blocks that reach the cutoff, and with them every point from the
      cutoff on. */
  lemma AgePassKeepsLatePoints(open: seq<Block>, cutoff: Int64, p: Record)
    requires (forall b :: b in open ==> Covered(b)) && p in BlocksPoints(open) && p.t >= cutoff
    ensures p in BlocksPoints(Unexpired(open, cutoff))
  {
    hide Covered, SeriesPoints, Unexpired;
    CoveredExpireWhole(open, cutoff);
    UnexpiredMembers(open, cutoff);
    var b :| b in open && p in SeriesPoints(b.series);
    assert b in Unexpired(open, cutoff);
  }

  // ----- size -----

  /** The sizes of the directories that exist. */
  type Sizes = map<DirName, nat>

  function DiskSize(sizes: Sizes, d: DirName): nat {
    if d in sizes then sizes[d] else 0
  }

  function TotalSize(sizes: Sizes, blocks: seq<Block>): nat {
    if blocks == [] then 0 else DiskSize(sizes, blocks[0].dir) + TotalSize(sizes, blocks[1..])
  }

  /** The size of no, one, and two lists of blocks; a directory that is missing counts nothing. */
  lemma {:induction false} TotalSizes(sizes: Sizes, a: seq<Block>, b: seq<Block>)
    ensures TotalSize(sizes, a + b) == TotalSize(sizes, a) + TotalSize(sizes, b)
    ensures |a| == 1 ==> TotalSize(sizes, a) == if a[0].dir in sizes then sizes[a[0].dir] else 0
    ensures a == [] ==> TotalSize(sizes, a) == 0
  {
    if a == [] {
      assert a + b == b;
    } else {
      TotalSizes(sizes, a[1..], b);
      assert (a + b)[1..] == a[1..] + b;
    }
  }

  method SumSizes(sizes: Sizes, blocks: seq<Block>) returns (totalSize: nat)
    ensures totalSize == TotalSize(sizes, blocks)
  {
    totalSize := 0;
    for i := 0 to |blocks|
      invariant totalSize + TotalSize(sizes, blocks[i..]) == TotalSize(sizes, blocks)
    {
      totalSize := totalSize + DiskSize(sizes, blocks[i].dir);
    }
  }

  /** Removes the first block as long as the total is over the limit; each removal also takes its directory. What is
      kept is a suffix, and with distinct directories it is the longest one that fits. */
  method SizePass(blocks: seq<Block>, disk: Sizes, maxSize: nat) returns (kept: seq<Block>, sizes: Sizes)
    ensures |kept| <= |blocks| && kept == blocks[|blocks| - |kept|..]
    ensures sizes == disk - (set i | 0 <= i < |blocks| - |kept| :: blocks[i].dir)
    ensures DistinctDirs(blocks) ==>
              TotalSize(disk, kept) <= maxSize
              && forall j :: 0 <= j < |blocks| - |kept| ==> TotalSize(disk, blocks[j..]) > maxSize
  {
    kept, sizes := blocks, disk;
    var total := SumSizes(sizes, blocks);
    var totalSize: int := total;
    ghost var k := 0;
    while totalSize > maxSize && |kept| > 0
      invariant k <= |blocks| && kept == blocks[k..]
      invariant sizes == disk - (set i | 0 <= i < k :: blocks[i].dir)
      invariant DistinctDirs(blocks) ==> totalSize == TotalSize(disk, kept)
      invariant DistinctDirs(blocks) && k > 0 ==> TotalSize(disk, blocks[k - 1..]) > maxSize
      decreases |kept|
    {
      var oldest := kept[0];
      var sz := DiskSize(sizes, oldest.dir);
      if DistinctDirs(blocks) {
        StillThere(disk, sizes, blocks, k);
      }
      sizes := sizes - {oldest.dir};
      kept := kept[1..];
      totalSize := totalSize - sz;
      k := k + 1;
    }
    if DistinctDirs(blocks) {
      forall j | 0 <= j < k ensures TotalSize(disk, blocks[j..]) > maxSize {
        KeptIsLongestFit(disk, blocks, k, j, maxSize);
      }
    }
  }

  lemma StillThere(disk: Sizes, sizes: Sizes, blocks: seq<Block>, k: nat)
    requires DistinctDirs(blocks) && k < |blocks|
    requires sizes == disk - (set i | 0 <= i < k :: blocks[i].dir)
    ensures DiskSize(sizes, blocks[k].dir) == DiskSize(disk, blocks[k].dir)
  {
  }

  lemma {:induction false} SuffixIsSmaller(sizes: Sizes, blocks: seq<Block>, i: nat, j: nat)
    requires i <= j <= |blocks|
    ensures TotalSize(sizes, blocks[j..]) <= TotalSize(sizes, blocks[i..])
    decreases j - i
  {
    if i < j {
      SuffixIsSmaller(sizes, blocks, i + 1, j);
      assert blocks[i..][1..] == blocks[i + 1..];
    }
  }

  /** What is kept is the longest suffix that fits. */
  lemma KeptIsLongestFit(sizes: Sizes, blocks: seq<Block>, k: nat, j: nat, maxSize: nat)
    requires j < k <= |blocks| && TotalSize(sizes, blocks[k - 1..]) > maxSize
    ensures TotalSize(sizes, blocks[j..]) > maxSize
  {
    SuffixIsSmaller(sizes, blocks, j, k - 1);
  }
}
