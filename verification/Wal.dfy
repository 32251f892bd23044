/** The segmented write-ahead log: appending with rotation, truncation, reopening and replay. */
module Wal {
  import opened Types
  import opened Digits
  import opened Codec
  import opened SegmentNames
  import opened Sorting
  import opened Disks

  /** The directory together with the open segment's number and the size the process believes it has. */
  datatype LogState = LogState(files: Files, current: nat, size: nat)

  /** Appending to a segment that is no longer in the directory changes no file. */
  function WriteRecord(s: LogState, r: Record): LogState {
    s.(files := if s.current in s.files then s.files[s.current := s.files[s.current] + Encode(r)] else s.files,
       size := s.size + |Encode(r)|)
  }

  /** The next segment is created empty: no file has a number above the current one. */
  function Rotate(s: LogState): LogState {
    LogState(s.files[s.current + 1 := []], s.current + 1, 0)
  }

  function LogOne(s: LogState, max: int, r: Record): LogState {
    var w := WriteRecord(s, r);
    if w.size >= max then Rotate(w) else w
  }

  function LogAll(s: LogState, max: int, rs: seq<Record>): LogState {
    if rs == [] then s else LogOne(LogAll(s, max, rs[..|rs| - 1]), max, rs[|rs| - 1])
  }

  /** The states the disk goes through while one record is logged: written first, then perhaps a new segment. */
  ghost function RecordHistory(s: LogState, dirs: Dirs, max: int, r: Record): seq<Snapshot> {
    var w := WriteRecord(s, r);
    [Snapshot(w.files, dirs)] + if w.size >= max then [Snapshot(Rotate(w).files, dirs)] else []
  }

  ghost function LogHistory(s: LogState, dirs: Dirs, max: int, rs: seq<Record>): seq<Snapshot> {
    if rs == [] then []
    else
      var k := |rs| - 1;
      LogHistory(s, dirs, max, rs[..k]) + RecordHistory(LogAll(s, max, rs[..k]), dirs, max, rs[k])
  }

  /** The states the disk goes through while segments are removed one by one. */
  ghost function RemovalHistory(files: Files, dirs: Dirs, order: seq<nat>): seq<Snapshot> {
    if order == [] then []
    else RemovalHistory(files, dirs, order[..|order| - 1]) + [Snapshot(WithoutSegments(files, order), dirs)]
  }

  function WithoutSegments(files: Files, order: seq<nat>): Files {
    if order == [] then files else WithoutSegments(files, order[..|order| - 1]) - {order[|order| - 1]}
  }

  function Truncated(files: Files, beforeSeq: int): Files {
    map n | n in files && n >= beforeSeq :: files[n]
  }

  /** The files left while Truncate has yet to look at some directory entries. */
  ghost function Truncating(files: Files, beforeSeq: int, entries: set<nat>): Files {
    map n | n in files && (n >= beforeSeq || n in entries) :: files[n]
  }

  lemma TruncatingBounds(files: Files, beforeSeq: int)
    ensures Truncating(files, beforeSeq, files.Keys) == files
            && Truncating(files, beforeSeq, {}) == Truncated(files, beforeSeq)
    ensures forall n :: n in Truncated(files, beforeSeq) ==> n in files
  {
  }

  lemma TruncatingStep(files: Files, beforeSeq: int, entries: set<nat>, e: nat)
    requires e in entries && entries <= files.Keys
    ensures Truncating(files, beforeSeq, entries - {e})
            == Truncating(files, beforeSeq, entries) - if e < beforeSeq then {e} else {}
  {
  }

  ghost predicate LatestSegment(files: Files, n: nat) {
    (forall m :: m in files ==> m <= n) && (n in files || n == 0)
  }

  /** The log as it is found by a process that opens segment `n`, which is created when missing. */
  function Reopened(files: Files, n: nat): LogState {
    var content := if n in files then files[n] else [];
    LogState(files[n := content], n, |content|)
  }

  /** The present segment numbers below `hi`, ascending. */
  function SegmentNumbers(files: Files, hi: nat): (ns: seq<nat>)
    ensures forall n :: n in ns <==> n in files && n < hi
  {
    if hi == 0 then []
    else SegmentNumbers(files, hi - 1) + if hi - 1 in files then [hi - 1] else []
  }

  /** Replaying segments in the given order; the first one that does not end cleanly ends the replay. */
  function ReplayFiles(files: Files, order: seq<nat>): Replayed
    requires forall n :: n in order ==> n in files
    decreases |order|
  {
    if order == [] then Replayed([], Finished)
    else
      var k := |order| - 1;
      var before := ReplayFiles(files, order[..k]);
      if before.end != Finished then before
      else
        var r := Replay(files[order[k]]);
        Replayed(before.records + r.records, r.end)
  }

  // ----- the code -----

  datatype DirEntry = DirEntry(name: Bytes, number: nat)

  predicate NameLess(a: DirEntry, b: DirEntry) {
    LexLess(a.name, b.name)
  }

  class WAL {
    const disk: Disk
    const maxSegSize: int
    var segmentSeq: nat
    var segmentSize: nat

    ghost function State(): LogState
      reads this, disk
    {
      LogState(disk.files, segmentSeq, segmentSize)
    }

    /** No segment file is newer than the open one. */
    ghost predicate Valid()
      reads this, disk
    {
      forall n :: n in disk.files ==> n <= segmentSeq
    }

    /** NewWAL over the segment files found in the directory; their numbers are Go ints. */
    constructor (disk: Disk, maxSegmentSize: int)
      requires forall n :: n in disk.files ==> n <= MAX_INT
      modifies disk
      ensures Valid() && this.disk == disk && maxSegSize == maxSegmentSize
      ensures LatestSegment(old(disk.files), segmentSeq) && State() == Reopened(old(disk.files), segmentSeq)
      ensures disk.dirs == old(disk.dirs) && disk.history == old(disk.history) + [disk.Now()]
    {
      var maxSeq := LatestSegmentSeq(disk.files);
      this.disk, maxSegSize := disk, maxSegmentSize;
      segmentSeq := maxSeq;
      segmentSize := if maxSeq in disk.files then |disk.files[maxSeq]| else 0;
      new;
      disk.CreateSegment(maxSeq);
    }

    static method LatestSegmentSeq(files: Files) returns (maxSeq: nat)
      requires forall n :: n in files ==> n <= MAX_INT
      ensures LatestSegment(files, maxSeq)
    {
      maxSeq := 0;
      var entries := files.Keys;
      while entries != {}
        invariant entries <= files.Keys
        invariant forall n :: n in files && n !in entries ==> n <= maxSeq
        invariant maxSeq in files || maxSeq == 0
        decreases |entries|
      {
        var e :| e in entries;
        entries := entries - {e};
        NameRoundTrip(e);
        var seqNo := ParseSegmentSeq(SegmentName(e));
        if seqNo.Some? && seqNo.value > maxSeq {
          maxSeq := seqNo.value;
        }
      }
    }

    method Log(records: seq<Record>)
      requires Valid()
      modifies this, disk
      ensures Valid() && State() == LogAll(old(State()), maxSegSize, records)
      ensures disk.dirs == old(disk.dirs)
      ensures disk.history == old(disk.history) + LogHistory(old(State()), disk.dirs, maxSegSize, records)
    {
      hide LogAll, LogOne, LogHistory, RecordHistory;
      NothingLogged(State(), disk.dirs, maxSegSize, records[..0]);
      for i := 0 to |records|
        invariant Valid() && State() == LogAll(old(State()), maxSegSize, records[..i]) && disk.dirs == old(disk.dirs)
        invariant disk.history == old(disk.history) + LogHistory(old(State()), disk.dirs, maxSegSize, records[..i])
      {
        LogStep(old(disk.history), old(State()), disk.dirs, maxSegSize, records, i);
        LogRecord(records[i]);
      }
      assert records[..|records|] == records;
    }

    /** One round of the loop of Log. */
    method LogRecord(rec: Record)
      requires Valid()
      modifies this, disk
      ensures Valid() && State() == LogOne(old(State()), maxSegSize, rec) && disk.dirs == old(disk.dirs)
      ensures disk.history == old(disk.history) + RecordHistory(old(State()), disk.dirs, maxSegSize, rec)
    {
      hide Encode;
      var data := EncodeWALRecord(rec);
      disk.AppendSegment(segmentSeq, data);
      segmentSize := segmentSize + |data|;
      if segmentSize >= maxSegSize {
        RotateSegment();
      }
    }

    method RotateSegment()
      requires Valid()
      modifies this, disk
      ensures Valid() && State() == Rotate(old(State())) && disk.dirs == old(disk.dirs)
      ensures segmentSeq == old(segmentSeq) + 1 && segmentSize == 0 && disk.files == old(disk.files)[segmentSeq := []]
      ensures disk.history == old(disk.history) + [disk.Now()]
    {
      segmentSeq := segmentSeq + 1;
      disk.CreateSegment(segmentSeq);
      segmentSize := 0;
    }

    /** Removes the older segments, one after the other. */
    method Truncate(beforeSeq: int) returns (ghost order: seq<nat>)
      requires Valid()
      modifies disk
      ensures Valid() && disk.files == Truncated(old(disk.files), beforeSeq) && disk.dirs == old(disk.dirs)
      ensures disk.history == old(disk.history) + RemovalHistory(old(disk.files), disk.dirs, order)
      ensures disk.files == WithoutSegments(old(disk.files), order)
      ensures forall i :: 0 <= i < |order| ==> order[i] < beforeSeq
    {
      hide Truncating, Truncated;
      order := [];
      var entries := disk.files.Keys;
      TruncatingBounds(disk.files, beforeSeq);
      while entries != {}
        invariant entries <= old(disk.files).Keys && disk.dirs == old(disk.dirs)
        invariant disk.files == Truncating(old(disk.files), beforeSeq, entries)
        invariant disk.files == WithoutSegments(old(disk.files), order)
        invariant forall i :: 0 <= i < |order| ==> order[i] < beforeSeq
        invariant disk.history == old(disk.history) + RemovalHistory(old(disk.files), disk.dirs, order)
        decreases |entries|
      {
        var e :| e in entries;
        TruncatingStep(old(disk.files), beforeSeq, entries, e);
        entries := entries - {e};
        if e < beforeSeq {
          disk.RemoveSegment(e);
          assert (order + [e])[..|order|] == order;
          order := order + [e];
        }
      }
    }

    /** Directory entries that parse as segment names, sorted by name. */
    method ListSegments() returns (paths: seq<DirEntry>)
      ensures IsListing(disk.files, paths)
    {
      var found: seq<DirEntry> := [];
      var entries := disk.files.Keys;
      while entries != {}
        invariant entries <= disk.files.Keys
        invariant forall e :: e in found ==> e.number in disk.files.Keys - entries && e.name == SegmentName(e.number)
        invariant forall n :: n in disk.files.Keys - entries && n <= MAX_INT ==> DirEntry(SegmentName(n), n) in found
        invariant forall i, j :: 0 <= i < j < |found| ==> found[i] != found[j]
        decreases |entries|
      {
        var n :| n in entries;
        entries := entries - {n};
        if n <= MAX_INT {
          NameRoundTrip(n);
        }
        if ParseSegmentSeq(SegmentName(n)).Some? {
          found := found + [DirEntry(SegmentName(n), n)];
        }
      }
      NameOrder();
      paths := Sort(found, NameLess);
      SameElements(found, paths);
    }

    /** Calls fn for each record of each segment, in the order of their names; the calls made are returned. */
    method Replay() returns (calls: seq<Record>, end: End)
      requires Valid()
      ensures exists paths :: IsListing(disk.files, paths) && Replayed(calls, end) == ReplayListed(disk.files, paths)
      ensures WriteOrder(disk.files) ==>
                Replayed(calls, end) == ReplayFiles(disk.files, SegmentNumbers(disk.files, segmentSeq + 1))
    {
      hide IsListing, ReplayListed, ReplayFiles, SegmentNumbers, WriteOrder;
      var segments := ListSegments();
      calls, end := ReplayPaths(segments);
      assert IsListing(disk.files, segments) && Replayed(calls, end) == ReplayListed(disk.files, segments);
      if WriteOrder(disk.files) {
        ListingAscends(disk.files, segments, segmentSeq + 1);
      }
    }

    method ReplayPaths(segments: seq<DirEntry>) returns (calls: seq<Record>, end: End)
      requires IsListing(disk.files, segments)
      ensures Replayed(calls, end) == ReplayListed(disk.files, segments)
    {
      calls := [];
      ghost var order := Numbers(segments);
      for i := 0 to |segments|
        invariant ReplayFiles(disk.files, order[..i]) == Replayed(calls, Finished)
      {
        assert order[..i + 1][..i] == order[..i];
        var got, e := ReplaySegment(disk.files[segments[i].number]);
        calls := calls + got;
        if e != Finished {
          FirstFailureEnds(disk.files, order, i + 1);
          return calls, e;
        }
      }
      assert order[..|segments|] == order;
      end := Finished;
    }
  }

  lemma NothingLogged(s: LogState, dirs: Dirs, max: int, rs: seq<Record>)
    requires rs == []
    ensures LogAll(s, max, rs) == s && LogHistory(s, dirs, max, rs) == []
  {
  }

  lemma LogStep(before: seq<Snapshot>, s: LogState, dirs: Dirs, max: int, rs: seq<Record>, i: nat)
    requires i < |rs|
    ensures LogAll(s, max, rs[..i + 1]) == LogOne(LogAll(s, max, rs[..i]), max, rs[i])
    ensures before + LogHistory(s, dirs, max, rs[..i + 1])
            == before + LogHistory(s, dirs, max, rs[..i]) + RecordHistory(LogAll(s, max, rs[..i]), dirs, max, rs[i])
  {
    hide RecordHistory, LogOne;
    assert rs[..i + 1][..i] == rs[..i];
  }

  lemma {:induction false} FirstFailureEnds(files: Files, order: seq<nat>, i: nat)
    requires i <= |order| && forall n :: n in order ==> n in files
    requires ReplayFiles(files, order[..i]).end != Finished
    ensures ReplayFiles(files, order) == ReplayFiles(files, order[..i])
    decreases |order| - i
  {
    if i == |order| {
      assert order[..i] == order;
    } else {
      assert order[..i + 1][..i] == order[..i];
      FirstFailureEnds(files, order, i + 1);
    }
  }

  // ----- listing in write order -----

  /** All names are equally long, so that they sort as the numbers do (see SortedListingIffSameWidth). */
  ghost predicate WriteOrder(files: Files) {
    && (forall n :: n in files ==> n <= MAX_INT)
    && (forall m, n :: m in files && n in files ==> Width(m) == Width(n))
  }

  ghost function Numbers(entries: seq<DirEntry>): (ns: seq<nat>)
    ensures |ns| == |entries| && forall i :: 0 <= i < |ns| ==> ns[i] == entries[i].number
    ensures forall n :: n in ns ==> exists e :: e in entries && e.number == n
  {
    seq(|entries|, i requires 0 <= i < |entries| => entries[i].number)
  }

  /** What listSegments returns: every segment whose name parses, once, sorted by name. */
  ghost predicate IsListing(files: Files, paths: seq<DirEntry>) {
    && Sorted(NameLess, paths)
    && (forall e :: e in paths ==> e.number in files && e.name == SegmentName(e.number))
    && (forall n :: n in files && n <= MAX_INT ==> DirEntry(SegmentName(n), n) in paths)
    && (forall i, j :: 0 <= i < j < |paths| ==> paths[i] != paths[j])
  }

  ghost function ReplayListed(files: Files, paths: seq<DirEntry>): Replayed
    requires IsListing(files, paths)
  {
    ReplayFiles(files, Numbers(paths))
  }

  lemma NameOrder()
    ensures WeakOrder(NameLess)
  {
    forall a: DirEntry, b: DirEntry | NameLess(a, b) ensures !NameLess(b, a) {
      LexTotal(a.name, b.name);
    }
    forall a: DirEntry, b: DirEntry, c: DirEntry | NameLess(a, b) && !NameLess(c, b) ensures NameLess(a, c) {
      LexTotal(b.name, c.name);
      if LexLess(b.name, c.name) {
        LexTransitive(a.name, b.name, c.name);
      }
    }
  }

  lemma ListingAscends(files: Files, entries: seq<DirEntry>, hi: nat)
    requires WriteOrder(files) && (forall n :: n in files ==> n < hi)
    requires IsListing(files, entries)
    ensures Numbers(entries) == SegmentNumbers(files, hi)
    ensures ReplayListed(files, entries) == ReplayFiles(files, SegmentNumbers(files, hi))
  {
    var ns := Numbers(entries);
    forall i, j | 0 <= i < j < |ns| ensures ns[i] < ns[j] {
      assert entries[i] in entries && entries[j] in entries;
      SameWidthOrder(ns[j], ns[i]);
    }
    forall n | n in files ensures n in ns {
      var e := DirEntry(SegmentName(n), n);
      var i :| 0 <= i < |entries| && entries[i] == e;
      assert ns[i] == n;
    }
    forall n | n in ns ensures n in files {
      var i :| 0 <= i < |ns| && ns[i] == n;
      assert entries[i] in entries;
    }
    AscendingUnique(files, ns, hi);
  }

  ghost predicate Ascending(ns: seq<nat>) {
    forall i, j :: 0 <= i < j < |ns| ==> ns[i] < ns[j]
  }

  ghost predicate ListsBelow(files: Files, hi: nat, ns: seq<nat>) {
    forall n :: n in ns <==> n in files && n < hi
  }

  /** Dropping the last of an ascending listing drops the greatest number. */
  lemma DropGreatest(files: Files, ns: seq<nat>, g: nat)
    requires Ascending(ns) && ListsBelow(files, g + 1, ns) && g in files
    ensures ns != [] && ns == ns[..|ns| - 1] + [g] && Ascending(ns[..|ns| - 1]) && ListsBelow(files, g, ns[..|ns| - 1])
  {
    var k := |ns| - 1;
    var i :| 0 <= i < |ns| && ns[i] == g;
    assert ns[k] in ns && i == k;
    assert ns == ns[..k] + [ns[k]];
  }

  lemma ListsFewer(files: Files, hi: nat, ns: seq<nat>)
    requires ListsBelow(files, hi, ns)
    ensures hi == 0 ==> ns == []
    ensures hi > 0 && hi - 1 !in files ==> ListsBelow(files, hi - 1, ns)
  {
    HasElement(ns);
  }

  lemma HasElement<T>(xs: seq<T>)
    ensures xs == [] || exists x :: x in xs
  {
    if xs != [] {
      assert xs[0] in xs;
    }
  }

  lemma {:induction false} AscendingUnique(files: Files, ns: seq<nat>, hi: nat)
    requires Ascending(ns) && ListsBelow(files, hi, ns)
    ensures ns == SegmentNumbers(files, hi)
  {
    hide Ascending, ListsBelow;
    ListsFewer(files, hi, ns);
    if hi > 0 {
      if hi - 1 in files {
        DropGreatest(files, ns, hi - 1);
        AscendingUnique(files, ns[..|ns| - 1], hi - 1);
      } else {
        AscendingUnique(files, ns, hi - 1);
      }
    }
  }
}
