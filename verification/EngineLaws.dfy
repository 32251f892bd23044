/** Every step of the engine keeps its invariant. */
module EngineLaws {
  import opened Types
  import opened Codec
  import opened Wal
  import opened WalLaws
  import opened Heads
  import opened Blocks
  import opened Disks
  import opened Engine

  // ----- points of logs, directories and heads -----

  /** The same records in another form of the open segment. */
  lemma SameWalPoints(files: Files, c: nat, content: Bytes)
    requires c in files && Replay(content).records == Replay(files[c]).records
    ensures WalPoints(files[c := content]) == WalPoints(files)
    ensures LogRecords(files[c := content], c + 1) == LogRecords(files, c + 1)
  {
    hide Replay;
    var all := files[c := content];
    forall r ensures r in WalPoints(all) <==> r in WalPoints(files) {
      if n :| n in files && r in Replay(files[n]).records {
        assert n in all && r in Replay(all[n]).records;
      }
      if n :| n in all && r in Replay(all[n]).records {
        assert n in files && r in Replay(files[n]).records;
      }
    }
    SameBelow(all, files, c);
  }

  lemma TornContent(bs: Bytes, next: Record, cut: nat)
    requires Clean(bs) && Fits(next) && cut < |Encode(next)|
    ensures Replay(bs + Encode(next)[..cut])
            == Replayed(Replay(bs).records, if cut == 0 || cut == 4 then Finished else Failed)
  {
    hide Encode, EncodeAll;
    var rs := Replay(bs).records;
    ReplayWhole([], rs, Encode(next)[..cut]);
    assert [] + rs == rs;
    TornRecord(rs, next, cut);
  }

  /** A torn record adds no points to the log. */
  lemma TornPoints(log: LogState, next: Record, cut: nat)
    requires CleanTail(log) && Fits(next) && cut < |Encode(next)|
    ensures var torn := TornLog(log, next, cut);
            && torn.current == log.current && torn.files - {log.current} == log.files - {log.current}
            && torn.files.Keys == log.files.Keys
            && WalPoints(torn.files) == WalPoints(log.files) && Logged(torn) == Logged(log)
  {
    hide Replay, Encode, Clean, WalPoints, LogRecords;
    var c := log.current;
    TornContent(log.files[c], next, cut);
    SameWalPoints(log.files, c, log.files[c] + Encode(next)[..cut]);
  }

  lemma WrittenPoints(log: LogState, r: Record)
    requires CleanTail(log) && AllFinish(log.files) && Fits(r)
    ensures CleanTail(WriteRecord(log, r)) && AllFinish(WriteRecord(log, r).files)
    ensures WalPoints(WriteRecord(log, r).files) == WalPoints(log.files) + {r}
  {
    hide Replay, Encode, Clean;
    var c := log.current;
    CleanAppend(log.files[c], r);
    var files' := WriteRecord(log, r).files;
    var before := Replay(log.files[c]).records;
    assert Replay(files'[c]).records == before + [r];
    assert forall p :: p in before + [r] <==> p in before || p == r;
    forall p ensures p in WalPoints(files') <==> p in WalPoints(log.files) + {r} {
      if p in WalPoints(log.files) {
        var n :| n in log.files && p in Replay(log.files[n]).records;
        assert n in files' && p in Replay(files'[n]).records;
      }
      if p == r {
        assert c in files' && p in Replay(files'[c]).records;
      }
      if p in WalPoints(files') {
        var n :| n in files' && p in Replay(files'[n]).records;
        assert n in log.files && (p == r || p in Replay(log.files[n]).records);
      }
    }
  }

  /** Whole records everywhere, tail included. */
  lemma CleanLog(log: LogState)
    requires log.current in log.files
    ensures AllClean(log.files) <==> AllClean(log.files - {log.current}) && CleanTail(log)
    ensures AllClean(log.files) ==> AllFinish(log.files)
  {
    hide Replay;
    if AllClean(log.files - {log.current}) && CleanTail(log) {
      forall n | n in log.files ensures Clean(log.files[n]) {
        assert n != log.current ==> n in log.files - {log.current};
      }
    }
  }

  lemma RemovedSegment(log: LogState, n: nat)
    requires AllClean(log.files - {log.current}) && GoodLog(log) && AllFinish(log.files) && n < log.current
    ensures var left := log.(files := log.files - {n});
            AllClean(left.files - {left.current}) && GoodLog(left) && AllFinish(left.files)
  {
    hide Replay, Clean;
    var left := log.files - {n};
    forall m | m in left - {log.current} ensures Clean(left[m]) {
      assert m in log.files - {log.current};
    }
  }

  /** The segment that a process opens is the newest one. */
  lemma ReopenedRest(log: LogState, n: nat)
    requires LatestSegment(log.files, n) && (log.files != map[] ==> GoodLog(log))
    ensures Reopened(log.files, n).files - {n} == log.files - {log.current}
    ensures log.files != map[] ==> n == log.current
  {
  }

  lemma RotatedPoints(log: LogState)
    requires AllFinish(log.files) && forall n :: n in log.files ==> n <= log.current
    ensures CleanTail(Rotate(log)) && AllFinish(Rotate(log).files)
    ensures WalPoints(Rotate(log).files) == WalPoints(log.files)
  {
    hide Replay, Clean;
    CleanEmpty();
    var files' := Rotate(log).files;
    forall p ensures p in WalPoints(files') <==> p in WalPoints(log.files) {
      if p in WalPoints(log.files) {
        var n, q :| n in log.files && q in Replay(log.files[n]).records && q == p;
        assert n in files' && q in Replay(files'[n]).records;
      }
      if p in WalPoints(files') {
        var n, q :| n in files' && q in Replay(files'[n]).records && q == p;
        assert n in log.files && q in Replay(log.files[n]).records;
      }
    }
  }

  lemma ReopenedPoints(files: Files, n: nat)
    requires AllFinish(files) && LatestSegment(files, n)
    ensures AllFinish(Reopened(files, n).files) && GoodLog(Reopened(files, n))
    ensures WalPoints(Reopened(files, n).files) == WalPoints(files)
    ensures LogRecords(Reopened(files, n).files, n + 1) == LogRecords(files, n + 1)
  {
    hide Replay, Clean;
    CleanEmpty();
    var files' := Reopened(files, n).files;
    if n in files {
      assert files' == files;
    } else {
      assert files == map[];
      NoRecords(files, n);
      NoRecords(files', n);
      assert WalPoints(files') == {} == WalPoints(files);
    }
  }

  lemma {:induction false} NoRecords(files: Files, hi: nat)
    requires forall n :: n in files ==> Replay(files[n]).records == []
    ensures LogRecords(files, hi + 1) == []
  {
    hide Replay;
    if hi == 0 {
      assert LogRecords(files, 0) == [];
    } else {
      NoRecords(files, hi - 1);
    }
  }

  lemma {:induction false} LoggedPoints(files: Files, hi: nat, r: Record)
    ensures r in LogRecords(files, hi) <==> exists n :: n in files && n < hi && r in Replay(files[n]).records
  {
    hide Replay;
    if hi > 0 {
      LoggedPoints(files, hi - 1, r);
      if hi - 1 in files {
        assert r in LogRecords(files, hi) <==> r in LogRecords(files, hi - 1) || r in Replay(files[hi - 1]).records;
      } else {
        assert LogRecords(files, hi) == LogRecords(files, hi - 1);
      }
    }
  }

  lemma ReplayedPoints(files: Files, n: nat)
    requires forall m :: m in files ==> m <= n
    ensures RecordSet(LogRecords(files, n + 1)) == WalPoints(files)
  {
    hide Replay, LogRecords;
    forall r ensures r in RecordSet(LogRecords(files, n + 1)) <==> r in WalPoints(files) {
      LoggedPoints(files, n + 1, r);
    }
  }

  lemma {:induction false} AppendedPoints(h: Head, rs: seq<Record>)
    ensures HeadPoints(AppendAll(h, rs)) == HeadPoints(h) + RecordSet(rs)
  {
    if rs != [] {
      var k := |rs| - 1;
      AppendedPoints(h, rs[..k]);
      AppendedPoint(AppendAll(h, rs[..k]), rs[k]);
      assert RecordSet(rs) == RecordSet(rs[..k]) + {rs[k]} by {
        assert rs == rs[..k] + [rs[k]];
      }
    }
  }

  lemma AppendedPoint(h: Head, r: Record)
    ensures HeadPoints(AppendOne(h, r)) == HeadPoints(h) + {r}
  {
    var h' := AppendOne(h, r);
    var s := Sample(r.t, r.v);
    assert h'[r.labels] == SamplesAt(h, r.labels) + [s];
    forall p ensures p in HeadPoints(h') <==> p in HeadPoints(h) + {r} {
      var x := Sample(p.t, p.v);
      assert p == PointOf(p.labels, x);
      HeadPoint(h, p);
      HeadPoint(h', p);
      assert x in SamplesAt(h, r.labels) + [s] <==> x in SamplesAt(h, r.labels) || x == s;
    }
  }

  lemma NoHeadPoints()
    ensures HeadPoints(map[]) == {}
  {
  }

  lemma HeadPoint(h: Head, p: Record)
    ensures p in HeadPoints(h) <==> p.labels in h && Sample(p.t, p.v) in h[p.labels]
  {
    if p.labels in h && Sample(p.t, p.v) in h[p.labels] {
      assert p == PointOf(p.labels, Sample(p.t, p.v));
    }
  }

  lemma HeadBlockPoints(b: Block, h: Head)
    requires IsHeadBlock(b, h)
    ensures SeriesPoints(b.series) == HeadPoints(h)
  {
    hide SeriesPoints, HeadPoints;
    forall p ensures p in SeriesPoints(b.series) <==> p in HeadPoints(h) {
      PointInSeries(b.series, p);
      HeadPoint(h, p);
      if p in HeadPoints(h) {
        assert Series(p.labels, h[p.labels]) in b.series;
      }
    }
  }

  lemma DirPoint(dirs: Dirs, p: Record)
    ensures p in DirPoints(dirs) <==> exists d :: IsWhole(d, dirs) && p in SeriesPoints(BlockAt(d, dirs).series)
  {
    hide SeriesPoints;
    if d :| IsWhole(d, dirs) && p in SeriesPoints(BlockAt(d, dirs).series) {
      assert d in dirs;
    }
  }

  /** The points of the directories are those of one of them and those of the others. */
  lemma SplitPoints(dirs: Dirs, d: DirName)
    ensures DirPoints(dirs) == DirPoints(dirs - {d}) + OwnPoints(d, dirs)
  {
    hide SeriesPoints, DirPoints;
    forall p ensures p in DirPoints(dirs) <==> p in DirPoints(dirs - {d}) + OwnPoints(d, dirs) {
      DirPoint(dirs, p);
      DirPoint(dirs - {d}, p);
      if p in DirPoints(dirs) {
        var e :| IsWhole(e, dirs) && p in SeriesPoints(BlockAt(e, dirs).series);
        assert e != d ==> IsWhole(e, dirs - {d}) && BlockAt(e, dirs - {d}) == BlockAt(e, dirs);
      }
      if p in DirPoints(dirs - {d}) {
        var e :| IsWhole(e, dirs - {d}) && p in SeriesPoints(BlockAt(e, dirs - {d}).series);
        assert IsWhole(e, dirs) && BlockAt(e, dirs - {d}) == BlockAt(e, dirs);
      }
    }
  }

  lemma PutPoints(dirs: Dirs, d: DirName, c: BlockDir)
    ensures DirPoints(dirs[d := c]) == DirPoints(dirs - {d}) + OwnPoints(d, dirs[d := c])
  {
    hide SeriesPoints, DirPoints, OwnPoints;
    SplitPoints(dirs[d := c], d);
    assert dirs[d := c] - {d} == dirs - {d};
  }

  lemma RemovedPoints(dirs: Dirs, d: DirName, left: Remnant)
    ensures DirPoints(Removed(dirs, d, left)) == DirPoints(dirs - {d})
    ensures DirPoints(dirs - {d}) <= DirPoints(dirs)
    ensures !IsWhole(d, Removed(dirs, d, left))
    ensures forall e :: e != d ==> (IsWhole(e, Removed(dirs, d, left)) <==> IsWhole(e, dirs))
    ensures forall e :: e != d && IsWhole(e, dirs) ==> BlockAt(e, Removed(dirs, d, left)) == BlockAt(e, dirs)
  {
    hide SeriesPoints, DirPoints;
    var dirs' := Removed(dirs, d, left);
    assert dirs' - {d} == dirs - {d};
    SplitPoints(dirs', d);
    SplitPoints(dirs, d);
  }

  lemma ListedPoints(open: seq<Block>, dirs: Dirs)
    requires Listed(open, dirs)
    ensures DirPoints(dirs) == BlocksPoints(open)
  {
    hide SeriesPoints, DirPoints;
    forall p ensures p in DirPoints(dirs) <==> p in BlocksPoints(open) {
      DirPoint(dirs, p);
      if p in BlocksPoints(open) {
        var b :| b in open && p in SeriesPoints(b.series);
        assert Stands(b, dirs);
      }
    }
  }

  lemma OpenedIsListed(open: seq<Block>, dirs: Dirs)
    requires OpenedFrom(open, dirs)
    ensures Listed(open, dirs)
  {
    hide SeriesPoints;
    forall b | b in open ensures Stands(b, dirs) {
      assert Backed(b, dirs);
    }
  }

  /** A block that stands in another directory does not need this one. */
  lemma StandsElsewhere(b: Block, dirs: Dirs, d: DirName)
    requires Stands(b, dirs) && b.dir != d
    ensures SeriesPoints(b.series) <= DirPoints(dirs - {d})
  {
    hide SeriesPoints, DirPoints;
    var rest := dirs - {d};
    assert IsWhole(b.dir, rest) && BlockAt(b.dir, rest) == BlockAt(b.dir, dirs);
    forall p | p in SeriesPoints(b.series) ensures p in DirPoints(rest) {
      DirPoint(rest, p);
    }
  }

  lemma BlocksPointsSnoc(open: seq<Block>, b: Block)
    ensures BlocksPoints(open + [b]) == BlocksPoints(open) + SeriesPoints(b.series)
  {
    hide SeriesPoints;
    forall p ensures p in BlocksPoints(open + [b]) <==> p in BlocksPoints(open) + SeriesPoints(b.series) {
      if p in BlocksPoints(open) {
        var x :| x in open && p in SeriesPoints(x.series);
        assert x in open + [b];
      }
      assert (open + [b])[|open|] == b;
    }
  }

  // ----- safety of sets -----

  lemma SafeBoth(have: set<Record>, due: set<Record>, more: set<Record>, horizon: Int64, exact: bool)
    requires Safe(have, due, horizon, exact)
    ensures Safe(have + more, due + more, horizon, exact)
  {
    forall p | p in due + more && p.t >= horizon ensures HasKey(have + more, p) {
      if p in due {
        var q :| q in have && q.labels == p.labels && q.t == p.t;
        assert q in have + more;
      }
    }
  }

  /** Adding points that are due, or replacing a set by one that still covers its keys, stays safe. */
  lemma SafeReplace(have: set<Record>, have': set<Record>, due: set<Record>, horizon: Int64)
    requires Safe(have, due, horizon, false)
    requires have' <= due && forall p :: p in have && p.t >= horizon ==> HasKey(have', p)
    ensures Safe(have', due, horizon, false)
  {
    forall p | p in due && p.t >= horizon ensures HasKey(have', p) {
      var q :| q in have && q.labels == p.labels && q.t == p.t;
      assert HasKey(have', q);
      var r :| r in have' && r.labels == q.labels && r.t == q.t;
    }
  }

  lemma SafeMore(have: set<Record>, have': set<Record>, due: set<Record>, horizon: Int64, exact: bool)
    requires Safe(have, due, horizon, exact) && have <= have' <= due
    ensures Safe(have', due, horizon, exact)
  {
    forall p | p in due && p.t >= horizon ensures HasKey(have', p) {
      var q :| q in have && q.labels == p.labels && q.t == p.t;
      assert q in have';
    }
  }
}
