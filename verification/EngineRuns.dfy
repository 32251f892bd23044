/** Whole calls of the log as runs of the engine, and the disk states that a run passes through. */
module EngineRuns {
  import opened Types
  import opened Codec
  import opened Wal
  import opened Blocks
  import opened Disks
  import opened Engine

  lemma Extend(hash: Labels -> nat, s: State, es: seq<Action>, e: Action)
    requires Legal(hash, s, es) && Enabled(hash, Run(s, es), e)
    ensures Legal(hash, s, es + [e]) && Run(s, es + [e]) == Apply(Run(s, es), e)
  {
    hide Enabled, Apply;
    assert (es + [e])[..|es|] == es;
  }

  lemma {:induction false} Append(hash: Labels -> nat, s: State, a: seq<Action>, b: seq<Action>)
    requires Legal(hash, s, a) && Legal(hash, Run(s, a), b)
    ensures Legal(hash, s, a + b) && Run(s, a + b) == Run(Run(s, a), b)
  {
    hide Enabled, Apply;
    if b == [] {
      assert a + b == a;
    } else {
      var k := |b| - 1;
      Append(hash, s, a, b[..k]);
      assert (a + b)[..|a + b| - 1] == a + b[..k];
    }
  }

  lemma {:induction false} RunAppend(s: State, a: seq<Action>, b: seq<Action>)
    ensures Run(s, a + b) == Run(Run(s, a), b)
  {
    hide Apply;
    if b == [] {
      assert a + b == a;
    } else {
      RunAppend(s, a, b[..|b| - 1]);
      assert (a + b)[..|a + b| - 1] == a + b[..|b| - 1];
    }
  }

  // ----- the disk during a run -----

  ghost function DiskOf(s: State): Snapshot {
    Snapshot(s.log.files, s.dirs)
  }

  /** Each of these disk states is that of the run at some point, before, between or after its events. */
  ghost predicate Passes(s: State, es: seq<Action>, moments: seq<Snapshot>) {
    forall d :: d in moments ==> exists k :: 0 <= k <= |es| && DiskOf(Run(s, es[..k])) == d
  }

  lemma PassesNothing(s: State, es: seq<Action>)
    ensures Passes(s, es, [])
  {
  }

  lemma PassesAppend(hash: Labels -> nat, s: State, a: seq<Action>, b: seq<Action>, x: seq<Snapshot>, y: seq<Snapshot>)
    requires Legal(hash, s, a) && Legal(hash, Run(s, a), b)
    requires Passes(s, a, x) && Passes(Run(s, a), b, y)
    ensures Passes(s, a + b, x + y)
  {
    hide Legal, Run, DiskOf;
    forall d | d in x + y ensures exists k :: 0 <= k <= |a + b| && DiskOf(Run(s, (a + b)[..k])) == d {
      if d in x {
        var k :| 0 <= k <= |a| && DiskOf(Run(s, a[..k])) == d;
        assert (a + b)[..k] == a[..k];
      } else {
        var k :| 0 <= k <= |b| && DiskOf(Run(Run(s, a), b[..k])) == d;
        LegalPrefix(hash, Run(s, a), b, k);
        Append(hash, s, a, b[..k]);
        assert (a + b)[..|a| + k] == a + b[..k];
      }
    }
  }

  lemma {:induction false} LegalPrefix(hash: Labels -> nat, s: State, es: seq<Action>, k: nat)
    requires Legal(hash, s, es) && k <= |es|
    ensures Legal(hash, s, es[..k])
    decreases |es|
  {
    hide Enabled, Run;
    if k < |es| {
      LegalPrefix(hash, s, es[..|es| - 1], k);
      assert es[..|es| - 1][..k] == es[..k];
    } else {
      assert es[..k] == es;
    }
  }

  /** One more event, after which the disk may be looked at. */
  lemma PassesStep(s: State, es: seq<Action>, e: Action, moments: seq<Snapshot>)
    requires Passes(s, es, moments)
    ensures Passes(s, es + [e], moments)
    ensures Passes(s, es + [e], moments + [DiskOf(Run(s, es + [e]))])
  {
    hide Run, DiskOf;
    var all := es + [e];
    assert all[..|all|] == all;
    forall d | d in moments ensures exists k :: 0 <= k <= |all| && DiskOf(Run(s, all[..k])) == d {
      var k :| 0 <= k <= |es| && DiskOf(Run(s, es[..k])) == d;
      assert all[..k] == es[..k];
    }
  }

  /** One more event whose effect is known, with the disk state after it. */
  lemma StepTo(hash: Labels -> nat, s: State, es: seq<Action>, e: Action, t: State, moments: seq<Snapshot>)
    requires Legal(hash, s, es) && Enabled(hash, Run(s, es), e) && Apply(Run(s, es), e) == t && Passes(s, es, moments)
    ensures Legal(hash, s, es + [e]) && Run(s, es + [e]) == t
    ensures Passes(s, es + [e], moments) && Passes(s, es + [e], moments + [DiskOf(t)])
  {
    hide Legal, Run, Enabled, Apply, Passes;
    Extend(hash, s, es, e);
    PassesStep(s, es, e, moments);
  }

  lemma FirstStep(hash: Labels -> nat, s: State, e: Action, t: State)
    requires Enabled(hash, s, e) && Apply(s, e) == t
    ensures Legal(hash, s, [e]) && Run(s, [e]) == t && Passes(s, [e], []) && Passes(s, [e], [DiskOf(t)])
  {
    hide Legal, Run, Enabled, Apply, Passes;
    NoEvents(hash, s);
    PassesNothing(s, []);
    StepTo(hash, s, [], e, t, []);
    assert [] + [e] == [e] && [] + [DiskOf(t)] == [DiskOf(t)];
  }

  /** The steps of Log: each record is written, and the segment rotated when that has filled it. */
  ghost function WriteEvents(log: LogState, max: int, rs: seq<Record>): seq<Action> {
    if rs == [] then []
    else
      var k := |rs| - 1;
      WriteEvents(log, max, rs[..k]) + [WriteNext]
      + if WriteRecord(LogAll(log, max, rs[..k]), rs[k]).size >= max then [RotateNow] else []
  }

  lemma NoEvents(hash: Labels -> nat, s: State)
    ensures Legal(hash, s, []) && Run(s, []) == s
  {
  }

  lemma WriteOne(hash: Labels -> nat, s: State, max: int)
    requires s.phase.Logging? && s.phase.written < |s.phase.batch|
    ensures var r := s.phase.batch[s.phase.written];
            var es := [WriteNext] + if WriteRecord(s.log, r).size >= max then [RotateNow] else [];
            Legal(hash, s, es)
            && Run(s, es) == s.(log := LogOne(s.log, max, r), phase := Logging(s.phase.batch, s.phase.written + 1))
            && Passes(s, es, RecordHistory(s.log, s.dirs, max, r))
  {
    hide Legal, Run, WriteRecord, Rotate, AllFit, IsHeadBlock, IsMergeOf, OpenedFrom, LatestSegment, Passes;
    var r := s.phase.batch[s.phase.written];
    NoEvents(hash, s);
    Extend(hash, s, [], WriteNext);
    assert [] + [WriteNext] == [WriteNext];
    PassesNothing(s, []);
    PassesStep(s, [], WriteNext, []);
    var first := [Snapshot(WriteRecord(s.log, r).files, s.dirs)];
    assert [] + first == first;
    if WriteRecord(s.log, r).size >= max {
      Extend(hash, s, [WriteNext], RotateNow);
      PassesStep(s, [WriteNext], RotateNow, first);
    } else {
      assert first + [] == first;
      assert [WriteNext] + [] == [WriteNext];
    }
  }

  lemma NothingWritten(s: State, max: int, rs: seq<Record>)
    requires rs == []
    ensures LogAll(s.log, max, rs) == s.log && WriteEvents(s.log, max, rs) == []
            && LogHistory(s.log, s.dirs, max, rs) == []
  {
  }

  lemma WriteStep(s: State, max: int, batch: seq<Record>, k: nat)
    requires k < |batch|
    ensures var done := LogAll(s.log, max, batch[..k]);
            && LogAll(s.log, max, batch[..k + 1]) == LogOne(done, max, batch[k])
            && WriteEvents(s.log, max, batch[..k + 1])
               == WriteEvents(s.log, max, batch[..k])
                  + ([WriteNext] + if WriteRecord(done, batch[k]).size >= max then [RotateNow] else [])
            && LogHistory(s.log, s.dirs, max, batch[..k + 1])
               == LogHistory(s.log, s.dirs, max, batch[..k]) + RecordHistory(done, s.dirs, max, batch[k])
  {
    hide WriteRecord, LogOne, RecordHistory;
    assert batch[..k + 1][..k] == batch[..k];
  }

  lemma {:induction false} WriteRun(hash: Labels -> nat, s: State, max: int, k: nat)
    requires s.phase.Logging? && s.phase.written == 0 && k <= |s.phase.batch|
    ensures var rs := s.phase.batch[..k];
            var es := WriteEvents(s.log, max, rs);
            Legal(hash, s, es) && Run(s, es) == s.(log := LogAll(s.log, max, rs), phase := Logging(s.phase.batch, k))
            && Passes(s, es, LogHistory(s.log, s.dirs, max, rs))
  {
    hide WriteRecord, LogOne, Enabled, Apply, Passes, RecordHistory, Legal, Run, WriteEvents, LogAll, LogHistory;
    if k == 0 {
      NoEvents(hash, s);
      PassesNothing(s, []);
      NothingWritten(s, max, s.phase.batch[..0]);
    } else {
      var rs := s.phase.batch[..k - 1];
      WriteRun(hash, s, max, k - 1);
      var t := Run(s, WriteEvents(s.log, max, rs));
      var r := s.phase.batch[k - 1];
      WriteOne(hash, t, max);
      var es := [WriteNext] + if WriteRecord(t.log, r).size >= max then [RotateNow] else [];
      Append(hash, s, WriteEvents(s.log, max, rs), es);
      PassesAppend(hash, s, WriteEvents(s.log, max, rs), es, LogHistory(s.log, s.dirs, max, rs),
                   RecordHistory(t.log, s.dirs, max, r));
      WriteStep(s, max, s.phase.batch, k - 1);
    }
  }

  /** The steps of Truncate: older segments are removed, in some order. */
  ghost function RemoveEvents(order: seq<nat>): seq<Action> {
    if order == [] then [] else RemoveEvents(order[..|order| - 1]) + [RemoveSegment(order[|order| - 1])]
  }

  lemma RemovesSegment(hash: Labels -> nat, s: State, n: nat)
    requires s.phase.Truncating? && n < s.log.current
    ensures Enabled(hash, s, RemoveSegment(n))
    ensures Apply(s, RemoveSegment(n)) == s.(log := s.log.(files := s.log.files - {n}))
  {
  }

  lemma {:induction false} RemoveRun(hash: Labels -> nat, s: State, order: seq<nat>)
    requires s.phase.Truncating? && forall i :: 0 <= i < |order| ==> order[i] < s.log.current
    ensures Legal(hash, s, RemoveEvents(order))
    ensures Run(s, RemoveEvents(order)) == s.(log := s.log.(files := WithoutSegments(s.log.files, order)))
    ensures Passes(s, RemoveEvents(order), RemovalHistory(s.log.files, s.dirs, order))
  {
    hide Legal, Run, Enabled, Apply, Passes;
    if order == [] {
      NoEvents(hash, s);
      PassesNothing(s, []);
    } else {
      var k := |order| - 1;
      RemoveRun(hash, s, order[..k]);
      var before := RemoveEvents(order[..k]);
      RemovesSegment(hash, Run(s, before), order[k]);
      Extend(hash, s, before, RemoveSegment(order[k]));
      PassesStep(s, before, RemoveSegment(order[k]), RemovalHistory(s.log.files, s.dirs, order[..k]));
    }
  }

  // ----- removing directories -----

  lemma ThreeSteps(hash: Labels -> nat, s: State, d: DirName, dataFirst: bool, e1: Action, e2: Action, e3: Action)
    requires Enabled(hash, s, e1) && Apply(s, e1) == s.(dirs := Removed(s.dirs, d, FirstRemnant(dataFirst)))
    requires Enabled(hash, Apply(s, e1), e2) && Apply(Apply(s, e1), e2) == s.(dirs := Removed(s.dirs, d, NoFile))
    requires Enabled(hash, s.(dirs := Removed(s.dirs, d, NoFile)), e3)
    requires Apply(s.(dirs := Removed(s.dirs, d, NoFile)), e3) == s.(dirs := s.dirs - {d})
    ensures Legal(hash, s, [e1, e2, e3]) && Run(s, [e1, e2, e3]) == s.(dirs := s.dirs - {d})
    ensures Passes(s, [e1, e2, e3], RemoveHistory(s.log.files, s.dirs, d, dataFirst))
  {
    hide Legal, Run, Enabled, Apply, Passes;
    var m := RemoveHistory(s.log.files, s.dirs, d, dataFirst);
    FirstStep(hash, s, e1, Apply(s, e1));
    StepTo(hash, s, [e1], e2, s.(dirs := Removed(s.dirs, d, NoFile)), [m[0]]);
    assert [e1] + [e2] == [e1, e2] && [m[0]] + [m[1]] == [m[0], m[1]];
    StepTo(hash, s, [e1, e2], e3, s.(dirs := s.dirs - {d}), [m[0], m[1]]);
    assert [e1, e2] + [e3] == [e1, e2, e3] && [m[0], m[1]] + [m[2]] == m;
  }

  lemma RemovedTwice(dirs: Dirs, d: DirName, dataFirst: bool)
    ensures Removed(Removed(dirs, d, FirstRemnant(dataFirst)), d, NoFile) == Removed(dirs, d, NoFile)
    ensures Removed(Removed(dirs, d, NoFile), d, Gone) == dirs - {d}
  {
  }

  /** The steps that remove the directory of one source; it may be seen half removed. */
  ghost function SourceSteps(dataFirst: DirName -> bool, b: Block): seq<Action> {
    [RemoveSource(b, FirstRemnant(dataFirst(b.dir))), RemoveSource(b, NoFile), RemoveSource(b, Gone)]
  }

  /** The steps of the loop that removes the source directories. */
  ghost function SourceEvents(dataFirst: DirName -> bool, open: seq<Block>): seq<Action> {
    if open == [] then []
    else SourceEvents(dataFirst, open[..|open| - 1]) + SourceSteps(dataFirst, open[|open| - 1])
  }

  function WithoutSources(dirs: Dirs, open: seq<Block>): Dirs {
    if open == [] then dirs else WithoutSources(dirs, open[..|open| - 1]) - {open[|open| - 1].dir}
  }

  ghost function SourceHistory(dataFirst: DirName -> bool, files: Files, dirs: Dirs, open: seq<Block>): seq<Snapshot> {
    if open == [] then []
    else
      var k := |open| - 1;
      var d := open[k].dir;
      SourceHistory(dataFirst, files, dirs, open[..k])
      + RemoveHistory(files, WithoutSources(dirs, open[..k]), d, dataFirst(d))
  }

  lemma RemovesSource(hash: Labels -> nat, dataFirst: DirName -> bool, s: State, b: Block)
    requires s.upkeep.MergeDone? && b in s.open
    ensures var es := SourceSteps(dataFirst, b);
            && Legal(hash, s, es) && Run(s, es) == s.(dirs := s.dirs - {b.dir})
            && Passes(s, es, RemoveHistory(s.log.files, s.dirs, b.dir, dataFirst(b.dir)))
  {
    hide Legal, Run, Passes, Removed;
    RemovedTwice(s.dirs, b.dir, dataFirst(b.dir));
    ThreeSteps(hash, s, b.dir, dataFirst(b.dir), RemoveSource(b, FirstRemnant(dataFirst(b.dir))),
               RemoveSource(b, NoFile),
               RemoveSource(b, Gone));
  }

  lemma {:induction false} SourceRun(hash: Labels -> nat, dataFirst: DirName -> bool, s: State, k: nat)
    requires s.upkeep.MergeDone? && k <= |s.open|
    ensures var es := SourceEvents(dataFirst, s.open[..k]);
            && Legal(hash, s, es) && Run(s, es) == s.(dirs := WithoutSources(s.dirs, s.open[..k]))
            && Passes(s, es, SourceHistory(dataFirst, s.log.files, s.dirs, s.open[..k]))
  {
    hide Legal, Run, Enabled, Apply, Passes, RemoveHistory, SourceSteps;
    if k == 0 {
      NoEvents(hash, s);
      PassesNothing(s, []);
    } else {
      assert s.open[..k][..k - 1] == s.open[..k - 1];
      SourceRun(hash, dataFirst, s, k - 1);
      var before, b := SourceEvents(dataFirst, s.open[..k - 1]), s.open[k - 1];
      var t := Run(s, before);
      var es := SourceSteps(dataFirst, b);
      RemovesSource(hash, dataFirst, t, b);
      Append(hash, s, before, es);
      PassesAppend(hash, s, before, es, SourceHistory(dataFirst, s.log.files, s.dirs, s.open[..k - 1]),
                   RemoveHistory(t.log.files, t.dirs, b.dir, dataFirst(b.dir)));
    }
  }

  lemma {:induction false} WithoutSourcesIs(dirs: Dirs, open: seq<Block>)
    ensures WithoutSources(dirs, open) == dirs - (set b | b in open :: b.dir)
  {
    if open != [] {
      var k := |open| - 1;
      WithoutSourcesIs(dirs, open[..k]);
      assert open == open[..k] + [open[k]];
      assert (set b | b in open :: b.dir) == (set b | b in open[..k] :: b.dir) + {open[k].dir};
    }
  }

  ghost function DropSteps(dataFirst: DirName -> bool, b: Block): seq<Action> {
    [DropBlock(b, FirstRemnant(dataFirst(b.dir))), DropBlock(b, NoFile), DropBlock(b, Gone)]
  }

  /** The steps of the age pass: the directory of each expired block is removed. */
  ghost function DropEvents(dataFirst: DirName -> bool, open: seq<Block>, cutoff: Int64): seq<Action> {
    if open == [] then []
    else
      var b := open[|open| - 1];
      DropEvents(dataFirst, open[..|open| - 1], cutoff) + if b.meta.maxTime < cutoff then DropSteps(dataFirst, b)
          else []
  }

  function WithoutExpired(dirs: Dirs, open: seq<Block>, cutoff: Int64): Dirs {
    if open == [] then dirs
    else
      var b := open[|open| - 1];
      var rest := WithoutExpired(dirs, open[..|open| - 1], cutoff);
      if b.meta.maxTime < cutoff then rest - {b.dir} else rest
  }

  ghost function DropHistory(dataFirst: DirName -> bool, files: Files, dirs: Dirs, open: seq<Block>,
                             cutoff: Int64): seq<Snapshot> {
    if open == [] then []
    else
      var k := |open| - 1;
      var d := open[k].dir;
      DropHistory(dataFirst, files, dirs, open[..k], cutoff)
      + if open[k].meta.maxTime < cutoff
        then RemoveHistory(files, WithoutExpired(dirs, open[..k], cutoff), d, dataFirst(d)) else []
  }

  lemma Drops(hash: Labels -> nat, dataFirst: DirName -> bool, s: State, b: Block)
    requires s.upkeep.Retaining? && b in s.open && b.meta.maxTime < s.upkeep.cutoff
    ensures var es := DropSteps(dataFirst, b);
            && Legal(hash, s, es) && Run(s, es) == s.(dirs := s.dirs - {b.dir})
            && Passes(s, es, RemoveHistory(s.log.files, s.dirs, b.dir, dataFirst(b.dir)))
  {
    hide Legal, Run, Passes, Removed;
    RemovedTwice(s.dirs, b.dir, dataFirst(b.dir));
    ThreeSteps(hash, s, b.dir, dataFirst(b.dir), DropBlock(b, FirstRemnant(dataFirst(b.dir))), DropBlock(b, NoFile),
               DropBlock(b, Gone));
  }

  lemma NothingDropped(dataFirst: DirName -> bool, s: State, open: seq<Block>)
    requires open == [] && s.upkeep.Retaining?
    ensures DropEvents(dataFirst, open, s.upkeep.cutoff) == []
    ensures WithoutExpired(s.dirs, open, s.upkeep.cutoff) == s.dirs
    ensures DropHistory(dataFirst, s.log.files, s.dirs, open, s.upkeep.cutoff) == []
  {
  }

  lemma DropStep(dataFirst: DirName -> bool, files: Files, dirs: Dirs, open: seq<Block>, i: nat, cutoff: Int64)
    requires i < |open|
    ensures var expired := open[i].meta.maxTime < cutoff;
            var before := WithoutExpired(dirs, open[..i], cutoff);
            var d := open[i].dir;
            && (expired ==>
                  && DropEvents(dataFirst, open[..i + 1], cutoff)
                     == DropEvents(dataFirst, open[..i], cutoff) + DropSteps(dataFirst, open[i])
                  && WithoutExpired(dirs, open[..i + 1], cutoff) == before - {d}
                  && DropHistory(dataFirst, files, dirs, open[..i + 1], cutoff)
                     == DropHistory(dataFirst, files, dirs, open[..i], cutoff)
                       + RemoveHistory(files, before, d, dataFirst(d)))
            && (!expired ==>
                  && DropEvents(dataFirst, open[..i + 1], cutoff) == DropEvents(dataFirst, open[..i], cutoff)
                  && WithoutExpired(dirs, open[..i + 1], cutoff) == before
                  && DropHistory(dataFirst, files, dirs, open[..i + 1], cutoff)
                     == DropHistory(dataFirst, files, dirs, open[..i], cutoff))
  {
    hide RemoveHistory, DropSteps;
    assert open[..i + 1][..i] == open[..i];
  }

  lemma {:induction false} DropRun(hash: Labels -> nat, dataFirst: DirName -> bool, s: State, k: nat)
    requires s.upkeep.Retaining? && k <= |s.open|
    ensures var cutoff := s.upkeep.cutoff;
            var es := DropEvents(dataFirst, s.open[..k], cutoff);
            && Legal(hash, s, es) && Run(s, es) == s.(dirs := WithoutExpired(s.dirs, s.open[..k], cutoff))
            && Passes(s, es, DropHistory(dataFirst, s.log.files, s.dirs, s.open[..k], cutoff))
  {
    hide Legal, Run, Enabled, Apply, DropEvents, WithoutExpired, DropHistory, Passes, RemoveHistory, DropSteps;
    var cutoff := s.upkeep.cutoff;
    if k == 0 {
      NoEvents(hash, s);
      PassesNothing(s, []);
      NothingDropped(dataFirst, s, s.open[..0]);
    } else {
      DropStep(dataFirst, s.log.files, s.dirs, s.open, k - 1, cutoff);
      DropRun(hash, dataFirst, s, k - 1);
      var before, b := DropEvents(dataFirst, s.open[..k - 1], cutoff), s.open[k - 1];
      if b.meta.maxTime < cutoff {
        var t := Run(s, before);
        var es := DropSteps(dataFirst, b);
        Drops(hash, dataFirst, t, b);
        Append(hash, s, before, es);
        PassesAppend(hash, s, before, es, DropHistory(dataFirst, s.log.files, s.dirs, s.open[..k - 1], cutoff),
                     RemoveHistory(t.log.files, t.dirs, b.dir, dataFirst(b.dir)));
      }
    }
  }

  lemma {:induction false} ExpiredAreGone(dirs: Dirs, open: seq<Block>, cutoff: Int64)
    ensures forall b :: b in open && b.meta.maxTime < cutoff ==> b.dir !in WithoutExpired(dirs, open, cutoff)
    ensures WithoutExpired(dirs, open, cutoff).Keys <= dirs.Keys
  {
    if open != [] {
      var k := |open| - 1;
      ExpiredAreGone(dirs, open[..k], cutoff);
      assert open == open[..k] + [open[k]];
    }
  }
}
