/** What the log keeps: order, segmentation, truncation, reopening, torn tails, and all of it over whole runs. */
module WalLaws {
  import opened Types
  import opened Codec
  import opened Disks
  import opened Wal

  /** A segment that is a whole number of records, each within the widths of the format. */
  ghost predicate Clean(bs: Bytes) {
    var r := Replay(bs);
    r.end == Finished && AllFit(r.records) && EncodeAll(r.records) == bs
  }

  ghost predicate AllClean(files: Files) {
    forall n :: n in files ==> Clean(files[n])
  }

  /** The records of the segments below `hi`, in sequence order. */
  function LogRecords(files: Files, hi: nat): seq<Record> {
    if hi == 0 then []
    else LogRecords(files, hi - 1) + if hi - 1 in files then Replay(files[hi - 1]).records else []
  }

  /** Every record of the log, oldest first. */
  function Logged(s: LogState): seq<Record> {
    LogRecords(s.files, s.current + 1)
  }

  /** A closed segment reached the limit with its last record and not before. */
  ghost predicate Full(bs: Bytes, max: int) {
    var rs := Replay(bs).records;
    rs != [] && |EncodeAll(rs[..|rs| - 1])| < max <= |bs|
  }

  /** The state that logging, rotating, truncating and reopening keep. */
  ghost predicate Segmented(s: LogState, max: int) {
    && AllClean(s.files)
    && s.current in s.files
    && (forall n :: n in s.files ==> n <= s.current)
    && s.size == |s.files[s.current]| < max
    && forall n :: n in s.files && n < s.current ==> Full(s.files[n], max)
  }

  lemma CleanIsEncoding(rs: seq<Record>)
    requires AllFit(rs)
    ensures Clean(EncodeAll(rs)) && Replay(EncodeAll(rs)).records == rs
  {
    ReplayAll(rs);
  }

  lemma CleanAppend(bs: Bytes, r: Record)
    requires Clean(bs) && Fits(r)
    ensures Clean(bs + Encode(r)) && Replay(bs + Encode(r)).records == Replay(bs).records + [r]
  {
    var rs := Replay(bs).records;
    ConcatSnoc(Encode, rs, r);
    CleanIsEncoding(rs + [r]);
  }

  lemma CleanEmpty()
    ensures Clean([]) && Replay([]).records == []
  {
    CleanIsEncoding([]);
  }

  lemma {:induction false} SameBelow(f: Files, g: Files, hi: nat)
    requires forall n :: n < hi ==> (n in f <==> n in g) && (n in f ==> f[n] == g[n])
    ensures LogRecords(f, hi) == LogRecords(g, hi)
  {
    if hi > 0 {
      SameBelow(f, g, hi - 1);
    }
  }

  lemma WriteAppends(s: LogState, r: Record)
    requires AllClean(s.files) && s.current in s.files && Fits(r)
    ensures AllClean(WriteRecord(s, r).files)
    ensures Logged(WriteRecord(s, r)) == Logged(s) + [r]
  {
    hide Replay, Encode, Clean;
    var w := WriteRecord(s, r);
    CleanAppend(s.files[s.current], r);
    SameBelow(s.files, w.files, s.current);
  }

  lemma RotateAddsNothing(s: LogState)
    requires AllClean(s.files) && s.current in s.files
    ensures AllClean(Rotate(s).files)
    ensures Logged(Rotate(s)) == Logged(s)
  {
    hide Replay, Clean;
    CleanEmpty();
    SameBelow(s.files, Rotate(s).files, s.current + 1);
  }

  /** One record goes to the end of the log, and the segment is closed exactly when it is full. */
  lemma LogOneAppends(s: LogState, max: int, r: Record)
    requires Segmented(s, max) && Fits(r)
    ensures Segmented(LogOne(s, max, r), max)
    ensures Logged(LogOne(s, max, r)) == Logged(s) + [r]
  {
    hide Replay, Encode, EncodeAll, Clean, Logged;
    var before := s.files[s.current];
    var w := WriteRecord(s, r);
    WriteAppends(s, r);
    if w.size >= max {
      RotateAddsNothing(w);
      WriteFills(before, r, max);
    }
  }

  lemma WriteFills(bs: Bytes, r: Record, max: int)
    requires Clean(bs) && Fits(r) && |bs| < max <= |bs + Encode(r)|
    ensures Full(bs + Encode(r), max)
  {
    hide Replay, Encode;
    CleanAppend(bs, r);
  }

  /** Logging appends the records in order and keeps the segmentation. */
  lemma {:induction false} LogAllAppends(s: LogState, max: int, rs: seq<Record>)
    requires Segmented(s, max) && AllFit(rs)
    ensures Segmented(LogAll(s, max, rs), max)
    ensures Logged(LogAll(s, max, rs)) == Logged(s) + rs
  {
    hide Segmented, LogOne, Logged;
    if rs != [] {
      var k := |rs| - 1;
      LogAllAppends(s, max, rs[..k]);
      LogOneAppends(LogAll(s, max, rs[..k]), max, rs[k]);
      assert rs == rs[..k] + [rs[k]];
    }
  }

  /** Truncation removes exactly the records of the segments below `k`. */
  lemma {:induction false} TruncateDropsPrefix(files: Files, k: nat, hi: nat)
    requires k <= hi
    ensures LogRecords(files, hi) == LogRecords(files, k) + LogRecords(Truncated(files, k), hi)
  {
    if k == hi {
      NothingBelow(Truncated(files, k), k);
    } else {
      TruncateDropsPrefix(files, k, hi - 1);
    }
  }

  lemma {:induction false} NothingBelow(files: Files, k: nat)
    requires forall n :: n in files ==> n >= k
    ensures LogRecords(files, k) == []
  {
    if k > 0 {
      NothingBelow(files, k - 1);
    }
  }

  lemma TruncateKeepsSegmented(s: LogState, max: int, k: nat)
    requires Segmented(s, max)
    ensures Segmented(s.(files := Truncated(s.files, k)), max) <==> k <= s.current
  {
  }

  /** Reopening a log that a process closed or left between two records changes nothing, rotated or not. */
  lemma ReopenIsIdentity(s: LogState, n: nat)
    requires s.current in s.files && (forall m :: m in s.files ==> m <= s.current) && s.size == |s.files[s.current]|
    requires LatestSegment(s.files, n)
    ensures Reopened(s.files, n) == s
  {
    assert s.files[s.current := s.files[s.current]] == s.files;
  }

  // ----- runs of the log -----

  /** What happens to a log: calls, and a process that dies when it has written `last` and not yet rotated. Every new
      process opens the newest segment. */
  datatype LogOp = LogCall(batch: seq<Record>) | TruncateBefore(k: nat) | Restart | DieAfter(batch: seq<Record>,
      last: Record)

  function LogStepOf(s: LogState, max: int, op: LogOp): LogState {
    match op
    case LogCall(batch) => LogAll(s, max, batch)
    case TruncateBefore(k) => s.(files := Truncated(s.files, k))
    case Restart => Reopened(s.files, s.current)
    case DieAfter(batch, last) =>
      var w := WriteRecord(LogAll(s, max, batch), last);
      Reopened(w.files, w.current)
  }

  /** A log from the first opening of an empty directory on. */
  function LogRun(max: int, ops: seq<LogOp>): LogState {
    if ops == [] then Reopened(map[], 0) else LogStepOf(LogRun(max, ops[..|ops| - 1]), max, ops[|ops| - 1])
  }

  /** Records fit the format, and the open segment is not truncated, as FlushHead has it. */
  ghost predicate LegalOps(max: int, ops: seq<LogOp>) {
    ops == [] ||
    (LegalOps(max, ops[..|ops| - 1])
     && match ops[|ops| - 1]
        case LogCall(batch) => AllFit(batch)
        case TruncateBefore(k) => k <= LogRun(max, ops[..|ops| - 1]).current
        case Restart => true
        case DieAfter(batch, last) => AllFit(batch) && Fits(last))
  }

  /** The records logged in a run, whether or not they were truncated later. */
  function LoggedIn(ops: seq<LogOp>): seq<Record> {
    if ops == [] then []
    else
      LoggedIn(ops[..|ops| - 1]) +
      match ops[|ops| - 1]
      case LogCall(batch) => batch
      case DieAfter(batch, last) => batch + [last]
      case _ => []
  }

  /** The length of the open segment, reckoned from the lengths of the records alone. */
  function SizeAfter(size: int, max: int, batch: seq<Record>): int {
    if batch == [] then size
    else
      var k := |batch| - 1;
      var grown := SizeAfter(size, max, batch[..k]) + |Encode(batch[k])|;
      if grown >= max then 0 else grown
  }

  function SizeAfterOps(max: int, ops: seq<LogOp>): int {
    if ops == [] then 0
    else
      var size := SizeAfterOps(max, ops[..|ops| - 1]);
      match ops[|ops| - 1]
      case LogCall(batch) => SizeAfter(size, max, batch)
      case DieAfter(batch, last) => SizeAfter(size, max, batch) + |Encode(last)|
      case _ => size
  }

  /** No process died between filling a segment and rotating it. */
  predicate DiedBelow(max: int, ops: seq<LogOp>) {
    ops == [] ||
    (DiedBelow(max, ops[..|ops| - 1])
     && (ops[|ops| - 1].DieAfter? ==> SizeAfterOps(max, ops) < max))
  }

  lemma {:induction false} SizeAfterIs(s: LogState, max: int, batch: seq<Record>)
    ensures LogAll(s, max, batch).size == SizeAfter(s.size, max, batch)
  {
    hide Encode;
    if batch != [] {
      SizeAfterIs(s, max, batch[..|batch| - 1]);
    }
  }

  lemma {:induction false} SizeAfterOpsIs(max: int, ops: seq<LogOp>)
    requires max > 0 && LegalOps(max, ops)
    ensures LogRun(max, ops).size == SizeAfterOps(max, ops)
  {
    hide Encode, LogAll, SizeAfter, Replay, Clean, AllClean, AllFit, Fits, Logged;
    LogOverRuns(max, ops);
    if ops != [] {
      var k := |ops| - 1;
      var s := LogRun(max, ops[..k]);
      SizeAfterOpsIs(max, ops[..k]);
      LogOverRuns(max, ops[..k]);
      match ops[k] {
        case LogCall(batch) => SizeAfterIs(s, max, batch);
        case DieAfter(batch, last) =>
          SizeAfterIs(s, max, batch);
          LogAllKeeps(s, max, batch);
        case _ =>
      }
    }
  }

  /** Logging a batch rotates the segment exactly when the encoded batch reaches the limit. */
  lemma {:induction false} StaysInSegmentIff(s: LogState, max: int, batch: seq<Record>)
    ensures LogAll(s, max, batch).current >= s.current
    ensures LogAll(s, max, batch).current == s.current <==> batch == [] || s.size + |EncodeAll(batch)| < max
    ensures batch == [] || s.size + |EncodeAll(batch)| < max
            ==> LogAll(s, max, batch).size == s.size + |EncodeAll(batch)|
  {
    hide Encode;
    if batch != [] {
      var k := |batch| - 1;
      assert batch == batch[..k] + [batch[k]];
      ConcatSnoc(Encode, batch[..k], batch[k]);
      StaysInSegmentIff(s, max, batch[..k]);
    }
  }

  /** What every run keeps: whole records in every segment, the newest segment open with its size known, and every
      closed segment at least as long as the limit. */
  ghost predicate Kept(s: LogState, max: int) {
    && AllClean(s.files)
    && s.current in s.files
    && (forall n :: n in s.files ==> n <= s.current)
    && s.size == |s.files[s.current]|
    && forall n :: n in s.files && n < s.current ==> |s.files[n]| >= max
  }

  /** The base: a log that NewWAL opens on an empty directory. */
  lemma EmptyIsSegmented(max: int)
    requires max > 0
    ensures Segmented(Reopened(map[], 0), max) && Kept(Reopened(map[], 0), max) && Logged(Reopened(map[], 0)) == []
  {
    hide Replay, Clean;
    CleanEmpty();
    assert LogRecords(map[0 := []], 0) == [];
    assert LogRecords(map[0 := []], 1) == [];
  }

  lemma WriteKeeps(s: LogState, max: int, r: Record)
    requires Kept(s, max) && Fits(r)
    ensures Kept(WriteRecord(s, r), max) && Logged(WriteRecord(s, r)) == Logged(s) + [r]
  {
    hide Replay, Clean, Encode, Logged, AllClean;
    WriteAppends(s, r);
  }

  lemma LogOneKeeps(s: LogState, max: int, r: Record)
    requires Kept(s, max) && Fits(r)
    ensures Kept(LogOne(s, max, r), max) && Logged(LogOne(s, max, r)) == Logged(s) + [r]
  {
    hide Replay, Clean, Encode, Logged;
    WriteKeeps(s, max, r);
    RotateAddsNothing(WriteRecord(s, r));
  }

  lemma {:induction false} LogAllKeeps(s: LogState, max: int, rs: seq<Record>)
    requires Kept(s, max) && AllFit(rs)
    ensures Kept(LogAll(s, max, rs), max) && Logged(LogAll(s, max, rs)) == Logged(s) + rs
  {
    hide Kept, LogOne, Logged;
    if rs != [] {
      var k := |rs| - 1;
      LogAllKeeps(s, max, rs[..k]);
      LogOneKeeps(LogAll(s, max, rs[..k]), max, rs[k]);
      assert rs == rs[..k] + [rs[k]];
    }
  }

  ghost predicate IsSuffix(part: seq<Record>, whole: seq<Record>) {
    exists k :: 0 <= k <= |whole| && part == whole[k..]
  }

  lemma SuffixGrows(part: seq<Record>, whole: seq<Record>, more: seq<Record>)
    requires IsSuffix(part, whole)
    ensures IsSuffix(part + more, whole + more)
  {
    var k :| 0 <= k <= |whole| && part == whole[k..];
    assert part + more == (whole + more)[k..];
  }

  lemma SuffixOfSuffix(front: seq<Record>, part: seq<Record>, whole: seq<Record>)
    requires IsSuffix(front + part, whole)
    ensures IsSuffix(part, whole)
  {
    var k :| 0 <= k <= |whole| && front + part == whole[k..];
    assert part == (front + part)[|front|..] == whole[k + |front|..];
  }

  lemma StepKept(s: LogState, max: int, op: LogOp)
    requires Kept(s, max)
    requires match op
             case LogCall(batch) => AllFit(batch)
             case TruncateBefore(k) => k <= s.current
             case Restart => true
             case DieAfter(batch, last) => AllFit(batch) && Fits(last)
    ensures Kept(LogStepOf(s, max, op), max)
    ensures match op
            case LogCall(batch) => Logged(LogStepOf(s, max, op)) == Logged(s) + batch
            case TruncateBefore(k) => Logged(s) == LogRecords(s.files, k) + Logged(LogStepOf(s, max, op))
            case Restart => LogStepOf(s, max, op) == s
            case DieAfter(batch, last) => Logged(LogStepOf(s, max, op)) == Logged(s) + (batch + [last])
  {
    hide Replay, Clean, LogAll, AllFit, WriteRecord, LogRecords;
    match op {
      case LogCall(batch) => LogAllKeeps(s, max, batch);
      case TruncateBefore(k) => TruncateDropsPrefix(s.files, k, s.current + 1);
      case Restart => ReopenIsIdentity(s, s.current);
      case DieAfter(batch, last) =>
        LogAllKeeps(s, max, batch);
        var t := LogAll(s, max, batch);
        WriteKeeps(t, max, last);
        ReopenIsIdentity(WriteRecord(t, last), WriteRecord(t, last).current);
        assert Logged(s) + batch + [last] == Logged(s) + (batch + [last]);
    }
  }

  /** Over every run of calls, truncations, restarts and deaths, what every run keeps holds, and the log is what was
      logged but for a truncated front; without truncation it is all that was logged. */
  lemma {:induction false} LogOverRuns(max: int, ops: seq<LogOp>)
    requires max > 0 && LegalOps(max, ops)
    ensures Kept(LogRun(max, ops), max) && IsSuffix(Logged(LogRun(max, ops)), LoggedIn(ops))
    ensures (forall op :: op in ops ==> !op.TruncateBefore?) ==> Logged(LogRun(max, ops)) == LoggedIn(ops)
  {
    hide Kept, LogStepOf, Logged, LogRecords, AllFit, Fits;
    if ops == [] {
      EmptyIsSegmented(max);
      assert LoggedIn(ops)[0..] == LoggedIn(ops);
    } else {
      var k := |ops| - 1;
      var s, op := LogRun(max, ops[..k]), ops[k];
      LogOverRuns(max, ops[..k]);
      StepKept(s, max, op);
      SuffixStep(s, max, op, LoggedIn(ops[..k]));
      assert forall o :: o in ops[..k] ==> o in ops;
      assert op in ops;
    }
  }

  lemma SuffixStep(s: LogState, max: int, op: LogOp, whole: seq<Record>)
    requires IsSuffix(Logged(s), whole)
    requires match op
             case LogCall(batch) => Logged(LogStepOf(s, max, op)) == Logged(s) + batch
             case TruncateBefore(k) => Logged(s) == LogRecords(s.files, k) + Logged(LogStepOf(s, max, op))
             case Restart => LogStepOf(s, max, op) == s
             case DieAfter(batch, last) => Logged(LogStepOf(s, max, op)) == Logged(s) + (batch + [last])
    ensures var more := match op
                        case LogCall(batch) => batch
                        case DieAfter(batch, last) => batch + [last]
                        case _ => [];
            IsSuffix(Logged(LogStepOf(s, max, op)), whole + more)
  {
    hide Logged, LogStepOf, LogRecords, IsSuffix;
    match op {
      case LogCall(batch) => SuffixGrows(Logged(s), whole, batch);
      case TruncateBefore(k) =>
        SuffixOfSuffix(LogRecords(s.files, k), Logged(LogStepOf(s, max, op)), whole);
        assert whole + [] == whole;
      case Restart => assert whole + [] == whole;
      case DieAfter(batch, last) => SuffixGrows(Logged(s), whole, batch + [last]);
    }
  }

  /** At every moment of a run. */
  ghost predicate EverSegmented(max: int, ops: seq<LogOp>) {
    forall i :: 0 <= i <= |ops| ==> Segmented(LogRun(max, ops[..i]), max)
  }

  lemma EverSegmentedStep(max: int, ops: seq<LogOp>)
    requires ops != []
    ensures var front := ops[..|ops| - 1];
            && (EverSegmented(max, ops) <==> EverSegmented(max, front) && Segmented(LogRun(max, ops), max))
            && (EverSegmented(max, front) ==> Segmented(LogRun(max, front), max))
  {
    hide Segmented, LogRun;
    var front := ops[..|ops| - 1];
    assert front[..|front|] == front && ops[..|ops|] == ops;
    assert forall i :: 0 <= i <= |front| ==> front[..i] == ops[..i];
  }

  /** The closed segments are moreover below the limit without their last record, and the open one is below it, at
      every moment of a run exactly when no process died between filling a segment and rotating it. */
  lemma {:induction false} SegmentsOverRuns(max: int, ops: seq<LogOp>)
    requires max > 0 && LegalOps(max, ops)
    ensures EverSegmented(max, ops) <==> DiedBelow(max, ops)
  {
    hide Segmented, LogRun, LegalOps, SizeAfterOps;
    if ops == [] {
      EmptyIsSegmented(max);
      EmptyRun(max);
    } else {
      LegalFront(max, ops);
      SegmentsOverRuns(max, ops[..|ops| - 1]);
      EverSegmentedStep(max, ops);
      if EverSegmented(max, ops[..|ops| - 1]) {
        SegmentStep(max, ops);
      }
    }
  }

  lemma EmptyRun(max: int)
    ensures LogRun(max, []) == Reopened(map[], 0)
  {
  }

  lemma LegalFront(max: int, ops: seq<LogOp>)
    requires ops != [] && LegalOps(max, ops)
    ensures LegalOps(max, ops[..|ops| - 1])
  {
  }

  lemma SegmentStep(max: int, ops: seq<LogOp>)
    requires max > 0 && ops != [] && LegalOps(max, ops) && Segmented(LogRun(max, ops[..|ops| - 1]), max)
    ensures Segmented(LogRun(max, ops), max) <==> (ops[|ops| - 1].DieAfter? ==> SizeAfterOps(max, ops) < max)
  {
    hide Segmented, LogAll, Fits, AllFit, SizeAfterOps, Encode;
    var k := |ops| - 1;
    var s := LogRun(max, ops[..k]);
    SizeAfterOpsIs(max, ops);
    CurrentPresent(s, max);
    match ops[k] {
      case LogCall(batch) => LogAllAppends(s, max, batch);
      case TruncateBefore(i) => TruncateKeepsSegmented(s, max, i);
      case Restart => ReopenIsIdentity(s, s.current);
      case DieAfter(batch, last) =>
        LogAllAppends(s, max, batch);
        DeathIsSegmentedIff(LogAll(s, max, batch), max, last);
    }
  }

  lemma CurrentPresent(s: LogState, max: int)
    requires Segmented(s, max)
    ensures s.current in s.files && (forall m :: m in s.files ==> m <= s.current) && s.size == |s.files[s.current]|
  {
  }

  /** A process that dies after writing a record and before rotating leaves a log within the bounds exactly when the
      open segment is still below the limit. */
  lemma DeathIsSegmentedIff(s: LogState, max: int, last: Record)
    requires Segmented(s, max) && Fits(last)
    ensures var w := WriteRecord(s, last);
            && Reopened(w.files, w.current) == w
            && (Segmented(Reopened(w.files, w.current), max) <==> s.size + |Encode(last)| < max)
  {
    hide Replay, Clean, Encode, Full;
    var w := WriteRecord(s, last);
    WriteAppends(s, last);
    assert w.files[w.current := w.files[w.current]] == w.files;
  }

  /** Replay of a clean log delivers every record in order. */
  lemma {:induction false} ReplayDelivers(files: Files, hi: nat)
    requires AllClean(files)
    ensures ReplayFiles(files, SegmentNumbers(files, hi)) == Replayed(LogRecords(files, hi), Finished)
  {
    hide Replay;
    if hi > 0 {
      ReplayDelivers(files, hi - 1);
      if hi - 1 in files {
        var ns := SegmentNumbers(files, hi);
        assert ns[..|ns| - 1] == SegmentNumbers(files, hi - 1);
      } else {
        assert SegmentNumbers(files, hi) == SegmentNumbers(files, hi - 1);
        assert LogRecords(files, hi) == LogRecords(files, hi - 1);
      }
    }
  }

  /** How the replay of the first `cut` bytes of a clean segment ends. */
  ghost function TornEnd(bs: Bytes, cut: nat): Replayed {
    var rs := Replay(bs).records;
    var k := WhollyInside(rs, cut);
    var torn := cut - |EncodeAll(rs[..k])|;
    Replayed(rs[..k], if torn == 0 || torn == 4 then Finished else Failed)
  }

  lemma TornSegment(bs: Bytes, cut: nat)
    requires Clean(bs) && cut <= |bs|
    ensures Replay(bs[..cut]) == TornEnd(bs, cut)
  {
    TornReplay(Replay(bs).records, cut);
  }

  /** Whatever the last segment holds, the replay delivers the older records and then its own. */
  lemma LastSegmentReplay(files: Files, c: nat, content: Bytes)
    requires AllClean(files - {c})
    ensures var all := files[c := content];
            ReplayFiles(all, SegmentNumbers(all, c + 1))
            == Replayed(LogRecords(files, c) + Replay(content).records, Replay(content).end)
  {
    hide Replay, Clean, LogRecords;
    var all, older := files[c := content], files - {c};
    ReplayDelivers(older, c);
    SameBelow(older, files, c);
    NumbersBelow(all, older, c);
    var ns := SegmentNumbers(all, c + 1);
    assert ns[..|ns| - 1] == SegmentNumbers(all, c);
    SameReplay(all, older, SegmentNumbers(older, c));
  }

  /** A log whose open segment was cut after `cut` bytes delivers every older record and the whole ones of the
      tail; the store can be opened exactly when the cut is at a record boundary or 4 bytes past one. */
  lemma TornLogReplay(s: LogState, cut: nat)
    requires AllClean(s.files) && s.current in s.files && cut <= |s.files[s.current]|
    ensures var tail := TornEnd(s.files[s.current], cut);
            var torn := s.files[s.current := s.files[s.current][..cut]];
            ReplayFiles(torn, SegmentNumbers(torn, s.current + 1))
            == Replayed(LogRecords(s.files, s.current) + tail.records, tail.end)
  {
    hide Replay, Clean, TornEnd, LogRecords;
    TornSegment(s.files[s.current], cut);
    LastSegmentReplay(s.files, s.current, s.files[s.current][..cut]);
  }

  // ----- writing on after a torn tail -----

  /** An empty segment after the last one changes nothing in the replay. */
  lemma EmptySegmentAfter(files: Files, c: nat)
    requires c in files && forall n :: n in files ==> n <= c
    ensures var all := files[c + 1 := []];
            ReplayFiles(all, SegmentNumbers(all, c + 2)) == ReplayFiles(files, SegmentNumbers(files, c + 1))
  {
    hide Replay, SegmentNumbers, ReplayFiles;
    var all := files[c + 1 := []];
    CleanEmpty();
    NumbersBelow(all, files, c + 1);
    SameReplay(all, files, SegmentNumbers(files, c + 1));
    NextNumber(all, c + 1);
    ReplayOneMore(all, SegmentNumbers(all, c + 1), c + 1);
    var before := ReplayFiles(files, SegmentNumbers(files, c + 1));
    assert before.records + [] == before.records;
  }

  lemma NextNumber(files: Files, n: nat)
    requires n in files
    ensures SegmentNumbers(files, n + 1) == SegmentNumbers(files, n) + [n]
  {
  }

  lemma ReplayOneMore(files: Files, order: seq<nat>, n: nat)
    requires n in files && forall m :: m in order ==> m in files
    ensures var before := ReplayFiles(files, order);
            ReplayFiles(files, order + [n])
            == if before.end != Finished then before
               else Replayed(before.records + Replay(files[n]).records, Replay(files[n]).end)
  {
    hide Replay;
    assert (order + [n])[..|order|] == order;
  }

  /** The record that a cut falls into. */
  ghost function TornAt(bs: Bytes, cut: nat): Record {
    var rs := Replay(bs).records;
    var k := WhollyInside(rs, cut);
    if k < |rs| then rs[k] else TINY
  }

  /** The bytes up to a cut that opens without an error are whole records and perhaps a bare header. */
  lemma OpenableCut(bs: Bytes, cut: nat) returns (rs: seq<Record>, torn: Record, k: nat)
    requires Clean(bs) && cut <= |bs| && TornEnd(bs, cut).end == Finished
    ensures AllFit(rs) && Fits(torn) && (k == 0 || k == 4) && k <= |Encode(torn)|
    ensures rs == TornEnd(bs, cut).records && cut == |EncodeAll(rs)| + k && torn == TornAt(bs, cut)
    ensures bs[..cut] == EncodeAll(rs) + Encode(torn)[..k]
  {
    hide Encode, EncodeAll, WhollyInside, Fits;
    var all := Replay(bs).records;
    var i := WhollyInside(all, cut);
    WhollyInsideBounds(all, cut);
    CutLog(all, cut, i);
    rs := all[..i];
    if i < |all| {
      torn := all[i];
      k := cut - |EncodeAll(rs)|;
    } else {
      torn := TINY;
      TinyFits();
      k := 0;
      assert EncodeAll(rs) + Encode(torn)[..0] == EncodeAll(rs);
    }
  }

  const TINY := Record([], 0, 0)

  lemma TinyFits()
    ensures Fits(TINY)
  {
    assert |EncodeLabels([])| == 0;
  }

  /** A store that opened a torn log and logs one more record will replay what it had opened with and that record
      exactly when the log had been cut at a record boundary, or the record reads as itself after the header. */
  lemma {:induction false} LogAfterTornTail(s: LogState, max: int, cut: nat, next: Record)
    requires AllClean(s.files) && s.current in s.files && forall n :: n in s.files ==> n <= s.current
    requires cut <= |s.files[s.current]| && TornEnd(s.files[s.current], cut).end == Finished
    requires Fits(next)
    ensures var tail := TornEnd(s.files[s.current], cut).records;
            var start := Reopened(s.files[s.current := s.files[s.current][..cut]], s.current);
            var w := LogOne(start, max, next);
            ReplayFiles(w.files, SegmentNumbers(w.files, w.current + 1))
            == Replayed(LogRecords(s.files, s.current) + tail + [next], Finished)
            <==> cut == |EncodeAll(tail)| || ReadsAsItself(TornAt(s.files[s.current], cut), next)
    ensures next.labels != [] && |Body(next)| < 0x1_0000 ==> !ReadsAsItself(TornAt(s.files[s.current], cut), next)
  {
    hide Replay, Clean, Encode, EncodeAll, TornEnd, TornAt, ReadsAsItself, LogRecords, Body, Fits, ReplayFiles,
         SegmentNumbers;
    var c := s.current;
    var rs, torn, k := OpenableCut(s.files[c], cut);
    AppendableIffWhole(rs, torn, next, k);
    var content := EncodeAll(rs) + (Encode(torn)[..k] + Encode(next));
    var start := Reopened(s.files[c := s.files[c][..cut]], c);
    var w := WriteRecord(start, next);
    assert s.files[c][..cut] + Encode(next) == content;
    assert w.files == s.files[c := content];
    LastSegmentReplay(s.files, c, content);
    EmptySegmentAfter(w.files, c);
    var older := LogRecords(s.files, c);
    assert older + rs + [next] == older + (rs + [next]);
    SamePrefix(older, Replay(content).records, rs + [next]);
  }

  lemma SamePrefix(a: seq<Record>, b: seq<Record>, c: seq<Record>)
    ensures a + b == a + c <==> b == c
  {
    if a + b == a + c {
      assert b == (a + b)[|a|..] == (a + c)[|a|..] == c;
    }
  }

  lemma {:induction false} NumbersBelow(f: Files, g: Files, hi: nat)
    requires forall n :: n < hi ==> (n in f <==> n in g)
    ensures SegmentNumbers(f, hi) == SegmentNumbers(g, hi)
  {
    if hi > 0 {
      NumbersBelow(f, g, hi - 1);
    }
  }

  lemma {:induction false} SameReplay(f: Files, g: Files, order: seq<nat>)
    requires forall n :: n in order ==> n in f && n in g && f[n] == g[n]
    ensures ReplayFiles(f, order) == ReplayFiles(g, order)
  {
    if order != [] {
      SameReplay(f, g, order[..|order| - 1]);
    }
  }
}
