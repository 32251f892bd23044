/** The store's promises, stated over the events of a run alone. */
module Recovery {
  import opened Types
  import opened Codec
  import opened Wal
  import opened WalLaws
  import opened Heads
  import opened Blocks
  import opened Disks
  import opened Engine
  import opened EngineLaws
  import opened Durability
  import opened EngineRuns

  // ----- a client's account of a run -----

  /** Points of the batches whose Commit returned, points that crashes let into the log, the batches whose Commit has
      logged them and not yet returned, and the batch that is being logged. */
  datatype Ledger = Ledger(committed: set<Record>, survived: set<Record>, logged: seq<Batch>,
                           busy: bool, batch: seq<Record>, written: nat)

  ghost function Book(a: Ledger, e: Action): Ledger {
    match e
    case BeginCommit(batch) => a.(busy := true, batch := batch, written := 0)
    case WriteNext => a.(written := a.written + 1)
    case EndLog => a.(busy := false, logged := a.logged + [a.batch])
    case AppendHead(i) =>
      if i < |a.logged| then a.(committed := a.committed + RecordSet(a.logged[i]), logged := Without(a.logged, i))
          else a
    case Crash => a.(busy := false, survived := a.survived + RecordSet(Unreturned(a)), logged := [])
    case CrashTorn(_) => a.(busy := false, survived := a.survived + RecordSet(Unreturned(a)), logged := [])
    case _ => a
  }

  ghost function Account(es: seq<Action>): Ledger {
    if es == [] then Ledger({}, {}, [], false, [], 0) else Book(Account(es[..|es| - 1]), es[|es| - 1])
  }

  /** The logged part of the batch under way, empty when there is none. */
  ghost function LoggedPart(a: Ledger): seq<Record> {
    if a.busy && a.written <= |a.batch| then a.batch[..a.written] else []
  }

  /** What the log holds of commits that have not returned, in log order. */
  ghost function Unreturned(a: Ledger): seq<Record> {
    Flatten(a.logged) + LoggedPart(a)
  }

  /** Every point that the run so far owes to a reader of the disk. */
  ghost function Due(es: seq<Action>): set<Record> {
    var a := Account(es);
    a.committed + a.survived + RecordSet(Unreturned(a))
  }

  /** The latest retention cutoff of a run. */
  ghost function Horizon(es: seq<Action>): Int64 {
    if es == [] then MIN_TIME
    else
      var h := Horizon(es[..|es| - 1]);
      var e := es[|es| - 1];
      if e.BeginRetention? && e.cutoff > h then e.cutoff else h
  }

  ghost predicate NothingMergedOrExpired(es: seq<Action>) {
    forall e :: e in es ==> !e.BeginMerge? && !e.BeginRetention?
  }

  ghost predicate Agrees(s: State, a: Ledger) {
    && s.promised == a.committed + a.survived
    && a.logged == s.waiting && (s.phase.Down? ==> s.waiting == [])
    && (s.phase.Logging? <==> a.busy)
    && (a.busy ==> a.batch == s.phase.batch && a.written == s.phase.written)
  }

  lemma BookAgrees(hash: Labels -> nat, s: State, a: Ledger, e: Action)
    requires Agrees(s, a) && Enabled(hash, s, e)
    ensures Agrees(Apply(s, e), Book(a, e))
  {
    hide IsHeadBlock, OpenedFrom, IsMergeOf, AllFit, LatestSegment, AppendAll, LogRecords, Unexpired, Removed,
         RecordSet, Reopened, Rotate, WriteRecord;
  }

  lemma {:induction false} AccountAgrees(hash: Labels -> nat, es: seq<Action>)
    requires Legal(hash, START, es)
    ensures Agrees(Run(START, es), Account(es))
  {
    hide Agrees, Enabled, Book, Apply;
    if es == [] {
      StartAgrees();
    } else {
      var k := |es| - 1;
      AccountAgrees(hash, es[..k]);
      BookAgrees(hash, Run(START, es[..k]), Account(es[..k]), es[k]);
    }
  }

  lemma StartAgrees()
    ensures Agrees(START, Account([]))
  {
  }

  lemma HorizonStep(s: State, e: Action)
    ensures Apply(s, e).horizon == if e.BeginRetention? && e.cutoff > s.horizon then e.cutoff else s.horizon
    ensures s.exact && !e.BeginMerge? && !e.BeginRetention? ==> Apply(s, e).exact
  {
    hide AppendAll, LogRecords, Unexpired, Removed, RecordSet, Reopened, Rotate, WriteRecord, InFlight;
  }

  lemma {:induction false} HorizonAgrees(es: seq<Action>)
    ensures Run(START, es).horizon == Horizon(es)
    ensures NothingMergedOrExpired(es) ==> Run(START, es).exact
  {
    hide Apply;
    if es != [] {
      var k := |es| - 1;
      HorizonAgrees(es[..k]);
      HorizonStep(Run(START, es[..k]), es[k]);
      if NothingMergedOrExpired(es) {
        assert forall e :: e in es[..k] ==> e in es;
        assert es[k] in es;
      }
    }
  }

  lemma AccountMatches(hash: Labels -> nat, es: seq<Action>)
    requires Legal(hash, START, es)
    ensures var s := Run(START, es);
            && s.promised == Account(es).committed + Account(es).survived
            && Unapplied(s) == Unreturned(Account(es))
            && s.horizon == Horizon(es)
            && (NothingMergedOrExpired(es) ==> s.exact)
  {
    hide Legal, Run, Account, Horizon, NothingMergedOrExpired;
    AccountAgrees(hash, es);
    HorizonAgrees(es);
  }

  // ----- durability -----

  /** At every point of every run, the disk holds only points that are due, and every label set and time that is due
      from the retention horizon on. Without a merge or a retention pass it holds exactly the points that are due, and
      also when each label set has one value per time and nothing has expired. */
  lemma {:induction false} DurableOverRuns(hash: Labels -> nat, es: seq<Action>)
    requires Legal(hash, START, es)
    ensures var disk := DiskPoints(Run(START, es));
            && disk <= Due(es)
            && (forall p :: p in Due(es) && p.t >= Horizon(es) ==> HasKey(disk, p))
            && (NothingMergedOrExpired(es) ==> disk == Due(es))
            && (SingleValued(Due(es)) && Horizon(es) == MIN_TIME ==> disk == Due(es))
  {
    hide Account, Legal, Run, Horizon, NothingMergedOrExpired, DiskPoints, RecordSet, Inv, HasKey;
    var s := Run(START, es);
    StartHolds(hash);
    RunKeeps(hash, START, es);
    DiskIsSafe(hash, s);
    AccountMatches(hash, es);
    if SingleValued(Due(es)) && Horizon(es) == MIN_TIME {
      SingleValuedIsExact(DiskPoints(s), Due(es));
    }
  }

  /** What a process that starts on this disk can recover. */
  ghost function Recoverable(d: Snapshot): set<Record> {
    WalPoints(d.files) + DirPoints(d.dirs)
  }

  lemma BookGrows(hash: Labels -> nat, s: State, a: Ledger, e: Action)
    requires Agrees(s, a) && Enabled(hash, s, e) && Inv(hash, s)
    ensures a.committed + a.survived + RecordSet(Unreturned(a))
            <= Book(a, e).committed + Book(a, e).survived + RecordSet(Unreturned(Book(a, e)))
  {
    hide IsHeadBlock, OpenedFrom, IsMergeOf, AllFit, LatestSegment, Flatten, Running, Safe, WalPoints, DirPoints,
         DataWithin, AllClean;
    match e {
      case WriteNext => PrefixGrows(a.batch, a.written);
      case EndLog =>
        FlattenSnoc(a.logged, a.batch);
        assert a.batch[..|a.batch|] == a.batch;
      case AppendHead(i) => WithoutRecords(a.logged, i);
      case _ =>
    }
  }

  /** What is due stays due, and the horizon only moves forward. */
  lemma {:induction false} DueGrows(hash: Labels -> nat, es: seq<Action>, k: nat)
    requires Legal(hash, START, es) && k <= |es|
    ensures Due(es[..k]) <= Due(es) && Horizon(es[..k]) <= Horizon(es)
    decreases |es|
  {
    hide Agrees, Enabled, Book, Run, Unreturned, RecordSet, Inv;
    if k < |es| {
      var n := |es| - 1;
      assert es[..n][..k] == es[..k];
      DueGrows(hash, es[..n], k);
      AccountAgrees(hash, es[..n]);
      StartHolds(hash);
      RunKeeps(hash, START, es[..n]);
      BookGrows(hash, Run(START, es[..n]), Account(es[..n]), es[n]);
    } else {
      assert es[..k] == es;
    }
  }

  /** A crash inside a call: whatever state of the disk the call has reached, only points that are due after the call
      can be recovered, and every label set and time can that was due before it, from the retention horizon on. */
  lemma {:induction false} EveryMomentIsSafe(hash: Labels -> nat, was: seq<Action>, es: seq<Action>,
                                             moments: seq<Snapshot>, d: Snapshot)
    requires Legal(hash, START, was + es) && Passes(Run(START, was), es, moments) && d in moments
    ensures Recoverable(d) <= Due(was + es)
    ensures forall p :: p in Due(was) && p.t >= Horizon(was + es) ==> HasKey(Recoverable(d), p)
    ensures NothingMergedOrExpired(was + es) ==> Due(was) <= Recoverable(d)
  {
    hide Legal, Run, Due, Horizon, HasKey, WalPoints, DirPoints, SingleValued, NothingMergedOrExpired;
    var all := was + es;
    var k :| 0 <= k <= |es| && DiskOf(Run(Run(START, was), es[..k])) == d;
    assert all[..|was|] == was;
    LegalPrefix(hash, START, all, |was|);
    var now := all[..|was| + k];
    assert now == was + es[..k];
    LegalPrefix(hash, START, all, |was| + k);
    RunAppend(START, was, es[..k]);
    assert Recoverable(d) == DiskPoints(Run(START, now));
    DurableOverRuns(hash, now);
    DueGrows(hash, all, |was| + k);
    assert now[..|was|] == was;
    DueGrows(hash, now, |was|);
    NothingYet(all, |was| + k);
  }

  lemma NothingYet(es: seq<Action>, k: nat)
    requires k <= |es|
    ensures NothingMergedOrExpired(es) ==> NothingMergedOrExpired(es[..k])
  {
    assert forall e :: e in es[..k] ==> e in es;
  }

  lemma SingleValuedIsExact(have: set<Record>, due: set<Record>)
    requires have <= due && SingleValued(due) && forall p :: p in due ==> HasKey(have, p)
    ensures have == due
  {
    forall p | p in due ensures p in have {
      assert HasKey(have, p);
      var q :| q in have && q.labels == p.labels && q.t == p.t;
    }
  }

  /** The points of batches whose Commit returned, and those that crashes let into the log. */
  ghost function Returned(es: seq<Action>): set<Record> {
    Account(es).committed + Account(es).survived
  }

  /** At every moment while a process runs, whatever is being logged, flushed, merged or dropped, a query can see points
      whose commit has returned, and no others, and every label set and time of them from the horizon on. */
  lemma {:induction false} QueriesSeeWhatReturned(hash: Labels -> nat, es: seq<Action>)
    requires Legal(hash, START, es) && !Run(START, es).phase.Down?
    ensures var live := LivePoints(Run(START, es));
            && live <= Returned(es) <= Due(es)
            && (forall p :: p in Returned(es) && p.t >= Horizon(es) ==> HasKey(live, p))
            && (NothingMergedOrExpired(es) ==> live == Returned(es))
  {
    hide Account, Legal, Run, Horizon, NothingMergedOrExpired, LivePoints, DiskPoints, RecordSet, ListMatches,
         AllClean, HasKey, WalPoints, DirPoints, DataWithin;
    StartHolds(hash);
    RunKeeps(hash, START, es);
    AccountMatches(hash, es);
  }

  /** When no commit is under way, that is exactly as much as the disk promises. */
  lemma {:induction false} QueriesSeeWhatIsDue(hash: Labels -> nat, es: seq<Action>)
    requires Legal(hash, START, es) && Run(START, es).phase.Idle? && Run(START, es).waiting == []
    ensures var live := LivePoints(Run(START, es));
            && live <= Due(es)
            && (forall p :: p in Due(es) && p.t >= Horizon(es) ==> HasKey(live, p))
            && (NothingMergedOrExpired(es) ==> live == Due(es))
  {
    hide Account, Legal, Run, Horizon, NothingMergedOrExpired, LivePoints, HasKey;
    QueriesSeeWhatReturned(hash, es);
    AccountMatches(hash, es);
    NothingUnapplied(Run(START, es));
  }

  // ----- recovery -----

  lemma {:induction false} ReopenShowsDisk(hash: Labels -> nat, s: State, n: nat, open: seq<Block>)
    requires Inv(hash, s) && Enabled(hash, s, Reopen(n, open))
    ensures LivePoints(Apply(s, Reopen(n, open))) == DiskPoints(s) == DiskPoints(Apply(s, Reopen(n, open)))
  {
    hide Replay, Clean, AllClean, LogRecords, WalPoints, DirPoints, HeadPoints, AppendAll, SeriesPoints,
         BlocksPoints, Reopened, Safe, DataWithin;
    var files := s.log.files;
    ReopenedPoints(files, n);
    ReplayedPoints(files, n);
    AppendedPoints(map[], LogRecords(files, n + 1));
    NoHeadPoints();
    OpenedIsListed(open, s.dirs);
    ListedPoints(open, s.dirs);
  }

  /** A process can start exactly when every segment replays without an error, and then it is given every record. */
  lemma {:induction false} ReopenReplays(files: Files, n: nat)
    requires LatestSegment(files, n)
    ensures var files' := Reopened(files, n).files;
            var replayed := ReplayFiles(files', SegmentNumbers(files', n + 1));
            && (replayed.end == Finished <==> AllFinish(files))
            && (AllFinish(files) ==> replayed.records == LogRecords(files, n + 1))
  {
    hide Replay, Clean, LogRecords, ReplayFiles;
    var files' := Reopened(files, n).files;
    CleanEmpty();
    ReplayEnds(files', n + 1);
    assert AllFinish(files') <==> AllFinish(files) by {
      if AllFinish(files') {
        forall m | m in files ensures Replay(files[m]).end == Finished {
          assert m in files';
        }
      }
      NoReplay();
    }
    assert (forall m :: m in files' && m < n + 1 ==> Replay(files'[m]).end == Finished) <==> AllFinish(files');
    if AllFinish(files) {
      ReopenedPoints(files, n);
    }
  }

  lemma NoReplay()
    ensures Replay([]) == Replayed([], Finished)
  {
  }

  lemma {:induction false} ReplayEnds(files: Files, hi: nat)
    ensures var replayed := ReplayFiles(files, SegmentNumbers(files, hi));
            && (replayed.end == Finished <==> forall m :: m in files && m < hi ==> Replay(files[m]).end == Finished)
            && (replayed.end == Finished ==> replayed.records == LogRecords(files, hi))
  {
    hide Replay;
    if hi > 0 {
      ReplayEnds(files, hi - 1);
      if hi - 1 in files {
        var ns := SegmentNumbers(files, hi);
        assert ns[..|ns| - 1] == SegmentNumbers(files, hi - 1);
      } else {
        assert SegmentNumbers(files, hi) == SegmentNumbers(files, hi - 1);
        assert LogRecords(files, hi) == LogRecords(files, hi - 1);
      }
    }
  }

  /** After any run whose process has died, a new one starts exactly when the log replays without an error. It then
      shows what the disk holds. */
  lemma {:induction false} ReopenRecovers(hash: Labels -> nat, es: seq<Action>, n: nat, open: seq<Block>)
    requires Legal(hash, START, es) && Run(START, es).phase.Down?
    requires LatestSegment(Run(START, es).log.files, n) && OpenedFrom(open, Run(START, es).dirs)
    ensures var s := Run(START, es);
            var files := Reopened(s.log.files, n).files;
            var replayed := ReplayFiles(files, SegmentNumbers(files, n + 1));
            var s' := Apply(s, Reopen(n, open));
            && (Enabled(hash, s, Reopen(n, open)) <==> replayed.end == Finished)
            && (replayed.end == Finished ==>
                  && replayed.records == LogRecords(s.log.files, n + 1)
                  && LivePoints(s') == DiskPoints(s) == DiskPoints(s'))
  {
    hide Legal, Run, AllClean, AllFinish, LogRecords, LivePoints, DiskPoints, AppendAll, Reopened, ReplayFiles, Safe,
         DataWithin, OpenedFrom, Inv, SegmentNumbers, LatestSegment;
    var s := Run(START, es);
    StartHolds(hash);
    RunKeeps(hash, START, es);
    ReopenReplays(s.log.files, n);
    if AllFinish(s.log.files) {
      ReopenShowsDisk(hash, s, n, open);
    }
  }

  predicate Dies(e: Action) {
    e.Crash? || e.CrashTorn?
  }

  /** A process that dies between two steps can be replaced, one that dies inside the write of a record exactly when
      none of it or just its header was written. */
  lemma {:induction false} StartsAgainIff(hash: Labels -> nat, es: seq<Action>, e: Action)
    requires Legal(hash, START, es + [e]) && Dies(e)
    ensures AllFinish(Run(START, es + [e]).log.files) <==> (e.CrashTorn? ==> e.cut == 0 || e.cut == 4)
  {
    hide Legal, Run, Replay, Clean, Encode, Safe, DataWithin, ListMatches, LivePoints, HeadPoints, WalPoints, DirPoints,
         Unapplied, AppendAll, Logged, Owed, AllClean, Fits;
    LastEvent(hash, es, e);
    StartHolds(hash);
    RunKeeps(hash, START, es);
    var s := Run(START, es);
    if e.CrashTorn? {
      var next := s.phase.batch[s.phase.written];
      var c := s.log.current;
      TornContent(s.log.files[c], next, e.cut);
      FinishIff(s.log.files, c, s.log.files[c] + Encode(next)[..e.cut]);
    }
  }

  lemma FinishIff(files: Files, c: nat, content: Bytes)
    requires AllFinish(files)
    ensures AllFinish(files[c := content]) <==> Replay(content).end == Finished
  {
    hide Replay;
    if AllFinish(files[c := content]) {
      assert c in files[c := content];
    }
  }

  /** After any run that ends inside a commit, a death inside the write of the next record leaves a log that delivers
      all earlier records; the store opens exactly when none of the record or just its header was written. The disk
      holds the points it held before the write. */
  lemma {:induction false} TornCommit(hash: Labels -> nat, es: seq<Action>, cut: nat)
    requires Legal(hash, START, es)
    requires var p := Run(START, es).phase;
             p.Logging? && p.written < |p.batch| && cut < |Encode(p.batch[p.written])|
    ensures var s := Run(START, es);
            var torn := TornLog(s.log, s.phase.batch[s.phase.written], cut).files;
            && ReplayFiles(torn, SegmentNumbers(torn, s.log.current + 1))
               == Replayed(Logged(s.log), if cut == 0 || cut == 4 then Finished else Failed)
            && Recoverable(Snapshot(torn, s.dirs)) == DiskPoints(s)
  {
    hide Legal, Run, Encode, Replay, Clean, ListMatches, Safe, DataWithin, DiskPoints, LivePoints, HeadPoints,
         AppendAll, ReplayFiles, SegmentNumbers, RecordSet;
    var s := Run(START, es);
    StartHolds(hash);
    RunKeeps(hash, START, es);
    var c, next := s.log.current, s.phase.batch[s.phase.written];
    var content := s.log.files[c] + Encode(next)[..cut];
    TornContent(s.log.files[c], next, cut);
    LastSegmentReplay(s.log.files, c, content);
    assert DiskPoints(s) == Recoverable(Snapshot(s.log.files, s.dirs)) by { DiskIs(s); }
    SameWalPoints(s.log.files, c, content);
  }

  lemma DiskIs(s: State)
    ensures DiskPoints(s) == Recoverable(DiskOf(s))
  {
  }

  /** Since the store was last opened the head has not been replaced, and batches were applied in log order. */
  ghost predicate HeadFollowsLog(es: seq<Action>) {
    if es == [] then false
    else
      match es[|es| - 1]
      case Reopen(_, _) => true
      case InstallFlush => false
      case AppendHead(i) => i == 0 && HeadFollowsLog(es[..|es| - 1])
      case _ => HeadFollowsLog(es[..|es| - 1])
  }

  lemma VerbatimStep(hash: Labels -> nat, s: State, e: Action)
    requires Enabled(hash, s, e)
    ensures Apply(s, e).verbatim == (if e.Reopen? then true else if e.InstallFlush? then false
                                     else s.verbatim && (e.AppendHead? ==> e.i == 0))
  {
    hide IsHeadBlock, OpenedFrom, IsMergeOf, AllFit, LatestSegment, AppendAll, LogRecords, Unexpired, Removed,
         RecordSet, Reopened, Rotate, WriteRecord, InFlight;
  }

  lemma {:induction false} VerbatimIs(hash: Labels -> nat, es: seq<Action>)
    requires Legal(hash, START, es)
    ensures Run(START, es).verbatim == HeadFollowsLog(es)
  {
    hide Enabled, Apply;
    if es != [] {
      var k := |es| - 1;
      VerbatimIs(hash, es[..k]);
      VerbatimStep(hash, Run(START, es[..k]), es[k]);
    }
  }

  /** The last event of a legal run. */
  lemma LastEvent(hash: Labels -> nat, es: seq<Action>, e: Action)
    requires Legal(hash, START, es + [e])
    ensures Legal(hash, START, es) && Enabled(hash, Run(START, es), e)
    ensures Run(START, es + [e]) == Apply(Run(START, es), e)
  {
    hide Enabled, Apply;
    assert (es + [e])[..|es|] == es;
  }

  /** As long as the head has not been flushed since the store was opened, and batches were applied in log order, a
      death at any point, even inside the write of a record, and a restart rebuild, for every label set, the samples
      of the head in their order, followed by those of the batches that were logged and not yet applied, and of the
      logged part of the one under way. */
  lemma {:induction false} ExactRecovery(hash: Labels -> nat, es: seq<Action>, e: Action, n: nat, open: seq<Block>,
                                         l: Labels)
    requires Legal(hash, START, es + [e] + [Reopen(n, open)]) && Dies(e) && HeadFollowsLog(es)
    ensures SamplesAt(Run(START, es + [e] + [Reopen(n, open)]).head, l)
            == SamplesAt(Run(START, es).head, l) + SamplesOf(Unreturned(Account(es)), l)
  {
    hide Legal, Run, Enabled, Apply, Inv, HeadFollowsLog, Account, Horizon, NothingMergedOrExpired, Unreturned,
         Unapplied, SamplesOf, SamplesAt;
    LastEvent(hash, es + [e], Reopen(n, open));
    LastEvent(hash, es, e);
    StartHolds(hash);
    RunKeeps(hash, START, es);
    VerbatimIs(hash, es);
    AccountMatches(hash, es);
    CrashRebuilds(hash, Run(START, es), e, n, open, l);
  }

  lemma CrashRebuilds(hash: Labels -> nat, s: State, e: Action, n: nat, open: seq<Block>, l: Labels)
    requires Inv(hash, s) && s.verbatim && Dies(e)
    requires Enabled(hash, s, e) && Enabled(hash, Apply(s, e), Reopen(n, open))
    ensures SamplesAt(Apply(Apply(s, e), Reopen(n, open)).head, l) == SamplesAt(s.head, l) + SamplesOf(Unapplied(s), l)
  {
    hide Replay, AllClean, LogRecords, DiskPoints, LivePoints, WalPoints, DirPoints, HeadPoints, AppendAll, Reopened,
         ListMatches, Safe, DataWithin, OpenedFrom, RecordSet, SamplesOf, Covered, AllFinish, Encode, TornLog,
         Unapplied, Owed, Settled, Fits, Clean;
    var s' := Apply(s, e);
    if e.CrashTorn? {
      TornPoints(s.log, s.phase.batch[s.phase.written], e.cut);
    }
    assert Logged(s'.log) == Logged(s.log) && n == s.log.current;
    AppendAllPerSeries(s.head, Unapplied(s), l);
  }

  /** A second crash and restart changes neither the log, nor the head, nor the blocks. */
  lemma {:induction false} ReopenAgainChangesNothing(hash: Labels -> nat, es: seq<Action>, n: nat, open: seq<Block>,
                                                     m: nat, open': seq<Block>)
    requires Legal(hash, START, es + [Reopen(n, open)] + [Crash] + [Reopen(m, open')])
    ensures var s1 := Run(START, es + [Reopen(n, open)]);
            var s2 := Run(START, es + [Reopen(n, open)] + [Crash] + [Reopen(m, open')]);
            s2.log == s1.log && s2.head == s1.head && s2.dirs == s1.dirs
            && forall b :: b in s2.open <==> b in s1.open
  {
    hide Legal, Run;
    LastEvent(hash, es + [Reopen(n, open)] + [Crash], Reopen(m, open'));
    LastEvent(hash, es + [Reopen(n, open)], Crash);
    LastEvent(hash, es, Reopen(n, open));
    StartHolds(hash);
    RunKeeps(hash, START, es);
    ReopenTwice(hash, Run(START, es), n, open, m, open');
  }

  lemma ReopenTwice(hash: Labels -> nat, s: State, n: nat, open: seq<Block>, m: nat, open': seq<Block>)
    requires Inv(hash, s) && Enabled(hash, s, Reopen(n, open))
    requires Enabled(hash, Apply(Apply(s, Reopen(n, open)), Crash), Reopen(m, open'))
    ensures var s1 := Apply(s, Reopen(n, open));
            var s2 := Apply(Apply(s1, Crash), Reopen(m, open'));
            s2.log == s1.log && s2.head == s1.head && s2.dirs == s1.dirs
            && forall b :: b in s2.open <==> b in s1.open
  {
    hide Inv, LogRecords, AppendAll, OpenedFrom, Reopened, AllFinish, LatestSegment, RecordSet, Unapplied;
    var files := s.log.files;
    ReopenedPoints(files, n);
    OpenedTwice(files, n, m);
    SameOpen(open, open', s.dirs);
  }

  lemma OpenedTwice(files: Files, n: nat, m: nat)
    requires LatestSegment(files, n) && LatestSegment(Reopened(files, n).files, m)
    ensures m == n && Reopened(Reopened(files, n).files, m) == Reopened(files, n)
  {
    var files' := Reopened(files, n).files;
    assert n in files' && (m in files' || m == 0);
    assert files'[n := files'[n]] == files';
  }

  lemma SameOpen(open: seq<Block>, open': seq<Block>, dirs: Dirs)
    requires OpenedFrom(open, dirs) && OpenedFrom(open', dirs)
    ensures forall b :: b in open <==> b in open'
  {
    forall b ensures b in open <==> b in open' {
      if b in open {
        assert Backed(b, dirs);
      }
      if b in open' {
        assert Backed(b, dirs);
      }
    }
  }

  /** Every point inside every call is a crash point: cut anywhere and followed by a crash, a legal run is legal, and
      the crash itself leaves the disk as it was. */
  lemma {:induction false} CrashAnywhere(hash: Labels -> nat, es: seq<Action>, k: nat)
    requires Legal(hash, START, es) && k <= |es|
    ensures Legal(hash, START, es[..k])
    ensures var s := Run(START, es[..k]);
            var crashed := es[..k] + [Crash];
            !s.phase.Down? ==>
              Legal(hash, START, crashed) && Run(START, crashed).phase.Down?
              && DiskPoints(Run(START, crashed)) == DiskPoints(s)
    decreases |es|
  {
    hide DiskPoints;
    if k < |es| {
      assert es[..|es| - 1][..k] == es[..k];
      CrashAnywhere(hash, es[..|es| - 1], k);
    } else {
      hide Enabled, Apply;
      assert es[..k] == es;
      var crashed := es + [Crash];
      assert crashed[..|es|] == es;
      CrashStep(hash, Run(START, es));
    }
  }

  lemma CrashStep(hash: Labels -> nat, s: State)
    ensures !s.phase.Down? ==> Enabled(hash, s, Crash)
    ensures Apply(s, Crash).phase.Down? && DiskPoints(Apply(s, Crash)) == DiskPoints(s)
  {
  }
}
