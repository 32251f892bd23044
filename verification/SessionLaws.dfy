/** The session store over whole runs of appends and retention sweeps. */
module SessionLaws {
  import opened Types
  import opened Digits
  import opened TopN
  import opened Sessions

  // ----- the reference: what a client appended -----

  /** The events of a session since it was created, oldest append first; a sweep ends a session whose last append is
      too old. */
  function Since(c: Limits, ops: seq<Op>, id: Bytes): seq<Event> {
    if ops == [] then []
    else
      var before := Since(c, ops[..|ops| - 1], id);
      match ops[|ops| - 1]
      case Append(e, now) => if e.sessionID == id && id != [] then before + [Stamped(e, now)] else before
      case Sweep(now) =>
        if before != [] && before[|before| - 1].timestamp < now - LimitsAt(c, ops).retention then [] else before
      case Reopen(_) => before
  }

  /** The bounds in force when these events were appended. */
  function Bounds(c: Limits, ops: seq<Op>, id: Bytes): (ns: seq<nat>)
    ensures |ns| == |Since(c, ops, id)|
  {
    if ops == [] then []
    else
      var before := Bounds(c, ops[..|ops| - 1], id);
      match ops[|ops| - 1]
      case Append(e, now) => if e.sessionID == id && id != [] then before + [LimitsAt(c, ops).maxEvents] else before
      case Sweep(now) => if Since(c, ops, id) == [] then [] else before
      case Reopen(_) => before
  }

  function LastBound(ns: seq<nat>): nat {
    if ns == [] then 0 else ns[|ns| - 1]
  }

  /** The bucket after appending each event under its bound. */
  function Held(h: seq<Event>, ns: seq<nat>): Bucket
    requires |h| == |ns|
  {
    if h == [] then map[]
    else
      var k := |h| - 1;
      Bounded(Held(h[..k], ns[..k])[EncodeTS(h[k].timestamp) := h[k]], ns[k])
  }

  /** For each encoded time the event appended last. */
  function LastAt(h: seq<Event>): Bucket {
    if h == [] then map[] else LastAt(h[..|h| - 1])[EncodeTS(h[|h| - 1].timestamp) := h[|h| - 1]]
  }

  function Summary(h: seq<Event>): Session {
    if h == [] then NEW_SESSION else Touched(Summary(h[..|h| - 1]), h[|h| - 1])
  }

  /** The store holds for a session exactly what its history says. */
  ghost predicate Matches(db: Db, id: Bytes, h: seq<Event>, ns: seq<nat>)
    requires |h| == |ns|
  {
    && (id in db.sessions <==> h != [])
    && (id in db.events <==> h != [])
    && (h != [] ==> db.sessions[id] == Summary(h) && db.events[id] == Held(h, ns))
  }

  // ----- the invariant of every run -----

  /** Bounding a bucket before an event is stored changes nothing. */
  lemma OnlineBucket(b: Bucket, k: Bytes, e: Event, n: nat)
    ensures Bounded(Bounded(b, n)[k := e], n) == Bounded(b[k := e], n)
  {
    hide Top;
    OnlineTop(b.Keys, k, n);
    TopIsPart(b.Keys, n);
    TopIsPart(b.Keys + {k}, n);
    BoundedKeys(b, n);
    assert Bounded(b, n)[k := e].Keys == Top(b.Keys, n) + {k};
    assert b[k := e].Keys == b.Keys + {k};
    forall x | x in Top(b.Keys + {k}, n) ensures x in Bounded(b, n)[k := e] {
      TopIsPart(Top(b.Keys, n) + {k}, n);
    }
  }

  lemma TopIsPart(keys: set<Bytes>, n: nat)
    ensures Top(keys, n) <= keys
  {
  }

  lemma BoundedKeys(b: Bucket, n: nat)
    ensures Bounded(b, n).Keys == Top(b.Keys, n)
  {
  }

  lemma EmptyBounded(n: nat)
    ensures Bounded(map[], n) == map[]
  {
  }

  lemma {:induction false} SummaryFields(h: seq<Event>, id: Bytes)
    requires h != [] && id != [] && forall e :: e in h ==> e.sessionID == id
    ensures var s := Summary(h);
            && s.id == id && s.eventCount == |h|
            && s.firstSeen == h[0].timestamp && s.lastSeen == h[|h| - 1].timestamp
            && s.lastEventName == h[|h| - 1].name
  {
    if |h| > 1 {
      SummaryFields(h[..|h| - 1], id);
    } else {
      assert h[..0] == [];
    }
  }

  /** The last value that was not empty, or nothing if there was none. */
  ghost predicate IsLastSet(h: seq<Event>, get: Event -> Bytes, v: Bytes) {
    if v == [] then forall i :: 0 <= i < |h| ==> get(h[i]) == []
    else exists i :: 0 <= i < |h| && get(h[i]) == v && forall j :: i < j < |h| ==> get(h[j]) == []
  }

  lemma LastSetStep(h: seq<Event>, get: Event -> Bytes, v: Bytes, e: Event)
    requires IsLastSet(h, get, v)
    ensures IsLastSet(h + [e], get, Later(v, get(e)))
  {
    var all := h + [e];
    if get(e) != [] {
      assert get(all[|h|]) == get(e);
    } else if v != [] {
      var i :| 0 <= i < |h| && get(h[i]) == v && forall j :: i < j < |h| ==> get(h[j]) == [];
      assert get(all[i]) == v && forall j :: i < j < |all| ==> get(all[j]) == [];
    }
  }

  lemma {:induction false} SummaryKeepsAttrs(h: seq<Event>)
    ensures var s := Summary(h);
            && IsLastSet(h, (e: Event) => e.model, s.model) && IsLastSet(h, (e: Event) => e.toolName, s.lastToolName)
            && IsLastSet(h, (e: Event) => Attr(e, CWD), s.cwd) && IsLastSet(h, (e: Event) => Attr(e, USER_ID), s.userID)
  {
    hide IsLastSet;
    if h == [] {
      NothingSet((e: Event) => e.model);
      NothingSet((e: Event) => e.toolName);
      NothingSet((e: Event) => Attr(e, CWD));
      NothingSet((e: Event) => Attr(e, USER_ID));
    } else {
      var init, last := h[..|h| - 1], h[|h| - 1];
      var s := Summary(init);
      assert h == init + [last];
      SummaryKeepsAttrs(init);
      LastSetStep(init, (e: Event) => e.model, s.model, last);
      LastSetStep(init, (e: Event) => e.toolName, s.lastToolName, last);
      LastSetStep(init, (e: Event) => Attr(e, CWD), s.cwd, last);
      LastSetStep(init, (e: Event) => Attr(e, USER_ID), s.userID, last);
    }
  }

  /** Model, tool, working directory and user of a session are the last ones that any of its events gave. */
  lemma SummaryKeepsLastSet(h: seq<Event>)
    ensures var s := Summary(h);
            && IsLastSet(h, (e: Event) => e.model, s.model) && IsLastSet(h, (e: Event) => e.toolName, s.lastToolName)
            && IsLastSet(h, (e: Event) => if Ascii("cwd") in e.attrs then e.attrs[Ascii("cwd")] else [], s.cwd)
            && IsLastSet(h, (e: Event) => if Ascii("user.id") in e.attrs then e.attrs[Ascii("user.id")] else [],
                         s.userID)
  {
    hide IsLastSet, Summary;
    var s := Summary(h);
    SummaryKeepsAttrs(h);
    assert CWD == Ascii("cwd") && USER_ID == Ascii("user.id");
    SameGetter(h, (e: Event) => Attr(e, CWD),
               (e: Event) => if Ascii("cwd") in e.attrs then e.attrs[Ascii("cwd")] else [], s.cwd);
    SameGetter(h, (e: Event) => Attr(e, USER_ID),
               (e: Event) => if Ascii("user.id") in e.attrs then e.attrs[Ascii("user.id")] else [], s.userID);
  }

  lemma SameGetter(h: seq<Event>, get: Event -> Bytes, other: Event -> Bytes, v: Bytes)
    requires IsLastSet(h, get, v) && forall e :: get(e) == other(e)
    ensures IsLastSet(h, other, v)
  {
    if v != [] {
      var i :| 0 <= i < |h| && get(h[i]) == v && forall j :: i < j < |h| ==> get(h[j]) == [];
      assert other(h[i]) == v && forall j :: i < j < |h| ==> other(h[j]) == [];
    }
  }

  lemma NothingSet(get: Event -> Bytes)
    ensures IsLastSet([], get, [])
  {
  }

  lemma {:induction false} HistoryIsOwn(c: Limits, ops: seq<Op>, id: Bytes)
    ensures forall e :: e in Since(c, ops, id) ==> e.sessionID == id
    ensures Since(c, ops, id) != [] ==> id != []
  {
    if ops != [] {
      HistoryIsOwn(c, ops[..|ops| - 1], id);
    }
  }

  lemma HistorySnoc(h: seq<Event>, ns: seq<nat>, e: Event, n: nat)
    requires |h| == |ns|
    ensures Held(h + [e], ns + [n]) == Bounded(Held(h, ns)[EncodeTS(e.timestamp) := e], n)
    ensures Summary(h + [e]) == Touched(Summary(h), e)
  {
    assert (h + [e])[..|h|] == h && (ns + [n])[..|ns|] == ns;
  }

  lemma AppendMatches(db: Db, n: nat, e: Event, id: Bytes, h: seq<Event>, ns: seq<nat>)
    requires |h| == |ns| && Matches(db, id, h, ns) && e.sessionID != []
    ensures Matches(Appended(db, n, e), id,
                    if e.sessionID == id then h + [e] else h, if e.sessionID == id then ns + [n] else ns)
  {
    hide Bounded, Touched, Summary, EncodeTS;
    if e.sessionID == id {
      HistorySnoc(h, ns, e, n);
      EmptyHistory();
    }
  }

  lemma EmptyHistory()
    ensures Held([], []) == map[] && Summary([]) == NEW_SESSION
  {
  }

  lemma SweepMatches(db: Db, cutoff: int, id: Bytes, h: seq<Event>, ns: seq<nat>)
    requires |h| == |ns| && Matches(db, id, h, ns) && (h != [] ==> id != []) && forall e :: e in h ==> e.sessionID == id
    ensures var gone := h != [] && h[|h| - 1].timestamp < cutoff;
            Matches(Swept(db, cutoff), id, if gone then [] else h, if gone then [] else ns)
  {
    hide Bounded, Touched, Held, Summary;
    if h != [] {
      SummaryFields(h, id);
    }
  }

  /** After every run, for every session: it is stored exactly when it has a history, its metadata is the fold of that
      history, and its bucket is what appending the history, each event under the bound then in force, leaves. */
  lemma {:induction false} RunMatches(c: Limits, ops: seq<Op>, id: Bytes)
    ensures Matches(Run(c, ops), id, Since(c, ops, id), Bounds(c, ops, id))
  {
    hide Matches, Appended, Swept;
    if ops == [] {
      NothingMatches(id);
    } else {
      var k := |ops| - 1;
      var h, ns := Since(c, ops[..k], id), Bounds(c, ops[..k], id);
      var now := LimitsAt(c, ops[..k]);
      RunMatches(c, ops[..k], id);
      HistoryIsOwn(c, ops[..k], id);
      match ops[k] {
        case Append(e, t) =>
          if e.sessionID != [] {
            AppendMatches(Run(c, ops[..k]), now.maxEvents, Stamped(e, t), id, h, ns);
          }
        case Sweep(t) => SweepMatches(Run(c, ops[..k]), t - now.retention, id, h, ns);
        case Reopen(_) =>
      }
    }
  }

  lemma NothingMatches(id: Bytes)
    ensures Matches(Db(map[], map[]), id, [], [])
  {
  }

  // ----- bounds that change -----

  /** Each bound let in all events so far, or as many as the last one does. */
  predicate Roomy(ns: seq<nat>) {
    forall i :: 0 <= i < |ns| ==> ns[i] > i || ns[i] >= LastBound(ns)
  }

  /** While all processes have one bound, there is room. */
  lemma {:induction false} OneBoundIsRoomy(c: Limits, ops: seq<Op>, id: Bytes)
    requires forall op :: op in ops && op.Reopen? ==> op.limits.maxEvents == c.maxEvents
    ensures LimitsAt(c, ops).maxEvents == c.maxEvents
    ensures forall n :: n in Bounds(c, ops, id) ==> n == c.maxEvents
    ensures Roomy(Bounds(c, ops, id))
  {
    if ops != [] {
      var k := |ops| - 1;
      assert ops[k] in ops && forall op :: op in ops[..k] ==> op in ops;
      OneBoundIsRoomy(c, ops[..k], id);
    }
    var ns := Bounds(c, ops, id);
    assert forall i :: 0 <= i < |ns| ==> ns[i] in ns;
  }

  /** Whatever the bounds were, an entry under one of the `m` greatest keys is there, if no bound was below `m`. */
  lemma {:induction false} LeastBoundIsKept(h: seq<Event>, ns: seq<nat>, m: nat)
    requires |h| == |ns| && forall n :: n in ns ==> n >= m
    ensures Held(h, ns).Keys <= LastAt(h).Keys
    ensures Bounded(Held(h, ns), m) == Bounded(LastAt(h), m)
  {
    hide EncodeTS;
    if h != [] {
      var k := |h| - 1;
      assert ns[k] in ns && forall n :: n in ns[..k] ==> n in ns;
      LeastBoundIsKept(h[..k], ns[..k], m);
      HeldStep(Held(h[..k], ns[..k]), LastAt(h[..k]), h[k], ns[k], m);
    }
  }

  /** Two buckets that agree on their `m` greatest keys still do when an event is added, and one bounded by no less. */
  lemma HeldStep(b: Bucket, all: Bucket, e: Event, n: nat, m: nat)
    requires m <= n && Bounded(b, m) == Bounded(all, m) && b.Keys <= all.Keys
    ensures var k := EncodeTS(e.timestamp);
            Bounded(Bounded(b[k := e], n), m) == Bounded(all[k := e], m)
                && Bounded(b[k := e], n).Keys <= all[k := e].Keys
  {
    hide EncodeTS, Top;
    var k := EncodeTS(e.timestamp);
    OnlineBucket(b, k, e, m);
    OnlineBucket(all, k, e, m);
    BoundedTwice(b[k := e], n, m);
    BoundedKeys(b[k := e], n);
    TopIsPart(b[k := e].Keys, n);
  }

  lemma BoundedTwice(b: Bucket, n: nat, m: nat)
    requires m <= n
    ensures Bounded(Bounded(b, n), m) == Bounded(b, m)
  {
    hide Top;
    BoundedKeys(b, n);
    TopOfTop(b.Keys, m, n);
    TopIsPart(b.Keys, m);
    TopIsPart(Top(b.Keys, n), m);
  }

  /** With room, the bucket holds the entries of exactly the N greatest keys that were ever appended. */
  lemma HeldIfRoomy(h: seq<Event>, ns: seq<nat>)
    requires |h| == |ns| && Roomy(ns)
    ensures Held(h, ns) == Bounded(LastAt(h), LastBound(ns))
  {
    hide EncodeTS;
    if h != [] {
      var k := |h| - 1;
      RoomyFront(h[..k], ns[..k], ns[k]);
      HeldStep(Held(h[..k], ns[..k]), LastAt(h[..k]), h[k], ns[k], ns[k]);
      BoundedTwice(Held(h[..k], ns[..k])[EncodeTS(h[k].timestamp) := h[k]], ns[k], ns[k]);
    } else {
      EmptyBounded(LastBound(ns));
    }
  }

  lemma {:induction false} RoomyFront(h: seq<Event>, ns: seq<nat>, m: nat)
    requires |h| == |ns| && forall i :: 0 <= i < |ns| ==> ns[i] > i || ns[i] >= m
    ensures Bounded(Held(h, ns), m) == Bounded(LastAt(h), m) && Held(h, ns).Keys <= LastAt(h).Keys
  {
    hide EncodeTS, Top, Bounded;
    if h != [] {
      var k := |h| - 1;
      var b, all := Held(h[..k], ns[..k]), LastAt(h[..k]);
      var key := EncodeTS(h[k].timestamp);
      RoomyFront(h[..k], ns[..k], m);
      if ns[k] >= m {
        HeldStep(b, all, h[k], ns[k], m);
      } else {
        LastAtSize(h[..k]);
        Subset(b.Keys, all.Keys);
        assert b[key := h[k]].Keys == b.Keys + {key};
        SmallIsWhole(b[key := h[k]], ns[k]);
        OnlineBucket(b, key, h[k], m);
        OnlineBucket(all, key, h[k], m);
      }
    }
  }

  lemma SmallIsWhole(b: Bucket, n: nat)
    requires |b.Keys| <= n
    ensures Bounded(b, n) == b
  {
    SmallIsTop(b.Keys, n);
  }

  // ----- what a reader gets, in terms of times -----

  function Times(h: seq<Event>): set<int> {
    set e | e in h :: e.timestamp
  }

  /** The times with fewer than `n` later ones. */
  function LatestTimes(ts: set<int>, n: nat): set<int> {
    set t | t in ts && |LaterTimes(ts, t)| < n
  }

  function LaterTimes(ts: set<int>, t: int): set<int> {
    set x | x in ts && x > t
  }

  /** Times whose 64 bits are their own value: 1970 to 2554, of which Go defines the part before 2262. */
  predicate InEra(t: int) {
    0 <= t < 0x1_0000_0000_0000_0000
  }

  predicate BeforeEpoch(t: int) {
    -0x8000_0000_0000_0000 <= t < 0
  }

  predicate SameEra(a: int, b: int) {
    (InEra(a) && InEra(b)) || (BeforeEpoch(a) && BeforeEpoch(b))
  }

  /** All on one side of 1970. */
  ghost predicate OneEra(ts: set<int>) {
    forall a, b :: a in ts && b in ts ==> SameEra(a, b)
  }

  /** What time.UnixNano can return. */
  predicate IsNano(t: int) {
    -0x8000_0000_0000_0000 <= t < 0x8000_0000_0000_0000
  }

  lemma EraOrder(a: int, b: int)
    requires SameEra(a, b)
    ensures LexLess(EncodeTS(a), EncodeTS(b)) <==> a < b
    ensures EncodeTS(a) == EncodeTS(b) <==> a == b
  {
    hide EncodeTS, LexLess, Wrapped;
    KeyOrder(a, b);
    WrapInEra(a);
    WrapInEra(b);
  }

  lemma WrapInEra(t: int)
    ensures InEra(t) ==> Wrapped(t) == t
    ensures BeforeEpoch(t) ==> Wrapped(t) == t + 0x1_0000_0000_0000_0000
  {
  }

  function Keys(ts: set<int>): set<Bytes> {
    set t | t in ts :: EncodeTS(t)
  }

  function Image<S, T>(s: set<S>, f: S -> T): set<T> {
    set x | x in s :: f(x)
  }

  lemma {:induction false} ImageCount<S, T>(s: set<S>, f: S -> T)
    requires forall x, y :: x in s && y in s && f(x) == f(y) ==> x == y
    ensures |Image(s, f)| == |s|
  {
    if s == {} {
      assert Image(s, f) == {};
    } else {
      var x :| x in s;
      ImageCount(s - {x}, f);
      assert Image(s, f) == Image(s - {x}, f) + {f(x)};
    }
  }

  lemma KeysCount(ts: set<int>)
    requires OneEra(ts)
    ensures |Keys(ts)| == |ts|
  {
    forall a, b | a in ts && b in ts && EncodeTS(a) == EncodeTS(b) ensures a == b {
      EraOrder(a, b);
    }
    ImageCount(ts, EncodeTS);
    assert Image(ts, EncodeTS) == Keys(ts);
  }

  lemma LaterKeys(ts: set<int>, t: int)
    requires OneEra(ts) && t in ts
    ensures Greater(Keys(ts), EncodeTS(t)) == Keys(LaterTimes(ts, t))
  {
    hide EncodeTS, LexLess;
    forall k ensures k in Greater(Keys(ts), EncodeTS(t)) <==> k in Keys(LaterTimes(ts, t)) {
      if k in Keys(ts) {
        var x :| x in ts && k == EncodeTS(x);
        EraOrder(t, x);
        if k in Keys(LaterTimes(ts, t)) {
          var y :| y in LaterTimes(ts, t) && k == EncodeTS(y);
          EraOrder(x, y);
        }
      }
    }
  }

  /** The greatest keys are the latest times. */
  lemma TopKeysAreLatestTimes(ts: set<int>, n: nat, t: int)
    requires OneEra(ts) && t in ts
    ensures EncodeTS(t) in Top(Keys(ts), n) <==> t in LatestTimes(ts, n)
  {
    hide EncodeTS, Greater;
    LaterKeys(ts, t);
    KeysCount(LaterTimes(ts, t));
  }

  /** The event appended last at a time. */
  ghost predicate IsLastAt(h: seq<Event>, e: Event) {
    exists i :: 0 <= i < |h| && h[i] == e && forall j :: i < j < |h| ==> h[j].timestamp != e.timestamp
  }

  lemma {:induction false} LastAtKeys(h: seq<Event>)
    ensures LastAt(h).Keys == Keys(Times(h))
  {
    hide EncodeTS;
    if h != [] {
      var init, e := h[..|h| - 1], h[|h| - 1];
      LastAtKeys(init);
      assert h == init + [e];
      assert Times(h) == Times(init) + {e.timestamp};
    }
  }

  lemma {:induction false} LastAtIsLast(h: seq<Event>, t: int)
    requires OneEra(Times(h)) && t in Times(h)
    ensures EncodeTS(t) in LastAt(h) && LastAt(h)[EncodeTS(t)].timestamp == t && IsLastAt(h, LastAt(h)[EncodeTS(t)])
  {
    hide EncodeTS;
    if h != [] {
      var k := |h| - 1;
      var init, e := h[..k], h[k];
      assert h == init + [e];
      assert e.timestamp in Times(h) && Times(init) <= Times(h);
      EraOrder(t, e.timestamp);
      if t != e.timestamp {
        assert t in Times(init);
        LastAtIsLast(init, t);
        var x := LastAt(init)[EncodeTS(t)];
        var i :| 0 <= i < |init| && init[i] == x && forall j :: i < j < |init| ==> init[j].timestamp != x.timestamp;
        assert h[i] == x && forall j :: i < j < |h| ==> h[j].timestamp != x.timestamp;
      } else {
        assert h[k] == LastAt(h)[EncodeTS(t)];
      }
    }
  }

  /** After any sequence of appends in any time order, mixed with sweeps, a session's bucket holds the events of exactly
      the N latest distinct times appended since the session was created, each the event appended last at its time. */
  lemma LatestNOverRuns(c: Limits, ops: seq<Op>, id: Bytes)
    requires OneEra(Times(Since(c, ops, id))) && Roomy(Bounds(c, ops, id))
    ensures var h := Since(c, ops, id);
            var b := BucketAt(Run(c, ops), id);
            var latest := LatestTimes(Times(h), LastBound(Bounds(c, ops, id)));
            && (forall t :: t in Times(h) ==> (EncodeTS(t) in b <==> t in latest))
            && (forall k :: k in b ==> exists t :: t in Times(h) && k == EncodeTS(t))
            && (forall t :: t in latest ==>
                  EncodeTS(t) in b && b[EncodeTS(t)].timestamp == t && IsLastAt(h, b[EncodeTS(t)]))
  {
    hide Run, Since, Bounds, EncodeTS, Top, Times, LatestTimes, IsLastAt, LastAt, Summary, Keys, Roomy;
    var h := Since(c, ops, id);
    var n := LastBound(Bounds(c, ops, id));
    var ts := Times(h);
    StoredBucket(c, ops, id);
    LastAtKeys(h);
    KeysAre(ts);
    forall t | t in ts ensures EncodeTS(t) in Bounded(LastAt(h), n) <==> t in LatestTimes(ts, n) {
      TopKeysAreLatestTimes(ts, n, t);
    }
    LatestArePart(ts, n);
    forall t | t in LatestTimes(ts, n) ensures
        EncodeTS(t) in LastAt(h) && LastAt(h)[EncodeTS(t)].timestamp == t && IsLastAt(h, LastAt(h)[EncodeTS(t)]) {
      LastAtIsLast(h, t);
    }
  }

  lemma StoredBucket(c: Limits, ops: seq<Op>, id: Bytes)
    ensures BucketAt(Run(c, ops), id) == Held(Since(c, ops, id), Bounds(c, ops, id))
    ensures Roomy(Bounds(c, ops, id)) ==>
              BucketAt(Run(c, ops), id) == Bounded(LastAt(Since(c, ops, id)), LastBound(Bounds(c, ops, id)))
  {
    hide Run, Since, Bounds, Bounded, Summary, Roomy, LastAt, LastBound;
    RunMatches(c, ops, id);
    EmptyHistory();
    if Roomy(Bounds(c, ops, id)) {
      HeldIfRoomy(Since(c, ops, id), Bounds(c, ops, id));
    }
  }

  lemma KeysAre(ts: set<int>)
    ensures forall k :: k in Keys(ts) <==> exists t :: t in ts && k == EncodeTS(t)
  {
  }

  lemma LatestArePart(ts: set<int>, n: nat)
    ensures LatestTimes(ts, n) <= ts
  {
  }

  /** In every reachable state sessions and buckets have the same keys, every bucket holds between 1 and N events, no
      more than the session counted, and the metadata has the first and the last time and the number of appends. */
  lemma StoreInvariant(c: Limits, ops: seq<Op>, id: Bytes)
    requires c.maxEvents > 0 && forall op :: op in ops && op.Reopen? ==> op.limits.maxEvents > 0
    ensures var db := Run(c, ops);
            && (id in db.sessions <==> id in db.events)
            && (id in db.sessions ==>
                  var s := db.sessions[id];
                  var h := Since(c, ops, id);
                  && h != [] && s.id == id && s.eventCount == |h|
                  && s.firstSeen == h[0].timestamp && s.lastSeen == h[|h| - 1].timestamp
                  && 1 <= |db.events[id]| <= LastBound(Bounds(c, ops, id)) && |db.events[id]| <= s.eventCount)
  {
    hide Run, Since, Bounds, Summary;
    var h, ns := Since(c, ops, id), Bounds(c, ops, id);
    RunMatches(c, ops, id);
    HistoryIsOwn(c, ops, id);
    if h != [] {
      SummaryFields(h, id);
      BoundsArePositive(c, ops, id);
      HeldSize(h, ns);
      assert |Held(h, ns)| == |Held(h, ns).Keys|;
    }
  }

  lemma {:induction false} BoundsArePositive(c: Limits, ops: seq<Op>, id: Bytes)
    requires c.maxEvents > 0 && forall op :: op in ops && op.Reopen? ==> op.limits.maxEvents > 0
    ensures LimitsAt(c, ops).maxEvents > 0 && forall n :: n in Bounds(c, ops, id) ==> n > 0
  {
    if ops != [] {
      var k := |ops| - 1;
      assert ops[k] in ops && forall op :: op in ops[..k] ==> op in ops;
      BoundsArePositive(c, ops[..k], id);
    }
  }

  lemma HeldSize(h: seq<Event>, ns: seq<nat>)
    requires |h| == |ns| && h != [] && forall n :: n in ns ==> n > 0
    ensures 1 <= |Held(h, ns).Keys| <= LastBound(ns) && |Held(h, ns).Keys| <= |h|
  {
    hide EncodeTS, Top, Bounded, LastAt;
    var k := |h| - 1;
    var b := Held(h[..k], ns[..k])[EncodeTS(h[k].timestamp) := h[k]];
    assert ns[k] in ns && EncodeTS(h[k].timestamp) in b.Keys;
    BoundedKeys(b, ns[k]);
    TopSize(b.Keys, ns[k]);
    LeastBoundIsKept(h, ns, 0);
    LastAtSize(h);
    Subset(Held(h, ns).Keys, LastAt(h).Keys);
  }

  lemma {:induction false} LastAtSize(h: seq<Event>)
    ensures |LastAt(h).Keys| <= |h|
    ensures h != [] ==> |LastAt(h).Keys| >= 1
  {
    hide EncodeTS;
    if h != [] {
      var init, e := h[..|h| - 1], h[|h| - 1];
      LastAtSize(init);
      var k := EncodeTS(e.timestamp);
      assert LastAt(h).Keys == LastAt(init).Keys + {k};
      assert k in LastAt(h).Keys;
      if k in LastAt(init) {
        assert LastAt(h).Keys == LastAt(init).Keys;
      }
    }
  }

  /** Right after a sweep every session that is left was seen at or after the cutoff. */
  lemma SweptAreRecent(c: Limits, ops: seq<Op>, now: int, id: Bytes)
    ensures var db := Run(c, ops + [Sweep(now)]);
            id in db.sessions ==> db.sessions[id].lastSeen >= now - LimitsAt(c, ops).retention
    ensures var db := Run(c, ops + [Sweep(now)]);
            id in db.sessions
            <==> id in Run(c, ops).sessions && Run(c, ops).sessions[id].lastSeen >= now - LimitsAt(c, ops).retention
  {
    assert (ops + [Sweep(now)])[..|ops|] == ops;
  }

  /** A query returns, ascending in time, the first `limit` stored events at or after `since`. */
  lemma ListingIsByTime(b: Bucket, since: int, limit: nat, out: seq<Event>)
    requires IsAnswer(b, since, limit, out)
    requires forall k :: k in b ==> k == EncodeTS(b[k].timestamp)
    requires forall j, k :: j in b && k in b ==> SameEra(b[j].timestamp, b[k].timestamp)
    requires since == ZERO_TIME || forall k :: k in b ==> SameEra(b[k].timestamp, since)
    ensures forall i, j :: 0 <= i < j < |out| ==> out[i].timestamp < out[j].timestamp
    ensures forall i :: 0 <= i < |out| ==> out[i].timestamp >= since && out[i] in b.Values
    ensures forall k :: k in b && b[k].timestamp >= since ==>
              b[k] in out || (|out| == limit && forall i :: 0 <= i < |out| ==> out[i].timestamp < b[k].timestamp)
  {
    hide EncodeTS, LexLess;
    var keys :| IsListing(b, since, limit, keys, out);
    forall i, j | 0 <= i < j < |out| ensures out[i].timestamp < out[j].timestamp {
      EraOrder(out[i].timestamp, out[j].timestamp);
    }
    forall i | 0 <= i < |out| ensures out[i].timestamp >= since && out[i] in b.Values {
      assert keys[i] in b && out[i] == b[keys[i]] && SameEra(out[i].timestamp, out[i].timestamp);
      if since != ZERO_TIME {
        EraOrder(out[i].timestamp, since);
      }
    }
    forall k | k in b && b[k].timestamp >= since
      ensures b[k] in out || (|out| == limit && forall i :: 0 <= i < |out| ==> out[i].timestamp < b[k].timestamp) {
      if since != ZERO_TIME {
        EraOrder(b[k].timestamp, since);
      }
      assert FromSince(k, since);
      if k in keys {
        var i :| 0 <= i < |keys| && keys[i] == k;
        assert out[i] == b[k];
      } else {
        forall i | 0 <= i < |out| ensures out[i].timestamp < b[k].timestamp {
          EraOrder(out[i].timestamp, b[k].timestamp);
        }
      }
    }
  }

  /** After any run, a query lists, ascending in time, events that are the last appended at one of the N latest times of
      the session and not before `since`; it leaves out such a time only for `limit` earlier ones. */
  lemma QueryOverRuns(c: Limits, ops: seq<Op>, id: Bytes, since: int, limit: nat, out: seq<Event>)
    requires OneEra(Times(Since(c, ops, id)) + if since == ZERO_TIME then {} else {since}) && Roomy(Bounds(c, ops, id))
    requires IsAnswer(BucketAt(Run(c, ops), id), since, limit, out)
    ensures forall i, j :: 0 <= i < j < |out| ==> out[i].timestamp < out[j].timestamp
    ensures var h := Since(c, ops, id);
            var latest := LatestTimes(Times(h), LastBound(Bounds(c, ops, id)));
            && (forall e :: e in out ==> e.timestamp in latest && e.timestamp >= since && IsLastAt(h, e))
            && (forall t :: t in latest && t >= since ==>
                  (exists e :: e in out && e.timestamp == t)
                  || (|out| == limit && forall e :: e in out ==> e.timestamp < t))
  {
    hide Run, Since, Bounds, LastBound, EncodeTS, Times, LatestTimes, IsLastAt, IsAnswer, Roomy;
    var h := Since(c, ops, id);
    var b := BucketAt(Run(c, ops), id);
    var latest := LatestTimes(Times(h), LastBound(Bounds(c, ops, id)));
    FewerEras(Times(h), if since == ZERO_TIME then {} else {since});
    LatestNOverRuns(c, ops, id);
    LatestArePart(Times(h), LastBound(Bounds(c, ops, id)));
    forall k | k in b ensures k == EncodeTS(b[k].timestamp) && b[k].timestamp in latest && IsLastAt(h, b[k]) {
      var t :| t in Times(h) && k == EncodeTS(t);
      assert t in latest;
    }
    forall j, k | j in b && k in b
      ensures SameEra(b[j].timestamp, b[k].timestamp) && (since == ZERO_TIME || SameEra(b[k].timestamp, since)) {
      assert b[j].timestamp in Times(h) && b[k].timestamp in Times(h);
    }
    ListingIsByTime(b, since, limit, out);
    forall e | e in out ensures e.timestamp in latest && e.timestamp >= since && IsLastAt(h, e) {
      var i :| 0 <= i < |out| && out[i] == e;
      var k :| k in b && b[k] == e;
    }
    forall t | t in latest && t >= since
      ensures (exists e :: e in out && e.timestamp == t)
              || (|out| == limit && forall e :: e in out ==> e.timestamp < t) {
      var e := b[EncodeTS(t)];
      assert e in out || (|out| == limit && forall i :: 0 <= i < |out| ==> out[i].timestamp < e.timestamp);
    }
  }

  lemma FewerEras(ts: set<int>, more: set<int>)
    requires OneEra(ts + more)
    ensures OneEra(ts) && forall a, b :: a in ts && b in more ==> SameEra(a, b)
  {
  }

  // ----- times on both sides of 1970 -----

  /** Every time before 1970 sorts after every time from 1970 to 2262. */
  lemma BeforeEpochSortsLast(a: int, b: int)
    requires BeforeEpoch(a) && InEra(b) && IsNano(b)
    ensures LexLess(EncodeTS(b), EncodeTS(a)) && EncodeTS(b) != EncodeTS(a)
  {
    hide EncodeTS, LexLess, Wrapped;
    KeyOrder(b, a);
    WrapInEra(a);
    WrapInEra(b);
  }

  lemma NotBothWays(a: Bytes, b: Bytes)
    requires LexLess(a, b)
    ensures !LexLess(b, a)
  {
    LexTotal(a, b);
  }

  /** Keys order two times as time does, and a start admits a key as it admits its time, exactly when the two times are
      on the same side of 1970. */
  lemma KeysOrderTimesIff(a: int, b: int)
    requires IsNano(a) && IsNano(b)
    ensures (LexLess(EncodeTS(a), EncodeTS(b)) <==> a < b) <==> (a < 0 <==> b < 0)
    ensures (FromSince(EncodeTS(a), b) <==> a >= b) <==> (a < 0 <==> b < 0)
  {
    hide EncodeTS, LexLess;
    if a < 0 <==> b < 0 {
      EraOrder(a, b);
    } else if a < 0 {
      BeforeEpochSortsLast(a, b);
      NotBothWays(EncodeTS(b), EncodeTS(a));
    } else {
      BeforeEpochSortsLast(b, a);
    }
  }

  /** The times whose keys are greater. */
  function TimesAbove(ts: set<int>, t: int): set<int> {
    set x | x in ts && Wrapped(x) > Wrapped(t)
  }

  lemma WrapIsInjective(a: int, b: int)
    requires IsNano(a) && IsNano(b)
    ensures Wrapped(a) == Wrapped(b) <==> a == b
    ensures Wrapped(a) < Wrapped(b) <==> if a < 0 <==> b < 0 then a < b else b < 0
  {
    hide Wrapped;
    WrapInEra(a);
    WrapInEra(b);
  }

  lemma RankIs(ts: set<int>, t: int)
    requires (forall x :: x in ts ==> IsNano(x)) && t in ts
    ensures |Greater(Keys(ts), EncodeTS(t))| == |TimesAbove(ts, t)|
  {
    hide EncodeTS, LexLess, Wrapped;
    var above := TimesAbove(ts, t);
    forall x, y | x in above && y in above && EncodeTS(x) == EncodeTS(y) ensures x == y {
      KeyOrder(x, y);
      WrapIsInjective(x, y);
    }
    ImageCount(above, EncodeTS);
    forall k ensures k in Greater(Keys(ts), EncodeTS(t)) <==> k in Image(above, EncodeTS) {
      if x :| x in ts && k == EncodeTS(x) {
        KeyOrder(t, x);
        forall y | y in ts && k == EncodeTS(y) ensures y == x {
          KeyOrder(x, y);
          WrapIsInjective(x, y);
        }
      }
    }
    assert Greater(Keys(ts), EncodeTS(t)) == Image(above, EncodeTS);
  }

  /** The keys keep the latest times. */
  ghost predicate KeepsLatest(ts: set<int>, n: nat) {
    forall t :: t in ts ==> (|TimesAbove(ts, t)| < n <==> |LaterTimes(ts, t)| < n)
  }

  lemma Member<T>(s: set<T>) returns (x: T)
    requires s != {}
    ensures x in s
  {
    x :| x in s;
  }

  lemma {:induction false} GreatestTime(ts: set<int>) returns (t: int)
    requires ts != {}
    ensures t in ts && forall x :: x in ts ==> x <= t
  {
    t := Member(ts);
    if ts != {t} {
      var u := GreatestTime(ts - {t});
      assert forall x :: x in ts ==> x == t || x in ts - {t};
      t := if t < u then u else t;
    }
  }

  lemma {:induction false} LeastTime(ts: set<int>) returns (t: int)
    requires ts != {}
    ensures t in ts && forall x :: x in ts ==> t <= x
  {
    t := Member(ts);
    if ts != {t} {
      var u := LeastTime(ts - {t});
      assert forall x :: x in ts ==> x == t || x in ts - {t};
      t := if u < t then u else t;
    }
  }

  /** With times on both sides, the latest one before 1970 has the greatest key and the first one from 1970 on the
      least. If the first of these is kept rightly, all times from 1970 on are. */
  lemma BothErasLose(ts: set<int>, n: nat, a: int, b: int)
    requires (forall x :: x in ts ==> IsNano(x)) && 0 < n < |ts|
    requires a in ts && a < 0 && b in ts && b >= 0
    ensures !KeepsLatest(ts, n)
  {
    hide Wrapped;
    var early, late := set x | x in ts && x < 0, set x | x in ts && x >= 0;
    assert a in early && b in late;
    var g := GreatestTime(early);
    var c := LeastTime(late);
    forall x | x in ts ensures !(Wrapped(x) > Wrapped(g)) && (x != c ==> Wrapped(x) > Wrapped(c)) {
      WrapIsInjective(g, x);
      WrapIsInjective(c, x);
      assert x in early || x in late;
    }
    assert TimesAbove(ts, g) == {};
    assert ts - {c} <= TimesAbove(ts, c);
    Subset(ts - {c}, TimesAbove(ts, c));
    Subset(late, LaterTimes(ts, g));
    Fewer(LaterTimes(ts, c), late, c);
  }

  lemma KeepsLatestIff(ts: set<int>, n: nat)
    requires forall x :: x in ts ==> IsNano(x)
    ensures KeepsLatest(ts, n) <==> n == 0 || |ts| <= n || OneEra(ts)
  {
    hide Wrapped;
    if |ts| <= n {
      forall t | t in ts ensures |TimesAbove(ts, t)| < n && |LaterTimes(ts, t)| < n {
        Fewer(TimesAbove(ts, t), ts, t);
        Fewer(LaterTimes(ts, t), ts, t);
      }
    } else if OneEra(ts) {
      forall t | t in ts ensures TimesAbove(ts, t) == LaterTimes(ts, t) {
        forall x | x in ts ensures Wrapped(x) > Wrapped(t) <==> x > t {
          assert SameEra(x, t);
          WrapIsInjective(t, x);
        }
      }
    } else if n > 0 {
      var a, b :| a in ts && b in ts && !SameEra(a, b);
      BothErasLose(ts, n, if a < 0 then a else b, if a < 0 then b else a);
    }
  }

  /** A bucket holds exactly the N latest times appended if and only if N is zero, or no more than N times were
      appended, or all of them are on one side of 1970. */
  lemma HoldsLatestIff(c: Limits, ops: seq<Op>, id: Bytes)
    requires (forall e :: e in Since(c, ops, id) ==> IsNano(e.timestamp)) && Roomy(Bounds(c, ops, id))
    ensures var ts := Times(Since(c, ops, id));
            var n := LastBound(Bounds(c, ops, id));
            var b := BucketAt(Run(c, ops), id);
            (forall t :: t in ts ==> (EncodeTS(t) in b <==> t in LatestTimes(ts, n)))
            <==> n == 0 || |ts| <= n || OneEra(ts)
  {
    hide Run, Since, Bounds, LastBound, Roomy, EncodeTS, LastAt, Summary, Greater, OneEra, TimesAbove, LaterTimes;
    var h := Since(c, ops, id);
    var ts := Times(h);
    StoredBucket(c, ops, id);
    LastAtKeys(h);
    KeepsLatestIff(ts, LastBound(Bounds(c, ops, id)));
    forall t | t in ts ensures |Greater(Keys(ts), EncodeTS(t))| == |TimesAbove(ts, t)| {
      RankIs(ts, t);
    }
  }

  /** With room for one event, an event before 1970 evicts the latest one. */
  lemma EarlierEvictsLatest(c: Limits, e: Event, f: Event, now: int)
    requires c.maxEvents == 1 && e.sessionID == f.sessionID != []
    requires IsNano(e.timestamp) && IsNano(f.timestamp) && f.timestamp < 0 <= e.timestamp
    ensures BucketAt(Run(c, [Append(e, now), Append(f, now)]), e.sessionID) == map[EncodeTS(f.timestamp) := f]
    ensures LatestTimes({e.timestamp, f.timestamp}, 1) == {e.timestamp}
  {
    hide EncodeTS, LexLess, Touched;
    var ke, kf := EncodeTS(e.timestamp), EncodeTS(f.timestamp);
    var one, both := [Append(e, now)], [Append(e, now), Append(f, now)];
    BeforeEpochSortsLast(f.timestamp, e.timestamp);
    NotBothWays(ke, kf);
    LexTotal(ke, ke);
    LexTotal(kf, kf);
    assert one[..0] == [] && both[..1] == one;
    assert BucketAt(Run(c, []), e.sessionID) == map[];
    assert Greater({ke}, ke) == {};
    assert BucketAt(Run(c, one), e.sessionID) == map[ke := e];
    assert kf in Greater({ke, kf}, ke) && Greater({ke, kf}, kf) == {};
    assert Greater({ke, kf}, ke) != {};
    assert map[ke := e][kf := f].Keys == {ke, kf};
    assert LaterTimes({e.timestamp, f.timestamp}, e.timestamp) == {};
    assert e.timestamp in LaterTimes({e.timestamp, f.timestamp}, f.timestamp);
  }

  lemma {:induction false} AscendingCount(keys: seq<Bytes>, all: set<Bytes>)
    requires forall i, j :: 0 <= i < j < |keys| ==> LexLess(keys[i], keys[j])
    requires forall i :: 0 <= i < |keys| ==> keys[i] in all
    ensures |keys| <= |all|
  {
    hide LexLess;
    if keys != [] {
      var k := |keys| - 1;
      forall i | 0 <= i < k ensures keys[i] != keys[k] {
        LexTotal(keys[i], keys[k]);
      }
      AscendingCount(keys[..k], all - {keys[k]});
    }
  }

  /** A listing of a whole bucket ascends in time exactly when its times are on one side of 1970. */
  lemma ListingAscendsIff(b: Bucket, limit: nat, out: seq<Event>)
    requires IsAnswer(b, ZERO_TIME, limit, out) && |b| <= limit
    requires forall k :: k in b ==> IsNano(b[k].timestamp) && k == EncodeTS(b[k].timestamp)
    ensures (forall i, j :: 0 <= i < j < |out| ==> out[i].timestamp < out[j].timestamp)
            <==> OneEra(set k | k in b :: b[k].timestamp)
  {
    hide EncodeTS, LexLess;
    var ts := set k | k in b :: b[k].timestamp;
    if OneEra(ts) {
      forall j, k | j in b && k in b ensures SameEra(b[j].timestamp, b[k].timestamp) {
        assert b[j].timestamp in ts && b[k].timestamp in ts;
      }
      ListingIsByTime(b, ZERO_TIME, limit, out);
    } else {
      var t, u :| t in ts && u in ts && !SameEra(t, u);
      MixedListing(b, limit, out, if t < 0 then t else u, if t < 0 then u else t);
    }
  }

  lemma MixedListing(b: Bucket, limit: nat, out: seq<Event>, early: int, late: int)
    requires IsAnswer(b, ZERO_TIME, limit, out) && |b| <= limit
    requires EncodeTS(early) in b && b[EncodeTS(early)].timestamp == early && BeforeEpoch(early)
    requires EncodeTS(late) in b && b[EncodeTS(late)].timestamp == late && InEra(late) && IsNano(late)
    ensures exists i, j :: 0 <= i < j < |out| && out[i].timestamp >= out[j].timestamp
  {
    hide EncodeTS, LexLess, IsListing;
    var keys :| IsListing(b, ZERO_TIME, limit, keys, out);
    BeforeEpochSortsLast(early, late);
    NotBothWays(EncodeTS(late), EncodeTS(early));
    var i := AllListed(b, limit, keys, out, EncodeTS(late));
    var j := AllListed(b, limit, keys, out, EncodeTS(early));
    KeysAscend(b, limit, keys, out);
    assert i < j;
  }

  lemma KeysAscend(b: Bucket, limit: nat, keys: seq<Bytes>, out: seq<Event>)
    requires IsListing(b, ZERO_TIME, limit, keys, out)
    ensures forall i, j :: 0 <= i < j < |keys| ==> LexLess(keys[i], keys[j])
  {
  }

  lemma AllListed(b: Bucket, limit: nat, keys: seq<Bytes>, out: seq<Event>, k: Bytes) returns (i: nat)
    requires IsListing(b, ZERO_TIME, limit, keys, out) && |b| <= limit && k in b
    ensures i < |out| == |keys| && keys[i] == k && out[i] == b[k]
  {
    hide LexLess, EncodeTS;
    assert FromSince(k, ZERO_TIME) && |b| == |b.Keys|;
    if k !in keys {
      AscendingCount(keys, b.Keys - {k});
      assert false;
    }
    i :| 0 <= i < |keys| && keys[i] == k;
  }

  // ----- bounds that were raised too late -----

  /** For every history the bucket ends with the N greatest keys, N being the last bound, exactly when each bound let in
      all events so far or as many as the last one does. */
  lemma RoomyIff(ns: seq<nat>)
    requires (forall n :: n in ns ==> n > 0) && |ns| < 0x8000_0000_0000_0000
    ensures (forall h: seq<Event> | |h| == |ns| :: Held(h, ns) == Bounded(LastAt(h), LastBound(ns))) <==> Roomy(ns)
  {
    hide Held, Bounded, LastAt;
    if Roomy(ns) {
      forall h: seq<Event> | |h| == |ns| ensures Held(h, ns) == Bounded(LastAt(h), LastBound(ns)) {
        HeldIfRoomy(h, ns);
      }
    } else {
      var i :| 0 <= i < |ns| && ns[i] <= i && ns[i] < LastBound(ns);
      RisingLoses(ns, i);
      assert |Rising(|ns|, i)| == |ns|;
    }
  }

  /** Events at the times 0 to `top`, and from then on at `top` again. */
  function Rising(n: nat, top: nat): (h: seq<Event>)
    ensures |h| == n
  {
    seq(n, i => Event([], [], [], [], if i < top then i else top, map[], []))
  }

  lemma RisingFront(n: nat, top: nat)
    requires n > 0
    ensures Rising(n, top)[..n - 1] == Rising(n - 1, top)
    ensures Rising(n, top)[n - 1].timestamp == if n - 1 < top then n - 1 else top
    ensures forall e :: e in Rising(n, top) ==> 0 <= e.timestamp <= top
  {
  }

  /** The key of `top` is the greatest, so it is there once it was appended. */
  lemma TopIsIn(b: Bucket, e: Event, n: nat, all: set<int>)
    requires n > 0 && b.Keys <= Keys(all) && forall t :: t in all ==> 0 <= t <= e.timestamp < 0x8000_0000_0000_0000
    ensures EncodeTS(e.timestamp) in Bounded(b[EncodeTS(e.timestamp) := e], n)
  {
    hide EncodeTS, LexLess;
    var k := EncodeTS(e.timestamp);
    LexTotal(k, k);
    forall x | x in b ensures !LexLess(k, x) {
      var t :| t in all && x == EncodeTS(t);
      EraOrder(e.timestamp, t);
    }
    assert Greater(b[k := e].Keys, k) == {};
  }

  lemma {:induction false} RisingHeld(ns: seq<nat>, top: nat, n: nat)
    requires top < n <= |ns| < 0x8000_0000_0000_0000 && forall m :: m in ns ==> m > 0
    ensures |Held(Rising(n, top), ns[..n]).Keys| <= ns[top]
    ensures EncodeTS(top) in Held(Rising(n, top), ns[..n])
    decreases n
  {
    hide EncodeTS, Bounded, Top, Keys;
    var h := Rising(n, top);
    var b, e := Held(h[..n - 1], ns[..n - 1]), h[n - 1];
    RisingFront(n, top);
    assert ns[..n][..n - 1] == ns[..n - 1] && ns[n - 1] in ns;
    LeastBoundIsKept(h[..n - 1], ns[..n - 1], 0);
    LastAtKeys(h[..n - 1]);
    TopIsIn(b, e, ns[n - 1], Times(h[..n - 1]));
    var k := EncodeTS(top);
    BoundedKeys(b[k := e], ns[n - 1]);
    TopSize(b[k := e].Keys, ns[n - 1]);
    if n > top + 1 {
      RisingHeld(ns, top, n - 1);
      assert b[k := e].Keys == b.Keys;
    }
  }

  function UpTo(top: nat): (ts: set<int>)
    ensures |ts| == top + 1 && forall t :: t in ts <==> 0 <= t <= top
  {
    if top == 0 then {0} else UpTo(top - 1) + {top}
  }

  lemma RisingTimes(n: nat, top: nat)
    requires top < n
    ensures Times(Rising(n, top)) == UpTo(top)
  {
    hide UpTo;
    var h := Rising(n, top);
    forall t | t in UpTo(top) ensures t in Times(h) {
      RisingFront(t + 1, top);
      assert h[t] in h && h[t].timestamp == t;
    }
    RisingFront(n, top);
  }

  lemma RisingLoses(ns: seq<nat>, i: nat)
    requires i < |ns| < 0x8000_0000_0000_0000 && ns[i] <= i && ns[i] < LastBound(ns) && forall n :: n in ns ==> n > 0
    ensures var h := Rising(|ns|, i);
            Held(h, ns) != Bounded(LastAt(h), LastBound(ns))
  {
    hide EncodeTS, Bounded, Top, Held, Times, Keys, UpTo, Rising;
    var h := Rising(|ns|, i);
    assert ns[..|ns|] == ns;
    RisingHeld(ns, i, |ns|);
    LastAtKeys(h);
    RisingTimes(|ns|, i);
    UpToInEra(i);
    KeysCount(UpTo(i));
    BoundedKeys(LastAt(h), LastBound(ns));
    TopSize(LastAt(h).Keys, LastBound(ns));
  }

  lemma UpToInEra(top: nat)
    requires top < 0x8000_0000_0000_0000
    ensures OneEra(UpTo(top))
  {
  }
}
