/** The session event store: per session a bucket of at most N events keyed by encoded time, and rolling metadata. */
module Sessions {
  import opened Types
  import opened Digits
  import opened Codec
  import opened Sorting
  import opened TopN

  /** Times are nanoseconds since 1970; Go's zero time is the start of the year 1. */
  const ZERO_TIME: int := -62_135_596_800 * 1_000_000_000

  const CWD: Bytes := [99, 119, 100]
  const USER_ID: Bytes := [117, 115, 101, 114, 46, 105, 100]
  const DEFAULT_LIMIT := 100

  datatype Event = Event(sessionID: Bytes, name: Bytes, toolName: Bytes, model: Bytes, timestamp: int,
                         attrs: map<Bytes, Bytes>, body: Bytes)

  datatype Session = Session(id: Bytes, userID: Bytes, model: Bytes, cwd: Bytes, lastEventName: Bytes,
                             lastToolName: Bytes, firstSeen: int, lastSeen: int, eventCount: nat)

  const NEW_SESSION := Session([], [], [], [], [], [], ZERO_TIME, ZERO_TIME, 0)

  type Bucket = map<Bytes, Event>
  datatype Db = Db(sessions: map<Bytes, Session>, events: map<Bytes, Bucket>)

  function Attr(e: Event, key: Bytes): Bytes {
    if key in e.attrs then e.attrs[key] else []
  }

  /** The 64 bits of uint64(t.UnixNano()), which wrap outside 1970 to 2554. */
  function Wrapped(t: int): nat {
    t % 0x1_0000_0000_0000_0000
  }

  function EncodeTS(t: int): Bytes {
    BigEndian(Wrapped(t), 8)
  }

  /** Byte order of keys is the order of the wrapped times. */
  lemma KeyOrder(a: int, b: int)
    ensures LexLess(EncodeTS(a), EncodeTS(b)) <==> Wrapped(a) < Wrapped(b)
    ensures EncodeTS(a) == EncodeTS(b) <==> Wrapped(a) == Wrapped(b)
  {
    Powers();
    LexOfFixed(Octets, Wrapped(a), Wrapped(b), 8);
  }

  // ----- what one operation does -----

  /** An event without a timestamp gets the current time. */
  function Stamped(e: Event, now: int): Event {
    if e.timestamp == ZERO_TIME then e.(timestamp := now) else e
  }

  function Later(previous: Bytes, latest: Bytes): Bytes {
    if latest != [] then latest else previous
  }

  /** The rolling metadata after one more event. */
  function Touched(s: Session, e: Event): Session {
    var t := if s.id == [] then s.(id := e.sessionID, firstSeen := e.timestamp) else s;
    t.(lastSeen := e.timestamp, lastEventName := e.name,
       lastToolName := Later(t.lastToolName, e.toolName), model := Later(t.model, e.model),
       cwd := Later(t.cwd, Attr(e, CWD)), userID := Later(t.userID, Attr(e, USER_ID)),
       eventCount := t.eventCount + 1)
  }

  /** The part of a bucket under its `n` greatest keys. */
  function Bounded(b: Bucket, n: nat): Bucket {
    map k | k in b && k in Top(b.Keys, n) :: b[k]
  }

  function SessionAt(db: Db, id: Bytes): Session {
    if id in db.sessions then db.sessions[id] else NEW_SESSION
  }

  function BucketAt(db: Db, id: Bytes): Bucket {
    if id in db.events then db.events[id] else map[]
  }

  function Appended(db: Db, n: nat, e: Event): Db {
    Db(db.sessions[e.sessionID := Touched(SessionAt(db, e.sessionID), e)],
       db.events[e.sessionID := Bounded(BucketAt(db, e.sessionID)[EncodeTS(e.timestamp) := e], n)])
  }

  /** The time an event is stored under: its own, or the clock's if it has Go's zero time. */
  function TimeOf(e: Event, now: int): int {
    if e.timestamp == -62_135_596_800 * 1_000_000_000 then now else e.timestamp
  }

  /** After an append, the session was last seen at the event's time, and under that time's key there is this event, if
      anything is; with room for one more, it is. All other entries were there before. */
  ghost predicate Stores(was: Db, n: nat, e: Event, t: int, db: Db) {
    var id := e.sessionID;
    && id in db.sessions && id in db.events
    && db.sessions[id].lastSeen == t
    && (id !in was.sessions ==> db.sessions[id].firstSeen == t)
    && (forall k :: k in db.events[id] ==>
          if k == EncodeTS(t) then db.events[id][k] == e.(timestamp := t)
          else id in was.events && k in was.events[id] && db.events[id][k] == was.events[id][k])
    && ((id in was.events ==> |was.events[id]| < n) && n > 0 ==> EncodeTS(t) in db.events[id])
    && db.sessions - {id} == was.sessions - {id} && db.events - {id} == was.events - {id}
  }

  lemma AppendStores(was: Db, n: nat, e: Event, now: int)
    requires e.sessionID != []
    ensures Stores(was, n, e, TimeOf(e, now), Appended(was, n, Stamped(e, now)))
  {
    hide EncodeTS, Bounded, Touched;
    var t := TimeOf(e, now);
    var x := e.(timestamp := t);
    assert Stamped(e, now) == x;
    TouchedTimes(SessionAt(was, e.sessionID), x);
    BoundedEntries(BucketAt(was, e.sessionID), EncodeTS(t), x, n);
    OneChanges(was.sessions, e.sessionID, Touched(SessionAt(was, e.sessionID), x));
    OneChanges(was.events, e.sessionID, Bounded(BucketAt(was, e.sessionID)[EncodeTS(t) := x], n));
    var db, b := Appended(was, n, x), BucketAt(was, e.sessionID);
    assert db.sessions == was.sessions[e.sessionID := Touched(SessionAt(was, e.sessionID), x)];
    assert db.events == was.events[e.sessionID := Bounded(b[EncodeTS(t) := x], n)];
    assert e.sessionID !in was.events ==> b == map[] && |b| == 0;
    assert db.events[e.sessionID] == Bounded(b[EncodeTS(t) := x], n);
    assert e.sessionID in was.events ==> b == was.events[e.sessionID];
    assert EncodeTS(t) in db.events[e.sessionID] ==> db.events[e.sessionID][EncodeTS(t)] == x;
    assert forall k :: k in db.events[e.sessionID] && k != EncodeTS(t) ==> k in b && db.events[e.sessionID][k] == b[k];
  }

  lemma TouchedTimes(s: Session, e: Event)
    ensures Touched(s, e).lastSeen == e.timestamp && (s.id == [] ==> Touched(s, e).firstSeen == e.timestamp)
  {
  }

  lemma OneChanges<K, V>(m: map<K, V>, k: K, v: V)
    ensures m[k := v] - {k} == m - {k}
  {
  }

  lemma BoundedEntries(b: Bucket, k: Bytes, e: Event, n: nat)
    ensures k in Bounded(b[k := e], n) ==> Bounded(b[k := e], n)[k] == e
    ensures forall x :: x in Bounded(b[k := e], n) && x != k ==> x in b && Bounded(b[k := e], n)[x] == b[x]
    ensures |b| < n ==> k in Bounded(b[k := e], n)
  {
    hide Top;
    if |b| < n {
      assert b[k := e].Keys == b.Keys + {k} && |b.Keys| == |b|;
      SmallIsTop(b[k := e].Keys, n);
    }
  }

  /** Every session last seen before the cutoff goes, with its events. */
  function Swept(db: Db, cutoff: int): Db {
    Db(map id | id in db.sessions && db.sessions[id].lastSeen >= cutoff :: db.sessions[id],
       map id | id in db.events && (id in db.sessions ==> db.sessions[id].lastSeen >= cutoff) :: db.events[id])
  }

  function LastSeenBefore(sessions: map<Bytes, Session>, cutoff: int): set<Bytes> {
    set id | id in sessions && sessions[id].lastSeen < cutoff
  }

  lemma SweptByDeleting(db: Db, cutoff: int)
    ensures var gone := LastSeenBefore(db.sessions, cutoff);
            Swept(db, cutoff) == Db(db.sessions - gone, db.events - gone)
  {
  }

  // ----- runs -----

  /** A store's limits: events kept per session, and retention in nanoseconds. */
  datatype Limits = Limits(maxEvents: nat, retention: int)

  /** Calls, and new processes that open the file, perhaps under other limits. */
  datatype Op = Append(event: Event, now: int) | Sweep(now: int) | Reopen(limits: Limits)

  /** The limits in force after the calls; those of the first process are `c`. */
  function LimitsAt(c: Limits, ops: seq<Op>): Limits {
    if ops == [] then c
    else if ops[|ops| - 1].Reopen? then ops[|ops| - 1].limits
    else LimitsAt(c, ops[..|ops| - 1])
  }

  function Step(c: Limits, db: Db, op: Op): Db {
    match op
    case Append(e, now) => if e.sessionID == [] then db else Appended(db, c.maxEvents, Stamped(e, now))
    case Sweep(now) => Swept(db, now - c.retention)
    case Reopen(_) => db
  }

  function Run(c: Limits, ops: seq<Op>): Db {
    if ops == [] then Db(map[], map[])
    else
      var before := ops[..|ops| - 1];
      Step(LimitsAt(c, before), Run(c, before), ops[|ops| - 1])
  }

  lemma RunSnoc(c: Limits, ops: seq<Op>, op: Op)
    ensures Run(c, ops + [op]) == Step(LimitsAt(c, ops), Run(c, ops), op)
    ensures LimitsAt(c, ops + [op]) == if op.Reopen? then op.limits else LimitsAt(c, ops)
  {
    assert (ops + [op])[..|ops|] == ops;
  }

  // ----- the code -----

  predicate NewerFirst(a: Session, b: Session) {
    a.lastSeen > b.lastSeen
  }

  class BBoltStore {
    const maxEventsPerSession: nat
    const retention: int
    var sessions: map<Bytes, Session>
    var events: map<Bytes, Bucket>

    /** The limits under which the file was first opened, and the calls made so far by all its processes. */
    ghost const first: Limits
    ghost var ops: seq<Op>

    /** The store is where its calls have brought it. */
    ghost predicate Valid()
      reads this
    {
      && maxEventsPerSession > 0
      && LimitsAt(first, ops) == Limits(maxEventsPerSession, retention)
      && Contents() == Run(first, ops)
    }

    /** The fields of a store over the two buckets of an opened database. */
    constructor Assemble(maxEvents: nat, retention: int, db: Db, ghost first: Limits, ghost ops: seq<Op>)
      ensures maxEventsPerSession == maxEvents && this.retention == retention && Contents() == db
      ensures this.first == first && this.ops == ops
    {
      maxEventsPerSession, this.retention := maxEvents, retention;
      sessions, events := db.sessions, db.events;
      this.first, this.ops := first, ops;
    }

    /** NewBBoltStore over what the file holds, which is empty at first; null stands for an error. `ready` says whether
        the file could be opened and its buckets created. The file may have been written under other limits. */
    static method NewBBoltStore(path: Bytes, maxEvents: int, retention: int, ready: bool, db: Db, ghost first: Limits,
                                ghost was: seq<Op>)
      returns (s: BBoltStore?)
      ensures s == null <==> path == [] || maxEvents <= 0 || !ready
      ensures s != null ==> fresh(s) && s.Contents() == db
      ensures s != null && db == Run(first, was) ==>
                s.Valid() && s.first == first && s.ops == was + [Reopen(Limits(maxEvents, retention))]
    {
      if path == [] || maxEvents <= 0 || !ready {
        return null;
      }
      RunSnoc(first, was, Reopen(Limits(maxEvents, retention)));
      s := new BBoltStore.Assemble(maxEvents, retention, db, first, was + [Reopen(Limits(maxEvents, retention))]);
    }

    ghost function Contents(): Db
      reads this
    {
      Db(sessions, events)
    }

    method AppendEvent(event: Event, now: int) returns (ok: bool)
      requires Valid()
      modifies this
      ensures Valid() && ops == old(ops) + [Append(event, now)]
      ensures ok <==> event.sessionID != []
      ensures ok ==> Stores(old(Contents()), maxEventsPerSession, event, TimeOf(event, now), Contents())
      ensures Contents() == if ok then Appended(old(Contents()), maxEventsPerSession, Stamped(event, now))
              else old(Contents())
    {
      hide Bounded, EncodeTS, Touched, Run, LimitsAt;
      RunSnoc(first, ops, Append(event, now));
      hide Stores;
      ops := ops + [Append(event, now)];
      if event.sessionID == [] {
        return false;
      }
      AppendStores(Contents(), maxEventsPerSession, event, now);
      var evt := event;
      if evt.timestamp == ZERO_TIME {
        evt := evt.(timestamp := now);
      }
      var sess := NEW_SESSION;
      if evt.sessionID in sessions {
        sess := sessions[evt.sessionID];
      }
      sess := Touch(sess, evt);
      sessions := sessions[evt.sessionID := sess];
      var eb := if evt.sessionID in events then events[evt.sessionID] else map[];
      eb := eb[EncodeTS(evt.timestamp) := evt];
      eb := EnforceBound(eb);
      events := events[evt.sessionID := eb];
      return true;
    }

    /** The field updates of AppendEvent. */
    static method Touch(previous: Session, evt: Event) returns (sess: Session)
      ensures sess == Touched(previous, evt)
    {
      sess := previous;
      if sess.id == [] {
        sess := sess.(id := evt.sessionID, firstSeen := evt.timestamp);
      }
      sess := sess.(lastSeen := evt.timestamp, lastEventName := evt.name);
      if evt.toolName != [] {
        sess := sess.(lastToolName := evt.toolName);
      }
      if evt.model != [] {
        sess := sess.(model := evt.model);
      }
      if Attr(evt, CWD) != [] {
        sess := sess.(cwd := Attr(evt, CWD));
      }
      if Attr(evt, USER_ID) != [] {
        sess := sess.(userID := Attr(evt, USER_ID));
      }
      sess := sess.(eventCount := sess.eventCount + 1);
    }

    /** Counts the keys, then deletes the first one as often as there are too many. */
    method EnforceBound(bucket: Bucket) returns (eb: Bucket)
      ensures eb == Bounded(bucket, maxEventsPerSession)
    {
      var count := 0;
      var seen := bucket.Keys;
      while seen != {}
        invariant seen <= bucket.Keys && count == |bucket.Keys| - |seen|
        decreases |seen|
      {
        var k :| k in seen;
        seen := seen - {k};
        count := count + 1;
      }
      var excess := count - maxEventsPerSession;
      eb := bucket;
      if excess > 0 {
        for i := 0 to excess
          invariant |eb.Keys| == count - i
          invariant eb.Keys <= bucket.Keys && forall k :: k in eb ==> eb[k] == bucket[k]
          invariant Top(eb.Keys, maxEventsPerSession) == Top(bucket.Keys, maxEventsPerSession)
        {
          ghost var least := FirstExists(eb.Keys);
          var k :| k in eb && forall x :: x in eb ==> !LexLess(x, k);
          EvictFirst(eb.Keys, k, maxEventsPerSession);
          eb := eb - {k};
        }
      }
      SmallIsTop(eb.Keys, maxEventsPerSession);
    }

    /** Walks a cursor from the first key, or from the first one at or after `since`, over at most `limit` keys. */
    method GetEvents(sessionID: Bytes, since: int, maxCount: int) returns (out: seq<Event>)
      ensures IsAnswer(BucketAt(Contents(), sessionID), since, if maxCount <= 0 then 100 else maxCount, out)
    {
      var limit: nat := if maxCount <= 0 then DEFAULT_LIMIT else maxCount;
      if sessionID !in events {
        assert IsListing(map[], since, limit, [], []);
        return [];
      }
      var eb := events[sessionID];
      out := Walk(eb, since, limit);
    }

    /** The cursor's walk: the first key, then each next one. */
    method Walk(eb: Bucket, since: int, limit: nat) returns (out: seq<Event>)
      ensures IsAnswer(eb, since, limit, out)
    {
      hide LexLess, FromSince;
      out := [];
      ghost var keys: seq<Bytes> := [];
      var todo := set k | k in eb && FromSince(k, since);
      while todo != {} && |out| < limit
        invariant |out| == |keys| <= limit
        invariant forall k :: k in todo ==> k in eb && FromSince(k, since)
        invariant forall k :: k in eb && FromSince(k, since) ==> k in todo || k in keys
        invariant forall i :: 0 <= i < |keys| ==> keys[i] in eb && FromSince(keys[i], since) && out[i] == eb[keys[i]]
        invariant forall i, k :: 0 <= i < |keys| && k in todo ==> LexLess(keys[i], k)
        invariant forall i, j :: 0 <= i < j < |keys| ==> LexLess(keys[i], keys[j])
        decreases |todo|
      {
        ghost var least := FirstExists(todo);
        var k :| k in todo && forall x :: x in todo ==> !LexLess(x, k);
        forall x | x in todo && x != k ensures LexLess(k, x) {
          LexTotal(k, x);
        }
        out, keys := out + [eb[k]], keys + [k];
        todo := todo - {k};
      }
      assert IsListing(eb, since, limit, keys, out);
    }

    /** Sessions last seen at or after `since`, each once, newest first. */
    method ListSessions(since: int) returns (out: seq<Session>)
      ensures |out| == |set id | id in sessions && (since == ZERO_TIME || sessions[id].lastSeen >= since)|
      ensures forall s :: s in out <==>
                exists id :: id in sessions && (since == ZERO_TIME || sessions[id].lastSeen >= since)
                    && s == sessions[id]
      ensures forall i, j :: 0 <= i < j < |out| ==> out[i].lastSeen >= out[j].lastSeen
    {
      hide SeenSince;
      var found := CollectSessions(since);
      out := Sort(found, NewerFirst);
      SameElements(found, out);
      SeenMeans(sessions, since);
      assert |multiset(out)| == |multiset(found)|;
    }

    /** The loop of ListSessions over the bucket. */
    method CollectSessions(since: int) returns (found: seq<Session>)
      ensures |found| == |SeenSince(sessions, {}, since)|
      ensures forall s :: s in found <==> exists id :: id in SeenSince(sessions, {}, since) && s == sessions[id]
    {
      hide SeenSince;
      found := [];
      var ids := sessions.Keys;
      SeenBounds(sessions, since);
      while ids != {}
        invariant ids <= sessions.Keys && |found| == |SeenSince(sessions, ids, since)|
        invariant SeenSince(sessions, ids, since) <= sessions.Keys
        invariant forall s :: s in found <==> exists id :: id in SeenSince(sessions, ids, since) && s == sessions[id]
        decreases |ids|
      {
        var id :| id in ids;
        SeenStep(sessions, ids, id, since);
        ids := ids - {id};
        var sess := sessions[id];
        if !(since != ZERO_TIME && sess.lastSeen < since) {
          found := found + [sess];
        }
      }
    }

    method RunRetentionOnce(now: int)
      requires Valid()
      modifies this
      ensures Valid() && ops == old(ops) + [Sweep(now)]
      ensures Contents() == Swept(old(Contents()), now - retention)
    {
      hide Run, Swept, LastSeenBefore, LimitsAt;
      RunSnoc(first, ops, Sweep(now));
      ops := ops + [Sweep(now)];
      var cutoff := now - retention;
      var toDelete := ScanSessions(cutoff);
      SweptByDeleting(Contents(), cutoff);
      DeleteSessions(toDelete);
    }

    /** The loop of the sweep that lists the sessions to delete. */
    method ScanSessions(cutoff: int) returns (toDelete: set<Bytes>)
      ensures toDelete == LastSeenBefore(sessions, cutoff)
    {
      toDelete := {};
      var ids := sessions.Keys;
      while ids != {}
        invariant ids <= sessions.Keys
        invariant forall id :: id in toDelete <==> id in sessions.Keys - ids && sessions[id].lastSeen < cutoff
        decreases |ids|
      {
        var id :| id in ids;
        ids := ids - {id};
        if sessions[id].lastSeen < cutoff {
          toDelete := toDelete + {id};
        }
      }
    }

    method DeleteSessions(toDelete: set<Bytes>)
      modifies this`sessions, this`events
      ensures sessions == old(sessions) - toDelete && events == old(events) - toDelete
    {
      var left := toDelete;
      while left != {}
        invariant left <= toDelete
        invariant sessions == old(sessions) - (toDelete - left) && events == old(events) - (toDelete - left)
        decreases |left|
      {
        var id :| id in left;
        left := left - {id};
        sessions := sessions - {id};
        events := events - {id};
      }
      assert toDelete - left == toDelete;
    }
  }

  /** The sessions outside `rest` that were seen at or after `since`; the zero time admits all. */
  function SeenSince(sessions: map<Bytes, Session>, rest: set<Bytes>, since: int): set<Bytes> {
    set id | id in sessions && id !in rest && (since == ZERO_TIME || sessions[id].lastSeen >= since)
  }

  lemma SeenMeans(sessions: map<Bytes, Session>, since: int)
    ensures SeenSince(sessions, {}, since)
            == set id | id in sessions && (since == ZERO_TIME || sessions[id].lastSeen >= since)
  {
  }

  lemma SeenBounds(sessions: map<Bytes, Session>, since: int)
    ensures SeenSince(sessions, sessions.Keys, since) == {} && SeenSince(sessions, {}, since) <= sessions.Keys
  {
  }

  lemma SeenStep(sessions: map<Bytes, Session>, rest: set<Bytes>, id: Bytes, since: int)
    requires id in rest && rest <= sessions.Keys
    ensures id !in SeenSince(sessions, rest, since) && SeenSince(sessions, rest - {id}, since) <= sessions.Keys
    ensures SeenSince(sessions, rest - {id}, since)
            == SeenSince(sessions, rest, since) + if since == ZERO_TIME || sessions[id].lastSeen >= since then {id}
              else {}
  {
  }

  /** A key that a walk starting at `since` may visit. */
  predicate FromSince(k: Bytes, since: int) {
    since == ZERO_TIME || !LexLess(k, EncodeTS(since))
  }

  ghost predicate IsAnswer(b: Bucket, since: int, limit: nat, out: seq<Event>) {
    exists keys :: IsListing(b, since, limit, keys, out)
  }

  /** `keys` are the first `limit` keys at or after `since`, ascending, and `out` the events under them. */
  ghost predicate IsListing(b: Bucket, since: int, limit: nat, keys: seq<Bytes>, out: seq<Event>) {
    && |out| == |keys| <= limit
    && (forall i, j :: 0 <= i < j < |keys| ==> LexLess(keys[i], keys[j]))
    && (forall i :: 0 <= i < |keys| ==> keys[i] in b && FromSince(keys[i], since) && out[i] == b[keys[i]])
    && (forall k :: k in b && FromSince(k, since) ==>
          k in keys || (|keys| == limit && forall i :: 0 <= i < |keys| ==> LexLess(keys[i], k)))
  }
}
