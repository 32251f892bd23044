/** Running sums of delta points, kept per label hash and evicted when a series has been silent for too long. */
module Deltas {
  import opened Types

  /** A label set by name; the empty value stands for an absent label. */
  type LabelSet = map<Bytes, Bytes>

  /** Ten minutes, in nanoseconds. */
  const DELTA_TTL: int := 600_000_000_000

  datatype Entry = Entry(value: real, lastSeen: int)
  type Sums = map<nat, Entry>

  /** One call of accumulateDelta: the hash, the delta, and the clock at its sweep and at its stamp. */
  datatype Call = Call(fp: nat, delta: real, sweep: int, stamp: int)

  function Evicted(m: Sums, cutoff: int): Sums {
    map fp | fp in m && m[fp].lastSeen >= cutoff :: m[fp]
  }

  function Accumulated(m: Sums, c: Call): Sums {
    var kept := Evicted(m, c.sweep - DELTA_TTL);
    kept[c.fp := Entry(if c.fp in kept then kept[c.fp].value + c.delta else c.delta, c.stamp)]
  }

  function RunCalls(calls: seq<Call>): Sums {
    if calls == [] then map[] else Accumulated(RunCalls(calls[..|calls| - 1]), calls[|calls| - 1])
  }

  // ----- the reference: a series on its own -----

  /** The calls made for one hash. */
  function Own(calls: seq<Call>, fp: nat): seq<Call> {
    if calls == [] then []
    else Own(calls[..|calls| - 1], fp) + if calls[|calls| - 1].fp == fp then [calls[|calls| - 1]] else []
  }

  /** The sum since the last gap longer than the TTL. */
  function SinceGap(own: seq<Call>): real {
    if own == [] then 0.0
    else
      var k := |own| - 1;
      if k > 0 && own[k].sweep - own[k - 1].stamp <= DELTA_TTL then SinceGap(own[..k]) + own[k].delta
      else own[k].delta
  }

  /** A call within ten minutes of the one before it adds to the sum; after a longer gap, or at first, it starts
      over. */
  lemma StartsOver(own: seq<Call>, c: Call)
    ensures SinceGap(own + [c])
            == if own != [] && c.sweep - own[|own| - 1].stamp <= 600_000_000_000 then SinceGap(own) + c.delta
              else c.delta
  {
    assert (own + [c])[..|own|] == own;
  }

  lemma OwnSnoc(calls: seq<Call>, c: Call, fp: nat)
    ensures Own(calls + [c], fp) == if c.fp == fp then Own(calls, fp) + [c] else Own(calls, fp)
  {
    assert (calls + [c])[..|calls|] == calls;
  }

  ghost predicate Monotone(calls: seq<Call>) {
    && (forall i :: 0 <= i < |calls| ==> calls[i].sweep <= calls[i].stamp)
    && (forall i, j :: 0 <= i < j < |calls| ==> calls[i].stamp <= calls[j].sweep)
  }

  /** What the map says about one hash after a run. */
  ghost predicate Remembers(calls: seq<Call>, fp: nat) {
    var own := Own(calls, fp);
    var m := RunCalls(calls);
    if fp in m then own != [] && m[fp] == Entry(SinceGap(own), own[|own| - 1].stamp)
    else own == [] || (calls != [] && own[|own| - 1].stamp < calls[|calls| - 1].sweep - DELTA_TTL)
  }

  lemma RemembersMore(calls: seq<Call>, c: Call, fp: nat)
    requires Monotone(calls + [c]) && Remembers(calls, fp)
    ensures Remembers(calls + [c], fp)
  {
    var all := calls + [c];
    assert all[..|calls|] == calls && all[|calls|] == c;
    assert calls != [] ==> all[|calls| - 1] == calls[|calls| - 1];
    if c.fp == fp {
      assert Own(all, fp) == Own(calls, fp) + [c];
      assert (Own(calls, fp) + [c])[..|Own(calls, fp)|] == Own(calls, fp);
    } else {
      assert Own(all, fp) == Own(calls, fp);
    }
  }

  lemma {:induction false} RunRemembers(calls: seq<Call>, fp: nat)
    requires Monotone(calls)
    ensures Remembers(calls, fp)
  {
    if calls != [] {
      var k := |calls| - 1;
      assert calls == calls[..k] + [calls[k]];
      assert Monotone(calls[..k]);
      RunRemembers(calls[..k], fp);
      RemembersMore(calls[..k], calls[k], fp);
    }
  }

  /** Whatever other series do in between, and however often they sweep, a call returns the sum of its own hash's
      deltas since that hash's last gap longer than the TTL. */
  lemma OthersAreUnobservable(calls: seq<Call>, c: Call)
    requires Monotone(calls + [c])
    ensures RunCalls(calls + [c])[c.fp].value == SinceGap(Own(calls + [c], c.fp))
  {
    RunRemembers(calls + [c], c.fp);
    assert (calls + [c])[..|calls|] == calls;
  }

  // ----- the code -----

  class Accumulator {
    const hash: LabelSet -> nat
    /** The successive readings of the clock. */
    const clock: nat -> int
    var tick: nat
    var delta: Sums
    ghost var calls: seq<Call>

    ghost predicate Valid()
      reads this
    {
      && delta == RunCalls(calls)
      && Monotone(calls)
      && (forall i, j :: 0 <= i <= j ==> clock(i) <= clock(j))
      && (calls != [] ==> tick > 0 && calls[|calls| - 1].stamp <= clock(tick - 1))
    }

    constructor (hash: LabelSet -> nat, clock: nat -> int)
      requires forall i, j :: 0 <= i <= j ==> clock(i) <= clock(j)
      ensures Valid() && this.hash == hash && this.clock == clock && calls == [] && tick == 0
    {
      this.hash, this.clock, tick, delta, calls := hash, clock, 0, map[], [];
    }

    method Now() returns (t: int)
      modifies this`tick
      ensures t == clock(old(tick)) && tick == old(tick) + 1
    {
      t := clock(tick);
      tick := tick + 1;
    }

    method EvictStale()
      modifies this`tick, this`delta
      ensures delta == Evicted(old(delta), clock(old(tick)) - DELTA_TTL) && tick == old(tick) + 1
      ensures forall fp :: fp in delta <==>
                fp in old(delta) && clock(old(tick)) - old(delta)[fp].lastSeen <= 600_000_000_000
      ensures forall fp :: fp in delta ==> delta[fp] == old(delta)[fp]
    {
      var now := Now();
      var cutoff := now - DELTA_TTL;
      var fps := delta.Keys;
      while fps != {}
        invariant fps <= old(delta).Keys && tick == old(tick) + 1
        invariant delta == map fp | fp in old(delta)
                  && (fp in fps || old(delta)[fp].lastSeen >= cutoff) :: old(delta)[fp]
        decreases |fps|
      {
        var fp :| fp in fps;
        fps := fps - {fp};
        if delta[fp].lastSeen < cutoff {
          delta := delta - {fp};
        }
      }
    }

    /** The call it records and the sum it returns, in terms of the series' own history. */
    method AccumulateDelta(lset: LabelSet, d: real) returns (value: real)
      requires Valid()
      modifies this
      ensures Valid() && tick == old(tick) + 2
      ensures calls == old(calls) + [Call(hash(lset), d, clock(old(tick)), clock(old(tick) + 1))]
      ensures value == SinceGap(Own(calls, hash(lset)))
      ensures var own := Own(old(calls), hash(lset));
              value == if own != [] && clock(old(tick)) - own[|own| - 1].stamp <= 600_000_000_000 then SinceGap(own) + d
                       else d
    {
      hide Own, SinceGap, Monotone, RunCalls;
      var fp := hash(lset);
      ghost var c := Call(fp, d, clock(tick), clock(tick + 1));
      CallFollows(calls, c);
      OthersAreUnobservable(calls, c);
      OwnSnoc(calls, c, fp);
      StartsOver(Own(calls, fp), c);
      EvictStale();
      if fp !in delta {
        var now := Now();
        delta := delta[fp := Entry(d, now)];
        value := d;
      } else {
        var now := Now();
        delta := delta[fp := Entry(delta[fp].value + d, now)];
        value := delta[fp].value;
      }
      calls := calls + [c];
    }
  }

  lemma CallFollows(calls: seq<Call>, c: Call)
    requires Monotone(calls) && c.sweep <= c.stamp && (calls != [] ==> calls[|calls| - 1].stamp <= c.sweep)
    ensures Monotone(calls + [c]) && RunCalls(calls + [c]) == Accumulated(RunCalls(calls), c)
  {
    hide Monotone, Accumulated;
    assert (calls + [c])[..|calls|] == calls;
    LaterCall(calls, c);
  }

  lemma LaterCall(calls: seq<Call>, c: Call)
    requires Monotone(calls) && c.sweep <= c.stamp && (calls != [] ==> calls[|calls| - 1].stamp <= c.sweep)
    ensures Monotone(calls + [c])
  {
    forall i | 0 <= i < |calls| ensures calls[i].stamp <= c.sweep {
      if i < |calls| - 1 {
        assert calls[i].stamp <= calls[|calls| - 1].sweep;
      }
    }
  }

  // ----- label sets instead of hashes -----

  /** If the hash tells a label set from every other one that was called for, its history is the calls made with it. */
  lemma {:induction false} OwnIsByLabels(hash: LabelSet -> nat, ls: seq<LabelSet>, calls: seq<Call>, l: LabelSet)
    requires |ls| == |calls| && forall i :: 0 <= i < |ls| ==> calls[i].fp == hash(ls[i])
    requires forall i :: 0 <= i < |ls| && hash(ls[i]) == hash(l) ==> ls[i] == l
    ensures Own(calls, hash(l)) == OwnByLabels(ls, calls, l)
  {
    if calls != [] {
      var k := |calls| - 1;
      OwnIsByLabels(hash, ls[..k], calls[..k], l);
    }
  }

  function OwnByLabels(ls: seq<LabelSet>, calls: seq<Call>, l: LabelSet): seq<Call>
    requires |ls| == |calls|
  {
    if calls == [] then []
    else
      var k := |calls| - 1;
      OwnByLabels(ls[..k], calls[..k], l) + if ls[k] == l then [calls[k]] else []
  }
}
