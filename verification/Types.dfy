/** Values shared by every part of the store: Go strings, label sets, samples and matchers. */
module Types {

  /** A Go string or byte slice is a sequence of bytes. */
  type byte = b: nat | b < 256
  type Bytes = seq<byte>

  /** Go's int64; a sample's value is kept as the 64-bit pattern of its float64. */
  type Int64 = t: int | -0x8000_0000_0000_0000 <= t < 0x8000_0000_0000_0000
  type Bits64 = v: nat | v < 0x1_0000_0000_0000_0000

  const MIN_TIME: Int64 := -0x8000_0000_0000_0000

  datatype Option<+T> = None | Some(value: T)

  datatype Label = Label(name: Bytes, value: Bytes)

  /** A label set in its canonical order, so that equal sets are equal sequences. */
  type Labels = seq<Label>

  datatype Sample = Sample(t: Int64, v: Bits64)

  /** One sample of one series, as it is committed, logged and replayed. */
  datatype Record = Record(labels: Labels, t: Int64, v: Bits64)

  /** A matcher looks at the value of one label. How it compares is not interpreted. */
  datatype Matcher = Matcher(name: Bytes, matches: Bytes -> bool)

  /** The bytes of an ASCII literal. */
  function Ascii(text: string): (bs: Bytes)
    requires forall i :: 0 <= i < |text| ==> text[i] as int < 128
    ensures |bs| == |text| && forall i :: 0 <= i < |bs| ==> bs[i] == text[i] as int
  {
    seq(|text|, i requires 0 <= i < |text| => text[i] as int)
  }

  /** The value of the first label of that name, empty when there is none. */
  function LabelValue(ls: Labels, name: Bytes): (v: Bytes)
    ensures forall i :: 0 <= i < |ls| && ls[i].name == name && (forall j :: 0 <= j < i ==> ls[j].name != name) ==>
                          v == ls[i].value
    ensures (forall i :: 0 <= i < |ls| ==> ls[i].name != name) ==> v == []
  {
    if ls == [] then []
    else if ls[0].name == name then ls[0].value
    else LabelValue(ls[1..], name)
  }

  ghost predicate Matching(ls: Labels, ms: seq<Matcher>) {
    forall i :: 0 <= i < |ms| ==> ms[i].matches(LabelValue(ls, ms[i].name))
  }

  /** As labels.New and the builders leave them. */
  ghost predicate DistinctNames(ls: Labels) {
    forall i, j :: 0 <= i < j < |ls| ==> ls[i].name != ls[j].name
  }

  /** The matcher accepts each label of its name, and the empty string when there is none. */
  ghost predicate Accepts(m: Matcher, ls: Labels) {
    && (forall l :: l in ls && l.name == m.name ==> m.matches(l.value))
    && ((forall l :: l in ls ==> l.name != m.name) ==> m.matches([]))
  }

  ghost predicate AllAccept(ms: seq<Matcher>, ls: Labels) {
    forall m :: m in ms ==> Accepts(m, ls)
  }

  /** On a label set, the matchers accept exactly when each accepts the label of its name. */
  lemma MatchingIsAccepting(ls: Labels, ms: seq<Matcher>)
    requires DistinctNames(ls)
    ensures Matching(ls, ms) <==> AllAccept(ms, ls)
  {
    hide LabelValue;
    forall m: Matcher ensures Accepts(m, ls) <==> m.matches(LabelValue(ls, m.name)) {
      if i :| 0 <= i < |ls| && ls[i].name == m.name {
        assert ls[i] in ls;
        assert forall l :: l in ls && l.name == m.name ==> l == ls[i];
      }
    }
  }

  /** There is one matcher, and it asks for the label `n` with the value `v`. */
  ghost predicate IsEquality(ms: seq<Matcher>, n: Bytes, v: Bytes) {
    |ms| == 1 && ms[0].name == n && forall x :: ms[0].matches(x) <==> x == v
  }

  /** It accepts exactly the label sets that hold this label. */
  lemma EqualityMatches(ls: Labels, ms: seq<Matcher>, n: Bytes, v: Bytes)
    requires DistinctNames(ls) && IsEquality(ms, n, v) && v != []
    ensures Matching(ls, ms) <==> Label(n, v) in ls
  {
    MatchingIsAccepting(ls, ms);
    assert ms[0] in ms;
    if Accepts(ms[0], ls) {
      var l :| l in ls && l.name == n;
      assert l == Label(n, v);
    }
    if Label(n, v) in ls {
      assert forall l :: l in ls && l.name == n ==> l == Label(n, v);
    }
  }

  predicate InWindow(s: Sample, mint: Int64, maxt: Int64) {
    mint <= s.t <= maxt
  }

  /** The samples of a series that lie in a time window, in order. */
  function Window(samples: seq<Sample>, mint: Int64, maxt: Int64): (r: seq<Sample>)
    ensures forall s :: s in r <==> s in samples && InWindow(s, mint, maxt)
  {
    if samples == [] then []
    else
      var rest := Window(samples[..|samples| - 1], mint, maxt);
      var s := samples[|samples| - 1];
      assert samples == samples[..|samples| - 1] + [s];
      if InWindow(s, mint, maxt) then rest + [s] else rest
  }

  /** The window of one sample and of two runs end to end: order is kept, and nothing else is looked at. */
  lemma {:induction false} WindowConcat(a: seq<Sample>, b: seq<Sample>, mint: Int64, maxt: Int64)
    ensures Window(a + b, mint, maxt) == Window(a, mint, maxt) + Window(b, mint, maxt)
    ensures |b| == 1 ==> Window(b, mint, maxt) == if mint <= b[0].t <= maxt then b else []
  {
    if b == [] {
      assert a + b == a;
    } else {
      var k := |b| - 1;
      WindowConcat(a, b[..k], mint, maxt);
      assert (a + b)[..|a + b| - 1] == a + b[..k];
      if |b| == 1 {
        assert b[..0] == [] && b == [b[0]];
      }
    }
  }

  lemma {:induction false} WindowEmpty(samples: seq<Sample>, mint: Int64, maxt: Int64)
    ensures Window(samples, mint, maxt) == [] <==> forall s :: s in samples ==> !InWindow(s, mint, maxt)
  {
    if samples != [] {
      WindowEmpty(samples[..|samples| - 1], mint, maxt);
      assert samples == samples[..|samples| - 1] + [samples[|samples| - 1]];
    }
  }

  method MatchesAll(lset: Labels, matchers: seq<Matcher>) returns (ok: bool)
    ensures ok <==> Matching(lset, matchers)
    ensures DistinctNames(lset) ==> (ok <==> AllAccept(matchers, lset))
  {
    if DistinctNames(lset) {
      MatchingIsAccepting(lset, matchers);
    }
    for i := 0 to |matchers|
      invariant forall j :: 0 <= j < i ==> matchers[j].matches(LabelValue(lset, matchers[j].name))
    {
      if !matchers[i].matches(LabelValue(lset, matchers[i].name)) {
        return false;
      }
    }
    return true;
  }

  method FilterSamples(samples: seq<Sample>, mint: Int64, maxt: Int64) returns (result: seq<Sample>)
    ensures result == Window(samples, mint, maxt)
    ensures forall s :: s in result <==> s in samples && mint <= s.t <= maxt
  {
    result := [];
    for i := 0 to |samples|
      invariant result == Window(samples[..i], mint, maxt)
    {
      assert samples[..i + 1][..i] == samples[..i];
      if samples[i].t >= mint && samples[i].t <= maxt {
        result := result + [samples[i]];
      }
    }
    assert samples[..|samples|] == samples;
  }

  method HasOverlap(samples: seq<Sample>, mint: Int64, maxt: Int64) returns (overlap: bool)
    ensures overlap <==> Window(samples, mint, maxt) != []
    ensures overlap <==> exists s :: s in samples && mint <= s.t <= maxt
  {
    for i := 0 to |samples|
      invariant Window(samples[..i], mint, maxt) == []
      invariant forall j :: 0 <= j < i ==> !(mint <= samples[j].t <= maxt)
    {
      assert samples[..i + 1][..i] == samples[..i];
      if samples[i].t >= mint && samples[i].t <= maxt {
        assert samples[i] in Window(samples, mint, maxt);
        return true;
      }
    }
    assert samples[..|samples|] == samples;
    return false;
  }
}
