/** The binary record format of the write-ahead log, and the replay of one segment file. */
module Codec {
  import opened Types
  import opened Digits

  /** The encodings of the elements, one after the other. */
  function Concat<T>(enc: T -> Bytes, xs: seq<T>): Bytes {
    if xs == [] then [] else Concat(enc, xs[..|xs| - 1]) + enc(xs[|xs| - 1])
  }

  lemma Assoc<T>(a: seq<T>, b: seq<T>, c: seq<T>)
    ensures a + b + c == a + (b + c)
  {
  }

  lemma Cut<T>(a: seq<T>, b: seq<T>)
    ensures (a + b)[..|a|] == a && (a + b)[|a|..] == b
  {
  }

  lemma ConcatSnoc<T>(enc: T -> Bytes, xs: seq<T>, x: T)
    ensures Concat(enc, xs + [x]) == Concat(enc, xs) + enc(x)
  {
    assert (xs + [x])[..|xs|] == xs;
  }

  lemma {:induction false} ConcatAppend<T>(enc: T -> Bytes, a: seq<T>, b: seq<T>)
    ensures Concat(enc, a + b) == Concat(enc, a) + Concat(enc, b)
  {
    if b == [] {
      assert a + b == a;
    } else {
      hide Concat;
      var init, x := b[..|b| - 1], b[|b| - 1];
      assert b == init + [x];
      Assoc(a, init, [x]);
      ConcatAppend(enc, a, init);
      ConcatSnoc(enc, a + init, x);
      ConcatSnoc(enc, init, x);
      Assoc(Concat(enc, a), Concat(enc, init), enc(x));
    }
  }

  // ----- the format -----

  /** `w` big-endian bytes; like Go's conversions to uint16 and uint32 it keeps only the low bits. */
  function BigEndian(n: nat, w: nat): (bs: Bytes)
    ensures |bs| == w
  {
    Octets.Fixed(n, w)
  }

  function FromBigEndian(bs: Bytes): nat {
    Octets.Value(bs)
  }

  /** uint64(t) for an int64 t, and back. */
  function Uint64(t: Int64): Bits64 {
    if t >= 0 then t else t + 0x1_0000_0000_0000_0000
  }

  function ToInt64(u: Bits64): Int64 {
    if u < 0x8000_0000_0000_0000 then u else u - 0x1_0000_0000_0000_0000
  }

  function EncodeString(s: Bytes): Bytes {
    BigEndian(|s|, 2) + s
  }

  function EncodeLabel(l: Label): Bytes {
    EncodeString(l.name) + EncodeString(l.value)
  }

  function EncodeLabels(ls: Labels): Bytes {
    Concat(EncodeLabel, ls)
  }

  function EncodeTail(r: Record): Bytes {
    BigEndian(Uint64(r.t), 8) + BigEndian(r.v, 8)
  }

  function Body(r: Record): Bytes {
    BigEndian(|r.labels|, 2) + (EncodeLabels(r.labels) + EncodeTail(r))
  }

  function Encode(r: Record): Bytes {
    BigEndian(|Body(r)|, 4) + Body(r)
  }

  function EncodeAll(rs: seq<Record>): Bytes {
    Concat(Encode, rs)
  }

  /** The widths of the format: no length is cut off by its field. */
  ghost predicate FitsLabels(ls: Labels) {
    |ls| < 0x1_0000 && forall l :: l in ls ==> |l.name| < 0x1_0000 && |l.value| < 0x1_0000
  }

  ghost predicate Fits(r: Record) {
    FitsLabels(r.labels) && |Body(r)| < 0x1_0000_0000
  }

  ghost predicate AllFit(rs: seq<Record>) {
    forall r :: r in rs ==> Fits(r)
  }

  // ----- reading -----

  /** What reading one record does: io.EOF, io.ErrUnexpectedEOF, an index out of range, or a record. */
  datatype ReadResult = Eof | UnexpectedEof | Panicked | Got(rec: Record, rest: Bytes)

  function DecodeString(d: Bytes): Option<(Bytes, Bytes)> {
    if |d| < 2 then None
    else
      var n := FromBigEndian(d[..2]);
      if |d| < 2 + n then None else Some((d[2..2 + n], d[2 + n..]))
  }

  function DecodeLabel(d: Bytes): Option<(Label, Bytes)> {
    match DecodeString(d)
    case None => None
    case Some((name, d1)) =>
      match DecodeString(d1)
      case None => None
      case Some((value, d2)) => Some((Label(name, value), d2))
  }

  /** Decodes `n` elements one after the other. */
  function DecodeMany<T>(dec: Bytes -> Option<(T, Bytes)>, done: seq<T>, d: Bytes, n: nat): Option<(seq<T>, Bytes)>
    decreases n
  {
    if n == 0 then Some((done, d))
    else
      match dec(d)
      case None => None
      case Some((x, d')) => DecodeMany(dec, done + [x], d', n - 1)
  }

  function DecodeLabels(done: Labels, d: Bytes, n: nat): Option<(Labels, Bytes)> {
    DecodeMany(DecodeLabel, done, d, n)
  }

  function DecodeTail(ls: Labels, d: Bytes): Option<Record> {
    if |d| < 16 then None
    else
      OctetBound(d[..8]);
      OctetBound(d[8..16]);
      Some(Record(ls, ToInt64(FromBigEndian(d[..8])), FromBigEndian(d[8..16])))
  }

  /** None is a slice index out of range, which panics in Go. */
  function DecodeBody(d: Bytes): Option<Record> {
    if |d| < 2 then None
    else
      match DecodeLabels([], d[2..], FromBigEndian(d[..2]))
      case None => None
      case Some((ls, d')) => DecodeTail(ls, d')
  }

  function ReadRecord(bs: Bytes): (res: ReadResult)
    ensures res.Got? ==> |res.rest| < |bs|
  {
    if |bs| == 0 then Eof
    else if |bs| < 4 then UnexpectedEof
    else
      var size := FromBigEndian(bs[..4]);
      if size > 0 && |bs| == 4 then Eof
      else if |bs| < 4 + size then UnexpectedEof
      else
        match DecodeBody(bs[4..4 + size])
        case None => Panicked
        case Some(r) => Got(r, bs[4 + size..])
  }

  /** How the replay of a segment ends: with nil, with an error, or with a panic. */
  datatype End = Finished | Failed | Crashed
  datatype Replayed = Replayed(records: seq<Record>, end: End)

  function ReplayFrom(delivered: seq<Record>, bs: Bytes): Replayed
    decreases |bs|
  {
    match ReadRecord(bs)
    case Eof => Replayed(delivered, Finished)
    case UnexpectedEof => Replayed(delivered, Failed)
    case Panicked => Replayed(delivered, Crashed)
    case Got(r, rest) => ReplayFrom(delivered + [r], rest)
  }

  function Replay(bs: Bytes): Replayed {
    ReplayFrom([], bs)
  }

  // ----- the code -----

  method EncodeWALRecord(rec: Record) returns (data: Bytes)
    ensures data == Encode(rec)
  {
    var lbls := rec.labels;
    var buf := BigEndian(|lbls|, 2);
    for i := 0 to |lbls|
      invariant buf == BigEndian(|lbls|, 2) + EncodeLabels(lbls[..i])
    {
      var l := lbls[i];
      buf := buf + BigEndian(|l.name|, 2);
      buf := buf + l.name;
      buf := buf + BigEndian(|l.value|, 2);
      buf := buf + l.value;
      ConcatSnoc(EncodeLabel, lbls[..i], l);
      assert lbls[..i + 1] == lbls[..i] + [l];
    }
    assert lbls[..|lbls|] == lbls;
    buf := buf + BigEndian(Uint64(rec.t), 8);
    buf := buf + BigEndian(rec.v, 8);
    assert buf == Body(rec);
    data := BigEndian(|buf|, 4) + buf;
  }

  method DecodeWALRecord(r: Bytes) returns (res: ReadResult)
    ensures res == ReadRecord(r)
  {
    if |r| == 0 { return Eof; }
    if |r| < 4 { return UnexpectedEof; }
    var size := FromBigEndian(r[..4]);
    if size > 0 && |r| == 4 { return Eof; }
    if |r| < 4 + size { return UnexpectedEof; }
    var rec := DecodeData(r[4..4 + size]);
    match rec {
      case None => return Panicked;
      case Some(got) => return Got(got, r[4 + size..]);
    }
  }

  /** The slice data[offset..offset+n] that the decoder takes after reading n, or None when it panics. */
  method TakeString(data: Bytes, offset: nat) returns (s: Option<Bytes>, next: nat)
    requires offset <= |data|
    ensures offset <= next <= |data|
    ensures DecodeString(data[offset..]) == if s.Some? then Some((s.value, data[next..])) else None
  {
    next := offset;
    if |data| - offset < 2 { return None, next; }
    assert data[offset..offset + 2] == data[offset..][..2];
    var n := FromBigEndian(data[offset..offset + 2]);
    if |data| - (offset + 2) < n { return None, next; }
    next := offset + 2 + n;
    s := Some(data[offset + 2..next]);
    assert data[offset..][2..2 + n] == s.value && data[offset..][2 + n..] == data[next..];
  }

  method DecodeData(data: Bytes) returns (rec: Option<Record>)
    ensures rec == DecodeBody(data)
  {
    if |data| < 2 { return None; }
    var labelCount := FromBigEndian(data[..2]);
    var offset := 2;
    var b: Labels := [];
    for i := 0 to labelCount
      invariant 2 <= offset <= |data|
      invariant DecodeLabels([], data[2..], labelCount) == DecodeLabels(b, data[offset..], labelCount - i)
    {
      var key, afterKey := TakeString(data, offset);
      if key == None { return None; }
      var val, afterVal := TakeString(data, afterKey);
      if val == None { return None; }
      b := b + [Label(key.value, val.value)];
      offset := afterVal;
    }
    if |data| - offset < 16 { return None; }
    ghost var d := data[offset..];
    assert d[..8] == data[offset..offset + 8] && d[8..16] == data[offset + 8..offset + 16];
    OctetBound(d[..8]);
    OctetBound(d[8..16]);
    var t := ToInt64(FromBigEndian(data[offset..offset + 8]));
    var v := FromBigEndian(data[offset + 8..offset + 16]);
    return Some(Record(b, t, v));
  }

  /** Calls fn for each record of a segment; the calls made are returned. */
  method ReplaySegment(file: Bytes) returns (calls: seq<Record>, end: End)
    ensures Replayed(calls, end) == Replay(file)
  {
    calls := [];
    var f := file;
    while true
      invariant Replay(file) == ReplayFrom(calls, f)
      decreases |f|
    {
      var res := DecodeWALRecord(f);
      match res {
        case Eof => return calls, Finished;
        case UnexpectedEof => return calls, Failed;
        case Panicked => return calls, Crashed;
        case Got(rec, rest) =>
          calls := calls + [rec];
          f := rest;
      }
    }
  }

  // ----- integers -----

  lemma Powers()
    ensures Octets.Pow(2) == 0x1_0000
    ensures Octets.Pow(4) == 0x1_0000_0000
    ensures Octets.Pow(8) == 0x1_0000_0000_0000_0000
  {
    assert Octets.Pow(1) == 0x100;
    assert Octets.Pow(3) == 0x100_0000;
    assert Octets.Pow(5) == 0x100_0000_0000;
    assert Octets.Pow(7) == 0x100_0000_0000_0000;
  }

  lemma OctetBound(bs: Bytes)
    ensures FromBigEndian(bs) < Octets.Pow(|bs|)
    ensures |bs| == 2 ==> FromBigEndian(bs) < 0x1_0000
    ensures |bs| == 4 ==> FromBigEndian(bs) < 0x1_0000_0000
    ensures |bs| == 8 ==> FromBigEndian(bs) < 0x1_0000_0000_0000_0000
    ensures BigEndian(FromBigEndian(bs), |bs|) == bs
  {
    ValueBound(Octets, bs);
    FixedOfValue(Octets, bs);
    Powers();
  }

  lemma ReadsBack(n: nat, w: nat)
    requires n < Octets.Pow(w)
    ensures FromBigEndian(BigEndian(n, w)) == n
  {
    ValueOfFixed(Octets, n, w);
  }

  // ----- the bytes of a record -----

  /** Big-endian bytes of the widths in use. */
  lemma BytesOf(n: nat)
    ensures BigEndian(n, 2) == [n / 0x100 % 256, n % 256]
    ensures BigEndian(n, 4) == [n / 0x100_0000 % 256, n / 0x1_0000 % 256, n / 0x100 % 256, n % 256]
    ensures BigEndian(n, 8) == BigEndian(n / 0x1_0000_0000, 4) + BigEndian(n, 4)
  {
    var a, b, c := n / 256, n / 256 / 256, n / 256 / 256 / 256;
    assert b == n / 0x1_0000 && c == n / 0x100_0000;
    assert Octets.Fixed(n, 2) == Octets.Fixed(a, 1) + [n % 256];
    assert Octets.Fixed(n, 4) == Octets.Fixed(b, 2) + [a % 256, n % 256];
    FixedSplit(n / 0x1_0000_0000, n);
  }

  lemma FixedSplit(q: nat, n: nat)
    requires q == n / 0x1_0000_0000
    ensures Octets.Fixed(n, 8) == Octets.Fixed(q, 4) + Octets.Fixed(n, 4)
  {
    var a, b, c := n / 256, n / 256 / 256, n / 256 / 256 / 256;
    assert c / 256 == q;
    OctetStep(n, 7);
    OctetStep(a, 6);
    OctetStep(b, 5);
    OctetStep(c, 4);
    OctetStep(n, 3);
    OctetStep(a, 2);
    OctetStep(b, 1);
    OctetStep(c, 0);
    assert Octets.Fixed(c / 256, 0) == [];
    assert Octets.Fixed(n, 4) == [] + [c % 256] + [b % 256] + [a % 256] + [n % 256];
    assert Octets.Fixed(n, 8) == Octets.Fixed(q, 4) + [c % 256] + [b % 256] + [a % 256] + [n % 256];
  }

  lemma OctetStep(n: nat, w: nat)
    ensures Octets.Fixed(n, w + 1) == Octets.Fixed(n / 256, w) + [n % 256]
  {
  }

  /** Size, number of labels, labels, time and value, in this order; the time in two's complement. */
  lemma Layout(r: Record)
    ensures var bs := Encode(r);
            var n, t := |bs| - 4, if r.t >= 0 then r.t else r.t + 0x1_0000_0000_0000_0000;
            && |bs| >= 22
            && bs[..4] == [n / 0x100_0000 % 256, n / 0x1_0000 % 256, n / 0x100 % 256, n % 256]
            && bs[4..6] == [|r.labels| / 0x100 % 256, |r.labels| % 256]
            && bs[6..|bs| - 16] == EncodeLabels(r.labels)
            && bs[|bs| - 16..|bs| - 8] == BigEndian(t, 8)
            && bs[|bs| - 8..] == BigEndian(r.v, 8)
  {
    hide BigEndian;
    BodySize(r);
    BytesOf(|Body(r)|);
    BytesOf(|r.labels|);
    var head, mid, tail := BigEndian(|Body(r)|, 4) + BigEndian(|r.labels|, 2), EncodeLabels(r.labels), EncodeTail(r);
    assert Encode(r) == head + mid + tail;
  }

  /** Each string is its length in two bytes and its bytes, first the name, then the value. */
  lemma LabelLayout(ls: Labels, l: Label)
    ensures EncodeLabels([]) == []
    ensures EncodeLabels(ls + [l])
            == EncodeLabels(ls) + [|l.name| / 0x100 % 256, |l.name| % 256] + l.name
               + [|l.value| / 0x100 % 256, |l.value| % 256] + l.value
  {
    ConcatSnoc(EncodeLabel, ls, l);
    BytesOf(|l.name|);
    BytesOf(|l.value|);
  }

  // ----- decoding undoes encoding -----

  lemma StringRoundTrip(s: Bytes, rest: Bytes)
    requires |s| < 0x1_0000
    ensures DecodeString(EncodeString(s) + rest) == Some((s, rest))
  {
    Powers();
    ReadsBack(|s|, 2);
    var d := EncodeString(s) + rest;
    assert d[..2] == BigEndian(|s|, 2);
    assert d[2..2 + |s|] == s && d[2 + |s|..] == rest;
  }

  lemma LabelRoundTrip(l: Label, rest: Bytes)
    requires |l.name| < 0x1_0000 && |l.value| < 0x1_0000
    ensures DecodeLabel(EncodeLabel(l) + rest) == Some((l, rest))
  {
    StringRoundTrip(l.name, EncodeString(l.value) + rest);
    StringRoundTrip(l.value, rest);
    assert EncodeLabel(l) + rest == EncodeString(l.name) + (EncodeString(l.value) + rest);
  }

  lemma {:induction false} ManyRoundTrip<T>(enc: T -> Bytes, dec: Bytes -> Option<(T, Bytes)>,
        done: seq<T>, xs: seq<T>, rest: Bytes, n: nat)
    requires forall x, tail :: x in xs ==> dec(enc(x) + tail) == Some((x, tail))
    ensures DecodeMany(dec, done, Concat(enc, xs) + rest, |xs| + n) == DecodeMany(dec, done + xs, rest, n)
  {
    if xs == [] {
      assert Concat(enc, xs) + rest == rest && done + xs == done;
    } else {
      var init, x := xs[..|xs| - 1], xs[|xs| - 1];
      Assoc(Concat(enc, init), enc(x), rest);
      ManyRoundTrip(enc, dec, done, init, enc(x) + rest, 1 + n);
      assert done + init + [x] == done + xs;
    }
  }

  lemma LabelsRoundTrip(ls: Labels, rest: Bytes)
    requires FitsLabels(ls)
    ensures DecodeLabels([], EncodeLabels(ls) + rest, |ls|) == Some((ls, rest))
  {
    hide Concat, EncodeLabel, DecodeLabel;
    forall l, tail | l in ls ensures DecodeLabel(EncodeLabel(l) + tail) == Some((l, tail)) {
      LabelRoundTrip(l, tail);
    }
    ManyRoundTrip(EncodeLabel, DecodeLabel, [], ls, rest, 0);
    assert [] + ls == ls;
  }

  lemma TailRoundTrip(r: Record, rest: Bytes)
    ensures DecodeTail(r.labels, EncodeTail(r) + rest) == Some(r)
  {
    Powers();
    ReadsBack(Uint64(r.t), 8);
    ReadsBack(r.v, 8);
    var d := EncodeTail(r) + rest;
    assert d[..8] == BigEndian(Uint64(r.t), 8) && d[8..16] == BigEndian(r.v, 8);
  }

  /** Bytes after a body are not looked at. */
  lemma BodyRoundTrip(r: Record, rest: Bytes)
    requires FitsLabels(r.labels)
    ensures DecodeBody(Body(r) + rest) == Some(r)
  {
    var n := |r.labels|;
    Powers();
    ReadsBack(n, 2);
    var d := EncodeLabels(r.labels) + (EncodeTail(r) + rest);
    assert Body(r) + rest == BigEndian(n, 2) + d;
    Cut(BigEndian(n, 2), d);
    LabelsRoundTrip(r.labels, EncodeTail(r) + rest);
    TailRoundTrip(r, rest);
  }

  lemma RecordRoundTrip(r: Record, rest: Bytes)
    requires Fits(r)
    ensures ReadRecord(Encode(r) + rest) == Got(r, rest)
  {
    Powers();
    ReadsBack(|Body(r)|, 4);
    BodyRoundTrip(r, []);
    assert Body(r) + [] == Body(r);
    var bs := Encode(r) + rest;
    assert bs[..4] == BigEndian(|Body(r)|, 4);
    assert bs[4..4 + |Body(r)|] == Body(r) && bs[4 + |Body(r)|..] == rest;
  }

  // ----- whatever is decoded was encoded that way -----

  lemma StringReencodes(d: Bytes)
    requires DecodeString(d).Some?
    ensures var (s, rest) := DecodeString(d).value; |s| < 0x1_0000 && EncodeString(s) + rest == d
  {
    OctetBound(d[..2]);
    var (s, rest) := DecodeString(d).value;
    assert d == d[..2] + s + rest;
  }

  lemma LabelReencodes(d: Bytes)
    requires DecodeLabel(d).Some?
    ensures var (l, rest) := DecodeLabel(d).value;
            |l.name| < 0x1_0000 && |l.value| < 0x1_0000 && EncodeLabel(l) + rest == d
  {
    StringReencodes(d);
    var (s, d1) := DecodeString(d).value;
    StringReencodes(d1);
    var (l, rest) := DecodeLabel(d).value;
    assert EncodeLabel(l) + rest == EncodeString(s) + (EncodeString(l.value) + rest);
  }

  lemma {:induction false} LabelsReencode(done: Labels, d: Bytes, n: nat)
    requires FitsLabels(done) && |done| + n < 0x1_0000
    requires DecodeLabels(done, d, n).Some?
    ensures var (ls, rest) := DecodeLabels(done, d, n).value;
            FitsLabels(ls) && |ls| == |done| + n && EncodeLabels(ls) + rest == EncodeLabels(done) + d
    decreases n
  {
    if n > 0 {
      LabelReencodes(d);
      var (l, d') := DecodeLabel(d).value;
      LabelsReencode(done + [l], d', n - 1);
      ConcatSnoc(EncodeLabel, done, l);
      Assoc(EncodeLabels(done), EncodeLabel(l), d');
    }
  }

  lemma TailReencodes(ls: Labels, d: Bytes)
    requires DecodeTail(ls, d).Some?
    ensures var r := DecodeTail(ls, d).value; |d| >= 16 && r.labels == ls && EncodeTail(r) + d[16..] == d
  {
    OctetBound(d[..8]);
    OctetBound(d[8..16]);
    assert d == d[..8] + d[8..16] + d[16..];
  }

  lemma BodyReencodes(d: Bytes)
    requires DecodeBody(d).Some?
    ensures FitsLabels(DecodeBody(d).value.labels)
    ensures Body(DecodeBody(d).value) <= d
  {
    hide BigEndian, FromBigEndian, DecodeLabels, EncodeLabels, DecodeTail, EncodeTail;
    OctetBound(d[..2]);
    var n := FromBigEndian(d[..2]);
    LabelsReencode([], d[2..], n);
    var (ls, d') := DecodeLabels([], d[2..], n).value;
    TailReencodes(ls, d');
    var r := DecodeBody(d).value;
    NothingEncoded();
    Regroup(d, BigEndian(n, 2), EncodeLabels(ls), EncodeTail(r), d'[16..]);
  }

  lemma NothingEncoded()
    ensures EncodeLabels([]) == []
  {
  }

  lemma Regroup(d: Bytes, a: Bytes, b: Bytes, c: Bytes, rest: Bytes)
    requires |d| >= 2 && d[..2] == a && d[2..] == b + (c + rest)
    ensures d == a + (b + c) + rest
    ensures a + (b + c) <= d
  {
    assert d == d[..2] + d[2..];
  }

  lemma DecodesIff(d: Bytes, r: Record)
    requires FitsLabels(r.labels)
    ensures DecodeBody(d) == Some(r) <==> Body(r) <= d
  {
    hide Body, DecodeBody;
    if DecodeBody(d) == Some(r) {
      BodyReencodes(d);
    }
    if Body(r) <= d {
      BodyRoundTrip(r, d[|Body(r)|..]);
      assert Body(r) + d[|Body(r)|..] == d;
    }
  }

  /** A record survives being written and read back exactly when no field is wider than the format. */
  lemma RoundTripIffFits(r: Record)
    ensures (exists rest :: ReadRecord(Encode(r)) == Got(r, rest)) <==> Fits(r)
  {
    if Fits(r) {
      RecordRoundTrip(r, []);
      assert Encode(r) + [] == Encode(r);
      assert ReadRecord(Encode(r)) == Got(r, []);
    }
    var bs := Encode(r);
    var size := FromBigEndian(bs[..4]);
    OctetBound(bs[..4]);
    if rest :| ReadRecord(bs) == Got(r, rest) {
      BodyReencodes(bs[4..4 + size]);
    }
  }

  // ----- torn logs -----

  lemma NextRecord(delivered: seq<Record>, r: Record, rest: Bytes)
    requires Fits(r)
    ensures ReplayFrom(delivered, Encode(r) + rest) == ReplayFrom(delivered + [r], rest)
  {
    RecordRoundTrip(r, rest);
  }

  lemma {:induction false} ReplayWhole(delivered: seq<Record>, rs: seq<Record>, tail: Bytes)
    requires AllFit(rs)
    ensures ReplayFrom(delivered, EncodeAll(rs) + tail) == ReplayFrom(delivered + rs, tail)
  {
    if rs == [] {
      assert EncodeAll(rs) + tail == tail && delivered + rs == delivered;
    } else {
      var init, r := rs[..|rs| - 1], rs[|rs| - 1];
      calc {
        ReplayFrom(delivered, EncodeAll(rs) + tail);
        { Assoc(EncodeAll(init), Encode(r), tail); }
        ReplayFrom(delivered, EncodeAll(init) + (Encode(r) + tail));
        { ReplayWhole(delivered, init, Encode(r) + tail); }
        ReplayFrom(delivered + init, Encode(r) + tail);
        { NextRecord(delivered + init, r, tail); }
        ReplayFrom(delivered + init + [r], tail);
        { assert delivered + init + [r] == delivered + rs; }
        ReplayFrom(delivered + rs, tail);
      }
    }
  }

  lemma ReplayAll(rs: seq<Record>)
    requires AllFit(rs)
    ensures Replay(EncodeAll(rs)) == Replayed(rs, Finished)
  {
    ReplayWhole([], rs, []);
    assert EncodeAll(rs) + [] == EncodeAll(rs) && [] + rs == rs;
  }

  /** How many records lie wholly inside the first `n` bytes of their encoding. */
  function WhollyInside(rs: seq<Record>, n: nat): (k: nat)
    ensures k <= |rs|
  {
    if rs == [] || |EncodeAll(rs)| <= n then |rs| else WhollyInside(rs[..|rs| - 1], n)
  }

  lemma {:induction false} WhollyInsideBounds(rs: seq<Record>, n: nat)
    ensures var k := WhollyInside(rs, n);
            |EncodeAll(rs[..k])| <= n && (k < |rs| ==> n < |EncodeAll(rs[..k + 1])|)
  {
    hide EncodeAll;
    assert rs[..|rs|] == rs;
    if rs == [] {
      NoEncoding();
    } else if |EncodeAll(rs)| > n {
      var init := rs[..|rs| - 1];
      WhollyInsideBounds(init, n);
      var k := WhollyInside(init, n);
      assert init[..k] == rs[..k] && (k < |init| ==> init[..k + 1] == rs[..k + 1]);
    }
  }

  lemma NoEncoding()
    ensures EncodeAll([]) == []
  {
  }

  /** A proper prefix of one record stops the replay, silently only when it is empty or just the header. */
  lemma TornRecord(delivered: seq<Record>, r: Record, n: nat)
    requires Fits(r) && n < |Encode(r)|
    ensures ReplayFrom(delivered, Encode(r)[..n])
            == Replayed(delivered, if n == 0 || n == 4 then Finished else Failed)
  {
    if n >= 4 {
      Powers();
      ReadsBack(|Body(r)|, 4);
      assert Encode(r)[..n][..4] == BigEndian(|Body(r)|, 4);
    }
  }

  /** The first `n` bytes of a log are its whole records and a piece of the next one. */
  lemma CutLog(rs: seq<Record>, n: nat, k: nat)
    requires k <= |rs| && |EncodeAll(rs[..k])| <= n <= |EncodeAll(rs)|
    requires k < |rs| ==> n < |EncodeAll(rs[..k + 1])|
    ensures var torn := n - |EncodeAll(rs[..k])|;
            k < |rs| ==> torn < |Encode(rs[k])| && EncodeAll(rs)[..n] == EncodeAll(rs[..k]) + Encode(rs[k])[..torn]
    ensures k == |rs| ==> EncodeAll(rs)[..n] == EncodeAll(rs[..k]) && n == |EncodeAll(rs[..k])|
  {
    hide Encode, Concat;
    if k < |rs| {
      assert rs[..k + 1] == rs[..k] + [rs[k]];
      ConcatSnoc(Encode, rs[..k], rs[k]);
      assert rs == rs[..k + 1] + rs[k + 1..];
      ConcatAppend(Encode, rs[..k + 1], rs[k + 1..]);
    } else {
      assert rs[..k] == rs;
    }
  }

  /** Any byte prefix of a log replays exactly the records wholly inside it, in order. */
  lemma TornReplay(rs: seq<Record>, n: nat)
    requires AllFit(rs) && n <= |EncodeAll(rs)|
    ensures var k := WhollyInside(rs, n);
            var torn := n - |EncodeAll(rs[..k])|;
            Replay(EncodeAll(rs)[..n]) == Replayed(rs[..k], if torn == 0 || torn == 4 then Finished else Failed)
  {
    hide Encode, EncodeAll, WhollyInside, ReplayFrom;
    var k := WhollyInside(rs, n);
    WhollyInsideBounds(rs, n);
    CutLog(rs, n, k);
    assert [] + rs[..k] == rs[..k];
    if k < |rs| {
      var torn := n - |EncodeAll(rs[..k])|;
      ReplayWhole([], rs[..k], Encode(rs[k])[..torn]);
      TornRecord(rs[..k], rs[k], torn);
    } else {
      ReplayAll(rs[..k]);
    }
  }

  // ----- writing after a torn tail -----

  /** What is read when the bytes of a record follow a header that lost its body: a record without labels. */
  function Phantom(next: Record): Record
    requires |Encode(next)| >= 18
  {
    var bs := Encode(next);
    OctetBound(bs[2..10]);
    OctetBound(bs[10..18]);
    Record([], ToInt64(FromBigEndian(bs[2..10])), FromBigEndian(bs[10..18]))
  }

  lemma BodySize(r: Record)
    ensures |Body(r)| >= 18 && |Encode(r)| == |Body(r)| + 4 && Encode(r)[4..] == Body(r)
  {
    assert Encode(r)[4..] == Body(r);
  }

  /** The first two bytes of a size below 64 KiB are zero. */
  lemma SmallSize(n: nat)
    requires n < 0x1_0000
    ensures FromBigEndian(BigEndian(n, 4)[..2]) == 0
  {
    var ds := Octets.Fixed(n / 256 / 256, 2);
    assert n / 256 / 256 == 0;
    assert Octets.Fixed(n, 4) == ds + [n / 256 % 256, n % 256];
    assert BigEndian(n, 4)[..2] == ds;
    Powers();
    ReadsBack(0, 2);
  }

  lemma PhantomDecodes(next: Record, size: nat)
    requires 18 <= size <= |Encode(next)| && |Body(next)| < 0x1_0000
    ensures DecodeBody(Encode(next)[..size]) == Some(Phantom(next))
  {
    hide Body, ToInt64;
    var d := Encode(next)[..size];
    SmallSize(|Body(next)|);
    assert d[..2] == BigEndian(|Body(next)|, 4)[..2];
    assert DecodeLabels([], d[2..], 0) == Some(([], d[2..]));
    assert d[2..][..8] == Encode(next)[2..10] && d[2..][8..16] == Encode(next)[10..18];
  }

  lemma HeaderReadsOn(torn: Record, next: Record)
    requires Fits(torn)
    ensures ReadRecord(Encode(torn)[..4] + Encode(next))
            == if |Encode(next)| < |Body(torn)| then UnexpectedEof
               else
                 match DecodeBody(Encode(next)[..|Body(torn)|])
                 case None => Panicked
                 case Some(r) => Got(r, Encode(next)[|Body(torn)|..])
  {
    hide Body, DecodeBody;
    Powers();
    BodySize(torn);
    BodySize(next);
    var size := |Body(torn)|;
    ReadsBack(size, 4);
    var bs := Encode(torn)[..4] + Encode(next);
    assert bs[..4] == BigEndian(size, 4);
    if |Encode(next)| >= size {
      assert bs[4..4 + size] == Encode(next)[..size] && bs[4 + size..] == Encode(next)[size..];
    }
  }

  lemma {:induction false} ReplayKeepsDelivered(delivered: seq<Record>, bs: Bytes)
    ensures delivered <= ReplayFrom(delivered, bs).records
    decreases |bs|
  {
    hide ReadRecord;
    if ReadRecord(bs).Got? {
      assert |ReadRecord(bs).rest| < |bs| by { RestIsShorter(bs); }
      ReplayKeepsDelivered(delivered + [ReadRecord(bs).rec], ReadRecord(bs).rest);
    }
  }

  lemma RestIsShorter(bs: Bytes)
    ensures ReadRecord(bs).Got? ==> |ReadRecord(bs).rest| < |bs|
  {
  }

  /** At most four bytes that are left over: nothing, a piece of a header, or the header of a record whose body is
      missing, unless it is zero. */
  lemma FewLeft(delivered: seq<Record>, bs: Bytes)
    requires |bs| <= 4
    ensures ReplayFrom(delivered, bs)
            == Replayed(delivered, if |bs| == 0 then Finished else if |bs| < 4 then Failed
                                   else if FromBigEndian(bs) > 0 then Finished else Crashed)
  {
    assert |bs| == 4 ==> bs[..4] == bs;
  }

  /** What a log delivers when `next` is written after a header whose body is missing: an error when it is shorter than
      the missing body, else whatever its bytes, header and all, decode to. If its own body is below 64 KiB that is a
      phantom without labels, and when it is as long as the missing body, nothing else: `next` is lost. */
  lemma {:induction false} HeaderTailPoisonsLog(rs: seq<Record>, torn: Record, next: Record)
    requires AllFit(rs) && Fits(torn) && Fits(next)
    ensures Replay(EncodeAll(rs) + Encode(torn)[..4]) == Replayed(rs, Finished)
    ensures var size := |Body(torn)|;
            var after := Replay(EncodeAll(rs) + (Encode(torn)[..4] + Encode(next)));
            && |Encode(next)| >= 18
            && (|Encode(next)| < size ==> after == Replayed(rs, Failed))
            && (|Encode(next)| >= size ==>
                  after == match DecodeBody(Encode(next)[..size])
                           case None => Replayed(rs, Crashed)
                           case Some(r) => ReplayFrom(rs + [r], Encode(next)[size..]))
            && (|Encode(next)| >= size && |Body(next)| < 0x1_0000 ==>
                  after == ReplayFrom(rs + [Phantom(next)], Encode(next)[size..]))
            && (|Body(next)| == size < 0x1_0000 ==>
                  after == Replayed(rs + [Phantom(next)],
                                    if FromBigEndian(Encode(next)[size..]) > 0 then Finished else Crashed))
  {
    hide Encode, EncodeAll, Body, ReplayFrom, Phantom, Fits, DecodeBody;
    BodySize(torn);
    BodySize(next);
    HeaderTail(rs, torn, next);
    ReplayWhole([], rs, Encode(torn)[..4]);
    ReplayWhole([], rs, Encode(torn)[..4] + Encode(next));
    assert [] + rs == rs;
    if |Encode(next)| >= |Body(torn)| && |Body(next)| < 0x1_0000 {
      PhantomDecodes(next, |Body(torn)|);
    }
    if |Body(next)| == |Body(torn)| {
      FewLeft(rs + [Phantom(next)], Encode(next)[|Body(torn)|..]);
    }
  }

  lemma HeaderTail(delivered: seq<Record>, torn: Record, next: Record)
    requires Fits(torn)
    ensures |Encode(torn)| > 4
    ensures ReplayFrom(delivered, Encode(torn)[..4]) == Replayed(delivered, Finished)
    ensures ReplayFrom(delivered, Encode(torn)[..4] + Encode(next))
            == if |Encode(next)| < |Body(torn)| then Replayed(delivered, Failed)
               else
                 match DecodeBody(Encode(next)[..|Body(torn)|])
                 case None => Replayed(delivered, Crashed)
                 case Some(r) => ReplayFrom(delivered + [r], Encode(next)[|Body(torn)|..])
  {
    hide Body, Encode, DecodeBody, ReadRecord;
    BodySize(torn);
    TornRecord(delivered, torn, 4);
    HeaderReadsOn(torn, next);
  }

  /** The bytes of `next`, header first, start with its own body, and what then follows the missing body of `torn` is
      nothing or a header that is not zero. A record without labels whose time and value both are 0x12_0000_0012_0000
      is like that. */
  predicate ReadsAsItself(torn: Record, next: Record) {
    && Body(next) <= Encode(next)
    && (|Body(torn)| == |Encode(next)|
        || (|Body(torn)| == |Body(next)| < |Encode(next)| && FromBigEndian(Encode(next)[|Body(torn)|..]) > 0))
  }

  lemma {:induction false} AfterHeader(rs: seq<Record>, torn: Record, next: Record)
    requires AllFit(rs) && Fits(torn) && Fits(next)
    ensures Replay(EncodeAll(rs) + (Encode(torn)[..4] + Encode(next))) == Replayed(rs + [next], Finished)
            <==> ReadsAsItself(torn, next)
  {
    hide Encode, EncodeAll, Body, ReplayFrom, DecodeBody;
    BodySize(torn);
    BodySize(next);
    HeaderTailPoisonsLog(rs, torn, next);
    var size := |Body(torn)|;
    if |Encode(next)| >= size {
      var d, rest := Encode(next)[..size], Encode(next)[size..];
      DecodesIff(d, next);
      if DecodeBody(d).Some? && DecodeBody(d).value != next {
        var r := DecodeBody(d).value;
        ReplayKeepsDelivered(rs + [r], rest);
        assert (rs + [r])[|rs|] != (rs + [next])[|rs|];
      } else if Body(next) <= d {
        FewLeft(rs + [next], rest);
      }
    }
  }

  /** A log that ends at a record boundary or in a bare header opens without an error. It can be appended to, so that
      the replay delivers what it held and the new record, exactly when it ends at the boundary, or the record is one of
      those that read as themselves there, which none is that has labels and a body below 64 KiB. */
  lemma {:induction false} AppendableIffWhole(rs: seq<Record>, torn: Record, next: Record, k: nat)
    requires AllFit(rs) && Fits(torn) && Fits(next) && (k == 0 || k == 4)
    ensures k <= |Encode(torn)| && Replay(EncodeAll(rs) + Encode(torn)[..k]) == Replayed(rs, Finished)
    ensures Replay(EncodeAll(rs) + (Encode(torn)[..k] + Encode(next))) == Replayed(rs + [next], Finished)
            <==> k == 0 || ReadsAsItself(torn, next)
    ensures next.labels != [] && |Body(next)| < 0x1_0000 ==> !ReadsAsItself(torn, next)
  {
    hide Encode, EncodeAll, Body, ReplayFrom, Fits, ReadsAsItself;
    BodySize(torn);
    LabelledReadsOtherwise(torn, next);
    if k == 0 {
      assert Encode(torn)[..0] + Encode(next) == Encode(next) && EncodeAll(rs) + Encode(torn)[..0] == EncodeAll(rs);
      ReplayAll(rs);
      ConcatSnoc(Encode, rs, next);
      EncodeAllIs(rs);
      EncodeAllIs(rs + [next]);
      ReplayAll(rs + [next]);
    } else {
      HeaderTailPoisonsLog(rs, torn, next);
      AfterHeader(rs, torn, next);
    }
  }

  lemma LabelledReadsOtherwise(torn: Record, next: Record)
    requires Fits(next)
    ensures next.labels != [] && |Body(next)| < 0x1_0000 ==> !ReadsAsItself(torn, next)
  {
    hide Body, DecodeBody, Encode;
    if ReadsAsItself(torn, next) && |Body(next)| < 0x1_0000 {
      BodySize(next);
      PhantomDecodes(next, |Body(next)|);
      DecodesIff(Encode(next)[..|Body(next)|], next);
    }
  }

  const SELF_READING := Record([], 0x12_0000_0012_0000, 0x12_0000_0012_0000)

  /** There is such a record, and it can be the one whose body is missing, too. */
  lemma SelfReading()
    ensures Fits(SELF_READING) && ReadsAsItself(SELF_READING, SELF_READING)
  {
    hide Body, Encode, BigEndian, FromBigEndian;
    SelfReadingBody();
    var body := Body(SELF_READING);
    assert Encode(SELF_READING) == BigEndian(|body|, 4) + body by { EncodeIs(SELF_READING); }
    assert Encode(SELF_READING)[18..] == [0, 0x12, 0, 0];
    assert FromBigEndian([0, 0x12, 0, 0]) == 0x12_0000 by { FourBytes(); }
    assert body == Encode(SELF_READING)[..18];
  }

  lemma EncodeIs(r: Record)
    ensures Encode(r) == BigEndian(|Body(r)|, 4) + Body(r)
  {
  }

  lemma FourBytes()
    ensures FromBigEndian([0, 0x12, 0, 0]) == 0x12_0000
  {
    assert Octets.Value([0]) == 0 && Octets.Value([0, 0x12]) == 0x12;
    assert Octets.Value([0, 0x12, 0]) == 0x1200;
    assert [0, 0x12, 0, 0][..3] == [0, 0x12, 0] && [0, 0x12, 0][..2] == [0, 0x12] && [0, 0x12][..1] == [0];
  }

  lemma SelfReadingBody()
    ensures Body(SELF_READING) == [0, 0, 0, 0x12, 0, 0, 0, 0x12, 0, 0, 0, 0x12, 0, 0, 0, 0x12, 0, 0]
    ensures BigEndian(18, 4) == [0, 0, 0, 18]
  {
    hide BigEndian;
    Digits18();
    assert EncodeLabels([]) == [];
  }

  lemma Digits18()
    ensures BigEndian(0, 2) == [0, 0] && BigEndian(18, 4) == [0, 0, 0, 18]
    ensures BigEndian(0x12_0000_0012_0000, 8) == [0, 0x12, 0, 0, 0, 0x12, 0, 0]
  {
  }

  lemma EncodeAllIs(rs: seq<Record>)
    ensures EncodeAll(rs) == Concat(Encode, rs)
  {
  }
}
