/** Forwarding samples to a remote store: batches, retries, and grouping by series, against any script of responses. */
module Remote {
  import opened Types
  import opened Heads

  /** What one request meets with. */
  datatype Response = NetworkError | Status(code: nat)

  predicate Accepted(r: Response) {
    r.Status? && r.code / 100 == 2
  }

  predicate Retryable(r: Response) {
    r.NetworkError? || r.code / 100 == 5
  }

  /** Neither accepted nor worth a retry: the commit fails. */
  predicate Fatal(r: Response) {
    !Accepted(r) && !Retryable(r)
  }

  /** By status code: a 2xx is accepted, a network error or a 5xx is retried, anything else is fatal. */
  lemma ByCode(r: Response)
    ensures Accepted(r) <==> r.Status? && 200 <= r.code <= 299
    ensures Retryable(r) <==> r.NetworkError? || 500 <= r.code <= 599
    ensures Fatal(r) <==> r.Status? && !(200 <= r.code <= 299) && !(500 <= r.code <= 599)
  {
  }

  type Script = nat -> Response

  // ----- sending one batch -----

  /** The attempts made when request number `start` is the first and `max` are allowed. */
  function Attempts(script: Script, start: nat, max: nat): nat
    decreases max
  {
    if max == 0 then 0
    else if Retryable(script(start)) then 1 + Attempts(script, start + 1, max - 1)
    else 1
  }

  function Repeat<T>(x: T, n: nat): (r: seq<T>)
    ensures |r| == n && forall i :: 0 <= i < n ==> r[i] == x
  {
    seq(n, _ => x)
  }

  lemma AttemptsStep(script: Script, start: nat, max: nat)
    requires max > 0
    ensures Attempts(script, start, max) == if Retryable(script(start)) then 1 + Attempts(script, start + 1, max - 1)
            else 1
  {
  }

  lemma NoAttempts(script: Script, start: nat)
    ensures Attempts(script, start, 0) == 0
  {
  }

  lemma RepeatStep<T>(x: T, n: nat)
    ensures Repeat(x, 0) == [] && Repeat(x, n + 1) == Repeat(x, n) + [x]
  {
  }

  /** Every attempt but the last met with a network error or a 5xx; the last did not, unless the attempts are used
      up. */
  lemma {:induction false} AttemptsMeaning(script: Script, start: nat, max: nat)
    requires max > 0
    ensures var n := Attempts(script, start, max);
            && 1 <= n <= max
            && (forall r :: start <= r < start + n - 1 ==> script(r).NetworkError? || 500 <= script(r).code <= 599)
            && (n < max ==> script(start + n - 1).Status? && !(500 <= script(start + n - 1).code <= 599))
    decreases max
  {
    ByCode(script(start));
    if max > 1 && Retryable(script(start)) {
      AttemptsMeaning(script, start + 1, max - 1);
    }
  }

  // ----- sending a list in batches -----

  /** Consecutive slices of at most `size` elements. */
  function Batches<T>(xs: seq<T>, size: nat): seq<seq<T>>
    requires size > 0
    decreases |xs|
  {
    if |xs| == 0 then []
    else if |xs| <= size then [xs]
    else [xs[..size]] + Batches(xs[size..], size)
  }

  function Joined<T>(bs: seq<seq<T>>): seq<T> {
    if bs == [] then [] else bs[0] + Joined(bs[1..])
  }

  /** The batches are the whole list in order; none is empty or too long, and only the last may be short. */
  lemma {:induction false} BatchesCover<T>(xs: seq<T>, size: nat)
    requires size > 0
    ensures Joined(Batches(xs, size)) == xs
    ensures forall b :: b in Batches(xs, size) ==> 0 < |b| <= size
    ensures forall i :: 0 <= i < |Batches(xs, size)| - 1 ==> |Batches(xs, size)[i]| == size
    decreases |xs|
  {
    if |xs| > size {
      BatchesCover(xs[size..], size);
      var bs := Batches(xs, size);
      assert bs[1..] == Batches(xs[size..], size);
      assert xs == xs[..size] + xs[size..];
    } else if |xs| > 0 {
      assert [xs][1..] == [];
    }
  }

  /** The requests made for a list of batches from request number `start` on. */
  function Requests<T>(script: Script, start: nat, max: nat, bs: seq<seq<T>>): seq<seq<T>>
    requires max > 0
    decreases |bs|
  {
    if bs == [] then []
    else
      var n := Attempts(script, start, max);
      AttemptsMeaning(script, start, max);
      Repeat(bs[0], n) + if Fatal(script(start + n - 1)) then [] else Requests(script, start + n, max, bs[1..])
  }

  /** Whether the commit returns nil. */
  function Succeeds<T>(script: Script, start: nat, max: nat, bs: seq<seq<T>>): bool
    requires max > 0
    decreases |bs|
  {
    if bs == [] then true
    else
      var n := Attempts(script, start, max);
      AttemptsMeaning(script, start, max);
      !Fatal(script(start + n - 1)) && Succeeds(script, start + n, max, bs[1..])
  }

  /** A request log that sends batch `j` of a list `tries[j]` times, one batch after the other. */
  function Expanded<T>(bs: seq<seq<T>>, tries: seq<nat>): seq<seq<T>>
    requires |tries| <= |bs|
    decreases |tries|
  {
    if tries == [] then [] else Repeat(bs[0], tries[0]) + Expanded(bs[1..], tries[1..])
  }

  /** Only network errors, 2xx and 5xx. */
  ghost predicate NoneFatal(script: Script, lo: nat, hi: nat) {
    forall r :: lo <= r < hi ==>
      script(r).NetworkError? || 200 <= script(r).code <= 299 || 500 <= script(r).code <= 599
  }

  /** The first batch takes its attempts; a fatal last one ends the commit, any other one lets it go on. */
  lemma FirstBatchSent<T>(script: Script, start: nat, max: nat, bs: seq<seq<T>>)
    requires max > 0 && bs != []
    ensures var n := Attempts(script, start, max);
            && 1 <= n <= max && NoneFatal(script, start, start + n - 1)
            && (Fatal(script(start + n - 1)) ==>
                  Requests(script, start, max, bs) == Repeat(bs[0], n) && !Succeeds(script, start, max, bs))
            && (!Fatal(script(start + n - 1)) ==>
                  && Requests(script, start, max, bs) == Repeat(bs[0], n) + Requests(script, start + n, max, bs[1..])
                  && (Succeeds(script, start, max, bs) <==> Succeeds(script, start + n, max, bs[1..])))
  {
    AttemptsMeaning(script, start, max);
  }

  lemma NothingSent<T>(script: Script, start: nat, max: nat, bs: seq<seq<T>>)
    requires max > 0 && bs == []
    ensures Requests(script, start, max, bs) == [] && Succeeds(script, start, max, bs)
  {
  }

  lemma NoneFatalOnwards(script: Script, lo: nat, mid: nat, hi: nat)
    requires lo < mid <= hi && NoneFatal(script, lo, mid - 1) && !Fatal(script(mid - 1))
    ensures NoneFatal(script, lo, hi) <==> NoneFatal(script, mid, hi)
    ensures hi > mid ==> (NoneFatal(script, lo, hi - 1) <==> NoneFatal(script, mid, hi - 1))
  {
  }

  /** The number of the first request for batch `j`. */
  function Offset(start: nat, tries: seq<nat>, j: nat): nat
    requires j <= |tries|
    decreases j
  {
    if j == 0 then start else Offset(start + tries[0], tries[1..], j - 1)
  }

  /** One batch: a retryable response is followed by another attempt unless it was attempt number `max`, and any
      other response ends the batch. */
  ghost predicate Tried(script: Script, from: nat, n: nat, max: nat) {
    && 1 <= n <= max
    && (forall r :: from <= r < from + n - 1 ==> script(r).NetworkError? || 500 <= script(r).code <= 599)
    && (script(from + n - 1).NetworkError? || 500 <= script(from + n - 1).code <= 599 ==> n == max)
  }

  ghost predicate EachTried(script: Script, start: nat, max: nat, tries: seq<nat>) {
    forall j :: 0 <= j < |tries| ==> Tried(script, Offset(start, tries, j), tries[j], max)
  }

  ghost predicate EachAccepted(script: Script, start: nat, tries: seq<nat>) {
    forall j :: 0 <= j < |tries| ==> LastAccepted(script, Offset(start, tries, j), tries[j])
  }

  ghost predicate LastAccepted(script: Script, from: nat, n: nat) {
    n > 0 && script(from + n - 1).Status? && 200 <= script(from + n - 1).code <= 299
  }

  lemma NothingTried(script: Script, start: nat, max: nat)
    ensures EachTried(script, start, max, []) && EachAccepted(script, start, []) && Offset(start, [], 0) == start
  {
  }

  /** With one batch before them, the others' requests are numbered from its last one on. */
  lemma FirstOffset(start: nat, n: nat, next: nat, rest: seq<nat>)
    requires next == start + n
    ensures forall j :: 0 <= j <= |rest| ==> Offset(start, [n] + rest, j + 1) == Offset(next, rest, j)
    ensures Offset(start, [n] + rest, 0) == start
    ensures forall j :: 0 <= j < |rest| ==> ([n] + rest)[j + 1] == rest[j]
  {
    assert ([n] + rest)[1..] == rest;
  }

  lemma FirstTried(script: Script, start: nat, max: nat, n: nat, rest: seq<nat>)
    requires Tried(script, start, n, max) && EachTried(script, start + n, max, rest)
    ensures EachTried(script, start, max, [n] + rest)
  {
    hide Tried, Offset;
    FirstOffset(start, n, start + n, rest);
    var tries := [n] + rest;
    forall j | 0 <= j < |tries| ensures Tried(script, Offset(start, tries, j), tries[j], max) {
      if j > 0 {
        assert Offset(start, tries, j - 1 + 1) == Offset(start + n, rest, j - 1);
      }
    }
  }

  lemma FirstAccepted(script: Script, start: nat, n: nat, rest: seq<nat>)
    ensures EachAccepted(script, start, [n] + rest)
            <==> LastAccepted(script, start, n) && EachAccepted(script, start + n, rest)
  {
    hide LastAccepted, Offset;
    FirstOffset(start, n, start + n, rest);
    var tries := [n] + rest;
    if EachAccepted(script, start, tries) {
      assert LastAccepted(script, Offset(start, tries, 0), tries[0]);
      forall j | 0 <= j < |rest| ensures LastAccepted(script, Offset(start + n, rest, j), rest[j]) {
        assert LastAccepted(script, Offset(start, tries, j + 1), tries[j + 1]);
      }
    }
    if LastAccepted(script, start, n) && EachAccepted(script, start + n, rest) {
      forall j | 0 <= j < |tries| ensures LastAccepted(script, Offset(start, tries, j), tries[j]) {
        if j > 0 {
          assert Offset(start, tries, j - 1 + 1) == Offset(start + n, rest, j - 1);
        }
      }
    }
  }

  /** Under any script, the requests are an initial part of the batches, each left after a 2xx, after `max` retryable
      responses, or for a fatal one. Nil is returned exactly when no response was fatal, and then every batch was tried;
      otherwise the fatal response is the first one, it came last, and it ended the commit. */
  lemma {:induction false} CommitMeaning<T>(script: Script, start: nat, max: nat, bs: seq<seq<T>>)
    returns (tries: seq<nat>)
    requires max > 0
    ensures |tries| <= |bs| && Requests(script, start, max, bs) == Expanded(bs, tries)
    ensures EachTried(script, start, max, tries)
    ensures Offset(start, tries, |tries|) == start + |Requests(script, start, max, bs)|
    ensures var n := |Requests(script, start, max, bs)|;
            && (Succeeds(script, start, max, bs) <==> NoneFatal(script, start, start + n))
            && (Succeeds(script, start, max, bs) ==> |tries| == |bs|)
            && (!Succeeds(script, start, max, bs) ==>
                  n > 0 && script(start + n - 1).Status? && !(200 <= script(start + n - 1).code <= 299)
                  && !(500 <= script(start + n - 1).code <= 599) && NoneFatal(script, start, start + n - 1))
    ensures Delivered(script, start, max, bs) <==> |tries| == |bs| && EachAccepted(script, start, tries)
    decreases |bs|
  {
    hide Attempts, Requests, Succeeds, Delivered, Tried, Accepted, Retryable, Fatal, EachTried, EachAccepted, Offset;
    if bs == [] {
      tries := [];
      NothingSent(script, start, max, bs);
      NothingDelivered(script, start, max, bs);
      NothingTried(script, start, max);
    } else {
      var n := Attempts(script, start, max);
      FirstBatchSent(script, start, max, bs);
      FirstBatchTried(script, start, max, bs);
      ByCode(script(start + n - 1));
      if Fatal(script(start + n - 1)) {
        tries := [n];
        assert tries[1..] == [] && [n] + [] == tries;
        NothingTried(script, start + n, max);
        FirstTried(script, start, max, n, []);
        FirstAccepted(script, start, n, []);
        FirstOffset(start, n, start + n, []);
      } else {
        hide NoneFatal;
        var rest := CommitMeaning(script, start + n, max, bs[1..]);
        tries := [n] + rest;
        assert tries[1..] == rest;
        var m := |Requests(script, start + n, max, bs[1..])|;
        NoneFatalOnwards(script, start, start + n, start + n + m);
        FirstTried(script, start, max, n, rest);
        FirstAccepted(script, start, n, rest);
        FirstOffset(start, n, start + n, rest);
      }
    }
  }

  /** Every batch was accepted. */
  function Delivered<T>(script: Script, start: nat, max: nat, bs: seq<seq<T>>): bool
    requires max > 0
    decreases |bs|
  {
    if bs == [] then true
    else
      var n := Attempts(script, start, max);
      AttemptsMeaning(script, start, max);
      Accepted(script(start + n - 1)) && Delivered(script, start + n, max, bs[1..])
  }

  lemma NothingDelivered<T>(script: Script, start: nat, max: nat, bs: seq<seq<T>>)
    requires max > 0 && bs == []
    ensures Delivered(script, start, max, bs)
  {
  }

  lemma FirstBatchTried<T>(script: Script, start: nat, max: nat, bs: seq<seq<T>>)
    requires max > 0 && bs != []
    ensures var n := Attempts(script, start, max);
            && Tried(script, start, n, max)
            && (Delivered(script, start, max, bs) <==>
                  Accepted(script(start + n - 1)) && Delivered(script, start + n, max, bs[1..]))
            && (Fatal(script(start + n - 1)) ==> !Accepted(script(start + n - 1)))
  {
    AttemptsMeaning(script, start, max);
  }

  /** No `max` retryable responses in a row. */
  ghost predicate NoneExhausted(script: Script, lo: nat, hi: nat, max: nat) {
    forall r :: lo <= r && r + max <= hi ==> !AllRetryable(script, r, max)
  }

  ghost predicate AllRetryable(script: Script, lo: nat, n: nat) {
    forall r :: lo <= r < lo + n ==> script(r).NetworkError? || 500 <= script(r).code <= 599
  }

  lemma ExhaustedOnwards(script: Script, lo: nat, mid: nat, hi: nat, max: nat)
    requires lo < mid <= hi && mid - lo <= max && !Retryable(script(mid - 1))
    ensures NoneExhausted(script, lo, hi, max) <==> NoneExhausted(script, mid, hi, max)
  {
    forall r | lo <= r < mid ensures !AllRetryable(script, r, max) {
    }
  }

  /** Every batch is accepted if and only if, among the responses, none is fatal and no `max` in a row are retryable. */
  lemma {:induction false} DeliveredIff<T>(script: Script, start: nat, max: nat, bs: seq<seq<T>>)
    requires max > 0
    ensures var n := |Requests(script, start, max, bs)|;
            Delivered(script, start, max, bs)
            <==> NoneFatal(script, start, start + n) && NoneExhausted(script, start, start + n, max)
    decreases |bs|
  {
    hide Attempts, Requests, Succeeds, Delivered, Accepted, Fatal, Retryable, NoneExhausted, NoneFatal;
    if bs == [] {
      NothingSent(script, start, max, bs);
      NothingDelivered(script, start, max, bs);
      NothingExhausted(script, start, max);
    } else {
      var m := Attempts(script, start, max);
      FirstBatchSent(script, start, max, bs);
      FirstBatchTried(script, start, max, bs);
      var last := script(start + m - 1);
      OneKind(last);
      if Fatal(last) {
        FatalSeen(script, start, start + m);
      } else {
        var n := |Requests(script, start, max, bs)|;
        if Retryable(last) {
          ExhaustedSeen(script, start, start + n, m, max);
        } else {
          DeliveredIff(script, start + m, max, bs[1..]);
          NoneFatalOnwards(script, start, start + m, start + n);
          ExhaustedOnwards(script, start, start + m, start + n, max);
        }
      }
    }
  }

  lemma NothingExhausted(script: Script, start: nat, max: nat)
    requires max > 0
    ensures NoneFatal(script, start, start) && NoneExhausted(script, start, start, max)
  {
  }

  lemma OneKind(r: Response)
    ensures Fatal(r) <==> !Accepted(r) && !Retryable(r)
    ensures Accepted(r) ==> !Retryable(r)
  {
  }

  lemma FatalSeen(script: Script, lo: nat, hi: nat)
    requires lo < hi && Fatal(script(hi - 1))
    ensures !NoneFatal(script, lo, hi)
  {
  }

  lemma ExhaustedSeen(script: Script, start: nat, hi: nat, n: nat, max: nat)
    requires Tried(script, start, n, max) && Retryable(script(start + n - 1)) && start + n <= hi
    ensures !NoneExhausted(script, start, hi, max)
  {
    assert AllRetryable(script, start, max);
  }

  /** Nil does not mean delivered: if every response is a network error or a server error, nil is returned, and not one
      batch of the list was accepted. */
  lemma {:induction false} ServerErrorsDropEverything<T>(script: Script, start: nat, max: nat, bs: seq<seq<T>>)
    returns (tries: seq<nat>)
    requires max > 0 && AllRetryable(script, start, |Requests(script, start, max, bs)|)
    ensures Succeeds(script, start, max, bs) && (bs != [] ==> !Delivered(script, start, max, bs))
    ensures |tries| == |bs| && (forall j :: 0 <= j < |tries| ==> tries[j] == max)
    ensures Requests(script, start, max, bs) == Expanded(bs, tries)
    ensures forall r :: start <= r < start + |Requests(script, start, max, bs)| ==>
              script(r).NetworkError? || !(200 <= script(r).code <= 299)
  {
    hide Attempts, Requests, Succeeds, Delivered;
    tries := CommitMeaning(script, start, max, bs);
    var n := |Requests(script, start, max, bs)|;
    forall j | 0 <= j < |tries| ensures tries[j] == max {
      assert Tried(script, Offset(start, tries, j), tries[j], max);
      OffsetsRise(start, tries, j);
    }
    if bs != [] {
      OffsetsRise(start, tries, 0);
      assert !LastAccepted(script, Offset(start, tries, 0), tries[0]);
      assert !EachAccepted(script, start, tries);
    }
  }

  /** If every response is a 2xx, each batch is sent once, and the requests together are the list. */
  lemma {:induction false} AcceptedOnce<T>(script: Script, start: nat, max: nat, xs: seq<T>, size: nat)
    requires max > 0 && size > 0
    requires forall r :: r >= start ==> script(r).Status? && 200 <= script(r).code <= 299
    ensures var bs := Batches(xs, size);
            Requests(script, start, max, bs) == bs && Succeeds(script, start, max, bs) && Joined(bs) == xs
  {
    BatchesCover(xs, size);
    SentOnce(script, start, max, Batches(xs, size));
  }

  lemma {:induction false} SentOnce<T>(script: Script, start: nat, max: nat, bs: seq<seq<T>>)
    requires max > 0 && forall r :: r >= start ==> script(r).Status? && 200 <= script(r).code <= 299
    ensures Requests(script, start, max, bs) == bs && Succeeds(script, start, max, bs)
    decreases |bs|
  {
    hide Requests, Succeeds;
    if bs == [] {
      NothingSent(script, start, max, bs);
    } else {
      ByCode(script(start));
      AttemptsStep(script, start, max);
      FirstBatchSent(script, start, max, bs);
      SentOnce(script, start + 1, max, bs[1..]);
      assert Repeat(bs[0], 1) == [bs[0]];
      assert [bs[0]] + bs[1..] == bs;
    }
  }

  /** The requests for batch `j` come after the start and before the end. */
  lemma {:induction false} OffsetsRise(start: nat, tries: seq<nat>, j: nat)
    requires j < |tries|
    ensures start <= Offset(start, tries, j) && Offset(start, tries, j) + tries[j] <= Offset(start, tries, |tries|)
    decreases |tries|
  {
    if j > 0 {
      OffsetsRise(start + tries[0], tries[1..], j - 1);
    } else {
      OffsetsEnd(start + tries[0], tries[1..]);
    }
  }

  lemma {:induction false} OffsetsEnd(start: nat, tries: seq<nat>)
    ensures start <= Offset(start, tries, |tries|)
    decreases |tries|
  {
    if tries != [] {
      OffsetsEnd(start + tries[0], tries[1..]);
    }
  }

  // ----- the code -----

  /** The client of either remote store: configuration, the responder's script, and the requests made so far. */
  class Sender<T> {
    const batchSize: nat
    const maxRetries: nat
    const script: Script
    var requests: seq<seq<T>>

    /** Zero means the default. */
    constructor (batchSize: nat, maxRetries: nat, script: Script)
      ensures this.batchSize == (if batchSize == 0 then 500 else batchSize) && this.batchSize > 0
      ensures this.maxRetries == (if maxRetries == 0 then 3 else maxRetries) && this.maxRetries > 0
      ensures this.script == script && requests == []
    {
      this.batchSize := if batchSize == 0 then 500 else batchSize;
      this.maxRetries := if maxRetries == 0 then 3 else maxRetries;
      this.script, requests := script, [];
    }

    method Do(batch: seq<T>) returns (resp: Response)
      modifies this
      ensures requests == old(requests) + [batch] && resp == script(|old(requests)|)
    {
      resp := script(|requests|);
      requests := requests + [batch];
    }

    method Send(batch: seq<T>) returns (ok: bool)
      requires maxRetries > 0
      modifies this
      ensures var n := Attempts(script, |old(requests)|, maxRetries);
              && requests == old(requests) + Repeat(batch, n)
              && n > 0 && (ok <==> !Fatal(script(|old(requests)| + n - 1)))
      ensures Tried(script, |old(requests)|, |requests| - |old(requests)|, maxRetries)
      ensures var last := script(|requests| - 1);
              ok <==> last.NetworkError? || 200 <= last.code <= 299 || 500 <= last.code <= 599
    {
      hide Attempts, Repeat;
      AttemptsMeaning(script, |requests|, maxRetries);
      ByCode(script(|requests| + Attempts(script, |requests|, maxRetries) - 1));
      ghost var start := |requests|;
      RepeatStep(batch, 0);
      for attempt := 0 to maxRetries
        invariant requests == old(requests) + Repeat(batch, attempt)
        invariant Attempts(script, start, maxRetries)
                  == attempt + Attempts(script, start + attempt, maxRetries - attempt)
        invariant attempt > 0 ==> Retryable(script(start + attempt - 1))
      {
        RepeatStep(batch, attempt);
        AttemptsStep(script, start + attempt, maxRetries - attempt);
        var resp := Do(batch);
        assert requests == old(requests) + Repeat(batch, attempt + 1);
        if resp.NetworkError? {
          continue;
        }
        if resp.code / 100 == 2 {
          return true;
        }
        if resp.code / 100 == 5 {
          continue;
        }
        return false;
      }
      NoAttempts(script, start + maxRetries);
      return true;
    }

    /** The loop of Commit over batches of the pending list. */
    method Commit(pending: seq<T>) returns (ok: bool, ghost tries: seq<nat>)
      requires batchSize > 0 && maxRetries > 0
      modifies this
      ensures requests == old(requests) + Requests(script, |old(requests)|, maxRetries, Batches(pending, batchSize))
      ensures ok <==> Succeeds(script, |old(requests)|, maxRetries, Batches(pending, batchSize))
      ensures var bs := Batches(pending, batchSize);
              && |tries| <= |bs| && (ok ==> |tries| == |bs|)
              && requests == old(requests) + Expanded(bs, tries)
                  && EachTried(script, |old(requests)|, maxRetries, tries)
      ensures ok <==> NoneFatal(script, |old(requests)|, |requests|)
      ensures !ok ==>
                && |requests| > |old(requests)| && script(|requests| - 1).Status?
                && !(200 <= script(|requests| - 1).code <= 299) && !(500 <= script(|requests| - 1).code <= 599)
                && NoneFatal(script, |old(requests)|, |requests| - 1)
    {
      hide Expanded, EachTried, NoneFatal, Tried, Repeat, Attempts, Requests, Succeeds, Fatal, Batches;
      ghost var start := |requests|;
      ghost var all := Batches(pending, batchSize);
      tries := CommitMeaning(script, start, maxRetries, all);
      assert pending[0..] == pending;
      var i := 0;
      while i < |pending|
        invariant i >= 0
        invariant var left := Batches(if i <= |pending| then pending[i..] else [], batchSize);
                  && requests + Requests(script, |requests|, maxRetries, left)
                     == old(requests) + Requests(script, start, maxRetries, all)
                  && (Succeeds(script, |requests|, maxRetries, left) <==> Succeeds(script, start, maxRetries, all))
        decreases |pending| - i
      {
        var end := i + batchSize;
        if end > |pending| {
          end := |pending|;
        }
        FirstBatch(pending, i, batchSize);
        ghost var next := if i + batchSize <= |pending| then pending[i + batchSize..] else [];
        FirstBatchSent(script, |requests|, maxRetries, [pending[i..end]] + Batches(next, batchSize));
        assert ([pending[i..end]] + Batches(next, batchSize))[1..] == Batches(next, batchSize);
        var sent := Send(pending[i..end]);
        if !sent {
          return false, tries;
        }
        i := i + batchSize;
      }
      assert i <= |pending| ==> pending[i..] == [];
      NoBatches<T>(batchSize);
      NothingSent<T>(script, |requests|, maxRetries, []);
      return true, tries;
    }
  }

  lemma NoBatches<T>(size: nat)
    requires size > 0
    ensures Batches<T>([], size) == []
  {
  }

  lemma FirstBatch<T>(xs: seq<T>, i: nat, size: nat)
    requires size > 0 && i < |xs|
    ensures var end := if i + size > |xs| then |xs| else i + size;
            var next := if i + size <= |xs| then xs[i + size..] else [];
            Batches(xs[i..], size) == [xs[i..end]] + Batches(next, size)
  {
    if i + size <= |xs| {
      assert xs[i..][..size] == xs[i..i + size] && xs[i..][size..] == xs[i + size..];
    }
    if i + size >= |xs| {
      assert xs[i..] == xs[i..|xs|];
    }
  }

  // ----- grouping by series -----

  type PendingSeries = map<nat, Series>

  /** A sample joins the series of its hash, which keeps the label set it was opened with. */
  function Joins(hash: Labels -> nat, m: PendingSeries, r: Record): PendingSeries {
    var fp := hash(r.labels);
    var s := if fp in m then m[fp] else Series(r.labels, []);
    m[fp := Series(s.lset, s.samples + [Sample(r.t, r.v)])]
  }

  function GroupAll(hash: Labels -> nat, rs: seq<Record>): PendingSeries {
    if rs == [] then map[] else Joins(hash, GroupAll(hash, rs[..|rs| - 1]), rs[|rs| - 1])
  }

  lemma GroupSnoc(hash: Labels -> nat, rs: seq<Record>, r: Record)
    ensures GroupAll(hash, rs + [r]) == Joins(hash, GroupAll(hash, rs), r)
  {
    assert (rs + [r])[..|rs|] == rs;
  }

  ghost predicate NoClash(hash: Labels -> nat, rs: seq<Record>) {
    forall a, b :: a in rs && b in rs && hash(a.labels) == hash(b.labels) ==> a.labels == b.labels
  }

  /** Without a collision the groups are exactly the series appended to, each with its samples in order. */
  lemma {:induction false} GroupsAreSeries(hash: Labels -> nat, rs: seq<Record>, l: Labels)
    requires NoClash(hash, rs)
    ensures var m := GroupAll(hash, rs);
            && (forall fp :: fp in m ==> hash(m[fp].lset) == fp && exists r :: r in rs && r.labels == m[fp].lset)
            && (SamplesOf(rs, l) != [] <==> hash(l) in m && m[hash(l)].lset == l)
            && (SamplesOf(rs, l) != [] ==> m[hash(l)].samples == SamplesOf(rs, l))
  {
    if rs != [] {
      var k := |rs| - 1;
      var init, r := rs[..k], rs[k];
      assert forall x :: x in init ==> x in rs;
      assert r in rs;
      GroupsAreSeries(hash, init, l);
      forall fp | fp in GroupAll(hash, rs) ensures exists x :: x in rs && x.labels == GroupAll(hash, rs)[fp].lset {
        if fp in GroupAll(hash, init) {
          var x :| x in init && x.labels == GroupAll(hash, init)[fp].lset;
        }
      }
    }
  }

  /** Every sample is sent under its own labels exactly when no two label sets share a hash. */
  lemma {:induction false} OwnLabelsIff(hash: Labels -> nat, rs: seq<Record>)
    ensures (forall r :: r in rs ==>
                           hash(r.labels) in GroupAll(hash, rs) && GroupAll(hash, rs)[hash(r.labels)].lset == r.labels)
            <==> NoClash(hash, rs)
  {
    if NoClash(hash, rs) {
      forall r | r in rs ensures hash(r.labels) in GroupAll(hash, rs)
          && GroupAll(hash, rs)[hash(r.labels)].lset == r.labels {
        GroupsAreSeries(hash, rs, r.labels);
        SamplesOfMember(rs, r);
      }
    }
  }

  lemma {:induction false} SamplesOfMember(rs: seq<Record>, r: Record)
    requires r in rs
    ensures SamplesOf(rs, r.labels) != []
  {
    var k := |rs| - 1;
    if rs[k] != r {
      assert r in rs[..k];
      SamplesOfMember(rs[..k], r);
    }
  }

  class VmAppender {
    const hash: Labels -> nat
    var pending: PendingSeries
    ghost var appended: seq<Record>

    ghost predicate Valid()
      reads this
    {
      pending == GroupAll(hash, appended)
    }

    constructor (hash: Labels -> nat)
      ensures Valid() && this.hash == hash && appended == []
    {
      this.hash, pending, appended := hash, map[], [];
    }

    method Append(l: Labels, t: Int64, v: Bits64)
      requires Valid()
      modifies this
      ensures Valid() && appended == old(appended) + [Record(l, t, v)]
    {
      hide GroupAll;
      var fp := hash(l);
      if fp !in pending {
        pending := pending[fp := Series(l, [])];
      }
      pending := pending[fp := Series(pending[fp].lset, pending[fp].samples + [Sample(t, v)])];
      appended := appended + [Record(l, t, v)];
      GroupSnoc(hash, old(appended), Record(l, t, v));
    }

    /** Takes the pending groups as rows, in some order, and sends them in batches. */
    method Commit(sender: Sender<Series>) returns (ok: bool, ghost rows: seq<Series>)
      requires Valid() && sender.batchSize > 0 && sender.maxRetries > 0
      modifies this, sender
      ensures Valid() && appended == []
      ensures forall s :: s in rows <==> s in GroupAll(hash, old(appended)).Values
      ensures |rows| == |GroupAll(hash, old(appended))|
      ensures sender.requests == old(sender.requests)
              + Requests(sender.script, |old(sender.requests)|, sender.maxRetries, Batches(rows, sender.batchSize))
      ensures ok <==> Succeeds(sender.script, |old(sender.requests)|, sender.maxRetries,
                               Batches(rows, sender.batchSize))
    {
      var groups := pending;
      pending, appended := map[], [];
      var built: seq<Series> := [];
      var fps := groups.Keys;
      while fps != {}
        invariant fps <= groups.Keys
        invariant |built| == |groups.Keys| - |fps|
        invariant forall s :: s in built <==> exists fp :: fp in groups && fp !in fps && groups[fp] == s
        decreases |fps|
      {
        var fp :| fp in fps;
        fps := fps - {fp};
        built := built + [groups[fp]];
      }
      rows := built;
      var sent, _ := sender.Commit(built);
      ok := sent;
    }
  }
}
