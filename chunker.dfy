/**
 * `Chunker`: splits the host lists of additions, edits and deletions into
 * chunks of a configured size, sends one request per chunk and activates
 * the changes after each.
 */
module Chunking {
  import opened Wrappers
  import opened Client

  // ---------------------------------------------------------------- chunks

  /** One chunk of `zip_longest`: `n` slots, the missing ones filled with `None`. */
  function Pad<T>(xs: seq<T>, n: nat): (r: seq<Option<T>>)
    requires |xs| <= n
    ensures |r| == n
    ensures forall i :: 0 <= i < n ==> r[i] == if i < |xs| then Some(xs[i]) else None
  {
    seq(n, i requires 0 <= i < n => if i < |xs| then Some(xs[i]) else None)
  }

  /**
   * `Chunker.chunks`: the items in groups of `count`, the last one padded
   * with `None`; a count of zero or less gives no groups at all. With a
   * positive count there are ceil(|xs| / count) groups.
   */
  function Chunks<T>(xs: seq<T>, count: int): (r: seq<seq<Option<T>>>)
    ensures count <= 0 ==> r == []
    ensures count > 0 ==> |r| * count - count < |xs| <= |r| * count
    ensures forall i :: 0 <= i < |r| ==> |r[i]| == count
    decreases |xs|
  {
    if count <= 0 || xs == [] then []
    else if |xs| <= count then [Pad(xs, count)]
    else
      var rest := Chunks(xs[count..], count);
      assert (|rest| + 1) * count == |rest| * count + count;
      [Pad(xs[..count], count)] + rest
  }

  /** `[c for c in chunk if c]`: the items of a chunk that are present and truthy. */
  function Compact<T>(chunk: seq<Option<T>>, truthy: T -> bool): (r: seq<T>)
    ensures |r| <= |chunk|
    ensures forall x :: x in r ==> truthy(x)
  {
    if chunk == [] then []
    else
      var rest := Compact(chunk[..|chunk| - 1], truthy);
      var last := chunk[|chunk| - 1];
      if last.Some? && truthy(last.value) then rest + [last.value] else rest
  }

  /** The truthy items of `xs`, in order. */
  function Truthy<T>(xs: seq<T>, truthy: T -> bool): (r: seq<T>)
    ensures |r| <= |xs|
  {
    if xs == [] then []
    else if truthy(xs[|xs| - 1]) then Truthy(xs[..|xs| - 1], truthy) + [xs[|xs| - 1]]
    else Truthy(xs[..|xs| - 1], truthy)
  }

  /** The requests the chunker sends: one compacted chunk each. */
  function Batches<T>(xs: seq<T>, count: int, truthy: T -> bool): (r: seq<seq<T>>)
    ensures |r| == |Chunks(xs, count)|
    ensures forall i :: 0 <= i < |r| ==> r[i] == Compact(Chunks(xs, count)[i], truthy) && |r[i]| <= count
  {
    var chunks := Chunks(xs, count);
    seq(|chunks|, i requires 0 <= i < |chunks| => Compact(chunks[i], truthy))
  }

  function Flatten<T>(xss: seq<seq<T>>): (r: seq<T>)
  {
    if xss == [] then [] else xss[0] + Flatten(xss[1..])
  }

  lemma CompactPad<T>(xs: seq<T>, n: nat, truthy: T -> bool)
    requires |xs| <= n
    ensures Compact(Pad(xs, n), truthy) == Truthy(xs, truthy)
    decreases n
  {
    var p := Pad(xs, n);
    if n == 0 {
    } else if |xs| < n {
      assert p[..n - 1] == Pad(xs, n - 1);
      CompactPad(xs, n - 1, truthy);
    } else {
      var init := xs[..|xs| - 1];
      assert p[..n - 1] == Pad(init, n - 1);
      CompactPad(init, n - 1, truthy);
    }
  }

  lemma {:induction false} TruthyAppend<T>(xs: seq<T>, ys: seq<T>, truthy: T -> bool)
    ensures Truthy(xs + ys, truthy) == Truthy(xs, truthy) + Truthy(ys, truthy)
    decreases |ys|
  {
    if ys != [] {
      var init := ys[..|ys| - 1];
      assert (xs + ys)[..|xs + ys| - 1] == xs + init;
      TruthyAppend(xs, init, truthy);
    } else {
      assert xs + ys == xs;
    }
  }

  /**
   * The requests together carry exactly the truthy items, in order; with
   * truthy items only, their concatenation is the input.
   */
  lemma {:induction false} BatchesConcat<T>(xs: seq<T>, count: int, truthy: T -> bool)
    requires count > 0
    ensures Flatten(Batches(xs, count, truthy)) == Truthy(xs, truthy)
    decreases |xs|
  {
    var b := Batches(xs, count, truthy);
    if xs == [] {
    } else if |xs| <= count {
      CompactPad(xs, count, truthy);
      assert b == [Truthy(xs, truthy)];
      assert Flatten(b) == Truthy(xs, truthy) + Flatten(b[1..]);
    } else {
      BatchesConcat(xs[count..], count, truthy);
      CompactPad(xs[..count], count, truthy);
      BatchesSplit(xs, count, truthy);
      TruthyAppend(xs[..count], xs[count..], truthy);
      assert xs[..count] + xs[count..] == xs;
    }
  }

  lemma {:induction false} TruthyAll<T>(xs: seq<T>, truthy: T -> bool)
    requires forall i :: 0 <= i < |xs| ==> truthy(xs[i])
    ensures Truthy(xs, truthy) == xs
    decreases |xs|
  {
    if xs != [] {
      TruthyAll(xs[..|xs| - 1], truthy);
      assert xs[..|xs| - 1] + [xs[|xs| - 1]] == xs;
    }
  }

  /**
   * With truthy items and a positive count: ceil(|xs| / count) requests of
   * at most `count` items, none empty, whose concatenation is `xs`.
   */
  lemma BatchesPartition<T>(xs: seq<T>, count: int, truthy: T -> bool)
    requires count > 0
    requires forall i :: 0 <= i < |xs| ==> truthy(xs[i])
    ensures var b := Batches(xs, count, truthy);
      |b| * count - count < |xs| <= |b| * count &&
      (forall i :: 0 <= i < |b| ==> 0 < |b[i]| <= count) &&
      Flatten(b) == xs
  {
    BatchesConcat(xs, count, truthy);
    TruthyAll(xs, truthy);
    BatchesNonEmpty(xs, count, truthy);
  }

  lemma {:induction false} BatchesNonEmpty<T>(xs: seq<T>, count: int, truthy: T -> bool)
    requires count > 0
    requires forall i :: 0 <= i < |xs| ==> truthy(xs[i])
    ensures forall i :: 0 <= i < |Batches(xs, count, truthy)| ==> |Batches(xs, count, truthy)[i]| > 0
    decreases |xs|
  {
    var b := Batches(xs, count, truthy);
    if xs == [] {
    } else if |xs| <= count {
      CompactPad(xs, count, truthy);
      TruthyAll(xs, truthy);
      assert b == [xs];
    } else {
      BatchesSplit(xs, count, truthy);
      BatchesNonEmpty(xs[count..], count, truthy);
      CompactPad(xs[..count], count, truthy);
      TruthyAll(xs[..count], truthy);
      forall i | 0 <= i < |b| ensures |b[i]| > 0 {
        if i > 0 {
          assert b[i] == b[1..][i - 1];
        }
      }
    }
  }

  /** Past the first `count` items, the requests are those of the rest. */
  lemma BatchesSplit<T>(xs: seq<T>, count: int, truthy: T -> bool)
    requires count > 0 && |xs| > count
    ensures var b := Batches(xs, count, truthy);
      |b| > 0 && b[0] == Compact(Pad(xs[..count], count), truthy) && b[1..] == Batches(xs[count..], count, truthy)
  {
    var b := Batches(xs, count, truthy);
    var rest := Batches(xs[count..], count, truthy);
    assert Chunks(xs, count) == [Pad(xs[..count], count)] + Chunks(xs[count..], count);
    assert |b[1..]| == |rest|;
    forall i | 0 <= i < |rest| ensures b[1..][i] == rest[i] {
      assert Chunks(xs, count)[i + 1] == Chunks(xs[count..], count)[i];
    }
  }

  lemma {:induction false} TruthySubset<T>(xs: seq<T>, truthy: T -> bool, x: T)
    requires x in Truthy(xs, truthy)
    ensures x in xs && truthy(x)
    decreases |xs|
  {
    var init := xs[..|xs| - 1];
    if x in Truthy(init, truthy) {
      TruthySubset(init, truthy, x);
      assert x in init;
    }
  }

  lemma {:induction false} FlattenMember<T>(xss: seq<seq<T>>, i: nat, x: T)
    requires i < |xss| && x in xss[i]
    ensures x in Flatten(xss)
    decreases i
  {
    if i > 0 {
      FlattenMember(xss[1..], i - 1, x);
    }
  }

  /** Every item a request carries is a truthy item of the input. */
  lemma BatchesElements<T>(xs: seq<T>, count: int, truthy: T -> bool)
    ensures var b := Batches(xs, count, truthy);
      forall i, x :: 0 <= i < |b| && x in b[i] ==> x in xs && truthy(x)
  {
    var b := Batches(xs, count, truthy);
    if count > 0 {
      BatchesConcat(xs, count, truthy);
      forall i, x | 0 <= i < |b| && x in b[i] ensures x in xs && truthy(x) {
        FlattenMember(b, i, x);
        TruthySubset(xs, truthy, x);
      }
    }
  }

  // ---------------------------------------------------------------- merging replies

  /**
   * Merging one chunk's reply into the result: lists are extended, dicts
   * updated, keys seen for the first time taken over.
   */
  function MergeReply(acc: Reply, r: Reply): (m: Reply)
    ensures m.succeeded.Some? <==> acc.succeeded.Some? || r.succeeded.Some?
    ensures m.failed.Some? <==> acc.failed.Some? || r.failed.Some?
    ensures m.succeeded.Some? ==> forall x :: x in m.succeeded.value <==>
      (acc.succeeded.Some? && x in acc.succeeded.value) || (r.succeeded.Some? && x in r.succeeded.value)
    ensures m.failed.Some? ==> forall k :: k in m.failed.value <==>
      (acc.failed.Some? && k in acc.failed.value) || (r.failed.Some? && k in r.failed.value)
    ensures r.failed.Some? ==> forall k :: k in r.failed.value ==> m.failed.value[k] == r.failed.value[k]
    ensures acc.succeeded.Some? && r.succeeded.Some? ==> m.succeeded.value == acc.succeeded.value + r.succeeded.value
    ensures acc.failed.Some? ==> forall k :: k in acc.failed.value && (r.failed.None? || k !in r.failed.value) ==>
      m.failed.value[k] == acc.failed.value[k]
    ensures acc.succeeded.None? ==> m.succeeded == r.succeeded
    ensures r.succeeded.None? ==> m.succeeded == acc.succeeded
  {
    var succeeded :=
      if acc.succeeded.None? then r.succeeded
      else if r.succeeded.None? then acc.succeeded
      else Some(acc.succeeded.value + r.succeeded.value);
    var failed :=
      if acc.failed.None? then r.failed
      else if r.failed.None? then acc.failed
      else Some(acc.failed.value + r.failed.value);
    Reply(succeeded, failed)
  }

  /** The merged replies of the first requests and the calls they made, one activation after each truthy reply. */
  function Returned<T>(send: seq<T> -> (Reply, seq<Call>), batches: seq<seq<T>>): (r: (Reply, seq<Call>))
  {
    if batches == [] then (Reply(None, None), [])
    else
      var (acc, calls) := Returned(send, batches[..|batches| - 1]);
      var (reply, sent) := send(batches[|batches| - 1]);
      if ReplyTruthy(reply) then (MergeReply(acc, reply), calls + sent + [ActivateChanges])
      else (acc, calls + sent)
  }

  /**
   * `_chunk_returning_call`: one request per chunk; every truthy reply is
   * merged into the result and followed by an activation.
   */
  method ChunkReturningCall<T>(xs: seq<T>, count: int, truthy: T -> bool, send: seq<T> -> (Reply, seq<Call>))
    returns (returned: Reply, calls: seq<Call>)
    ensures (returned, calls) == Returned(send, Batches(xs, count, truthy))
  {
    var chunks := Chunks(xs, count);
    ghost var batches := Batches(xs, count, truthy);
    returned, calls := Reply(None, None), [];
    for i := 0 to |chunks|
      invariant (returned, calls) == Returned(send, batches[..i])
    {
      var chunk := Compact(chunks[i], truthy);
      assert batches[..i + 1][..i] == batches[..i];
      var (reply, sent) := send(chunk);
      calls := calls + sent;
      if ReplyTruthy(reply) {
        returned := MergeReply(returned, reply);
        calls := calls + [ActivateChanges];
      }
    }
    assert batches[..|chunks|] == batches;
  }

  /** Every call a chunked request makes is acceptable when every single request's calls and an activation are. */
  lemma {:induction false} ReturnedAll<T>(send: seq<T> -> (Reply, seq<Call>), batches: seq<seq<T>>, ok: Call -> bool)
    requires ok(ActivateChanges)
    requires forall i :: 0 <= i < |batches| ==> AllCalls(send(batches[i]).1, ok)
    ensures AllCalls(Returned(send, batches).1, ok)
    decreases |batches|
  {
    if batches != [] {
      var init := batches[..|batches| - 1];
      assert forall i :: 0 <= i < |init| ==> init[i] == batches[i];
      ReturnedAll(send, init, ok);
      var sent := send(batches[|batches| - 1]).1;
      assert AllCalls(sent, ok);
    }
  }

  /** The number of activations in a log. */
  function Activations(calls: seq<Call>): (n: nat)
    ensures n <= |calls|
  {
    if calls == [] then 0
    else Activations(calls[..|calls| - 1]) + if calls[|calls| - 1] == ActivateChanges then 1 else 0
  }

  lemma {:induction false} ActivationsAppend(a: seq<Call>, b: seq<Call>)
    ensures Activations(a + b) == Activations(a) + Activations(b)
    decreases |b|
  {
    if b == [] {
      assert a + b == a;
    } else {
      assert (a + b)[..|a + b| - 1] == a + b[..|b| - 1];
      ActivationsAppend(a, b[..|b| - 1]);
    }
  }

  /** The number of requests whose reply is truthy. */
  function TruthyReplies<T>(send: seq<T> -> (Reply, seq<Call>), batches: seq<seq<T>>): nat {
    if batches == [] then 0
    else TruthyReplies(send, batches[..|batches| - 1]) + if ReplyTruthy(send(batches[|batches| - 1]).0) then 1 else 0
  }

  /**
   * A request that activates nothing itself: the chunker activates once per
   * truthy reply; every name a reply reports as succeeded or failed is in
   * the merged result.
   */
  lemma {:induction false} ReturnedActivations<T>(send: seq<T> -> (Reply, seq<Call>), batches: seq<seq<T>>)
    requires forall i :: 0 <= i < |batches| ==> Activations(send(batches[i]).1) == 0
    ensures Activations(Returned(send, batches).1) == TruthyReplies(send, batches)
    decreases |batches|
  {
    if batches != [] {
      var init := batches[..|batches| - 1];
      assert forall i :: 0 <= i < |init| ==> init[i] == batches[i];
      ReturnedActivations(send, init);
      var (acc, calls) := Returned(send, init);
      var (reply, sent) := send(batches[|batches| - 1]);
      ActivationsAppend(calls, sent);
      ActivationsAppend(calls + sent, [ActivateChanges]);
    }
  }

  /** The merged reply holds exactly the names the truthy replies report. */
  lemma {:induction false} ReturnedContents<T>(send: seq<T> -> (Reply, seq<Call>), batches: seq<seq<T>>, x: string)
    ensures var m := Returned(send, batches).0;
      (m.succeeded.Some? && x in m.succeeded.value) <==>
        exists i :: 0 <= i < |batches| && ReplyTruthy(send(batches[i]).0) &&
          send(batches[i]).0.succeeded.Some? && x in send(batches[i]).0.succeeded.value
    ensures var m := Returned(send, batches).0;
      (m.failed.Some? && x in m.failed.value) <==>
        exists i :: 0 <= i < |batches| && ReplyTruthy(send(batches[i]).0) &&
          send(batches[i]).0.failed.Some? && x in send(batches[i]).0.failed.value
    decreases |batches|
  {
    if batches != [] {
      var init := batches[..|batches| - 1];
      assert forall i :: 0 <= i < |init| ==> init[i] == batches[i];
      ReturnedContents(send, init, x);
    }
  }

  /** The calls of a non-returning chunked request: each followed by an activation. */
  function Called<T>(send: seq<T> -> seq<Call>, batches: seq<seq<T>>): (calls: seq<Call>)
  {
    if batches == [] then []
    else Called(send, batches[..|batches| - 1]) + send(batches[|batches| - 1]) + [ActivateChanges]
  }

  /** `_chunk_call`: one request per chunk, each followed by an activation. */
  method ChunkCall<T>(xs: seq<T>, count: int, truthy: T -> bool, send: seq<T> -> seq<Call>) returns (calls: seq<Call>)
    ensures calls == Called(send, Batches(xs, count, truthy))
  {
    var chunks := Chunks(xs, count);
    ghost var batches := Batches(xs, count, truthy);
    calls := [];
    for i := 0 to |chunks|
      invariant calls == Called(send, batches[..i])
    {
      var chunk := Compact(chunks[i], truthy);
      assert batches[..i + 1][..i] == batches[..i];
      calls := calls + send(chunk) + [ActivateChanges];
    }
    assert batches[..|chunks|] == batches;
  }

  /** A non-returning chunked request activates once per chunk. */
  lemma {:induction false} CalledActivations<T>(send: seq<T> -> seq<Call>, batches: seq<seq<T>>)
    requires forall i :: 0 <= i < |batches| ==> Activations(send(batches[i])) == 0
    ensures Activations(Called(send, batches)) == |batches|
    decreases |batches|
  {
    if batches != [] {
      var init := batches[..|batches| - 1];
      assert forall i :: 0 <= i < |init| ==> init[i] == batches[i];
      CalledActivations(send, init);
      ActivationsAppend(Called(send, init), send(batches[|batches| - 1]));
      ActivationsAppend(Called(send, init) + send(batches[|batches| - 1]), [ActivateChanges]);
    }
  }

  lemma {:induction false} CalledAll<T>(send: seq<T> -> seq<Call>, batches: seq<seq<T>>, ok: Call -> bool)
    requires ok(ActivateChanges)
    requires forall i :: 0 <= i < |batches| ==> AllCalls(send(batches[i]), ok)
    ensures AllCalls(Called(send, batches), ok)
    decreases |batches|
  {
    if batches != [] {
      var init := batches[..|batches| - 1];
      assert forall i :: 0 <= i < |init| ==> init[i] == batches[i];
      CalledAll(send, init, ok);
      assert AllCalls(send(batches[|batches| - 1]), ok);
    }
  }

  /** `requires_activation`: the chunker activates in its wrappers, so the connector does not; a plain client does. */
  predicate RequiresActivation(chunked: bool) {
    !chunked
  }
}
