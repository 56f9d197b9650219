/**
 * Server-side chunked speech synthesis (`processChunkWithRetry` and the ordered
 * flush of `getTTSStream`). The remote provider is an oracle; the batches run in
 * parallel in the source, and each batch's `Promise.allSettled` outcome is an input.
 */
module Synthesis {
  import opened Wrappers
  import Chunker

  /** What one provider request yields: a response body, or a thrown error (network, timeout, HTTP status). */
  datatype Reply = Body(data: Bytes) | Thrown

  /**
   * The provider: the reply to attempt `attempt` (1-based) of the request for
   * the chunk at `index`, whose text is `chunk`. The request URL depends on the
   * text only, the attempt number picks the timeout and User-Agent; each request
   * is a separate call, so equal chunks at different indices may get different replies.
   */
  type Provider = (nat, string, nat) -> Reply

  /** `processChunkWithRetry` makes at most this many attempts. */
  const MaxAttempts: nat := 2

  /** At most this many chunks are requested per batch. */
  const ConcurrencyLimit: nat := 3

  /** A reply the source accepts: `response.data && response.data.byteLength > 0`. */
  predicate Usable(r: Reply) {
    r.Body? && |r.data| > 0
  }

  /** Reference outcome of the retry: the first usable reply among the attempts, or `null`. */
  function RetryOutcome(replies: nat -> Reply): (r: Option<Bytes>)
    ensures r.Some? <==> Usable(replies(1)) || Usable(replies(2))
    ensures r.Some? ==> |r.value| > 0
    ensures Usable(replies(1)) ==> r == Some(replies(1).data)
  {
    if Usable(replies(1)) then Some(replies(1).data)
    else if Usable(replies(2)) then Some(replies(2).data)
    else None
  }

  /**
   * `processChunkWithRetry`: asks the provider until a usable reply arrives, at
   * most `MaxAttempts` times. `waits` counts the pauses before a retry, which the
   * source makes only after attempt 1 threw (an empty body is retried at once).
   */
  method ProcessChunkWithRetry(replies: nat -> Reply) returns (buffer: Option<Bytes>, attempts: nat, waits: nat)
    ensures buffer == RetryOutcome(replies)
    ensures 1 <= attempts <= MaxAttempts
    ensures buffer.Some? ==> replies(attempts) == Body(buffer.value)
    ensures attempts == 2 <==> !Usable(replies(1))
    ensures waits == (if replies(1).Thrown? then 1 else 0)
  {
    buffer := None;
    attempts := 0;
    waits := 0;
    var attempt := 1;
    while attempt <= MaxAttempts
      invariant 1 <= attempt <= MaxAttempts + 1
      invariant attempts == attempt - 1 && buffer == None
      invariant forall a :: 1 <= a < attempt ==> !Usable(replies(a))
      invariant waits == (if attempt > 1 && replies(1).Thrown? then 1 else 0)
      decreases MaxAttempts + 1 - attempt
    {
      attempts := attempt;
      var reply := replies(attempt);
      if Usable(reply) {
        buffer := Some(reply.data);
        return;
      }
      if reply.Thrown? && attempt < MaxAttempts {
        waits := waits + 1;
      }
      attempt := attempt + 1;
    }
  }

  // ---------------------------------------------------------------------------
  // Ordered flush
  // ---------------------------------------------------------------------------

  /** The settled state of one chunk's promise. */
  datatype Settled = Fulfilled(buffer: Option<Bytes>) | Rejected

  /** What the source stores in the result slot: the buffer, or `null` for a rejection. */
  function Slot(s: Settled): Option<Bytes> {
    match s
    case Fulfilled(b) => b
    case Rejected => None
  }

  function Slots(outcomes: seq<Settled>): (r: seq<Option<Bytes>>)
    ensures |r| == |outcomes|
    ensures forall k :: 0 <= k < |r| ==> r[k] == Slot(outcomes[k])
  {
    seq(|outcomes|, k requires 0 <= k < |outcomes| => Slot(outcomes[k]))
  }

  /** The non-null slots, in index order: what the output stream must receive. */
  function Present(slots: seq<Option<Bytes>>): seq<Bytes> {
    if slots == [] then []
    else Present(slots[..|slots| - 1]) + (if slots[|slots| - 1].Some? then [slots[|slots| - 1].value] else [])
  }

  /** The output `PassThrough` stream: the buffers written so far, and whether `end()` was called. */
  datatype Output = Output(written: seq<Bytes>, ended: bool)

  /** `outputStream.write(buffer)`: only legal before `end()`. */
  function Write(out: Output, buffer: Bytes): (r: Output)
    requires !out.ended
    ensures r.written == out.written + [buffer] && !r.ended
  {
    Output(out.written + [buffer], false)
  }

  /** `outputStream.end()`: only legal once. */
  function End(out: Output): (r: Output)
    requires !out.ended
    ensures r.written == out.written && r.ended
  {
    Output(out.written, true)
  }

  /**
   * The `while (streamedCount < processedCount && streamedCount < chunks.length)` loop:
   * writes the non-null slots from the cursor up to `limit`, in order.
   */
  method Flush(out: Output, slots: seq<Option<Bytes>>, streamed: nat, limit: nat) returns (out': Output, streamed': nat)
    requires streamed <= limit <= |slots|
    requires !out.ended && out.written == Present(slots[..streamed])
    ensures streamed' == limit
    ensures !out'.ended && out'.written == Present(slots[..limit])
  {
    out', streamed' := out, streamed;
    while streamed' < limit
      invariant streamed <= streamed' <= limit
      invariant !out'.ended && out'.written == Present(slots[..streamed'])
    {
      assert slots[..streamed' + 1][..streamed'] == slots[..streamed'];
      if slots[streamed'].Some? {
        out' := Write(out', slots[streamed'].value);
      }
      streamed' := streamed' + 1;
    }
  }

  /**
   * The batch loop of `processChunks` followed by the final flush and `end()`.
   * `batches` records how many requests each batch started.
   */
  method StreamInOrder(outcomes: seq<Settled>) returns (out: Output, batches: seq<nat>)
    ensures out.ended
    ensures out.written == Present(Slots(outcomes))
    ensures forall j :: 0 <= j < |batches| ==> 1 <= batches[j] <= ConcurrencyLimit
    ensures Sum(batches) == |outcomes|
  {
    var n := |outcomes|;
    var slots: seq<Option<Bytes>> := seq(n, _ => None);
    var streamed: nat := 0;
    out, batches := Output([], false), [];
    var i := 0;
    while i < n
      invariant i <= n && streamed <= i
      invariant Sum(batches) == i
      invariant forall j :: 0 <= j < |batches| ==> 1 <= batches[j] <= ConcurrencyLimit
      invariant |slots| == n
      invariant forall k :: 0 <= k < i ==> slots[k] == Slot(outcomes[k])
      invariant !out.ended && out.written == Present(slots[..streamed])
    {
      var end := if i + ConcurrencyLimit < n then i + ConcurrencyLimit else n;
      SumSnoc(batches, end - i);
      assert Sum(batches + [end - i]) == end;
      batches := batches + [end - i];
      out, slots, streamed := RunBatch(outcomes, out, slots, i, end, streamed);
      i := end;
    }
    out := FinalFlush(outcomes, out, slots, streamed);
  }

  /** After the last batch: flush whatever is left, then `end()` the stream. */
  method FinalFlush(outcomes: seq<Settled>, out: Output, slots: seq<Option<Bytes>>, streamed: nat) returns (out': Output)
    requires streamed <= |slots| == |outcomes|
    requires forall k :: 0 <= k < |slots| ==> slots[k] == Slot(outcomes[k])
    requires !out.ended && out.written == Present(slots[..streamed])
    ensures out'.ended && out'.written == Present(Slots(outcomes))
  {
    var streamed' := 0;
    out', streamed' := Flush(out, slots, streamed, |slots|);
    assert slots[..|slots|] == Slots(outcomes);
    out' := End(out');
  }

  /**
   * One batch: each settled promise from `start` to `end` fills its slot, and
   * each fulfilled one triggers a flush of the slots settled so far.
   */
  method RunBatch(outcomes: seq<Settled>, out: Output, slots: seq<Option<Bytes>>, start: nat, end: nat, streamed: nat)
    returns (out': Output, slots': seq<Option<Bytes>>, streamed': nat)
    requires streamed <= start <= end <= |outcomes| == |slots|
    requires forall k :: 0 <= k < start ==> slots[k] == Slot(outcomes[k])
    requires !out.ended && out.written == Present(slots[..streamed])
    ensures streamed' <= end && |slots'| == |slots|
    ensures forall k :: 0 <= k < end ==> slots'[k] == Slot(outcomes[k])
    ensures !out'.ended && out'.written == Present(slots'[..streamed'])
  {
    out', slots', streamed' := out, slots, streamed;
    var processed := start;
    while processed < end
      invariant start <= processed <= end && streamed' <= processed
      invariant |slots'| == |slots|
      invariant forall k :: 0 <= k < processed ==> slots'[k] == Slot(outcomes[k])
      invariant !out'.ended && out'.written == Present(slots'[..streamed'])
    {
      ghost var before := slots';
      slots' := slots'[processed := Slot(outcomes[processed])];
      assert slots'[..streamed'] == before[..streamed'];
      processed := processed + 1;
      if outcomes[processed - 1].Fulfilled? {
        out', streamed' := Flush(out', slots', streamed', processed);
      }
    }
  }

  function Sum(xs: seq<nat>): nat {
    if xs == [] then 0 else Sum(xs[..|xs| - 1]) + xs[|xs| - 1]
  }

  lemma SumSnoc(xs: seq<nat>, x: nat)
    ensures Sum(xs + [x]) == Sum(xs) + x
  {
    assert (xs + [x])[..|xs|] == xs;
  }

  // ---------------------------------------------------------------------------
  // What the stream receives
  // ---------------------------------------------------------------------------

  lemma {:induction false} PresentAppend(a: seq<Option<Bytes>>, b: seq<Option<Bytes>>)
    ensures Present(a + b) == Present(a) + Present(b)
    decreases |b|
  {
    if b == [] {
      assert a + b == a;
    } else {
      var c := b[..|b| - 1];
      assert (a + b)[..|a + b| - 1] == a + c;
      PresentAppend(a, c);
    }
  }

  /** A buffer is written iff some slot holds it: nothing is written for a `null` slot. */
  lemma {:induction false} PresentMembers(slots: seq<Option<Bytes>>, x: Bytes)
    ensures x in Present(slots) <==> Some(x) in slots
    decreases |slots|
  {
    if slots != [] {
      var init := slots[..|slots| - 1];
      PresentMembers(init, x);
      assert slots == init + [slots[|slots| - 1]];
    }
  }

  /** The number of slots holding a buffer. */
  function Filled(slots: seq<Option<Bytes>>): nat {
    if slots == [] then 0 else Filled(slots[..|slots| - 1]) + (if slots[|slots| - 1].Some? then 1 else 0)
  }

  /** One write per non-null slot: the stream receives each buffer exactly once. */
  lemma {:induction false} PresentLength(slots: seq<Option<Bytes>>)
    ensures |Present(slots)| == Filled(slots)
    decreases |slots|
  {
    if slots != [] {
      PresentLength(slots[..|slots| - 1]);
    }
  }

  /** When every chunk came back `null`, nothing is written (the stream is still ended). */
  lemma {:induction false} AllNullWritesNothing(slots: seq<Option<Bytes>>)
    requires forall k :: 0 <= k < |slots| ==> slots[k].None?
    ensures Present(slots) == []
    decreases |slots|
  {
    if slots != [] {
      AllNullWritesNothing(slots[..|slots| - 1]);
    }
  }

  /** The provider's replies for the chunk at `index`, by attempt number. */
  function Replies(provider: Provider, index: nat, chunk: string): nat -> Reply {
    (attempt: nat) => provider(index, chunk, attempt)
  }

  /** The retry outcome of each chunk, in chunk order. */
  function Outcomes(provider: Provider, chunks: seq<string>): (r: seq<Option<Bytes>>)
    ensures |r| == |chunks|
    ensures forall k :: 0 <= k < |r| ==> r[k] == RetryOutcome(Replies(provider, k, chunks[k]))
  {
    seq(|chunks|, k requires 0 <= k < |chunks| => RetryOutcome(Replies(provider, k, chunks[k])))
  }

  /**
   * `getTTSStream`: split the text into chunks of about `MaxChunkLength` characters,
   * fetch each with retry, and stream the non-null buffers in chunk order.
   * `processChunkWithRetry` catches every error, so every promise is fulfilled.
   */
  method GetTTSStream(text: string, provider: Provider) returns (out: Output, chunks: seq<string>)
    ensures chunks == Chunker.SplitText(text, Chunker.MaxChunkLength)
    ensures out.ended
    ensures out.written == Present(Outcomes(provider, chunks))
    ensures forall j :: 0 <= j < |out.written| ==> |out.written[j]| > 0
  {
    chunks := Chunker.SplitText(text, Chunker.MaxChunkLength);
    var outcomes := FetchAll(provider, chunks);
    var batches;
    out, batches := StreamInOrder(outcomes);
    PresentNonEmpty(Outcomes(provider, chunks));
  }

  /** Each chunk's `processChunkWithRetry`, in chunk order; none of the promises rejects. */
  method FetchAll(provider: Provider, chunks: seq<string>) returns (outcomes: seq<Settled>)
    ensures Slots(outcomes) == Outcomes(provider, chunks)
    ensures forall j :: 0 <= j < |outcomes| ==> outcomes[j].Fulfilled?
  {
    outcomes := [];
    var k := 0;
    while k < |chunks|
      invariant k <= |chunks| && |outcomes| == k
      invariant forall j :: 0 <= j < k ==> outcomes[j] == Fulfilled(RetryOutcome(Replies(provider, j, chunks[j])))
    {
      var buffer, attempts, waits := ProcessChunkWithRetry(Replies(provider, k, chunks[k]));
      outcomes := outcomes + [Fulfilled(buffer)];
      k := k + 1;
    }
    assert Slots(outcomes) == Outcomes(provider, chunks);
  }

  /** Every buffer written is non-empty when every non-null slot is. */
  lemma {:induction false} PresentNonEmpty(slots: seq<Option<Bytes>>)
    requires forall k :: 0 <= k < |slots| && slots[k].Some? ==> |slots[k].value| > 0
    ensures forall j :: 0 <= j < |Present(slots)| ==> |Present(slots)[j]| > 0
    decreases |slots|
  {
    if slots != [] {
      PresentNonEmpty(slots[..|slots| - 1]);
    }
  }
}
