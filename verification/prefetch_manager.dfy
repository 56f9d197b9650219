/**
 * The next-chapter prefetch (`PrefetchManager`). The asynchronous parts are
 * explicit events: the fetch settling, and each outstanding `reader.read()`
 * settling. Every running `continuePrefetching` loop has exactly one read
 * outstanding, recorded by the reader it was issued on, and every response
 * body is a finite sequence of chunks read in order.
 */
module PrefetchManager {
  import opened Wrappers
  import ChapterNavigation

  /** A settled `fetch`: whether `response.ok`, and the chunks its body will deliver. */
  datatype Response = Response(ok: bool, body: seq<Bytes>)

  /** A reader's body and how many chunks have been read from it so far. */
  datatype Stream = Stream(body: seq<Bytes>, position: nat)

  datatype Manager = Manager(
    isPrefetching: bool,
    stopPrefetching: bool,
    chunks: seq<Bytes>,
    response: Option<Response>,
    reader: Option<nat>,
    controller: Option<nat>,
    /** Fetches started and not yet settled. */
    fetches: nat,
    /** One entry per running read loop: the reader its outstanding `read()` was issued on. */
    pending: seq<nat>,
    /** Every reader handed out by `getReader()`, by identity. */
    streams: map<nat, Stream>,
    aborted: set<nat>,
    nextId: nat)

  /** The constructor's state. */
  function NewManager(): (m: Manager)
    ensures Valid(m) && Idle(m) && !m.stopPrefetching
  {
    Manager(false, false, [], None, None, None, 0, [], map[], {}, 0)
  }

  /** Every identity in use has been issued, and every read is on a known reader. */
  ghost predicate Valid(m: Manager) {
    && (forall k :: 0 <= k < |m.pending| ==> m.pending[k] in m.streams)
    && (m.reader.Some? ==> m.reader.value in m.streams)
    && (forall r :: r in m.streams ==> r < m.nextId)
    && (forall c :: c in m.aborted ==> c < m.nextId)
    && (m.controller.Some? ==> m.controller.value < m.nextId)
  }

  /** The state `resetPrefetch` leaves (apart from the reads still in flight). */
  predicate Idle(m: Manager) {
    && !m.isPrefetching && m.controller.None? && m.reader.None? && m.response.None? && m.chunks == []
  }

  /** `resetPrefetch()`. */
  function Reset(m: Manager): (r: Manager)
    ensures Idle(r) && r.stopPrefetching
    ensures m.controller.Some? ==> m.controller.value in r.aborted
    ensures r.pending == m.pending && r.streams == m.streams && r.fetches == m.fetches
  {
    var aborted := if m.controller.Some? then m.aborted + {m.controller.value} else m.aborted;
    m.(stopPrefetching := true, controller := None, aborted := aborted, reader := None,
       chunks := [], isPrefetching := false, response := None)
  }

  /**
   * `startPrefetch()` up to the `await fetch(...)`: nothing happens while a
   * prefetch is running or when the next chapter has no url.
   */
  function Start(m: Manager, next: ChapterNavigation.Value): (r: Manager)
    ensures m.isPrefetching || ChapterNavigation.UrlOf(next).None? ==> r == m
    ensures !m.isPrefetching && ChapterNavigation.UrlOf(next).Some? ==>
      && r.isPrefetching && !r.stopPrefetching && r.chunks == []
      && r.controller.Some? && r.fetches == m.fetches + 1
    ensures Valid(m) ==> Valid(r)
    ensures Valid(m) && r != m ==> r.controller.value !in m.aborted && r.controller != m.controller
  {
    if m.isPrefetching || ChapterNavigation.UrlOf(next).None? then m
    else m.(isPrefetching := true, stopPrefetching := false, controller := Some(m.nextId),
            nextId := m.nextId + 1, chunks := [], fetches := m.fetches + 1)
  }

  /**
   * A fetch settles with a response. A response that is not ok is thrown and
   * caught, which resets; otherwise its reader is taken and the read loop starts,
   * issuing its first read unless a stop was requested meanwhile.
   */
  function Respond(m: Manager, response: Response): (r: Manager)
    requires m.fetches > 0
    ensures r.fetches == m.fetches - 1
    ensures !response.ok ==> Idle(r)
    ensures response.ok ==>
      && r.response == Some(response) && r.reader == Some(m.nextId)
      && r.streams == m.streams[m.nextId := Stream(response.body, 0)]
      && r.pending == (if m.stopPrefetching then m.pending else m.pending + [m.nextId])
      && r.chunks == m.chunks && r.isPrefetching == m.isPrefetching
    ensures Valid(m) ==> Valid(r)
  {
    var settled := m.(fetches := m.fetches - 1, response := Some(response));
    if !response.ok then Reset(settled)
    else
      var id := m.nextId;
      var withReader := settled.(reader := Some(id), nextId := id + 1,
                                 streams := m.streams[id := Stream(response.body, 0)]);
      if withReader.stopPrefetching then withReader
      else withReader.(pending := withReader.pending + [id])
  }

  /** A fetch rejects (a network error, or the abort of `resetPrefetch`): the catch resets. */
  function FetchFails(m: Manager): (r: Manager)
    requires m.fetches > 0
    ensures Idle(r) && r.fetches == m.fetches - 1
    ensures Valid(m) ==> Valid(r)
  {
    Reset(m.(fetches := m.fetches - 1))
  }

  function Remove(pending: seq<nat>, k: nat): (r: seq<nat>)
    requires k < |pending|
    ensures |r| == |pending| - 1
    ensures forall j :: 0 <= j < |r| ==> r[j] in pending
  {
    pending[..k] + pending[k + 1..]
  }

  /**
   * The outstanding read of loop `k` settles. A value is appended to the
   * manager's chunks, whatever happened since the read was issued; then the loop
   * checks `stopPrefetching` and either reads again from the current reader or
   * ends. `done`, a missing reader, or a stop end the loop.
   */
  function Resolve(m: Manager, k: nat): (r: Manager)
    requires Valid(m) && k < |m.pending|
    ensures Valid(r)
    ensures var s := m.streams[m.pending[k]];
      && (s.position < |s.body| ==> r.chunks == m.chunks + [s.body[s.position]]
                                    && r.streams == m.streams[m.pending[k] := s.(position := s.position + 1)])
      && (s.position >= |s.body| ==> r.chunks == m.chunks && r.streams == m.streams)
    ensures var s := m.streams[m.pending[k]];
      s.position < |s.body| && !m.stopPrefetching && m.reader.Some? <==> |r.pending| == |m.pending|
    ensures r.stopPrefetching == m.stopPrefetching && r.reader == m.reader && r.response == m.response
    ensures r.isPrefetching == m.isPrefetching
  {
    var id := m.pending[k];
    var s := m.streams[id];
    if s.position >= |s.body| then m.(pending := Remove(m.pending, k))
    else
      var read := m.(chunks := m.chunks + [s.body[s.position]],
                     streams := m.streams[id := s.(position := s.position + 1)]);
      if !read.stopPrefetching && read.reader.Some? then read.(pending := read.pending[k := read.reader.value])
      else read.(pending := Remove(read.pending, k))
  }

  /** The outstanding read of loop `k` rejects: the loop ends and nothing is appended. */
  function ReadFails(m: Manager, k: nat): (r: Manager)
    requires Valid(m) && k < |m.pending|
    ensures Valid(r) && |r.pending| == |m.pending| - 1 && r.chunks == m.chunks
  {
    m.(pending := Remove(m.pending, k))
  }

  /** What `getPrefetchedData()` returns. */
  datatype Prefetched = Prefetched(chunks: seq<Bytes>, response: Option<Response>, reader: Option<nat>)

  /**
   * `getPrefetchedData()`: a copy of the chunks and the response, and the
   * reader, which is handed out at most once (`transferReaderControl`).
   */
  function GetPrefetchedData(m: Manager): (r: (Manager, Prefetched))
    ensures r.1.chunks == m.chunks && r.1.response == m.response && r.1.reader == m.reader
    ensures r.0.reader.None?
    ensures m.reader.Some? ==> r.0.stopPrefetching
    ensures r.0.isPrefetching == m.isPrefetching && r.0.chunks == m.chunks
    ensures r.0.pending == m.pending && r.0.streams == m.streams
    ensures Valid(m) ==> Valid(r.0)
  {
    if m.reader.Some? then (m.(stopPrefetching := true, reader := None), Prefetched(m.chunks, m.response, m.reader))
    else (m, Prefetched(m.chunks, m.response, None))
  }

  // ---------------------------------------------------------------------------
  // Properties
  // ---------------------------------------------------------------------------

  /** Resetting twice is resetting once. */
  lemma ResetIdempotent(m: Manager)
    ensures Reset(Reset(m)) == Reset(m)
  {
  }

  /** A second `getPrefetchedData()` yields no reader. */
  lemma ReaderHandedOutOnce(m: Manager)
    ensures GetPrefetchedData(GetPrefetchedData(m).0).1.reader.None?
  {
  }

  /**
   * `getPrefetchedData` leaves `isPrefetching` set, so a later `startPrefetch`
   * does nothing until `resetPrefetch` runs.
   */
  lemma StartBlockedUntilReset(m: Manager, next: ChapterNavigation.Value)
    requires m.isPrefetching
    ensures var taken := GetPrefetchedData(m).0; Start(taken, next) == taken
  {
  }

  /**
   * The chunk lost at hand-over: when the reader is handed out while its read
   * loop has a read outstanding, that read's value lands in the manager's own
   * chunks after the snapshot was taken. The snapshot lacks it, and the reader
   * the caller received is already past it.
   */
  lemma {:induction false} LostChunkAtHandover(m: Manager, k: nat)
    requires Valid(m) && k < |m.pending| && m.reader == Some(m.pending[k])
    requires m.streams[m.pending[k]].position < |m.streams[m.pending[k]].body|
    ensures var (after, snapshot) := GetPrefetchedData(m);
      var s := m.streams[m.pending[k]];
      var r := Resolve(after, k);
      && snapshot.reader == Some(m.pending[k])
      && snapshot.chunks == m.chunks
      && r.chunks == snapshot.chunks + [s.body[s.position]]
      && r.streams[m.pending[k]].position == s.position + 1
      && |r.pending| == |m.pending| - 1
  {
    var (after, snapshot) := GetPrefetchedData(m);
    assert after.pending == m.pending && after.streams == m.streams;
    assert after.stopPrefetching;
  }

  /** The manager's chunks are exactly what has been read so far from the current reader, in order. */
  ghost predicate InReadOrder(m: Manager) {
    && m.reader.Some? && m.reader.value in m.streams
    && var s := m.streams[m.reader.value];
       s.position <= |s.body| && m.chunks == s.body[..s.position]
  }

  /** A freshly started read loop satisfies `InReadOrder`. */
  lemma RespondInReadOrder(m: Manager, response: Response)
    requires m.fetches > 0 && response.ok && m.chunks == []
    ensures InReadOrder(Respond(m, response))
  {
  }

  /** With one loop reading the current reader, each settled read keeps the chunks in read order. */
  lemma ResolveKeepsReadOrder(m: Manager)
    requires Valid(m) && InReadOrder(m) && m.pending == [m.reader.value]
    ensures InReadOrder(Resolve(m, 0))
    ensures Resolve(m, 0).pending == [] || Resolve(m, 0).pending == m.pending
  {
    var s := m.streams[m.reader.value];
    if s.position < |s.body| {
      assert s.body[..s.position + 1] == s.body[..s.position] + [s.body[s.position]];
    }
  }

  /** A read loop ends at the first check after a stop: a stopped manager never issues a new read. */
  lemma StopEndsLoops(m: Manager, k: nat)
    requires Valid(m) && k < |m.pending| && m.stopPrefetching
    ensures |Resolve(m, k).pending| == |m.pending| - 1
  {
  }

  /** A response that is not ok, or a failed fetch, leaves the manager idle. */
  lemma FailureResets(m: Manager, response: Response)
    requires m.fetches > 0 && !response.ok
    ensures Idle(Respond(m, response)) && Idle(FetchFails(m))
    ensures Respond(m, response).stopPrefetching
  {
  }
}
