/**
 * The browser's progressive-playback buffer (`AudioHandler`). Chunks of an MP3
 * stream arrive one at a time; once enough bytes have arrived the player is
 * pointed at a blob of everything received so far, and near the end of what
 * is playable the blob is rebuilt. The audio element, the blob URLs and the
 * abort controllers are modelled by the state they expose: the player's
 * paused flag, source and position, the set of created and revoked URL
 * handles, and the set of aborted controllers.
 */
module AudioHandler {
  import opened Wrappers

  /** The constructor's default `minBufferSize`: 128 KiB. */
  const MinimumBufferSize: nat := 128 * 1024

  /** A blob URL returned by `URL.createObjectURL`. */
  type Handle = nat

  /** The audio element: whether it is paused, its source and its playback position. */
  datatype Player = Player(paused: bool, src: Option<Handle>, currentTime: int)

  /** `load()`: the media load algorithm pauses the element and rewinds it. */
  function Load(p: Player): (r: Player)
    ensures r.paused && r.currentTime == 0 && r.src == p.src
  {
    p.(paused := true, currentTime := 0)
  }

  /** `play()`: an autoplay rejection is only logged by the source, so it is not modelled. */
  function Play(p: Player): (r: Player)
    ensures !r.paused && r.src == p.src && r.currentTime == p.currentTime
  {
    p.(paused := false)
  }

  datatype Handler = Handler(
    chunks: seq<Bytes>,
    totalBytes: nat,
    lastUpdate: nat,
    blobUrl: Option<Handle>,
    minBuffer: nat,
    playbackStarted: bool,
    cleaningUp: bool,
    controller: Option<nat>,
    /** `None` once `cleanup` has finished. */
    player: Option<Player>,
    /** Every blob URL created so far, with the chunks its blob holds. */
    blobs: map<Handle, seq<Bytes>>,
    revoked: set<Handle>,
    nextHandle: Handle,
    /** Every abort controller that has been aborted. */
    aborted: set<nat>,
    nextController: nat)

  /**
   * What a call does: it returns its value or throws, and either way leaves a
   * state behind (the assignments made before a `TypeError` on a `null`
   * player are kept).
   */
  datatype Outcome<T> = Returned(state: Handler, value: T) | Threw(state: Handler)

  predicate IsPrefix(p: seq<Bytes>, s: seq<Bytes>) {
    |p| <= |s| && s[..|p|] == p
  }

  /** The state the class's own operations keep. */
  ghost predicate Valid(h: Handler) {
    && h.player.Some?
    && h.totalBytes == TotalLength(h.chunks)
    && h.lastUpdate <= h.totalBytes
    && (forall k :: k in h.blobs ==> k < h.nextHandle)
    && h.revoked <= h.blobs.Keys
    // at most one blob URL is alive: the one the player is using
    && (forall k :: k in h.blobs && k !in h.revoked ==> h.blobUrl == Some(k))
    && (h.blobUrl.Some? ==>
          var u := h.blobUrl.value;
          u in h.blobs && u !in h.revoked && h.player.value.src == Some(u) && IsPrefix(h.blobs[u], h.chunks))
    && (h.playbackStarted ==> h.blobUrl.Some?)
    && (h.chunks == [] ==> h.blobUrl.None?)
    && (forall c :: c in h.aborted ==> c < h.nextController)
    && (h.controller.Some? ==> h.controller.value < h.nextController)
  }

  /** No blob URL is left unrevoked. */
  predicate NoLiveHandle(h: Handler) {
    h.blobs.Keys <= h.revoked
  }

  /** `new AudioHandler(audioPlayer, minBufferSize)`. */
  function New(player: Player, minBuffer: nat): (h: Handler)
    ensures Valid(h)
    ensures h.chunks == [] && h.totalBytes == 0 && h.blobUrl.None? && !h.playbackStarted && !h.cleaningUp
    ensures h.player == Some(player) && h.minBuffer == minBuffer
  {
    Handler([], 0, 0, None, minBuffer, false, false, None, Some(player), map[], {}, 0, {}, 0)
  }

  /** `createNewController()`: the previous controller is replaced without being aborted. */
  function CreateNewController(h: Handler): (r: (Handler, nat))
    ensures r.0.controller == Some(r.1) && r.0.aborted == h.aborted
    ensures r.1 < r.0.nextController
    ensures r.0.(controller := h.controller, nextController := h.nextController) == h
  {
    (h.(controller := Some(h.nextController), nextController := h.nextController + 1), h.nextController)
  }

  /** `abort()` on the current controller, if any, and forget it. */
  function AbortController(h: Handler): (r: Handler)
    ensures r.controller.None?
    ensures r.aborted == (if h.controller.Some? then h.aborted + {h.controller.value} else h.aborted)
    ensures r.(controller := h.controller, aborted := h.aborted) == h
  {
    match h.controller
    case Some(c) => h.(controller := None, aborted := h.aborted + {c})
    case None => h
  }

  /**
   * The synchronous part of `reset()`, up to the 100 ms wait. Without a player
   * (after `cleanup()`) `pause()` throws once the controller is aborted and the
   * cleaning flag is set, so the flag is never cleared again.
   */
  function ResetBegin(h: Handler): (r: Outcome<()>)
    ensures r.Threw? <==> h.player.None?
    ensures r.state.controller.None? && (h.controller.Some? ==> h.controller.value in r.state.aborted)
    ensures r.state.cleaningUp
    ensures r.Returned? ==>
      && r.state.chunks == [] && r.state.totalBytes == 0 && r.state.lastUpdate == 0 && !r.state.playbackStarted
      && r.state.blobUrl.None? && (h.blobUrl.Some? ==> h.blobUrl.value in r.state.revoked)
      && r.state.player.Some? && r.state.player.value.paused && r.state.player.value.src.None?
    ensures r.Threw? ==>
      && r.state.chunks == h.chunks && r.state.blobUrl == h.blobUrl && r.state.revoked == h.revoked
      && r.state.playbackStarted == h.playbackStarted
    ensures r.state.blobs == h.blobs && r.state.minBuffer == h.minBuffer
  {
    var a := AbortController(h).(cleaningUp := true);
    match a.player
    case None => Threw(a)
    case Some(before) =>
      var p := Load(before.(paused := true, src := None));
      var cleared := a.(player := Some(p), chunks := [], totalBytes := 0, lastUpdate := 0, playbackStarted := false);
      match cleared.blobUrl
      case Some(u) => Returned(cleared.(revoked := cleared.revoked + {u}, blobUrl := None), ())
      case None => Returned(cleared, ())
  }

  /** The step after the wait: `isCleaningUp = false`. */
  function ResetFinish(h: Handler): (r: Handler)
    ensures !r.cleaningUp && r == h.(cleaningUp := false)
  {
    h.(cleaningUp := false)
  }

  /**
   * `updateSource()`: point the player at a fresh blob of every chunk received,
   * keeping its position and its playing state, then revoke the previous URL.
   * With no chunks the previous URL is still revoked, yet `currentBlobUrl` keeps it.
   * Without a player, reading its position throws after the new URL is made
   * current, and the previous URL is never revoked.
   */
  function UpdateSource(h: Handler): (r: Outcome<()>)
    ensures r.Threw? <==> !h.cleaningUp && h.chunks != [] && h.player.None?
    ensures h.cleaningUp ==> r == Returned(h, ())
    ensures !h.cleaningUp && h.chunks != [] ==>
      && r.state.blobUrl == Some(h.nextHandle)
      && r.state.blobs == h.blobs[h.nextHandle := h.chunks]
    ensures !h.cleaningUp && h.chunks != [] && h.player.Some? ==>
      && r.state.player.Some? && r.state.player.value.src == r.state.blobUrl
      && r.state.player.value.currentTime == h.player.value.currentTime
      && r.state.player.value.paused == h.player.value.paused
    ensures r.Returned? && !h.cleaningUp && h.blobUrl.Some? ==> h.blobUrl.value in r.state.revoked
    ensures r.Threw? ==> r.state.revoked == h.revoked
    ensures !h.cleaningUp && h.chunks == [] ==> r.state.blobUrl == h.blobUrl && r.state.player == h.player
    ensures r.state.chunks == h.chunks && r.state.totalBytes == h.totalBytes && r.state.lastUpdate == h.lastUpdate
    ensures r.state.playbackStarted == h.playbackStarted && r.state.cleaningUp == h.cleaningUp
    ensures r.state.controller == h.controller && r.state.aborted == h.aborted && r.state.minBuffer == h.minBuffer
  {
    if h.cleaningUp then Returned(h, ())
    else
      var previous := h.blobUrl;
      var attached :=
        if h.chunks != [] then
          var u := h.nextHandle;
          var created := h.(blobs := h.blobs[u := h.chunks], nextHandle := u + 1, blobUrl := Some(u));
          match h.player
          case None => Threw(created)
          case Some(before) =>
            var loaded := Load(before.(src := Some(u))).(currentTime := before.currentTime);
            var p := if !before.paused then Play(loaded) else loaded;
            Returned(created.(player := Some(p)), ())
        else Returned(h, ());
      if attached.Threw? then attached
      else match previous
        case Some(u) => Returned(attached.state.(revoked := attached.state.revoked + {u}), ())
        case None => attached
  }

  /**
   * `addChunk(chunk)`: append the chunk; start playback the first time the
   * total reaches the minimum, or refresh the source once started and close to
   * the end (`nearEnd` stands for `duration - currentTime < 10`). The flag is
   * what the source returns: whether this call started playback. Without a
   * player the chunk is still kept; the call throws only when it reaches the
   * player, through `updateSource()` or by reading its `duration`.
   */
  function AddChunk(h: Handler, chunk: Bytes, nearEnd: bool): (r: Outcome<bool>)
    ensures h.cleaningUp ==> r == Returned(h, false)
    ensures r.Threw? <==>
      !h.cleaningUp && h.player.None? && (h.playbackStarted || h.totalBytes + |chunk| >= h.minBuffer)
    ensures !h.cleaningUp ==> r.state.chunks == h.chunks + [chunk] && r.state.totalBytes == h.totalBytes + |chunk|
    ensures r.Returned? && r.value <==>
      !h.cleaningUp && h.player.Some? && !h.playbackStarted && h.totalBytes + |chunk| >= h.minBuffer
    ensures r.Returned? && !h.cleaningUp ==> r.state.playbackStarted == (h.playbackStarted || r.value)
    ensures r.Returned? && r.value ==> r.state.player.Some? && !r.state.player.value.paused
    ensures (r.Returned? && r.value) || (!h.cleaningUp && h.player.Some? && h.playbackStarted && nearEnd) ==>
      && r.state.lastUpdate == r.state.totalBytes
      && r.state.blobUrl == Some(h.nextHandle) && r.state.blobs == h.blobs[h.nextHandle := r.state.chunks]
    ensures r.Returned? && !r.value && !(h.playbackStarted && nearEnd) ==>
      && r.state.blobUrl == h.blobUrl && r.state.blobs == h.blobs && r.state.player == h.player
      && r.state.lastUpdate == h.lastUpdate && r.state.playbackStarted == h.playbackStarted
    ensures r.state.cleaningUp == h.cleaningUp && r.state.controller == h.controller && r.state.minBuffer == h.minBuffer
  {
    if h.cleaningUp then Returned(h, false)
    else
      var pushed := h.(chunks := h.chunks + [chunk], totalBytes := h.totalBytes + |chunk|);
      if !pushed.playbackStarted && pushed.totalBytes >= pushed.minBuffer then
        match UpdateSource(pushed)
        case Threw(thrown) => Threw(thrown)
        case Returned(u, _) =>
          var played := u.(player := Some(Play(u.player.value)));
          Returned(played.(playbackStarted := true, lastUpdate := played.totalBytes), true)
      else if pushed.playbackStarted && pushed.player.None? then Threw(pushed)
      else if pushed.playbackStarted && nearEnd then
        var u := UpdateSource(pushed).state;
        Returned(u.(lastUpdate := u.totalBytes), false)
      else Returned(pushed, false)
  }

  /** `cleanup()` up to the wait inside `reset()`: abort the controller, then `reset()`'s first part. */
  function CleanupBegin(h: Handler): (r: Outcome<()>)
    ensures r.Threw? <==> h.player.None?
    ensures r.state.controller.None? && (h.controller.Some? ==> h.controller.value in r.state.aborted)
    ensures r.state.cleaningUp
    ensures r.Returned? ==>
      && r.state.chunks == [] && r.state.totalBytes == 0 && !r.state.playbackStarted
      && r.state.blobUrl.None? && (h.blobUrl.Some? ==> h.blobUrl.value in r.state.revoked)
    ensures r.Threw? ==> r.state.chunks == h.chunks && r.state.blobUrl == h.blobUrl
  {
    ResetBegin(AbortController(h))
  }

  /** The rest of `cleanup()`: `reset()` completes, then the player reference is dropped. */
  function CleanupFinish(h: Handler): (r: Handler)
    ensures r.player.None? && !r.cleaningUp
    ensures r.chunks == h.chunks && r.blobs == h.blobs && r.revoked == h.revoked && r.aborted == h.aborted
  {
    ResetFinish(h).(player := None)
  }

  // ---------------------------------------------------------------------------
  // The invariant
  // ---------------------------------------------------------------------------

  lemma TotalLengthSnoc(chunks: seq<Bytes>, c: Bytes)
    ensures TotalLength(chunks + [c]) == TotalLength(chunks) + |c|
  {
    assert (chunks + [c])[..|chunks|] == chunks;
  }

  lemma ValidNew(player: Player, minBuffer: nat)
    ensures Valid(New(player, minBuffer))
  {
  }

  /** The new controller is fresh: never aborted, and not the one it replaces. */
  lemma ValidCreateNewController(h: Handler)
    requires Valid(h)
    ensures var (r, c) := CreateNewController(h);
      Valid(r) && c !in r.aborted && (h.controller.Some? ==> h.controller.value != c)
  {
  }

  /** After the first part of `reset()` every blob URL ever created has been revoked. */
  lemma ResetBeginReleases(h: Handler)
    requires Valid(h)
    ensures ResetBegin(h).Returned? && Valid(ResetBegin(h).state) && NoLiveHandle(ResetBegin(h).state)
  {
    var r := ResetBegin(h).state;
    forall k | k in r.blobs
      ensures k in r.revoked
    {
      if k !in h.revoked {
        assert h.blobUrl == Some(k);
      }
    }
  }

  lemma ValidResetFinish(h: Handler)
    requires Valid(h)
    ensures Valid(ResetFinish(h))
  {
  }

  lemma ValidUpdateSource(h: Handler)
    requires Valid(h)
    ensures UpdateSource(h).Returned? && Valid(UpdateSource(h).state)
  {
    var r := UpdateSource(h).state;
    if !h.cleaningUp && h.chunks != [] {
      assert IsPrefix(r.blobs[r.blobUrl.value], r.chunks);
      forall k | k in r.blobs && k != h.nextHandle
        ensures k in r.revoked
      {
        if k !in h.revoked {
          assert h.blobUrl == Some(k);
        }
      }
    }
  }

  /** Appending a chunk keeps the invariant: the attached blob stays a prefix of the chunks. */
  lemma ValidPush(h: Handler, chunk: Bytes)
    requires Valid(h)
    ensures Valid(h.(chunks := h.chunks + [chunk], totalBytes := h.totalBytes + |chunk|))
  {
    TotalLengthSnoc(h.chunks, chunk);
    if h.blobUrl.Some? {
      var b := h.blobs[h.blobUrl.value];
      assert (h.chunks + [chunk])[..|b|] == h.chunks[..|b|];
    }
  }

  lemma ValidAddChunk(h: Handler, chunk: Bytes, nearEnd: bool)
    requires Valid(h)
    ensures AddChunk(h, chunk, nearEnd).Returned? && Valid(AddChunk(h, chunk, nearEnd).state)
  {
    if !h.cleaningUp {
      var pushed := h.(chunks := h.chunks + [chunk], totalBytes := h.totalBytes + |chunk|);
      ValidPush(h, chunk);
      ValidUpdateSource(pushed);
    }
  }

  // ---------------------------------------------------------------------------
  // Properties
  // ---------------------------------------------------------------------------

  /** While the reset is waiting, neither chunks nor source refreshes have any effect. */
  lemma CleaningWindowIsInert(h: Handler, chunk: Bytes, nearEnd: bool)
    ensures var b := ResetBegin(h).state;
      AddChunk(b, chunk, nearEnd) == Returned(b, false) && UpdateSource(b) == Returned(b, ())
  {
  }

  /** `cleanup()` releases everything: the controller is aborted, every URL revoked, the player dropped. */
  lemma CleanupReleasesEverything(h: Handler)
    requires Valid(h)
    ensures CleanupBegin(h).Returned?
    ensures var r := CleanupFinish(CleanupBegin(h).state);
      && r.player.None? && r.controller.None? && !r.cleaningUp
      && (h.controller.Some? ==> h.controller.value in r.aborted)
      && r.chunks == [] && r.blobUrl.None? && NoLiveHandle(r)
  {
    var a := AbortController(h);
    assert Valid(a);
    ResetBeginReleases(a);
  }

  /** The abort in `cleanup()` makes the one in `reset()` redundant: both begin alike. */
  lemma CleanupBeginIsResetBegin(h: Handler)
    ensures CleanupBegin(h) == ResetBegin(h)
  {
  }

  /** From a state the class reaches, `updateSource()` with no chunks changes nothing. */
  lemma EmptyUpdateIsNoop(h: Handler)
    requires Valid(h) && h.chunks == []
    ensures UpdateSource(h) == Returned(h, ())
  {
  }

  /**
   * Outside the invariant (`audioChunks` is a public field), `updateSource()`
   * with no chunks revokes the current URL and leaves `currentBlobUrl` naming it.
   */
  lemma EmptyUpdateDangles(h: Handler, u: Handle)
    requires !h.cleaningUp && h.chunks == [] && h.blobUrl == Some(u)
    ensures var r := UpdateSource(h); r.Returned? && r.state.blobUrl == Some(u) && u in r.state.revoked
  {
  }

  /**
   * After `cleanup()` the handler has no player, yet it still buffers: a chunk
   * below the minimum is kept and `false` returned, and an empty refresh and a
   * new controller run; a chunk reaching the minimum, and `reset()`, throw.
   */
  lemma AfterCleanup(h: Handler, chunk: Bytes, nearEnd: bool)
    requires Valid(h)
    ensures var c := CleanupFinish(CleanupBegin(h).state);
      && (AddChunk(c, chunk, nearEnd).Threw? <==> |chunk| >= h.minBuffer)
      && (|chunk| < h.minBuffer ==>
            AddChunk(c, chunk, nearEnd) == Returned(c.(chunks := [chunk], totalBytes := |chunk|), false))
      && UpdateSource(c) == Returned(c, ())
      && CreateNewController(c).0.controller.Some?
      && ResetBegin(c).Threw?
  {
    CleanupReleasesEverything(h);
  }

  /** The calls between two resets: `addChunk`, `updateSource` and `createNewController`. */
  datatype Event = Add(chunk: Bytes, nearEnd: bool) | Refresh | NewController

  function Step(h: Handler, e: Event): (r: (Handler, bool))
    requires Valid(h)
    ensures Valid(r.0) && r.0.cleaningUp == h.cleaningUp
    ensures h.playbackStarted ==> r.0.playbackStarted && !r.1
    ensures r.1 ==> r.0.playbackStarted
  {
    match e
    case Add(c, n) => ValidAddChunk(h, c, n); var o := AddChunk(h, c, n); (o.state, o.value)
    case Refresh => ValidUpdateSource(h); (UpdateSource(h).state, false)
    case NewController => ValidCreateNewController(h); (CreateNewController(h).0, false)
  }

  /** The state after `events`, and how many of them were `addChunk` calls that returned true. */
  function Run(h: Handler, events: seq<Event>): (r: (Handler, nat))
    requires Valid(h)
    ensures Valid(r.0)
    decreases |events|
  {
    if events == [] then (h, 0)
    else
      var (next, started) := Step(h, events[0]);
      var (last, count) := Run(next, events[1..]);
      (last, count + if started then 1 else 0)
  }

  /**
   * Between two resets `addChunk` returns true at most once, and never once
   * playback has started; after it has, playback stays started.
   */
  lemma {:induction false} StartsAtMostOnce(h: Handler, events: seq<Event>)
    requires Valid(h)
    ensures Run(h, events).1 <= 1
    ensures h.playbackStarted ==> Run(h, events).1 == 0 && Run(h, events).0.playbackStarted
    ensures Run(h, events).1 == 1 ==> Run(h, events).0.playbackStarted
    decreases |events|
  {
    if events != [] {
      var (next, started) := Step(h, events[0]);
      StartsAtMostOnce(next, events[1..]);
    }
  }
}
