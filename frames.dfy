/** The frame cache of one (did, channel): a deque of the most recent decoded
    frames bounded by the buffer size given when caching started, the time of
    the last append, and the two reads served from it. Times are whole seconds
    passed in by the caller. */
module Frames {
  import opened Outcomes

  newtype Byte = x: int | 0 <= x < 256

  /** One decoded JPEG: the payload, the camera's timestamp and the server time
      at which the frame callback received it. */
  datatype Frame = Frame(data: seq<Byte>, ts: int, receivedAt: int)

  /** The cache entry `{"frames": deque(maxlen=capacity), "updated_at": ...}`. */
  datatype Buffer = Buffer(frames: seq<Frame>, capacity: nat, updatedAt: Option<int>)

  /** A deque created with a positive maxlen never holds more than maxlen items. */
  predicate Bounded(b: Buffer) {
    0 < b.capacity && |b.frames| <= b.capacity
  }

  function Min(a: int, b: int): int {
    if a <= b then a else b
  }

  /** The last n elements of s (all of s when it is shorter): `s[-n:]` for n >= 1. */
  function Newest<T>(s: seq<T>, n: nat): (r: seq<T>)
    ensures |r| == Min(|s|, n)
    ensures r == s[|s| - |r|..]
  {
    if |s| <= n then s else s[|s| - n..]
  }

  /** Appending to a deque with maxlen cap: the new item becomes the newest and,
      when the deque is full, the oldest item is dropped. */
  function BoundedAppend<T>(s: seq<T>, x: T, cap: nat): (r: seq<T>)
    requires 0 < cap && |s| <= cap
    ensures r == Newest(s + [x], cap)
    ensures |r| <= cap && r[|r| - 1] == x
  {
    if |s| < cap then s + [x]
    else
      assert s[1..] + [x] == (s + [x])[|s| + 1 - cap..];
      s[1..] + [x]
  }

  lemma NewestOfNewest<T>(a: seq<T>, b: seq<T>, n: nat)
    ensures Newest(Newest(a, n) + b, n) == Newest(a + b, n)
  {
    var a' := Newest(a, n);
    if |a| > n {
      assert a + b == a[..|a| - n] + (a' + b);
    }
  }

  /** The deque after a run of appends, one per frame delivered by the camera. */
  function AppendAll<T>(s: seq<T>, xs: seq<T>, cap: nat): (r: seq<T>)
    requires 0 < cap && |s| <= cap
    ensures |r| <= cap
    decreases |xs|
  {
    if xs == [] then s else AppendAll(BoundedAppend(s, xs[0], cap), xs[1..], cap)
  }

  /** Whatever was in the deque and however many frames arrive, the deque ends
      up holding exactly the newest `cap` frames of everything it has seen, in
      arrival order. */
  lemma {:induction false} AppendAllKeepsNewest<T>(s: seq<T>, xs: seq<T>, cap: nat)
    requires 0 < cap && |s| <= cap
    ensures AppendAll(s, xs, cap) == Newest(s + xs, cap)
    decreases |xs|
  {
    if xs != [] {
      var s' := BoundedAppend(s, xs[0], cap);
      calc {
        AppendAll(s, xs, cap);
        AppendAll(s', xs[1..], cap);
        { AppendAllKeepsNewest(s', xs[1..], cap); }
        Newest(s' + xs[1..], cap);
        Newest(Newest(s + [xs[0]], cap) + xs[1..], cap);
        { NewestOfNewest(s + [xs[0]], xs[1..], cap); }
        Newest(s + [xs[0]] + xs[1..], cap);
        { assert s + [xs[0]] + xs[1..] == s + xs; }
        Newest(s + xs, cap);
      }
    }
  }

  /** The cache's frame callback for a live entry: append (data, ts, now) and
      record now as the time of the last update. */
  function OnFrame(b: Buffer, f: Frame): (b': Buffer)
    requires Bounded(b)
    ensures Bounded(b') && b'.capacity == b.capacity
    ensures b'.frames == Newest(b.frames + [f], b.capacity)
    ensures b'.frames[|b'.frames| - 1] == f
    ensures b'.updatedAt == Some(f.receivedAt)
  {
    b.(frames := BoundedAppend(b.frames, f, b.capacity), updatedAt := Some(f.receivedAt))
  }

  /** The entry is stale when it was never updated or its last update is more
      than maxAge seconds old. */
  predicate IsStale(b: Buffer, now: int, maxAge: int) {
    b.updatedAt.None? || now - b.updatedAt.value > maxAge
  }

  /** get_cached_camera_snapshot waits for the next frame only when the entry
      is stale and a positive wait timeout was asked for. */
  predicate ShouldWait(b: Buffer, now: int, maxAge: int, waitTimeout: int) {
    IsStale(b, now, maxAge) && waitTimeout > 0
  }

  /** The newest frame of the entry, or the "snapshot cache empty" error. */
  function Latest(b: Buffer): (r: Result<Frame>)
    ensures r.Ok? <==> b.frames != []
    ensures r.Ok? ==> r.value == b.frames[|b.frames| - 1]
    ensures r.Err? ==> r.error == SnapshotCacheEmpty
  {
    if b.frames == [] then Err(SnapshotCacheEmpty) else Ok(b.frames[|b.frames| - 1])
  }

  /** get_cached_camera_snapshot on the entry found under the key (None when
      caching was never started). The wait ends either by timing out
      (`woken` is None) or because a frame arrived and the frame callback
      appended it (`woken` is that frame). Returns the entry as it is afterwards
      and the result. */
  function CachedSnapshot(entry: Option<Buffer>, now: int, maxAge: int, waitTimeout: int, woken: Option<Frame>)
    : (r: (Option<Buffer>, Result<Frame>))
    requires entry.Some? ==> Bounded(entry.value)
    ensures entry.None? ==> r == (None, Err(CacheNotStarted))
    ensures entry.Some? ==> r.0.Some? && Bounded(r.0.value)
    // not stale, or no wait asked for: the newest frame even when it is stale
    ensures entry.Some? && !ShouldWait(entry.value, now, maxAge, waitTimeout) ==>
      r == (entry, Latest(entry.value))
    ensures entry.Some? && ShouldWait(entry.value, now, maxAge, waitTimeout) && woken.None? ==>
      r == (entry, Err(CacheWaitTimeout))
    // the frame that ended the wait is the one returned
    ensures entry.Some? && ShouldWait(entry.value, now, maxAge, waitTimeout) && woken.Some? ==>
      r.0 == Some(OnFrame(entry.value, woken.value)) && r.1 == Ok(woken.value)
  {
    match entry
    case None => (None, Err(CacheNotStarted))
    case Some(b) =>
      if ShouldWait(b, now, maxAge, waitTimeout) then
        match woken
        case None => (entry, Err(CacheWaitTimeout))
        case Some(f) =>
          var b' := OnFrame(b, f);
          (Some(b'), Latest(b'))
      else (entry, Latest(b))
  }

  /** get_camera_snapshot on a channel whose cache is running: the newest frame
      whatever its age; with an empty buffer, the frame that ends the wait for
      the next one (`woken`, None when the wait timed out). Returns the buffer
      as it is afterwards and the result. */
  function SnapshotFromCache(b: Buffer, woken: Option<Frame>): (r: (Buffer, Result<Frame>))
    requires Bounded(b)
    ensures Bounded(r.0) && r.0.capacity == b.capacity
    ensures b.frames != [] ==> r == (b, Ok(b.frames[|b.frames| - 1]))
    ensures b.frames == [] && woken.None? ==> r == (b, Err(SnapshotTimeout))
    ensures b.frames == [] && woken.Some? ==> r == (OnFrame(b, woken.value), Ok(woken.value))
    // the emptiness check after the wait never fires: a wake means a frame was appended
    ensures r.1 != Err(SnapshotCacheEmpty)
  {
    if b.frames != [] then (b, Latest(b))
    else match woken
      case None => (b, Err(SnapshotTimeout))
      case Some(f) =>
        var b' := OnFrame(b, f);
        (b', Latest(b'))
  }

  /** The most frames get_cached_camera_frames returns in one call. */
  const MAX_RECENT_FRAMES := 50

  /** get_cached_camera_frames: the newest min(count, 50) frames, oldest first. */
  function RecentFrames(entry: Option<Buffer>, count: int): (r: Result<seq<Frame>>)
    // the count is checked before the cache is looked up
    ensures count <= 0 ==> r == Err(NotPositive("count"))
    ensures count > 0 && entry.None? ==> r == Err(CacheNotStarted)
    ensures count > 0 && entry.Some? && entry.value.frames == [] ==> r == Err(SnapshotCacheEmpty)
    // a positive count on a cached, non-empty buffer always succeeds
    ensures count > 0 && entry.Some? && entry.value.frames != [] ==> r.Ok?
    ensures r.Ok? ==> entry.Some?
    ensures r.Ok? && entry.Some? ==>
      var fs := entry.value.frames;
      && |r.value| == Min(Min(count, MAX_RECENT_FRAMES), |fs|)
      && r.value == fs[|fs| - |r.value|..]
      && r.value[|r.value| - 1] == fs[|fs| - 1]
  {
    if count <= 0 then Err(NotPositive("count"))
    else
      var n := Min(count, MAX_RECENT_FRAMES);
      match entry
      case None => Err(CacheNotStarted)
      case Some(b) =>
        var fs := Newest(b.frames, n);
        if fs == [] then Err(SnapshotCacheEmpty) else Ok(fs)
  }

  /** Once a frame has been appended, a read of one recent frame returns exactly
      that frame: a read never returns a frame older than the latest append. */
  lemma ReadAfterAppend(b: Buffer, f: Frame)
    requires Bounded(b)
    ensures RecentFrames(Some(OnFrame(b, f)), 1) == Ok([f])
  {
    var fs := OnFrame(b, f).frames;
    assert Newest(fs, 1) == [fs[|fs| - 1]];
  }

  /** After an append, a read of any positive count succeeds, ends with the
      appended frame, and returns min(count, 50) frames when the buffer keeps
      that many. */
  lemma RecentAfterAppend(b: Buffer, f: Frame, count: int)
    requires Bounded(b) && count > 0
    ensures var r := RecentFrames(Some(OnFrame(b, f)), count);
      && r.Ok? && r.value[|r.value| - 1] == f
      && |r.value| == Min(Min(count, MAX_RECENT_FRAMES), Min(|b.frames| + 1, b.capacity))
  {
    var fs := OnFrame(b, f).frames;
    assert |fs| == Min(|b.frames| + 1, b.capacity);
  }
}
