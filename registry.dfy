/** The camera tables as run_server keeps them: three tables updated in place by
    the camera tools for the lifetime of the server. Each method makes its
    updates in the order the tool makes them, and its postcondition says that
    the tables it leaves, its result and the library calls it made are those of
    the tool's step in CameraTables. */
module CameraRegistry {
  import opened Outcomes
  import opened Frames
  import opened Sessions
  import opened Capture
  import opened CameraTables

  class Registry {
    var instances: map<Did, Session>
    var cache: map<Key, Buffer>
    var events: set<Key>
    /** The calls made on the camera library so far. */
    ghost var log: seq<Effect>

    function State(): Tables
      reads this
    {
      Tables(instances, cache, events)
    }

    ghost predicate Valid()
      reads this
    {
      Inv(State())
    }

    constructor ()
      ensures Valid() && State() == Tables(map[], map[], {}) && log == []
    {
      instances := map[];
      cache := map[];
      events := {};
      log := [];
    }

    /** _get_or_create_camera_instance. */
    method GetOrCreateSession(did: Did, pin: PinCode, startIfNeeded: bool, io: CameraIo) returns (r: Result<Session>)
      modifies this
      ensures var a := Acquire(did, Lookup(old(instances), did), pin, startIfNeeded, io);
        instances == Put(old(instances), did, a.entry) && r == a.result && log == old(log) + a.effects
      ensures cache == old(cache) && events == old(events)
    {
      var state: Session;
      if did !in instances {
        if !io.createOk(did) {
          return Err(LibraryError);
        }
        state := Session(false, pin, {}, map[]);
        instances := instances[did := state];
        log := log + [Create(did)];
      } else {
        state := instances[did];
      }
      if IsSet(pin) && IsSet(state.pin) && pin != state.pin {
        return Err(PinMismatch);
      }
      if IsSet(pin) && !IsSet(state.pin) {
        state := state.(pin := pin);
        instances := instances[did := state];
      }
      if startIfNeeded && !state.started {
        if !io.startOk(did) {
          return Err(LibraryError);
        }
        log := log + [Start(did, state.pin)];
        state := state.(started := true);
        instances := instances[did := state];
      }
      return Ok(state);
    }

    /** _start_camera_cache. */
    method StartCacheChannel(listing: Listing, did: Did, channel: int, pin: PinCode, bufferSize: int, io: CameraIo)
      returns (r: Result<()>)
      requires Valid() && bufferSize > 0
      modifies this
      ensures var s := StartCacheChannelStep(old(State()), listing, did, channel, pin, bufferSize, io);
        State() == s.tables && r == s.result && log == old(log) + s.effects
      ensures Valid()
    {
      ghost var t0 := State();
      ghost var log0 := log;
      var info := CheckCamera(listing, did, channel);
      if info.Err? {
        return Err(info.error);
      }
      ghost var a := Acquire(did, Lookup(t0.instances, did), pin, true, io);
      var acquired := GetOrCreateSession(did, pin, true, io);
      if acquired.Err? {
        return Err(acquired.error);
      }
      AcquireKeepsInv(t0, did, pin, true, io);
      ghost var t1 := State();
      assert t1 == t0.(instances := Put(t0.instances, did, a.entry));
      assert instances[did] == acquired.value && acquired.value.started;
      r := AddCacheChannel(did, channel, acquired.value, bufferSize, io);
      ghost var c := CacheChannel(t1, did, channel, acquired.value, bufferSize, io);
      assert StartCacheChannelStep(t0, listing, did, channel, pin, bufferSize, io) == Step(c.tables, c.result, a.effects + c.effects);
      SeqAssoc(log0, a.effects, c.effects);
    }

    /** _start_camera_cache past the acquisition of the started session `state`. */
    method AddCacheChannel(did: Did, channel: int, state: Session, bufferSize: int, io: CameraIo)
      returns (r: Result<()>)
      requires Valid() && bufferSize > 0 && did in instances && instances[did] == state && state.started
      modifies this
      ensures var s := CacheChannel(old(State()), did, channel, state, bufferSize, io);
        State() == s.tables && r == s.result && log == old(log) + s.effects
      ensures Valid()
    {
      var key := (did, channel);
      if key !in cache {
        cache := cache[key := Buffer([], bufferSize, None)];
        events := events + {key};
        var reg := io.register(did, channel);
        if reg.None? {
          return Err(LibraryError);
        }
        instances := instances[did := AttachChannel(state, channel, reg.value)];
        log := log + [Register(did, channel, reg.value)];
      }
      return Ok(());
    }

    /** start_camera_cache. */
    method StartCache(listing: Listing, did: Did, channel: int, pin: PinCode, bufferSize: int, io: CameraIo)
      returns (r: Result<()>)
      requires Valid()
      modifies this
      ensures var s := StartCacheStep(old(State()), listing, did, channel, pin, bufferSize, io);
        State() == s.tables && r == s.result && log == old(log) + s.effects
      ensures Valid()
    {
      if bufferSize <= 0 {
        return Err(NotPositive("buffer_size"));
      }
      r := StartCacheChannel(listing, did, channel, pin, bufferSize, io);
    }

    /** The frame callback _start_camera_cache registers for `key`. */
    method OnCacheFrame(key: Key, f: Frame)
      requires Valid()
      modifies this
      ensures State() == OnFrameStep(old(State()), key, f) && log == old(log)
      ensures Valid()
    {
      if key !in cache {
        return;
      }
      cache := cache[key := OnFrame(cache[key], f)];
    }

    /** stop_camera_cache. */
    method StopCache(did: Did, channel: int) returns (r: Result<StopStatus>)
      requires Valid()
      modifies this
      ensures var s := StopCacheStep(old(State()), did, channel);
        State() == s.tables && r == s.result && log == old(log) + s.effects
      ensures Valid()
    {
      var key := (did, channel);
      if key !in cache {
        return Ok(NotRunning);
      }
      cache := cache - {key};
      events := events - {key};
      if did in instances && channel in instances[did].channels {
        var state := instances[did];
        var id := if channel in state.regIds then state.regIds[channel] else 0;
        log := log + [Unregister(did, channel, id)];
        var rest := state.channels - {channel};
        state := state.(channels := rest, regIds := state.regIds - {channel});
        if rest == {} {
          log := log + [Stop(did)];
          state := state.(started := false);
        }
        instances := instances[did := state];
      }
      return Ok(Stopped);
    }

    /** get_cached_camera_snapshot. `arrivals` are the frames the camera delivers
        while the tool waits; the first one ends the wait. */
    method GetCachedSnapshot(did: Did, channel: int, now: int, maxAge: int, waitTimeout: int, arrivals: seq<Frame>)
      returns (r: Result<Frame>)
      requires Valid()
      modifies this
      ensures var c := CachedSnapshot(Lookup(old(cache), (did, channel)), now, maxAge, waitTimeout, FirstOf(arrivals));
        && r == c.1
        && cache == (if c.0.Some? then old(cache)[(did, channel) := c.0.value] else old(cache))
      ensures instances == old(instances) && events == old(events) && log == old(log)
      ensures Valid()
    {
      var key := (did, channel);
      if key !in cache {
        return Err(CacheNotStarted);
      }
      ghost var before := cache[key];
      var updatedAt := cache[key].updatedAt;
      var stale := updatedAt.None? || now - updatedAt.value > maxAge;
      if stale && waitTimeout > 0 {
        if arrivals == [] {
          return Err(CacheWaitTimeout);
        }
        OnCacheFrame(key, arrivals[0]);
        assert cache == old(cache)[key := OnFrame(before, arrivals[0])];
      } else {
        assert !ShouldWait(before, now, maxAge, waitTimeout);
      }
      var frames := cache[key].frames;
      if frames == [] {
        return Err(SnapshotCacheEmpty);
      }
      return Ok(frames[|frames| - 1]);
    }

    /** get_cached_camera_frames. */
    method GetCachedFrames(did: Did, channel: int, count: int) returns (r: Result<seq<Frame>>)
      requires Valid()
      ensures r == RecentFrames(Lookup(cache, (did, channel)), count)
    {
      if count <= 0 {
        return Err(NotPositive("count"));
      }
      var n := Min(count, MAX_RECENT_FRAMES);
      var key := (did, channel);
      if key !in cache {
        return Err(CacheNotStarted);
      }
      var frames := Newest(cache[key].frames, n);
      if frames == [] {
        return Err(SnapshotCacheEmpty);
      }
      return Ok(frames);
    }

    /** get_camera_snapshot. `arrivals` are the frames the camera delivers while
        the tool waits. */
    method GetSnapshot(listing: Listing, did: Did, channel: int, pin: PinCode, io: CameraIo, arrivals: seq<Frame>)
      returns (r: Result<Frame>)
      requires Valid()
      modifies this
      ensures var s := SnapshotStep(old(State()), listing, did, channel, pin, io, FirstOf(arrivals));
        State() == s.tables && r == s.result && log == old(log) + s.effects
      ensures Valid()
    {
      var info := CheckCamera(listing, did, channel);
      if info.Err? {
        return Err(info.error);
      }
      var key := (did, channel);
      if key in cache {
        r := GetSnapshotFromCache(key, arrivals);
        return;
      }
      r := GetTransientSnapshot(did, channel, pin, io, arrivals);
    }

    /** get_camera_snapshot on a channel with a running cache: the newest frame,
        or the next one when the buffer is still empty. */
    method GetSnapshotFromCache(key: Key, arrivals: seq<Frame>) returns (r: Result<Frame>)
      requires Valid() && key in cache
      modifies this
      ensures var c := SnapshotFromCache(old(cache)[key], FirstOf(arrivals));
        cache == old(cache)[key := c.0] && r == c.1
      ensures instances == old(instances) && events == old(events) && log == old(log)
      ensures Valid()
    {
      if cache[key].frames == [] {
        if arrivals == [] {
          return Err(SnapshotTimeout);
        }
        OnCacheFrame(key, arrivals[0]);
      }
      var frames := cache[key].frames;
      if frames == [] {
        // "snapshot cache empty": a wake means the callback appended a frame
        assert false;
      }
      return Ok(frames[|frames| - 1]);
    }

    /** The one-shot capture of get_camera_snapshot on a channel without a cache. */
    method GetTransientSnapshot(did: Did, channel: int, pin: PinCode, io: CameraIo, arrivals: seq<Frame>)
      returns (r: Result<Frame>)
      requires Valid() && (did, channel) !in cache
      modifies this
      ensures var s := TransientSnapshot(old(State()), did, channel, pin, io, FirstOf(arrivals));
        State() == s.tables && r == s.result && log == old(log) + s.effects
      ensures Valid()
    {
      var acquired := GetOrCreateSession(did, pin, true, io);
      if acquired.Err? {
        return Err(acquired.error);
      }
      assert instances[did] == acquired.value;
      var reg := io.register(did, channel);
      if reg.None? {
        return Err(LibraryError);
      }
      r := AwaitRegistered(did, channel, reg.value, arrivals);
    }

    /** The try/finally of the one-shot capture, once the decode registration
        `id` is made: wait for the first frame, then unregister and stop the
        connection unless a cache uses it. */
    method AwaitRegistered(did: Did, channel: int, id: RegId, arrivals: seq<Frame>) returns (r: Result<Frame>)
      requires did in instances
      modifies this
      ensures instances == old(instances)[did := ReleaseIfIdle(old(instances)[did])]
      ensures cache == old(cache) && events == old(events)
      ensures log == old(log) + [Register(did, channel, id), Unregister(did, channel, id)]
                     + (if old(instances)[did].channels == {} then [Stop(did)] else [])
      ensures r == if arrivals == [] then Err(SnapshotTimeout) else Ok(arrivals[0])
    {
      log := log + [Register(did, channel, id)];
      var delivered := AwaitOne(arrivals);
      log := log + [Unregister(did, channel, id)];
      if instances[did].channels == {} {
        log := log + [Stop(did)];
        instances := instances[did := instances[did].(started := false)];
      }
      if delivered.None? {
        return Err(SnapshotTimeout);
      }
      return Ok(delivered.value);
    }

    /** record_camera_clip. `arrivals` are the frames the camera delivers before
        a wait for the next one times out. */
    method RecordClip(listing: Listing, did: Did, channel: int, duration: int, fps: int, pin: PinCode,
                      io: CameraIo, arrivals: seq<Frame>, encoder: Encoder)
      returns (r: Result<seq<Frame>>)
      requires Valid()
      modifies this
      ensures var s := RecordClipStep(old(State()), listing, did, channel, duration, fps, pin, io, arrivals, encoder);
        State() == s.tables && r == s.result && log == old(log) + s.effects
      ensures Valid()
    {
      if duration <= 0 {
        return Err(NotPositive("duration"));
      }
      if fps <= 0 {
        return Err(NotPositive("fps"));
      }
      var info := CheckCamera(listing, did, channel);
      if info.Err? {
        return Err(info.error);
      }
      r := CaptureClip(did, channel, duration, fps, pin, io, arrivals, encoder);
    }

    /** record_camera_clip past its checks. */
    method CaptureClip(did: Did, channel: int, duration: int, fps: int, pin: PinCode,
                       io: CameraIo, arrivals: seq<Frame>, encoder: Encoder)
      returns (r: Result<seq<Frame>>)
      requires Valid() && duration > 0 && fps > 0
      modifies this
      ensures var s := ClipCapture(old(State()), did, channel, duration, fps, pin, io, arrivals, encoder);
        State() == s.tables && r == s.result && log == old(log) + s.effects
      ensures Valid()
    {
      ghost var t0 := State();
      ghost var log0 := log;
      var key := (did, channel);
      ghost var a := Acquire(did, Lookup(t0.instances, did), pin, key !in t0.cache, io);
      var acquired := GetOrCreateSession(did, pin, key !in cache, io);
      if acquired.Err? {
        return Err(acquired.error);
      }
      if key !in cache && !acquired.value.started {
        // the acquisition has already started the session
        assert false;
      }
      AcquireKeepsInv(t0, did, pin, key !in cache, io);
      ghost var t1 := State();
      assert t1 == t0.(instances := Put(t0.instances, did, a.entry));
      assert did in instances;
      var reg := io.register(did, channel);
      if reg.None? {
        assert ClipCapture(t0, did, channel, duration, fps, pin, io, arrivals, encoder) == Step(t1, Err(LibraryError), a.effects);
        return Err(LibraryError);
      }
      r := RecordRegistered(did, channel, reg.value, FrameCount(duration, fps), arrivals, encoder);
      ghost var c := ClipRegistered(t1, did, channel, reg.value, FrameCount(duration, fps), arrivals, encoder);
      assert ClipCapture(t0, did, channel, duration, fps, pin, io, arrivals, encoder) == Step(c.tables, c.result, a.effects + c.effects);
      SeqAssoc(log0, a.effects, c.effects);
    }

    /** The capture, its try/finally and the encoding, once the decode
        registration `id` is made: await n frames, unregister, stop the
        connection unless a cache uses it, then encode. */
    method RecordRegistered(did: Did, channel: int, id: RegId, n: int,
                            arrivals: seq<Frame>, encoder: Encoder) returns (r: Result<seq<Frame>>)
      requires Valid() && did in instances && n >= 1
      modifies this
      ensures var s := ClipRegistered(old(State()), did, channel, id, n, arrivals, encoder);
        State() == s.tables && r == s.result && log == old(log) + s.effects
      ensures Valid()
    {
      var release := (did, channel) !in cache && instances[did].channels == {};
      log := log + [Register(did, channel, id)];
      var captured := CaptureFrames(n, arrivals);
      log := log + [Unregister(did, channel, id)];
      if release {
        log := log + [Stop(did)];
        instances := instances[did := instances[did].(started := false)];
      }
      if captured.Err? {
        return captured;
      }
      if encoder == Missing {
        return Err(EncodingUnavailable);
      }
      if captured.value == [] {
        // "no frames captured": at least one frame was awaited
        assert false;
      }
      if encoder == Fails {
        return Err(EncodingFailed);
      }
      return captured;
    }

    /** One in-range channel of start_all_camera_cache's inner loop. */
    method StartOneChannel(cameras: map<Did, CameraInfo>, did: Did, ch: int, pin: PinCode, bufferSize: int, io: CameraIo)
      returns (r: Result<ChannelOutcome>)
      requires Valid() && bufferSize > 0
      modifies this
      ensures var s := StartOne(old(State()), cameras, did, ch, pin, bufferSize, io);
        State() == s.tables && r == s.result && log == old(log) + s.effects
      ensures Valid()
    {
      var res := StartCacheChannel(Listed(cameras), did, ch, pin, bufferSize, io);
      if res.Ok? {
        return Ok(Started(ch));
      }
      if !res.error.IsToolError() {
        return Err(res.error);
      }
      return Ok(Failed(ch, res.error));
    }

    /** The inner loop of start_all_camera_cache over one camera's channels. */
    method StartCameraChannels(cameras: map<Did, CameraInfo>, did: Did, limit: int, chs: seq<int>,
                               pin: PinCode, bufferSize: int, io: CameraIo)
      returns (r: Result<seq<ChannelOutcome>>)
      requires Valid() && bufferSize > 0
      requires did in cameras && limit == ChannelLimit(cameras[did].channelCount)
      modifies this
      ensures var s := StartChannels(old(State()), cameras, did, limit, chs, pin, bufferSize, io);
        State() == s.tables && r == s.result && log == old(log) + s.effects
      ensures Valid()
    {
      var perCamera: seq<ChannelOutcome> := [];
      ghost var full := StartChannels(State(), cameras, did, limit, chs, pin, bufferSize, io);
      PrefixedNothing(full.result);
      for k := 0 to |chs|
        invariant Valid()
        invariant var rest := StartChannels(State(), cameras, did, limit, chs[k..], pin, bufferSize, io);
          && full.tables == rest.tables
          && full.result == Prefixed(perCamera, rest.result)
          && old(log) + full.effects == log + rest.effects
      {
        var ch := chs[k];
        assert chs[k..][1..] == chs[k + 1..];
        if ch < 0 || ch >= limit {
          continue;
        }
        ghost var logBefore := log;
        ghost var before := State();
        var res := StartOneChannel(cameras, did, ch, pin, bufferSize, io);
        ghost var one := StartOne(before, cameras, did, ch, pin, bufferSize, io);
        if res.Err? {
          return Err(res.error);
        }
        var outcome := res.value;
        ghost var rest := StartChannels(State(), cameras, did, limit, chs[k + 1..], pin, bufferSize, io);
        PrefixedTwice(perCamera, [outcome], rest.result);
        assert log == logBefore + one.effects;
        SeqAssoc(logBefore, one.effects, rest.effects);
        perCamera := perCamera + [outcome];
      }
      assert chs[|chs|..] == [] && perCamera + [] == perCamera;
      return Ok(perCamera);
    }

    /** start_all_camera_cache. `order` is the iteration order of the listing. */
    method StartAll(listing: Listing, order: seq<Did>, channel: int, pin: PinCode, bufferSize: int,
                    allChannels: bool, io: CameraIo)
      returns (r: Result<seq<CameraOutcome>>)
      requires Valid()
      requires listing.Listed? ==> EnumeratesListing(order, listing.cameras)
      modifies this
      ensures var s := StartAllStep(old(State()), listing, order, channel, pin, bufferSize, allChannels, io);
        State() == s.tables && r == s.result && log == old(log) + s.effects
      ensures Valid()
    {
      if bufferSize <= 0 {
        return Err(NotPositive("buffer_size"));
      }
      if channel < 0 {
        return Err(InvalidChannel(channel));
      }
      if listing.Unavailable? {
        return Err(listing.failure);
      }
      var cameras := listing.cameras;
      var results: seq<CameraOutcome> := [];
      ghost var full := StartCameras(State(), cameras, order, channel, pin, bufferSize, allChannels, io);
      PrefixedNothing(full.result);
      for i := 0 to |order|
        invariant Valid()
        invariant var rest := StartCameras(State(), cameras, order[i..], channel, pin, bufferSize, allChannels, io);
          && full.tables == rest.tables
          && full.result == Prefixed(results, rest.result)
          && old(log) + full.effects == log + rest.effects
      {
        var did := order[i];
        assert order[i..][1..] == order[i + 1..];
        var info := cameras[did];
        var limit := ChannelLimit(info.channelCount);
        ghost var logBefore := log;
        ghost var before := State();
        var perCamera := StartCameraChannels(cameras, did, limit, Candidates(info, channel, allChannels), pin, bufferSize, io);
        ghost var one := StartChannels(before, cameras, did, limit, Candidates(info, channel, allChannels), pin, bufferSize, io);
        if perCamera.Err? {
          return Err(perCamera.error);
        }
        ghost var rest := StartCameras(State(), cameras, order[i + 1..], channel, pin, bufferSize, allChannels, io);
        PrefixedTwice(results, [CameraOutcome(did, perCamera.value)], rest.result);
        assert log == logBefore + one.effects;
        SeqAssoc(logBefore, one.effects, rest.effects);
        results := results + [CameraOutcome(did, perCamera.value)];
      }
      assert order[|order|..] == [] && results + [] == results;
      return Ok(results);
    }
  }
}
