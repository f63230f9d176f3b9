/** The server's camera tables: camera_instances (did to session), camera_cache
    ((did, channel) to frame buffer) and camera_cache_events (a wake-up event per
    cached key). Each tool that changes them is a step from the tables before the
    call to the tables after it, with the result and the camera library calls
    made on the way. */
module CameraTables {
  import opened Outcomes
  import opened Frames
  import opened Sessions
  import opened Capture

  type Key = (Did, int)

  /** An event is a wake-up signal with no other content, so the event table is
      modelled by its key set. */
  datatype Tables = Tables(instances: map<Did, Session>, cache: map<Key, Buffer>, events: set<Key>)

  /** The invariant the tools keep: the cache and event tables share their keys,
      every session keeps its registrations in step with its channels and is
      started while it has one, every buffer stays within its size, and every
      cached channel of a session has a buffer. (The converse does not hold: the
      buffer is created before the decode registration, which can fail.) */
  predicate Inv(t: Tables) {
    && t.cache.Keys == t.events
    && (forall did :: did in t.instances ==> SessionOk(t.instances[did]))
    && (forall key :: key in t.cache ==> Bounded(t.cache[key]))
    && (forall did, ch :: did in t.instances && ch in t.instances[did].channels ==> (did, ch) in t.cache)
  }

  /** What one tool call leaves behind: the tables, its result and the calls it
      made on the camera library, in order. */
  datatype Step<T> = Step(tables: Tables, result: Result<T>, effects: seq<Effect>)

  /** `dict.get`: the value under k, or None when k is absent. */
  function Lookup<K, V>(m: map<K, V>, k: K): (r: Option<V>)
    ensures r.Some? <==> k in m
    ensures r.Some? ==> r.value == m[k]
  {
    if k in m then Some(m[k]) else None
  }

  /** Only the sessions of `dids` may have changed or appeared; no session is
      removed. */
  predicate OnlyTouches(t: Tables, t': Tables, dids: seq<Did>) {
    && t.instances.Keys <= t'.instances.Keys
    && (forall d :: d in t'.instances && d !in t.instances ==> d in dids)
    && (forall d :: d in t.instances && d !in dids ==> t'.instances[d] == t.instances[d])
  }

  /** Two steps that each touch only some sessions touch only the union. */
  lemma OnlyTouchesThen(t: Tables, t': Tables, t'': Tables, a: seq<Did>, b: seq<Did>, ab: seq<Did>)
    requires OnlyTouches(t, t', a) && OnlyTouches(t', t'', b)
    requires forall d :: d in a || d in b ==> d in ab
    ensures OnlyTouches(t, t'', ab)
  {
  }

  /** A set pin code that differs from the one bound to the camera's session:
      the acquisition refuses it. */
  predicate PinConflict(t: Tables, did: Did, pin: PinCode) {
    did in t.instances && IsSet(pin) && IsSet(t.instances[did].pin) && pin != t.instances[did].pin
  }

  /** The camera library answers the calls a cache start makes on did's
      session: creating and starting its connection, and registering the
      channel's decode callback. */
  predicate Answers(io: CameraIo, did: Did, channel: int) {
    io.createOk(did) && io.startOk(did) && io.register(did, channel).Some?
  }

  /** The table after _get_or_create_camera_instance: the entry it found or made. */
  function Put(m: map<Did, Session>, did: Did, entry: Option<Session>): (m': map<Did, Session>)
    ensures entry.Some? ==> m' == m[did := entry.value]
    ensures entry.None? ==> m' == m
  {
    if entry.Some? then m[did := entry.value] else m
  }

  /** What a camera tool finds when it asks for a ready client and its camera
      listing: the cameras by did, or the error _ensure_client or the listing
      call raised. */
  datatype Listing = Listed(cameras: map<Did, CameraInfo>) | Unavailable(failure: ClientFailure)

  /** The checks before a camera tool touches a session: the client is ready,
      the camera is listed, and the channel is within its count. */
  function CheckCamera(listing: Listing, did: Did, channel: int): (r: Result<CameraInfo>)
    ensures listing.Unavailable? ==> r == Err(listing.failure)
    ensures listing.Listed? && did !in listing.cameras ==> r == Err(CameraNotFound(did))
    ensures listing.Listed? && did in listing.cameras ==>
      (r.Ok? <==> ChannelAllowed(listing.cameras[did], channel))
    ensures r.Ok? ==> listing.Listed? && did in listing.cameras && r.value == listing.cameras[did]
    ensures listing.Listed? && did in listing.cameras && r.Err? ==> r.error == InvalidChannel(channel)
    ensures r.Err? ==> r.error.IsClientFailure() || r.error == CameraNotFound(did) || r.error == InvalidChannel(channel)
  {
    match listing
    case Unavailable(e) => Err(e)
    case Listed(cameras) =>
      if did !in cameras then Err(CameraNotFound(did))
      else if !ChannelAllowed(cameras[did], channel) then Err(InvalidChannel(channel))
      else Ok(cameras[did])
  }

  /** _start_camera_cache, after start_camera_cache has checked the buffer size. */
  function StartCacheChannelStep(t: Tables, listing: Listing, did: Did, channel: int,
                                 pin: PinCode, bufferSize: int, io: CameraIo): (s: Step<()>)
    requires Inv(t) && bufferSize > 0
    ensures Inv(s.tables)
    // no other camera's session changes, and no buffer is dropped
    ensures OnlyTouches(t, s.tables, [did])
    ensures t.cache.Keys <= s.tables.cache.Keys
    // a rejected camera or channel changes nothing
    ensures CheckCamera(listing, did, channel).Err? ==>
      s == Step(t, Err(CheckCamera(listing, did, channel).error), [])
    // a running cache is left as it is: no new buffer, event or registration,
    // whatever the buffer size asked for
    ensures (did, channel) in t.cache ==>
      s.tables.cache == t.cache && s.tables.events == t.events && forall e :: e in s.effects ==> !e.Register?
    // otherwise the channel ends cached, registered and on a started connection
    ensures s.result.Ok? && (did, channel) !in t.cache ==>
      && s.tables.cache == t.cache[(did, channel) := Buffer([], bufferSize, None)]
      && s.tables.events == t.events + {(did, channel)}
      && did in s.tables.instances
      && channel in s.tables.instances[did].channels
      && s.tables.instances[did].regIds.Keys == s.tables.instances[did].channels
      && s.tables.instances[did].started
      && |s.effects| > 0 && s.effects[|s.effects| - 1] == Register(did, channel, s.tables.instances[did].regIds[channel])
    ensures s.result.Ok? ==> did in s.tables.instances && s.tables.instances[did].started && (did, channel) in s.tables.cache
    // the buffer is created before the registration: a failed registration leaves
    // a buffer that no callback feeds
    ensures (CheckCamera(listing, did, channel).Ok? && Acquire(did, Lookup(t.instances, did), pin, true, io).result.Ok? &&
             (did, channel) !in t.cache && io.register(did, channel).None?) ==>
      && s.result == Err(LibraryError)
      && (did, channel) in s.tables.cache
      && did in s.tables.instances
      && channel !in s.tables.instances[did].channels
  {
    match CheckCamera(listing, did, channel)
    case Err(e) => Step(t, Err(e), [])
    case Ok(_) =>
      var a := Acquire(did, Lookup(t.instances, did), pin, true, io);
      AcquireFrames(t, did, pin, true, io);
      var t1 := t.(instances := Put(t.instances, did, a.entry));
      if a.result.Err? then Step(t1, Err(a.result.error), a.effects)
      else
        var s := CacheChannel(t1, did, channel, a.result.value, bufferSize, io);
        OnlyTouchesThen(t, t1, s.tables, [did], [did], [did]);
        Step(s.tables, s.result, a.effects + s.effects)
  }

  /** The session rules of _start_camera_cache: existing registrations are
      kept, a bound pin stays bound and a set pin that is not refused ends up
      bound. */
  lemma StartCacheRules(t: Tables, listing: Listing, did: Did, channel: int,
                        pin: PinCode, bufferSize: int, io: CameraIo)
    requires Inv(t) && bufferSize > 0
    ensures var s := StartCacheChannelStep(t, listing, did, channel, pin, bufferSize, io);
      && (did in t.instances ==> forall c :: c in t.instances[did].regIds ==>
            c in s.tables.instances[did].regIds && s.tables.instances[did].regIds[c] == t.instances[did].regIds[c])
      && (did in t.instances && IsSet(t.instances[did].pin) ==> s.tables.instances[did].pin == t.instances[did].pin)
      && (s.result.Ok? && IsSet(pin) ==> s.tables.instances[did].pin == pin)
  {
    if CheckCamera(listing, did, channel).Ok? {
      var a := Acquire(did, Lookup(t.instances, did), pin, true, io);
      AcquirePinRules(did, Lookup(t.instances, did), pin, true, io);
      AcquireFrames(t, did, pin, true, io);
      var t1 := t.(instances := Put(t.instances, did, a.entry));
      if a.result.Ok? {
        var c := CacheChannel(t1, did, channel, a.result.value, bufferSize, io);
      }
    }
  }

  /** The outcomes of _start_camera_cache past the checks: a conflicting pin
      is refused and changes nothing, and any other failure is a camera
      library call that raised. */
  lemma StartCacheOutcomes(t: Tables, listing: Listing, did: Did, channel: int,
                           pin: PinCode, bufferSize: int, io: CameraIo)
    requires Inv(t) && bufferSize > 0 && CheckCamera(listing, did, channel).Ok?
    ensures var s := StartCacheChannelStep(t, listing, did, channel, pin, bufferSize, io);
      && (s.result == Err(PinMismatch) <==> PinConflict(t, did, pin))
      && (PinConflict(t, did, pin) ==> s == Step(t, Err(PinMismatch), []))
      && (s.result.Err? && s.result.error != PinMismatch ==> s.result.error == LibraryError && !Answers(io, did, channel))
  {
    var a := Acquire(did, Lookup(t.instances, did), pin, true, io);
    AcquirePinRules(did, Lookup(t.instances, did), pin, true, io);
    AcquireFrames(t, did, pin, true, io);
    var t1 := t.(instances := Put(t.instances, did, a.entry));
    if a.result.Ok? {
      var c := CacheChannel(t1, did, channel, a.result.value, bufferSize, io);
    }
  }

  /** Acquiring a session keeps the invariant: it never changes a session's
      channels or registrations, and a new session has none. */
  lemma AcquireKeepsInv(t: Tables, did: Did, pin: PinCode, startIfNeeded: bool, io: CameraIo)
    requires Inv(t)
    ensures var a := Acquire(did, Lookup(t.instances, did), pin, startIfNeeded, io);
      Inv(t.(instances := Put(t.instances, did, a.entry)))
  {
  }

  /** What the acquisition does to the tables: it keeps the invariant, touches
      only did's session, and keeps that session's cached channels,
      registrations and bound pin; on success the session stored is the one
      returned. */
  lemma AcquireFrames(t: Tables, did: Did, pin: PinCode, startIfNeeded: bool, io: CameraIo)
    requires Inv(t)
    ensures var a := Acquire(did, Lookup(t.instances, did), pin, startIfNeeded, io);
      var t1 := t.(instances := Put(t.instances, did, a.entry));
      && Inv(t1) && OnlyTouches(t, t1, [did]) && t1.cache == t.cache && t1.events == t.events
      && (a.result.Ok? ==> did in t1.instances && t1.instances[did] == a.result.value)
      && (did in t.instances ==>
            && did in t1.instances
            && t1.instances[did].channels == t.instances[did].channels
            && t1.instances[did].regIds == t.instances[did].regIds
            && (IsSet(t.instances[did].pin) ==> t1.instances[did].pin == t.instances[did].pin))
  {
    AcquireKeepsInv(t, did, pin, startIfNeeded, io);
    AcquirePinRules(did, Lookup(t.instances, did), pin, startIfNeeded, io);
  }

  /** The rest of _start_camera_cache once the session `state` of did is
      acquired and started: create the buffer and event when the key has none,
      then register the frame callback. */
  function CacheChannel(t: Tables, did: Did, channel: int, state: Session, bufferSize: int, io: CameraIo)
    : (s: Step<()>)
    requires Inv(t) && bufferSize > 0 && did in t.instances && t.instances[did] == state && state.started
    ensures Inv(s.tables)
    ensures s.tables.instances.Keys == t.instances.Keys
    ensures OnlyTouches(t, s.tables, [did]) && t.cache.Keys <= s.tables.cache.Keys
    // the session keeps its pin and its registrations
    ensures did in s.tables.instances && s.tables.instances[did].pin == state.pin
    ensures forall c :: c in state.regIds ==>
      c in s.tables.instances[did].regIds && s.tables.instances[did].regIds[c] == state.regIds[c]
    ensures (did, channel) in t.cache ==> s == Step(t, Ok(()), [])
    ensures (did, channel) !in t.cache ==>
      && s.tables.cache == t.cache[(did, channel) := Buffer([], bufferSize, None)]
      && s.tables.events == t.events + {(did, channel)}
    ensures (did, channel) !in t.cache && io.register(did, channel).None? ==>
      s.result == Err(LibraryError) && s.tables.instances == t.instances && s.effects == []
    ensures (did, channel) !in t.cache && io.register(did, channel).Some? ==>
      var id := io.register(did, channel).value;
      && s.result == Ok(())
      && s.tables.instances == t.instances[did := AttachChannel(state, channel, id)]
      && s.effects == [Register(did, channel, id)]
  {
    var key := (did, channel);
    if key in t.cache then Step(t, Ok(()), [])
    else
      var t1 := t.(cache := t.cache[key := Buffer([], bufferSize, None)], events := t.events + {key});
      match io.register(did, channel)
      case None => Step(t1, Err(LibraryError), [])
      case Some(id) => Step(t1.(instances := t1.instances[did := AttachChannel(state, channel, id)]), Ok(()), [Register(did, channel, id)])
  }

  /** start_camera_cache: the buffer size is checked before anything else. */
  function StartCacheStep(t: Tables, listing: Listing, did: Did, channel: int,
                          pin: PinCode, bufferSize: int, io: CameraIo): (s: Step<()>)
    requires Inv(t)
    ensures Inv(s.tables)
    ensures bufferSize <= 0 ==> s == Step(t, Err(NotPositive("buffer_size")), [])
    ensures bufferSize > 0 ==> s == StartCacheChannelStep(t, listing, did, channel, pin, bufferSize, io)
  {
    if bufferSize <= 0 then Step(t, Err(NotPositive("buffer_size")), [])
    else StartCacheChannelStep(t, listing, did, channel, pin, bufferSize, io)
  }

  /** Starting a cache that a call with the same pin has just started changes
      nothing and calls nothing, whatever buffer size the second call asks for. */
  lemma StartCacheIsIdempotent(t: Tables, listing: Listing, did: Did, channel: int,
                               pin: PinCode, firstSize: int, secondSize: int, io: CameraIo)
    requires Inv(t) && firstSize > 0 && secondSize > 0
    requires StartCacheChannelStep(t, listing, did, channel, pin, firstSize, io).result.Ok?
    ensures var s := StartCacheChannelStep(t, listing, did, channel, pin, firstSize, io);
      StartCacheChannelStep(s.tables, listing, did, channel, pin, secondSize, io) == Step(s.tables, Ok(()), [])
  {
    var s := StartCacheChannelStep(t, listing, did, channel, pin, firstSize, io);
    var a := Acquire(did, Lookup(t.instances, did), pin, true, io);
    AcquirePinRules(did, Lookup(t.instances, did), pin, true, io);
    var st := s.tables.instances[did];
    assert st.pin == a.result.value.pin && st.started;
    assert (did, channel) in s.tables.cache;
    AcquireStartedIsNoOp(did, st, pin, io);
    assert Put(s.tables.instances, did, Some(st)) == s.tables.instances;
  }

  /** The frame callback registered for `key`: a no-op once the buffer is gone. */
  function OnFrameStep(t: Tables, key: Key, f: Frame): (t': Tables)
    requires Inv(t)
    ensures Inv(t')
    ensures key !in t.cache ==> t' == t
    ensures t'.instances == t.instances && t'.events == t.events && t'.cache.Keys == t.cache.Keys
    ensures forall k :: k in t.cache && k != key ==> t'.cache[k] == t.cache[k]
    // the frame becomes the newest, the oldest is dropped from a full buffer
    ensures key in t.cache ==>
      && t'.cache[key].capacity == t.cache[key].capacity
      && t'.cache[key].frames == Newest(t.cache[key].frames + [f], t.cache[key].capacity)
      && t'.cache[key].updatedAt == Some(f.receivedAt)
  {
    if key in t.cache then t.(cache := t.cache[key := OnFrame(t.cache[key], f)]) else t
  }

  datatype StopStatus = NotRunning | Stopped

  /** stop_camera_cache. */
  function StopCacheStep(t: Tables, did: Did, channel: int): (s: Step<StopStatus>)
    requires Inv(t)
    ensures Inv(s.tables)
    // a cache that is not running: nothing changes
    ensures (did, channel) !in t.cache ==> s == Step(t, Ok(NotRunning), [])
    ensures (did, channel) in t.cache ==>
      && s.result == Ok(Stopped)
      && s.tables.cache == t.cache - {(did, channel)}
      && s.tables.events == t.events - {(did, channel)}
    // sessions are never removed, and no other session changes
    ensures s.tables.instances.Keys == t.instances.Keys
    ensures forall d :: d in t.instances && d != did ==> s.tables.instances[d] == t.instances[d]
    // the channel is unregistered, and the connection stopped exactly when no
    // cached channel is left
    ensures did in t.instances && channel in t.instances[did].channels ==>
      var before := t.instances[did];
      var after := s.tables.instances[did];
      && after.channels == before.channels - {channel}
      && after.regIds == before.regIds - {channel}
      && after.pin == before.pin
      && (after.started <==> after.channels != {})
      && s.effects == [Unregister(did, channel, before.regIds[channel])] + (if after.channels == {} then [Stop(did)] else [])
    // a buffer whose registration failed is dropped without touching the session
    ensures did in t.instances && channel !in t.instances[did].channels ==>
      s.tables.instances == t.instances && s.effects == []
  {
    var key := (did, channel);
    if key !in t.cache then Step(t, Ok(NotRunning), [])
    else
      var t1 := t.(cache := t.cache - {key}, events := t.events - {key});
      if did in t1.instances && channel in t1.instances[did].channels then
        var state := t1.instances[did];
        var id := if channel in state.regIds then state.regIds[channel] else 0;
        var state' := DetachChannel(state, channel);
        var stop := if state'.channels == {} then [Stop(did)] else [];
        Step(t1.(instances := t1.instances[did := state']), Ok(Stopped), [Unregister(did, channel, id)] + stop)
      else Step(t1, Ok(Stopped), [])
  }

  /** A frame delivered after its cache was stopped is dropped. */
  lemma NoFrameAfterStop(t: Tables, did: Did, channel: int, f: Frame)
    requires Inv(t)
    ensures var t' := StopCacheStep(t, did, channel).tables;
      OnFrameStep(t', (did, channel), f) == t'
  {
  }

  /** Two cached channels of one camera: stopping the first keeps the connection
      running for the second; stopping the second stops it, and the session entry
      with its bound pin stays in the table. */
  lemma {:induction false} TwoChannelTeardown(t: Tables, did: Did, first: int, second: int)
    requires Inv(t) && first != second
    requires did in t.instances && t.instances[did].channels == {first, second}
    ensures var s1 := StopCacheStep(t, did, first);
      var s2 := StopCacheStep(s1.tables, did, second);
      && s1.tables.instances[did].started && s1.tables.instances[did].channels == {second}
      && Stop(did) !in s1.effects
      && did in s2.tables.instances && !s2.tables.instances[did].started
      && s2.tables.instances[did].channels == {} && s2.tables.instances[did].pin == t.instances[did].pin
      && Stop(did) in s2.effects
  {
    assert first in t.instances[did].channels;
    var s1 := StopCacheStep(t, did, first);
    assert {first, second} - {first} == {second};
    assert second in s1.tables.instances[did].channels;
    assert {second} - {second} == {};
  }

  /** get_camera_snapshot. The frame that ends the wait (None when it timed out)
      is `woken`: on a cached channel it is the next frame the cache callback
      appends, otherwise the first frame delivered to the one-shot future. */
  function SnapshotStep(t: Tables, listing: Listing, did: Did, channel: int,
                        pin: PinCode, io: CameraIo, woken: Option<Frame>): (s: Step<Frame>)
    requires Inv(t)
    ensures Inv(s.tables)
    ensures t.instances.Keys <= s.tables.instances.Keys
    ensures CheckCamera(listing, did, channel).Err? ==>
      s == Step(t, Err(CheckCamera(listing, did, channel).error), [])
    // a running cache serves the snapshot: no session is touched
    ensures CheckCamera(listing, did, channel).Ok? && (did, channel) in t.cache ==>
      var r := SnapshotFromCache(t.cache[(did, channel)], woken);
      && s.tables == t.(cache := t.cache[(did, channel) := r.0])
      && s.result == r.1 && s.effects == []
    ensures CheckCamera(listing, did, channel).Ok? && (did, channel) !in t.cache ==>
      s == TransientSnapshot(t, did, channel, pin, io, woken)
    ensures s.result.Ok? ==> woken.Some? || ((did, channel) in t.cache && t.cache[(did, channel)].frames != [])
  {
    match CheckCamera(listing, did, channel)
    case Err(e) => Step(t, Err(e), [])
    case Ok(_) =>
      var key := (did, channel);
      if key in t.cache then
        var r := SnapshotFromCache(t.cache[key], woken);
        Step(t.(cache := t.cache[key := r.0]), r.1, [])
      else TransientSnapshot(t, did, channel, pin, io, woken)
  }

  /** get_camera_snapshot on a channel without a cache, past the camera and
      channel checks: a decode registration that lasts one frame. */
  function TransientSnapshot(t: Tables, did: Did, channel: int, pin: PinCode, io: CameraIo,
                             woken: Option<Frame>): (s: Step<Frame>)
    requires Inv(t) && (did, channel) !in t.cache
    ensures Inv(s.tables)
    ensures OnlyTouches(t, s.tables, [did])
    // the cache is untouched, and so are the session's cached channels and
    // registrations; a bound pin stays bound
    ensures s.tables.cache == t.cache && s.tables.events == t.events
    ensures did in t.instances ==>
      && s.tables.instances[did].channels == t.instances[did].channels
      && s.tables.instances[did].regIds == t.instances[did].regIds
      && (IsSet(t.instances[did].pin) ==> s.tables.instances[did].pin == t.instances[did].pin)
    ensures s.result.Ok? ==> woken.Some? && s.result.value == woken.value
    // a failed acquisition (a pin mismatch or a library call that raised) is
    // the result, with only the acquisition's own changes
    ensures var a := Acquire(did, Lookup(t.instances, did), pin, true, io);
      a.result.Err? ==> s == Step(t.(instances := Put(t.instances, did, a.entry)), Err(a.result.error), a.effects)
    // a registration that raised is a library error, with nothing to undo
    ensures var a := Acquire(did, Lookup(t.instances, did), pin, true, io);
      a.result.Ok? && io.register(did, channel).None? ==>
        s == Step(t.(instances := Put(t.instances, did, a.entry)), Err(LibraryError), a.effects)
    // with the registration made, it is always undone, and the connection keeps
    // running only if a cache uses it
    ensures var a := Acquire(did, Lookup(t.instances, did), pin, true, io);
      a.result.Ok? && io.register(did, channel).Some? ==>
      var id := io.register(did, channel).value;
      && did in s.tables.instances
      && (s.tables.instances[did].started <==> s.tables.instances[did].channels != {})
      && (s.result.Ok? <==> woken.Some?)
      && (s.result.Err? ==> s.result.error == SnapshotTimeout)
      && s.effects == a.effects + [Register(did, channel, id), Unregister(did, channel, id)]
                      + (if a.result.value.channels == {} then [Stop(did)] else [])
  {
    var a := Acquire(did, Lookup(t.instances, did), pin, true, io);
    AcquireFrames(t, did, pin, true, io);
    var t1 := t.(instances := Put(t.instances, did, a.entry));
    if a.result.Err? then Step(t1, Err(a.result.error), a.effects)
    else
      var state := a.result.value;
      match io.register(did, channel)
      // raised before the try: nothing is unregistered or stopped
      case None => Step(t1, Err(LibraryError), a.effects)
      case Some(id) =>
        var result := if woken.Some? then Ok(woken.value) else Err(SnapshotTimeout);
        var stop := if state.channels == {} then [Stop(did)] else [];
        Step(t1.(instances := t1.instances[did := ReleaseIfIdle(state)]), result,
             a.effects + [Register(did, channel, id), Unregister(did, channel, id)] + stop)
  }

  /** The frame that ends a wait: the first to arrive, None when none does. */
  function FirstOf(arrivals: seq<Frame>): (r: Option<Frame>)
    ensures r.None? <==> arrivals == []
    ensures r.Some? ==> r.value == arrivals[0]
  {
    if arrivals == [] then None else Some(arrivals[0])
  }

  /** The start at the top of record_camera_clip's capture, which runs when the
      channel has no cache and the session is not started. */
  predicate ClipRestarts(t: Tables, did: Did, channel: int, state: Session) {
    (did, channel) !in t.cache && !state.started
  }

  /** That start never happens: the acquisition just before it already started
      the session whenever the channel has no cache. */
  lemma ClipRestartIsUnreachable(t: Tables, did: Did, channel: int, pin: PinCode, io: CameraIo)
    requires Acquire(did, Lookup(t.instances, did), pin, (did, channel) !in t.cache, io).result.Ok?
    ensures !ClipRestarts(t, did, channel, Acquire(did, Lookup(t.instances, did), pin, (did, channel) !in t.cache, io).result.value)
  {
  }

  /** The outcome of ffmpeg: not installed, exits with an error, or writes the clip. */
  datatype Encoder = Missing | Fails | Encodes

  /** record_camera_clip. `arrivals` are the frames the camera delivers before a
      wait for the next one times out. */
  function RecordClipStep(t: Tables, listing: Listing, did: Did, channel: int,
                          duration: int, fps: int, pin: PinCode, io: CameraIo,
                          arrivals: seq<Frame>, encoder: Encoder): (s: Step<seq<Frame>>)
    requires Inv(t)
    ensures Inv(s.tables)
    // duration, then fps, then the camera and channel are checked before anything changes
    ensures duration <= 0 ==> s == Step(t, Err(NotPositive("duration")), [])
    ensures duration > 0 && fps <= 0 ==> s == Step(t, Err(NotPositive("fps")), [])
    ensures duration > 0 && fps > 0 && CheckCamera(listing, did, channel).Err? ==>
      s == Step(t, Err(CheckCamera(listing, did, channel).error), [])
    ensures duration > 0 && fps > 0 && CheckCamera(listing, did, channel).Ok? ==>
      s == ClipCapture(t, did, channel, duration, fps, pin, io, arrivals, encoder)
    // a recording never changes the cache
    ensures s.tables.cache == t.cache && s.tables.events == t.events
  {
    if duration <= 0 then Step(t, Err(NotPositive("duration")), [])
    else if fps <= 0 then Step(t, Err(NotPositive("fps")), [])
    else match CheckCamera(listing, did, channel)
      case Err(e) => Step(t, Err(e), [])
      case Ok(_) => ClipCapture(t, did, channel, duration, fps, pin, io, arrivals, encoder)
  }

  /** record_camera_clip past its checks: acquire the session (starting it only
      when the channel has no cache), capture frame_count frames through a
      decode registration, undo the registration, then encode. */
  function ClipCapture(t: Tables, did: Did, channel: int, duration: int, fps: int, pin: PinCode,
                       io: CameraIo, arrivals: seq<Frame>, encoder: Encoder): (s: Step<seq<Frame>>)
    requires Inv(t) && duration > 0 && fps > 0
    ensures Inv(s.tables)
    ensures OnlyTouches(t, s.tables, [did])
    ensures s.tables.cache == t.cache && s.tables.events == t.events
    // the session keeps its cached channels and registrations; a bound pin stays bound
    ensures did in t.instances ==>
      && s.tables.instances[did].channels == t.instances[did].channels
      && s.tables.instances[did].regIds == t.instances[did].regIds
      && (IsSet(t.instances[did].pin) ==> s.tables.instances[did].pin == t.instances[did].pin)
    // the result: the acquisition's error, the registration's, or the capture's
    ensures var a := Acquire(did, Lookup(t.instances, did), pin, (did, channel) !in t.cache, io);
      && (a.result.Err? ==> s.result == Err(a.result.error))
      && (a.result.Ok? && io.register(did, channel).None? ==> s.result == Err(LibraryError))
      && (a.result.Ok? && io.register(did, channel).Some? ==>
            s.result == ClipResult(FrameCount(duration, fps), arrivals, encoder))
    // the connection of a running cache is never stopped by a recording
    ensures (did, channel) in t.cache ==> Stop(did) !in s.effects
    // without a cache, the connection opened for the recording is closed again
    // unless another channel's cache uses it
    ensures (did, channel) !in t.cache && s.result.Ok? ==>
      did in s.tables.instances && (s.tables.instances[did].started <==> s.tables.instances[did].channels != {})
  {
    var key := (did, channel);
    var a := Acquire(did, Lookup(t.instances, did), pin, key !in t.cache, io);
    AcquireFrames(t, did, pin, key !in t.cache, io);
    var t1 := t.(instances := Put(t.instances, did, a.entry));
    if a.result.Err? then Step(t1, Err(a.result.error), a.effects)
    else
      var state := a.result.value;
      ClipRestartIsUnreachable(t, did, channel, pin, io);
      if ClipRestarts(t1, did, channel, state) then
        assert false;
        Step(t1, Err(LibraryError), a.effects)
      else
        var s := ClipAcquired(t1, did, channel, FrameCount(duration, fps), io, arrivals, encoder);
        Step(s.tables, s.result, a.effects + s.effects)
  }

  /** record_camera_clip once the session is acquired and, when the channel
      has no cache, started: register the decode callback, then capture. */
  function ClipAcquired(t: Tables, did: Did, channel: int, n: int, io: CameraIo,
                        arrivals: seq<Frame>, encoder: Encoder): (s: Step<seq<Frame>>)
    requires Inv(t) && did in t.instances && n >= 1
    requires (did, channel) !in t.cache ==> t.instances[did].started
    ensures Inv(s.tables)
    ensures OnlyTouches(t, s.tables, [did])
    ensures s.tables.cache == t.cache && s.tables.events == t.events
    ensures did in s.tables.instances
    ensures s.tables.instances[did].channels == t.instances[did].channels
    ensures s.tables.instances[did].regIds == t.instances[did].regIds
    ensures s.tables.instances[did].pin == t.instances[did].pin
    ensures io.register(did, channel).None? ==> s == Step(t, Err(LibraryError), [])
    ensures io.register(did, channel).Some? ==> s.result == ClipResult(n, arrivals, encoder)
    ensures (did, channel) in t.cache ==> Stop(did) !in s.effects
    ensures (did, channel) !in t.cache && s.result.Ok? ==>
      (s.tables.instances[did].started <==> s.tables.instances[did].channels != {})
  {
    match io.register(did, channel)
    case None => Step(t, Err(LibraryError), [])
    case Some(id) => ClipRegistered(t, did, channel, id, n, arrivals, encoder)
  }

  /** What a recording returns: a clip is the first duration * fps frames to
      arrive; frame_count is at least one, so "no frames captured" is never
      reported; the encoding errors come from ffmpeg's outcome. */
  lemma ClipCaptureOutcomes(t: Tables, did: Did, channel: int, duration: int, fps: int, pin: PinCode,
                            io: CameraIo, arrivals: seq<Frame>, encoder: Encoder)
    requires Inv(t) && duration > 0 && fps > 0
    ensures var s := ClipCapture(t, did, channel, duration, fps, pin, io, arrivals, encoder);
      && (s.result.Ok? ==> |arrivals| >= duration * fps && s.result.value == arrivals[..duration * fps])
      && (s.result == Err(RecordTimeout) ==> |arrivals| < duration * fps)
      && s.result != Err(NoFramesCaptured)
      && (s.result == Err(EncodingUnavailable) ==> encoder == Missing)
      && (s.result == Err(EncodingFailed) ==> encoder == Fails)
  {
  }

  /** The rest of record_camera_clip once the decode registration `id` is made:
      await n frames, then in the `finally` undo the registration and stop the
      connection when the channel has no cache and no other channel is cached. */
  function ClipRegistered(t: Tables, did: Did, channel: int, id: RegId, n: int,
                          arrivals: seq<Frame>, encoder: Encoder): (s: Step<seq<Frame>>)
    requires Inv(t) && did in t.instances && n >= 1
    ensures Inv(s.tables)
    ensures s.tables.cache == t.cache && s.tables.events == t.events
    ensures var release := (did, channel) !in t.cache && t.instances[did].channels == {};
      && s.tables.instances == (if release then t.instances[did := t.instances[did].(started := false)] else t.instances)
      && s.effects == [Register(did, channel, id), Unregister(did, channel, id)] + (if release then [Stop(did)] else [])
    ensures s.result == ClipResult(n, arrivals, encoder)
  {
    var state := t.instances[did];
    var release := (did, channel) !in t.cache && state.channels == {};
    var state' := if release then state.(started := false) else state;
    Step(t.(instances := t.instances[did := state']), ClipResult(n, arrivals, encoder),
         [Register(did, channel, id), Unregister(did, channel, id)] + (if release then [Stop(did)] else []))
  }

  /** What record_camera_clip returns once its n futures have been awaited:
      the clip, or the first error among the capture, the ffmpeg lookup, the
      check for captured frames and the encoding. */
  function ClipResult(n: int, arrivals: seq<Frame>, encoder: Encoder): (r: Result<seq<Frame>>)
    requires n >= 1
    ensures r.Ok? <==> |arrivals| >= n && encoder == Encodes
    ensures r.Ok? ==> r.value == arrivals[..n]
    ensures r == Err(RecordTimeout) <==> |arrivals| < n
    ensures r == Err(EncodingUnavailable) <==> |arrivals| >= n && encoder == Missing
    ensures r == Err(EncodingFailed) <==> |arrivals| >= n && encoder == Fails
    // with at least one future, "no frames captured" is never reported
    ensures r != Err(NoFramesCaptured)
  {
    if |arrivals| < n then Err(RecordTimeout)
    else if encoder == Missing then Err(EncodingUnavailable)
    else if arrivals[..n] == [] then Err(NoFramesCaptured)
    else if encoder == Fails then Err(EncodingFailed)
    else
      assert encoder == Encodes;
      Ok(arrivals[..n])
  }

  /** One entry of start_all_camera_cache's per-camera list: the channel started,
      or the ToolError its start raised. */
  datatype ChannelOutcome = Started(channel: int) | Failed(channel: int, error: Error)

  datatype CameraOutcome = CameraOutcome(did: Did, outcomes: seq<ChannelOutcome>)

  /** The channels start_all_camera_cache tries on a camera: all of them, or the
      one asked for. */
  function Candidates(info: CameraInfo, channel: int, allChannels: bool): (chs: seq<int>)
    ensures !allChannels ==> chs == [channel]
    ensures allChannels ==> |chs| == if ChannelLimit(info.channelCount) < 0 then 0 else ChannelLimit(info.channelCount)
    ensures allChannels ==> forall i :: 0 <= i < |chs| ==> chs[i] == i
  {
    if !allChannels then [channel]
    else
      var limit := ChannelLimit(info.channelCount);
      seq(if limit < 0 then 0 else limit, i => i)
  }

  /** The channels of chs within [0, limit), in order. */
  function InRange(chs: seq<int>, limit: int): (r: seq<int>)
    ensures forall c :: c in r <==> c in chs && 0 <= c < limit
    ensures |r| <= |chs|
  {
    if chs == [] then []
    else if 0 <= chs[0] < limit then [chs[0]] + InRange(chs[1..], limit)
    else InRange(chs[1..], limit)
  }

  function ChannelsOf(outcomes: seq<ChannelOutcome>): (chs: seq<int>)
    ensures |chs| == |outcomes|
    ensures forall i :: 0 <= i < |chs| ==> chs[i] == outcomes[i].channel
  {
    seq(|outcomes|, i requires 0 <= i < |outcomes| => outcomes[i].channel)
  }

  /** Prepend the entries already made to the result of the rest of a batch;
      an abort discards them. */
  function Prefixed<T>(done: seq<T>, rest: Result<seq<T>>): Result<seq<T>> {
    if rest.Ok? then Ok(done + rest.value) else rest
  }

  lemma SeqAssoc<T>(a: seq<T>, b: seq<T>, c: seq<T>)
    ensures a + (b + c) == (a + b) + c
  {
  }

  lemma PrefixedNothing<T>(r: Result<seq<T>>)
    ensures Prefixed([], r) == r
  {
    if r.Ok? {
      assert [] + r.value == r.value;
    }
  }

  lemma PrefixedTwice<T>(a: seq<T>, b: seq<T>, r: Result<seq<T>>)
    ensures Prefixed(a, Prefixed(b, r)) == Prefixed(a + b, r)
  {
    if r.Ok? {
      assert a + (b + r.value) == (a + b) + r.value;
    }
  }

  /** One in-range channel of start_all_camera_cache: its cache is started; a
      ToolError becomes an error entry, any other exception ends the batch. */
  function StartOne(t: Tables, cameras: map<Did, CameraInfo>, did: Did, ch: int,
                    pin: PinCode, bufferSize: int, io: CameraIo): (s: Step<ChannelOutcome>)
    requires Inv(t) && bufferSize > 0
    ensures Inv(s.tables)
    ensures OnlyTouches(t, s.tables, [did]) && t.cache.Keys <= s.tables.cache.Keys
    ensures var one := StartCacheChannelStep(t, Listed(cameras), did, ch, pin, bufferSize, io);
      && s.tables == one.tables && s.effects == one.effects
      && (s.result == Ok(Started(ch)) <==> one.result.Ok?)
      && (one.result.Err? && one.result.error.IsToolError() ==> s.result == Ok(Failed(ch, one.result.error)))
    ensures s.result.Ok? ==> s.result.value.channel == ch
    ensures s.result == Ok(Started(ch)) ==> (did, ch) in s.tables.cache
    ensures s.result.Err? ==> s.result.error == LibraryError
  {
    StartCacheRules(t, Listed(cameras), did, ch, pin, bufferSize, io);
    var one := StartCacheChannelStep(t, Listed(cameras), did, ch, pin, bufferSize, io);
    match one.result
    case Ok(_) => Step(one.tables, Ok(Started(ch)), one.effects)
    case Err(e) =>
      if e.IsToolError() then Step(one.tables, Ok(Failed(ch, e)), one.effects)
      else Step(one.tables, Err(e), one.effects)
  }

  /** Past the checks, a channel's entry is an error exactly on a pin
      conflict, which changes nothing; a started channel leaves no conflict
      behind; a camera library that answers lets the batch go on. */
  lemma StartOneRules(t: Tables, cameras: map<Did, CameraInfo>, did: Did, ch: int,
                      pin: PinCode, bufferSize: int, io: CameraIo)
    requires Inv(t) && bufferSize > 0
    requires CheckCamera(Listed(cameras), did, ch).Ok?
    ensures var s := StartOne(t, cameras, did, ch, pin, bufferSize, io);
      && (s.result.Ok? && s.result.value.Failed? <==> PinConflict(t, did, pin))
      && (PinConflict(t, did, pin) ==> s == Step(t, Ok(Failed(ch, PinMismatch)), []))
      && (s.result == Ok(Started(ch)) ==> !PinConflict(s.tables, did, pin))
      && (Answers(io, did, ch) ==> s.result.Ok?)
  {
    StartCacheRules(t, Listed(cameras), did, ch, pin, bufferSize, io);
    StartCacheOutcomes(t, Listed(cameras), did, ch, pin, bufferSize, io);
  }

  lemma ChannelsOfCons(o: ChannelOutcome, rest: seq<ChannelOutcome>)
    ensures ChannelsOf([o] + rest) == [o.channel] + ChannelsOf(rest)
  {
  }

  /** The inner loop of start_all_camera_cache over one camera's candidate
      channels; `limit` is the camera's `channel_count or 1`. */
  function StartChannels(t: Tables, cameras: map<Did, CameraInfo>, did: Did, limit: int, chs: seq<int>,
                         pin: PinCode, bufferSize: int, io: CameraIo): (s: Step<seq<ChannelOutcome>>)
    requires Inv(t) && bufferSize > 0
    requires did in cameras && limit == ChannelLimit(cameras[did].channelCount)
    ensures Inv(s.tables)
    ensures OnlyTouches(t, s.tables, [did]) && t.cache.Keys <= s.tables.cache.Keys
    // out-of-range channels are skipped silently; every other one gets exactly
    // one entry, in order
    ensures s.result.Ok? ==> ChannelsOf(s.result.value) == InRange(chs, limit)
    // only a camera library call that raised ends the loop early
    ensures s.result.Err? ==> s.result.error == LibraryError
    decreases |chs|
  {
    if chs == [] then Step(t, Ok([]), [])
    else
      var ch := chs[0];
      if ch < 0 || ch >= limit then StartChannels(t, cameras, did, limit, chs[1..], pin, bufferSize, io)
      else
        assert CheckCamera(Listed(cameras), did, ch).Ok?;
        var one := StartOne(t, cameras, did, ch, pin, bufferSize, io);
        if one.result.Err? then Step(one.tables, Err(one.result.error), one.effects)
        else
          var rest := StartChannels(one.tables, cameras, did, limit, chs[1..], pin, bufferSize, io);
          ChannelsOfCons(one.result.value, if rest.result.Ok? then rest.result.value else []);
          Step(rest.tables, Prefixed([one.result.value], rest.result), one.effects + rest.effects)
  }

  /** One camera's entries are errors exactly when the pin conflicts with the
      one bound to the camera in t, and then they are that pin mismatch; a
      started channel is cached in the final tables. */
  ghost predicate ChannelEntries(t: Tables, did: Did, outs: seq<ChannelOutcome>, pin: PinCode, final: Tables) {
    forall o :: o in outs ==>
      && (o.Failed? <==> PinConflict(t, did, pin))
      && (o.Failed? ==> o.error == PinMismatch)
      && (o.Started? ==> (did, o.channel) in final.cache)
  }

  lemma ChannelEntriesOne(t: Tables, did: Did, o: ChannelOutcome, pin: PinCode, final: Tables)
    requires o.Failed? <==> PinConflict(t, did, pin)
    requires o.Failed? ==> o.error == PinMismatch
    requires o.Started? ==> (did, o.channel) in final.cache
    ensures ChannelEntries(t, did, [o], pin, final)
  {
  }

  lemma ChannelEntriesCons(t: Tables, t': Tables, did: Did, head: ChannelOutcome, rest: seq<ChannelOutcome>,
                           pin: PinCode, final: Tables)
    requires ChannelEntries(t, did, [head], pin, final)
    requires PinConflict(t', did, pin) == PinConflict(t, did, pin)
    requires ChannelEntries(t', did, rest, pin, final)
    ensures ChannelEntries(t, did, [head] + rest, pin, final)
  {
  }

  /** The entries of one camera. */
  lemma {:induction false} StartChannelsEntries(t: Tables, cameras: map<Did, CameraInfo>, did: Did, limit: int, chs: seq<int>,
                                                pin: PinCode, bufferSize: int, io: CameraIo)
    requires Inv(t) && bufferSize > 0
    requires did in cameras && limit == ChannelLimit(cameras[did].channelCount)
    ensures var s := StartChannels(t, cameras, did, limit, chs, pin, bufferSize, io);
      s.result.Ok? ==> ChannelEntries(t, did, s.result.value, pin, s.tables)
    decreases |chs|
  {
    if chs != [] {
      var ch := chs[0];
      if ch < 0 || ch >= limit {
        StartChannelsEntries(t, cameras, did, limit, chs[1..], pin, bufferSize, io);
      } else {
        assert CheckCamera(Listed(cameras), did, ch).Ok?;
        var one := StartOne(t, cameras, did, ch, pin, bufferSize, io);
        StartOneRules(t, cameras, did, ch, pin, bufferSize, io);
        if one.result.Ok? {
          assert PinConflict(one.tables, did, pin) == PinConflict(t, did, pin);
          StartChannelsEntries(one.tables, cameras, did, limit, chs[1..], pin, bufferSize, io);
          var rest := StartChannels(one.tables, cameras, did, limit, chs[1..], pin, bufferSize, io);
          if rest.result.Ok? {
            var o := one.result.value;
            assert o.Started? ==> (did, o.channel) in one.tables.cache;
            ChannelEntriesOne(t, did, o, pin, rest.tables);
            ChannelEntriesCons(t, one.tables, did, one.result.value, rest.result.value, pin, rest.tables);
            assert StartChannels(t, cameras, did, limit, chs, pin, bufferSize, io)
              == Step(rest.tables, Ok([one.result.value] + rest.result.value), one.effects + rest.effects);
          }
        }
      }
    }
  }

  /** A pin that conflicts with the one bound to the camera makes the whole
      loop change nothing and call nothing. */
  lemma {:induction false} StartChannelsConflict(t: Tables, cameras: map<Did, CameraInfo>, did: Did, limit: int, chs: seq<int>,
                                                 pin: PinCode, bufferSize: int, io: CameraIo)
    requires Inv(t) && bufferSize > 0
    requires did in cameras && limit == ChannelLimit(cameras[did].channelCount)
    ensures var s := StartChannels(t, cameras, did, limit, chs, pin, bufferSize, io);
      PinConflict(t, did, pin) ==> s.tables == t && s.effects == []
    decreases |chs|
  {
    if chs != [] && PinConflict(t, did, pin) {
      var ch := chs[0];
      if ch < 0 || ch >= limit {
        StartChannelsConflict(t, cameras, did, limit, chs[1..], pin, bufferSize, io);
      } else {
        assert CheckCamera(Listed(cameras), did, ch).Ok?;
        var one := StartOne(t, cameras, did, ch, pin, bufferSize, io);
        StartOneRules(t, cameras, did, ch, pin, bufferSize, io);
        assert one == Step(t, Ok(Failed(ch, PinMismatch)), []);
        StartChannelsConflict(t, cameras, did, limit, chs[1..], pin, bufferSize, io);
      }
    }
  }

  /** Per-channel errors never end the loop: a camera library that answers
      every call on the camera's channels lets it finish. */
  lemma {:induction false} StartChannelsFinish(t: Tables, cameras: map<Did, CameraInfo>, did: Did, limit: int, chs: seq<int>,
                                               pin: PinCode, bufferSize: int, io: CameraIo)
    requires Inv(t) && bufferSize > 0
    requires did in cameras && limit == ChannelLimit(cameras[did].channelCount)
    ensures (forall ch :: ch in chs ==> Answers(io, did, ch)) ==>
      StartChannels(t, cameras, did, limit, chs, pin, bufferSize, io).result.Ok?
    decreases |chs|
  {
    if chs != [] && forall ch :: ch in chs ==> Answers(io, did, ch) {
      var ch := chs[0];
      if ch < 0 || ch >= limit {
        StartChannelsFinish(t, cameras, did, limit, chs[1..], pin, bufferSize, io);
      } else {
        assert CheckCamera(Listed(cameras), did, ch).Ok?;
        var one := StartOne(t, cameras, did, ch, pin, bufferSize, io);
        StartOneRules(t, cameras, did, ch, pin, bufferSize, io);
        assert one.result.Ok?;
        StartChannelsFinish(one.tables, cameras, did, limit, chs[1..], pin, bufferSize, io);
      }
    }
  }

  /** No did occurs twice in the sequence. */
  predicate Distinct(order: seq<Did>) {
    order == [] || (order[0] !in order[1..] && Distinct(order[1..]))
  }

  lemma {:induction false} DistinctByIndex(order: seq<Did>)
    requires forall i, j :: 0 <= i < j < |order| ==> order[i] != order[j]
    ensures Distinct(order)
  {
    if order != [] {
      forall j | 0 <= j < |order[1..]| ensures order[1..][j] != order[0] {
        assert order[1..][j] == order[j + 1];
      }
      var tail := order[1..];
      assert forall i, j :: 0 <= i < j < |tail| ==> tail[i] == order[i + 1] && tail[j] == order[j + 1];
      DistinctByIndex(tail);
    }
  }

  /** Every did of the listing, once each, in the listing's iteration order. */
  ghost predicate EnumeratesListing(order: seq<Did>, cameras: map<Did, CameraInfo>) {
    && (forall did :: did in cameras <==> did in order)
    && (forall i, j :: 0 <= i < j < |order| ==> order[i] != order[j])
  }

  /** The outer loop of start_all_camera_cache over the cameras. */
  function StartCameras(t: Tables, cameras: map<Did, CameraInfo>, order: seq<Did>, channel: int,
                        pin: PinCode, bufferSize: int, allChannels: bool, io: CameraIo): (s: Step<seq<CameraOutcome>>)
    requires Inv(t) && bufferSize > 0
    requires forall did :: did in order ==> did in cameras
    ensures Inv(s.tables)
    ensures OnlyTouches(t, s.tables, order) && t.cache.Keys <= s.tables.cache.Keys
    ensures s.result.Ok? ==> |s.result.value| == |order|
    ensures s.result.Err? ==> s.result.error == LibraryError
    decreases |order|
  {
    if order == [] then Step(t, Ok([]), [])
    else
      var did := order[0];
      var info := cameras[did];
      var limit := ChannelLimit(info.channelCount);
      var one := StartChannels(t, cameras, did, limit, Candidates(info, channel, allChannels), pin, bufferSize, io);
      if one.result.Err? then Step(one.tables, Err(one.result.error), one.effects)
      else
        assert forall d :: d in order[1..] ==> d in order;
        var rest := StartCameras(one.tables, cameras, order[1..], channel, pin, bufferSize, allChannels, io);
        OnlyTouchesThen(t, one.tables, rest.tables, [did], order[1..], order);
        Step(rest.tables, Prefixed([CameraOutcome(did, one.result.value)], rest.result), one.effects + rest.effects)
  }

  /** Each camera's list covers its channels in range. */
  ghost predicate ListsMatch(cameras: map<Did, CameraInfo>, order: seq<Did>, outs: seq<CameraOutcome>, channel: int, allChannels: bool)
    requires forall did :: did in order ==> did in cameras
  {
    && |outs| == |order|
    && forall i :: 0 <= i < |order| ==>
         var info := cameras[order[i]];
         && outs[i].did == order[i]
         && ChannelsOf(outs[i].outcomes) == InRange(Candidates(info, channel, allChannels), ChannelLimit(info.channelCount))
  }

  lemma ListsCons(cameras: map<Did, CameraInfo>, order: seq<Did>, head: CameraOutcome, rest: seq<CameraOutcome>,
                  channel: int, allChannels: bool)
    requires order != [] && forall did :: did in order ==> did in cameras
    requires var info := cameras[order[0]];
      && head.did == order[0]
      && ChannelsOf(head.outcomes) == InRange(Candidates(info, channel, allChannels), ChannelLimit(info.channelCount))
    requires forall did :: did in order[1..] ==> did in order
    requires ListsMatch(cameras, order[1..], rest, channel, allChannels)
    ensures ListsMatch(cameras, order, [head] + rest, channel, allChannels)
  {
    forall i | 1 <= i < |order| ensures ([head] + rest)[i] == rest[i - 1] && order[i] == order[1..][i - 1] {
    }
  }

  /** One list per camera, in order, each over the camera's channels in range. */
  lemma {:induction false} StartCamerasLists(t: Tables, cameras: map<Did, CameraInfo>, order: seq<Did>, channel: int,
                                             pin: PinCode, bufferSize: int, allChannels: bool, io: CameraIo)
    requires Inv(t) && bufferSize > 0
    requires forall did :: did in order ==> did in cameras
    ensures var s := StartCameras(t, cameras, order, channel, pin, bufferSize, allChannels, io);
      s.result.Ok? ==> ListsMatch(cameras, order, s.result.value, channel, allChannels)
    decreases |order|
  {
    if order != [] {
      var did := order[0];
      var info := cameras[did];
      var one := StartChannels(t, cameras, did, ChannelLimit(info.channelCount), Candidates(info, channel, allChannels), pin, bufferSize, io);
      if one.result.Ok? {
        assert forall d :: d in order[1..] ==> d in order;
        var rest := StartCameras(one.tables, cameras, order[1..], channel, pin, bufferSize, allChannels, io);
        StartCamerasLists(one.tables, cameras, order[1..], channel, pin, bufferSize, allChannels, io);
        var s := StartCameras(t, cameras, order, channel, pin, bufferSize, allChannels, io);
        if s.result.Ok? {
          assert s.result.value == [CameraOutcome(did, one.result.value)] + rest.result.value;
          ListsCons(cameras, order, CameraOutcome(did, one.result.value), rest.result.value, channel, allChannels);
        }
      }
    }
  }

  /** Each camera's entries are errors exactly when the pin conflicts with the
      one bound to that camera in t, and then they are that pin mismatch; a
      started entry's channel is cached in the final tables. */
  ghost predicate EntriesMatch(t: Tables, order: seq<Did>, outs: seq<CameraOutcome>, pin: PinCode, final: Tables) {
    forall i, o :: 0 <= i < |order| && i < |outs| && o in outs[i].outcomes ==>
      && (o.Failed? <==> PinConflict(t, order[i], pin))
      && (o.Failed? ==> o.error == PinMismatch)
      && (o.Started? ==> (order[i], o.channel) in final.cache)
  }

  lemma EntriesCons(t: Tables, t': Tables, order: seq<Did>, head: CameraOutcome, rest: seq<CameraOutcome>,
                    pin: PinCode, final: Tables)
    requires order != []
    requires ChannelEntries(t, order[0], head.outcomes, pin, final)
    requires OnlyTouches(t, t', [order[0]]) && order[0] !in order[1..]
    requires EntriesMatch(t', order[1..], rest, pin, final)
    ensures EntriesMatch(t, order, [head] + rest, pin, final)
  {
    forall i | 1 <= i < |order| && i < 1 + |rest|
      ensures ([head] + rest)[i] == rest[i - 1] && order[i] == order[1..][i - 1]
      ensures PinConflict(t', order[i], pin) == PinConflict(t, order[i], pin)
    {
      assert order[i] in order[1..];
    }
  }

  /** A camera's entries are errors exactly when the pin conflicts with the
      one bound to that camera before the batch, and then they are that pin
      mismatch; a started entry's channel is cached at the end. */
  lemma {:induction false} StartCamerasEntries(t: Tables, cameras: map<Did, CameraInfo>, order: seq<Did>, channel: int,
                                               pin: PinCode, bufferSize: int, allChannels: bool, io: CameraIo)
    requires Inv(t) && bufferSize > 0
    requires forall did :: did in order ==> did in cameras
    requires Distinct(order)
    ensures var s := StartCameras(t, cameras, order, channel, pin, bufferSize, allChannels, io);
      s.result.Ok? ==> EntriesMatch(t, order, s.result.value, pin, s.tables)
    decreases |order|
  {
    if order != [] {
      var did := order[0];
      var info := cameras[did];
      var one := StartChannels(t, cameras, did, ChannelLimit(info.channelCount), Candidates(info, channel, allChannels), pin, bufferSize, io);
      if one.result.Ok? {
        assert forall d :: d in order[1..] ==> d in order;
        var rest := StartCameras(one.tables, cameras, order[1..], channel, pin, bufferSize, allChannels, io);
        StartChannelsEntries(t, cameras, did, ChannelLimit(info.channelCount), Candidates(info, channel, allChannels), pin, bufferSize, io);
        StartCamerasEntries(one.tables, cameras, order[1..], channel, pin, bufferSize, allChannels, io);
        var s := StartCameras(t, cameras, order, channel, pin, bufferSize, allChannels, io);
        if s.result.Ok? {
          assert s.result.value == [CameraOutcome(did, one.result.value)] + rest.result.value;
          assert s.tables == rest.tables;
          EntriesCons(t, one.tables, order, CameraOutcome(did, one.result.value), rest.result.value, pin, s.tables);
        }
      }
    }
  }

  /** Per-channel errors never end the batch: when the camera library answers
      every call on the listed cameras, every camera gets its list. */
  lemma {:induction false} StartCamerasFinish(t: Tables, cameras: map<Did, CameraInfo>, order: seq<Did>, channel: int,
                                              pin: PinCode, bufferSize: int, allChannels: bool, io: CameraIo)
    requires Inv(t) && bufferSize > 0
    requires forall did :: did in order ==> did in cameras
    ensures (forall did, ch :: did in order ==> Answers(io, did, ch)) ==>
      StartCameras(t, cameras, order, channel, pin, bufferSize, allChannels, io).result.Ok?
    decreases |order|
  {
    if order != [] && forall did, ch :: did in order ==> Answers(io, did, ch) {
      var did := order[0];
      var info := cameras[did];
      var one := StartChannels(t, cameras, did, ChannelLimit(info.channelCount), Candidates(info, channel, allChannels), pin, bufferSize, io);
      StartChannelsFinish(t, cameras, did, ChannelLimit(info.channelCount), Candidates(info, channel, allChannels), pin, bufferSize, io);
      assert one.result.Ok?;
      assert forall d :: d in order[1..] ==> d in order;
      StartCamerasFinish(one.tables, cameras, order[1..], channel, pin, bufferSize, allChannels, io);
    }
  }

  /** start_all_camera_cache. `order` is the iteration order of the listing. */
  function StartAllStep(t: Tables, listing: Listing, order: seq<Did>, channel: int,
                        pin: PinCode, bufferSize: int, allChannels: bool, io: CameraIo): (s: Step<seq<CameraOutcome>>)
    requires Inv(t)
    requires listing.Listed? ==> EnumeratesListing(order, listing.cameras)
    ensures Inv(s.tables)
    ensures t.cache.Keys <= s.tables.cache.Keys
    // the buffer size, then the channel, then the client are checked before anything changes
    ensures bufferSize <= 0 ==> s == Step(t, Err(NotPositive("buffer_size")), [])
    ensures bufferSize > 0 && channel < 0 ==> s == Step(t, Err(InvalidChannel(channel)), [])
    ensures bufferSize > 0 && channel >= 0 && listing.Unavailable? ==> s == Step(t, Err(listing.failure), [])
    // every camera of the listing gets its list, over its in-range candidates
    ensures s.result.Ok? ==> listing.Listed? && |s.result.value| == |order|
    ensures s.result.Ok? && listing.Listed? ==>
      forall did :: did in listing.cameras <==> exists i :: 0 <= i < |order| && s.result.value[i].did == did
    ensures s.result.Ok? && listing.Listed? ==> forall i :: 0 <= i < |order| ==>
      var info := listing.cameras[order[i]];
      ChannelsOf(s.result.value[i].outcomes) == InRange(Candidates(info, channel, allChannels), ChannelLimit(info.channelCount))
    // an entry is an error exactly when the pin conflicts with the one bound to
    // its camera, and a started entry's channel is cached
    ensures s.result.Ok? && listing.Listed? ==> forall i, o :: 0 <= i < |order| && o in s.result.value[i].outcomes ==>
      && (o.Failed? <==> PinConflict(t, order[i], pin))
      && (o.Failed? ==> o.error == PinMismatch)
      && (o.Started? ==> (order[i], o.channel) in s.tables.cache)
    // past the checks, only a camera library call that raised ends the batch:
    // per-channel errors never do
    ensures bufferSize > 0 && channel >= 0 && listing.Listed? && s.result.Err? ==> s.result.error == LibraryError
    ensures (bufferSize > 0 && channel >= 0 && listing.Listed? &&
             forall did, ch :: did in listing.cameras ==> Answers(io, did, ch)) ==> s.result.Ok?
  {
    if bufferSize <= 0 then Step(t, Err(NotPositive("buffer_size")), [])
    else if channel < 0 then Step(t, Err(InvalidChannel(channel)), [])
    else match listing
      case Unavailable(e) => Step(t, Err(e), [])
      case Listed(cameras) =>
        StartCamerasLists(t, cameras, order, channel, pin, bufferSize, allChannels, io);
        DistinctByIndex(order);
        StartCamerasEntries(t, cameras, order, channel, pin, bufferSize, allChannels, io);
        StartCamerasFinish(t, cameras, order, channel, pin, bufferSize, allChannels, io);
        StartCameras(t, cameras, order, channel, pin, bufferSize, allChannels, io)
  }
}
