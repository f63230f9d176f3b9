/** The per-camera session record kept in camera_instances, and the session-level
    steps the camera tools take on it: getting or creating the record, binding a
    pin code, starting the connection, attaching and detaching a cached channel.
    The record is a value: the server never removes or replaces an entry of
    camera_instances, so the `state` dict a tool holds is always the one in the
    table. */
module Sessions {
  import opened Outcomes

  type Did = string

  /** The id register_decode_jpg_async returns for one decode registration. */
  type RegId = int

  /** `str | None`; Python treats both None and "" as "no pin". */
  type PinCode = Option<string>

  predicate IsSet(pin: PinCode) {
    pin.Some? && pin.value != ""
  }

  /** What the server reads of a camera from the IoT client's listing. */
  datatype CameraInfo = CameraInfo(did: Did, channelCount: Option<int>)

  /** `channel_count or 1`: a missing or zero count counts as one channel. */
  function ChannelLimit(count: Option<int>): int {
    if count.None? || count.value == 0 then 1 else count.value
  }

  /** The channel check every camera tool makes before touching a session:
      `channel < 0 or channel >= (channel_count or 1)` is rejected. */
  function ChannelAllowed(info: CameraInfo, channel: int): (ok: bool)
    ensures ok ==> 0 <= channel
    ensures info.channelCount.None? || info.channelCount == Some(0) ==> (ok <==> channel == 0)
    ensures info.channelCount.Some? && info.channelCount.value > 0 ==>
      (ok <==> 0 <= channel < info.channelCount.value)
    ensures info.channelCount.Some? && info.channelCount.value < 0 ==> !ok
  {
    0 <= channel < ChannelLimit(info.channelCount)
  }

  /** camera_instances[did]: whether the connection is started, the bound pin
      code, the channels with an active cache and their decode registrations.
      (The connection handle and the start/stop lock have no counterpart.) */
  datatype Session = Session(started: bool, pin: PinCode, channels: set<int>, regIds: map<int, RegId>)

  /** Every cached channel has exactly one registration, and a session with a
      cached channel is started. */
  predicate SessionOk(s: Session) {
    s.regIds.Keys == s.channels && (s.channels != {} ==> s.started)
  }

  /** The calls the server makes on the camera library, in order. */
  datatype Effect =
    | Create(did: Did)
    | Start(did: Did, pin: PinCode)
    | Stop(did: Did)
    | Register(did: Did, channel: int, id: RegId)
    | Unregister(did: Did, channel: int, id: RegId)

  /** How the camera library answers: whether creating or starting a camera's
      connection succeeds, and the id a decode registration returns (None: the
      call raised). */
  datatype CameraIo = CameraIo(createOk: Did -> bool, startOk: Did -> bool, register: (Did, int) -> Option<RegId>)

  /** What _get_or_create_camera_instance leaves in the table for the did
      (None: still no entry), what it returns or raises, and the library calls
      it made. */
  datatype Acquired = Acquired(entry: Option<Session>, result: Result<Session>, effects: seq<Effect>)

  /** _get_or_create_camera_instance. */
  function Acquire(did: Did, existing: Option<Session>, pin: PinCode, startIfNeeded: bool, io: CameraIo)
    : (a: Acquired)
    // one record per did, created only when absent
    ensures existing.Some? ==> a.entry.Some? && Create(did) !in a.effects
    ensures existing.None? ==> (a.entry.Some? <==> io.createOk(did))
    ensures existing.None? && a.entry.Some? ==>
      a.entry.value.channels == {} && |a.effects| > 0 && a.effects[0] == Create(did) && SessionOk(a.entry.value)
    ensures existing.None? && !io.createOk(did) ==> a.result == Err(LibraryError) && a.effects == []
    ensures a.entry.Some? && existing.Some? ==>
      a.entry.value.channels == existing.value.channels && a.entry.value.regIds == existing.value.regIds
    // with start_if_needed the session is started on success, with its bound pin
    ensures a.result.Ok? ==> a.entry == Some(a.result.value)
    ensures a.result.Ok? && startIfNeeded ==> a.result.value.started
    ensures a.result.Ok? && startIfNeeded && !(existing.Some? && existing.value.started) ==>
      Start(did, a.result.value.pin) in a.effects
    // without it nothing is started
    ensures !startIfNeeded ==> forall e :: e in a.effects ==> !e.Start?
    ensures !startIfNeeded && a.entry.Some? ==> a.entry.value.started == (existing.Some? && existing.value.started)
    ensures a.entry.Some? && existing.Some? && existing.value.started ==> a.entry.value.started
    ensures existing.Some? && SessionOk(existing.value) ==> SessionOk(a.entry.value)
    ensures a.entry.Some? ==> SessionOk(a.entry.value) || existing.Some?
  {
    if existing.None? && !io.createOk(did) then Acquired(None, Err(LibraryError), [])
    else
      var s0 := if existing.None? then Session(false, pin, {}, map[]) else existing.value;
      var created := if existing.None? then [Create(did)] else [];
      if IsSet(pin) && IsSet(s0.pin) && pin != s0.pin then Acquired(Some(s0), Err(PinMismatch), created)
      else
        var s1 := if IsSet(pin) && !IsSet(s0.pin) then s0.(pin := pin) else s0;
        if startIfNeeded && !s1.started then
          if io.startOk(did) then
            var s2 := s1.(started := true);
            Acquired(Some(s2), Ok(s2), created + [Start(did, s1.pin)])
          else Acquired(Some(s1), Err(LibraryError), created)
        else Acquired(Some(s1), Ok(s1), created)
  }

  /** The pin rules of _get_or_create_camera_instance: a set pin that differs
      from the bound one is refused and rebinds nothing; a pin is bound only
      when none was, and a set pin that is not refused ends up bound. */
  lemma AcquirePinRules(did: Did, existing: Option<Session>, pin: PinCode, startIfNeeded: bool, io: CameraIo)
    ensures var a := Acquire(did, existing, pin, startIfNeeded, io);
      && (a.result == Err(PinMismatch) <==>
          existing.Some? && IsSet(pin) && IsSet(existing.value.pin) && pin != existing.value.pin)
      && (a.result == Err(PinMismatch) ==> a.entry == existing && a.effects == [])
      && (a.entry.Some? && existing.Some? && IsSet(existing.value.pin) ==> a.entry.value.pin == existing.value.pin)
      && (a.entry.Some? && existing.Some? && !IsSet(pin) ==> a.entry.value.pin == existing.value.pin)
      && (a.entry.Some? && a.result != Err(PinMismatch) && IsSet(pin) ==> a.entry.value.pin == pin)
  {
  }

  /** Acquiring a started session with no pin or its own pin changes nothing
      and calls nothing: in particular a second acquisition right after a
      successful start is a no-op. */
  lemma AcquireStartedIsNoOp(did: Did, s: Session, pin: PinCode, io: CameraIo)
    requires s.started && (IsSet(pin) ==> s.pin == pin)
    ensures Acquire(did, Some(s), pin, true, io) == Acquired(Some(s), Ok(s), [])
  {
  }

  /** The cache start's success path: the channel joins the cached set with its
      registration. */
  function AttachChannel(s: Session, channel: int, id: RegId): (s': Session)
    ensures s'.channels == s.channels + {channel} && channel in s'.regIds && s'.regIds[channel] == id
    ensures s'.started == s.started && s'.pin == s.pin
    ensures SessionOk(s) && s.started ==> SessionOk(s')
  {
    s.(channels := s.channels + {channel}, regIds := s.regIds[channel := id])
  }

  /** stop_camera_cache on a cached channel: the registration is dropped, and
      the connection is stopped exactly when no cached channel remains. */
  function DetachChannel(s: Session, channel: int): (s': Session)
    ensures s'.channels == s.channels - {channel} && s'.regIds.Keys == s.regIds.Keys - {channel}
    ensures s'.started == (s.started && s'.channels != {})
    ensures s'.pin == s.pin
    ensures SessionOk(s) ==> SessionOk(s')
  {
    var rest := s.channels - {channel};
    s.(channels := rest, regIds := s.regIds - {channel}, started := if rest == {} then false else s.started)
  }

  /** The `finally` of a one-shot capture: the connection is stopped when no
      cached channel uses it. */
  function ReleaseIfIdle(s: Session): (s': Session)
    ensures s'.channels == s.channels && s'.regIds == s.regIds && s'.pin == s.pin
    ensures s'.started == (s.started && s.channels != {})
    ensures SessionOk(s) ==> SessionOk(s')
  {
    if s.channels == {} then s.(started := false) else s
  }
}
