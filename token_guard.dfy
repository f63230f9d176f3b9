/** The token guard of run_server: the refresh predicate, and _ensure_client,
    which every tool calls first to get a ready IoT client. Its state is the
    loaded token payload, the client and the two MCP adapters built on it. The
    token file, the client library and the clock are inputs. */
module TokenGuard {
  import opened Outcomes

  /** The value under "expires_ts" in oauth_info, by JSON type. */
  datatype JsonValue = Missing | JInt(n: int) | JBool(b: bool) | JOther

  /** The fields of oauth_info the guard reads. */
  datatype OAuthInfo = OAuthInfo(refreshToken: Option<string>, expiresTs: JsonValue)

  /** The token file's content. */
  datatype Payload = Payload(uuid: string, cloudServer: string, redirectUri: string, oauth: OAuthInfo, savedAt: int)

  /** A constructed MIoTClient, by identity. */
  type ClientId = nat

  /** `isinstance(expires_ts, int)` and its value: Python's booleans are ints. */
  function ExpiryInt(v: JsonValue): (r: Option<int>)
    ensures v.JInt? ==> r == Some(v.n)
    ensures v.JBool? ==> r == Some(if v.b then 1 else 0)
    ensures v.Missing? || v.JOther? ==> r == None
  {
    match v
    case JInt(n) => Some(n)
    case JBool(b) => Some(if b then 1 else 0)
    case _ => None
  }

  /** _needs_refresh: a token is refreshed once it expires within the window;
      one without an integer expiry never is. */
  function NeedsRefresh(expires: JsonValue, now: int, window: int): (due: bool)
    ensures ExpiryInt(expires).None? ==> !due
    ensures ExpiryInt(expires).Some? ==> (due <==> ExpiryInt(expires).value - now < window)
  {
    match ExpiryInt(expires)
    case None => false
    case Some(ts) => ts - now < window
  }

  /** Once a token is due for refresh it stays due as time passes, and a wider
      window only makes it due sooner. */
  lemma DueStaysDue(expires: JsonValue, now: int, later: int, window: int, wider: int)
    requires NeedsRefresh(expires, now, window) && now <= later && window <= wider
    ensures NeedsRefresh(expires, later, wider)
  {
  }

  /** The nonlocal state _ensure_client maintains: the payload, the client and
      the device and scene adapters, each recorded by the client it wraps. */
  datatype Guard = Guard(payload: Option<Payload>, client: Option<ClientId>,
                         devices: Option<ClientId>, scenes: Option<ClientId>)

  /** How construction goes: the client's init_async raises, one of the
      adapters' init_async raises, or all three succeed. */
  datatype InitOutcome = ClientInitFails | AdapterInitFails | InitOk

  /** What one call meets: whether the token file exists and what loading it
      gives (None: unreadable or without oauth_info), the client a
      construction would make and how its initialization goes, the token a
      refresh obtains and saves (None: the refresh or the save raised), and
      the current time. */
  datatype Env = Env(tokenFileExists: bool, tokenFile: Option<Payload>, newClient: ClientId,
                     init: InitOutcome, refreshed: Option<OAuthInfo>, now: int)

  /** The state after a call, its result, the payload written back to the token
      file, and the client closed with deinit_async. */
  datatype Outcome = Outcome(guard: Guard, result: Result<ClientId>, written: Option<Payload>, closed: Option<ClientId>)

  const Unloaded := Guard(None, None, None, None)

  /** _ensure_client exactly as written: the client is stored before its
      init_async runs, and the adapters before theirs. */
  function EnsureClientAsWritten(g: Guard, env: Env, window: int): (o: Outcome)
    ensures !env.tokenFileExists ==> o == Outcome(g.(payload := None), Err(AuthRequired), None, None)
    ensures g.client.Some? && o.guard.client.Some? ==> o.guard.client == g.client
    // a failed client initialization leaves the client stored without adapters
    ensures (env.tokenFileExists && (g.payload.Some? || env.tokenFile.Some?) &&
             g.client.None? && env.init == ClientInitFails) ==>
      && o.result == Err(ClientInitFailed)
      && o.guard.client == Some(env.newClient)
      && o.guard.devices == g.devices && o.guard.scenes == g.scenes
  {
    if !env.tokenFileExists then Outcome(g.(payload := None), Err(AuthRequired), None, None)
    else
      var loaded := if g.payload.Some? then g.payload else env.tokenFile;
      match loaded
      case None => Outcome(g, Err(TokenFileInvalid), None, None)
      case Some(p) =>
        var g1 := g.(payload := Some(p));
        if g1.client.None? && env.init == ClientInitFails then
          Outcome(g1.(client := Some(env.newClient)), Err(ClientInitFailed), None, None)
        else
          var c := if g1.client.Some? then g1.client.value else env.newClient;
          var g2 := if g1.client.Some? then g1 else g1.(client := Some(c), devices := Some(c), scenes := Some(c));
          if g1.client.None? && env.init == AdapterInitFails then Outcome(g2, Err(ClientInitFailed), None, None)
          else RefreshIfDue(g2, p, c, env, window)
  }

  /** The refresh at the end of _ensure_client, on the loaded payload p and the
      client c: a failed refresh forces a new authorization. */
  function RefreshIfDue(g: Guard, p: Payload, c: ClientId, env: Env, window: int): (o: Outcome)
    ensures !NeedsRefresh(p.oauth.expiresTs, env.now, window) ==> o == Outcome(g, Ok(c), None, None)
    // a refresh that cannot run or fails drops the payload, the client and both adapters
    ensures (NeedsRefresh(p.oauth.expiresTs, env.now, window) &&
             (p.oauth.refreshToken.None? || env.refreshed.None?)) ==>
      o == Outcome(Unloaded, Err(AuthRequired), None, Some(c))
    // a successful one replaces oauth_info and saved_at, and saves the payload
    ensures (NeedsRefresh(p.oauth.expiresTs, env.now, window) &&
             p.oauth.refreshToken.Some? && env.refreshed.Some?) ==>
      var p' := p.(oauth := env.refreshed.value, savedAt := env.now);
      o == Outcome(g.(payload := Some(p')), Ok(c), Some(p'), None)
    ensures o.result.Ok? ==> o.result.value == c && o.guard.client == g.client
    ensures o.result.Err? ==> o.guard == Unloaded
  {
    if !NeedsRefresh(p.oauth.expiresTs, env.now, window) then Outcome(g, Ok(c), None, None)
    else if p.oauth.refreshToken.None? || env.refreshed.None? then
      Outcome(Unloaded, Err(AuthRequired), None, Some(c))
    else
      var p' := p.(oauth := env.refreshed.value, savedAt := env.now);
      Outcome(g.(payload := Some(p')), Ok(c), Some(p'), None)
  }

  /** _ensure_devices_mcp (and, alike, _ensure_scenes_mcp) on the guard as
      written: the adapter must be there once the client is. */
  function EnsureDevicesAsWritten(g: Guard, env: Env, window: int): (r: (Guard, Result<ClientId>))
    ensures r.0 == EnsureClientAsWritten(g, env, window).guard
    ensures r.1.Ok? ==> r.0.devices == Some(r.1.value)
    ensures EnsureClientAsWritten(g, env, window).result.Ok? && r.0.devices.None? ==> r.1 == Err(AdapterMissing)
  {
    var o := EnsureClientAsWritten(g, env, window);
    if o.result.Err? then (o.guard, o.result)
    else if o.guard.devices.None? then (o.guard, Err(AdapterMissing))
    else (o.guard, Ok(o.guard.devices.value))
  }

  /** A client whose initialization failed once is kept without adapters: the
      next call reuses it, succeeds, and every device tool then fails its
      assertion, until a token refresh happens to fail. */
  lemma InitFailureStrandsClient(p: Payload, id: ClientId, later: ClientId, window: int, now: int)
    requires !NeedsRefresh(p.oauth.expiresTs, now, window)
    ensures var first := EnsureClientAsWritten(Unloaded, Env(true, Some(p), id, ClientInitFails, None, now), window);
      var second := EnsureClientAsWritten(first.guard, Env(true, Some(p), later, InitOk, None, now), window);
      && first.result == Err(ClientInitFailed)
      && second.result == Ok(id)
      && second.guard.devices.None?
      && EnsureDevicesAsWritten(first.guard, Env(true, Some(p), later, InitOk, None, now), window).1 == Err(AdapterMissing)
  {
  }

  /** The client and the adapters come and go together, the adapters bound to
      the client. */
  predicate Coherent(g: Guard) {
    && (g.client.None? ==> g.devices.None? && g.scenes.None?)
    && (g.client.Some? ==> g.devices == g.client && g.scenes == g.client)
  }

  /** _ensure_client with the client and adapters stored only once all three
      are initialized, so that a failed initialization is retried. */
  function EnsureClient(g: Guard, env: Env, window: int): (o: Outcome)
    requires Coherent(g)
    ensures Coherent(o.guard)
    // a missing token file clears the payload and asks for authorization
    ensures !env.tokenFileExists ==> o == Outcome(g.(payload := None), Err(AuthRequired), None, None)
    // the payload is loaded only when none is held
    ensures env.tokenFileExists && g.payload.None? && env.tokenFile.None? ==> o == Outcome(g, Err(TokenFileInvalid), None, None)
    // a client is made only while none is held, and then fully
    ensures g.client.Some? && o.guard.client.Some? ==> o.guard.client == g.client
    ensures g.client.None? && o.guard.client.Some? ==> o.guard.client == Some(env.newClient) && env.init == InitOk
    ensures o.result == Err(ClientInitFailed) ==> o.guard == g.(payload := o.guard.payload) && g.client.None?
    // a ready client comes with both adapters
    ensures o.result.Ok? ==> o.guard.client == Some(o.result.value) && o.guard.devices == Some(o.result.value)
    ensures o.result.Ok? ==> o.guard.payload.Some?
    // the payload is saved only after a successful refresh, and a client is
    // closed only when a refresh fails
    ensures o.written.Some? ==> o.result.Ok? && o.guard.payload == o.written
    ensures o.closed.Some? ==> o == Outcome(Unloaded, Err(AuthRequired), None, o.closed)
    // a held payload is used rather than reloaded; a failed initialization
    // keeps it and stores no client
    ensures env.tokenFileExists && (g.payload.Some? || env.tokenFile.Some?) && g.client.None? && env.init != InitOk ==>
      var p := if g.payload.Some? then g.payload.value else env.tokenFile.value;
      o == Outcome(g.(payload := Some(p)), Err(ClientInitFailed), None, None)
    // otherwise the refresh rules decide on that payload, with the held client
    // or the newly made one and both adapters bound to it
    ensures env.tokenFileExists && (g.payload.Some? || env.tokenFile.Some?) && (g.client.Some? || env.init == InitOk) ==>
      var p := if g.payload.Some? then g.payload.value else env.tokenFile.value;
      var c := if g.client.Some? then g.client.value else env.newClient;
      o == RefreshIfDue(Guard(Some(p), Some(c), Some(c), Some(c)), p, c, env, window)
  {
    if !env.tokenFileExists then Outcome(g.(payload := None), Err(AuthRequired), None, None)
    else
      var loaded := if g.payload.Some? then g.payload else env.tokenFile;
      match loaded
      case None => Outcome(g, Err(TokenFileInvalid), None, None)
      case Some(p) =>
        var g1 := g.(payload := Some(p));
        if g1.client.None? && env.init != InitOk then Outcome(g1, Err(ClientInitFailed), None, None)
        else
          var c := if g1.client.Some? then g1.client.value else env.newClient;
          var g2 := g1.(client := Some(c), devices := Some(c), scenes := Some(c));
          RefreshIfDue(g2, p, c, env, window)
  }

  /** While a payload is held, what the token file would give is never read. */
  lemma HeldPayloadIsNotReloaded(g: Guard, env: Env, other: Option<Payload>, window: int)
    requires Coherent(g) && g.payload.Some?
    ensures EnsureClient(g, env.(tokenFile := other), window) == EnsureClient(g, env, window)
  {
  }

  /** With the correction, the device adapter is there whenever the client is:
      the assertion of _ensure_devices_mcp always holds. */
  lemma {:induction false} AdaptersFollowClient(g: Guard, envs: seq<Env>, window: int)
    requires Coherent(g)
    ensures var o := EnsureAll(g, envs, window); Coherent(o) && (o.client.Some? ==> o.devices.Some? && o.scenes.Some?)
    decreases |envs|
  {
    if envs != [] {
      AdaptersFollowClient(EnsureClient(g, envs[0], window).guard, envs[1..], window);
    }
  }

  /** The guard after a run of tool calls, one per environment. */
  function EnsureAll(g: Guard, envs: seq<Env>, window: int): (g': Guard)
    requires Coherent(g)
    decreases |envs|
  {
    if envs == [] then g else EnsureAll(EnsureClient(g, envs[0], window).guard, envs[1..], window)
  }

  /** The guard as run_server holds it: the payload loaded at start-up, and no
      client until the first tool call. */
  class ClientGuard {
    var payload: Option<Payload>
    var client: Option<ClientId>
    var devices: Option<ClientId>
    var scenes: Option<ClientId>
    /** run_server's refresh_window. */
    const window: int
    /** The payloads written to the token file, and the clients closed, so far. */
    ghost var saved: seq<Payload>
    ghost var closed: seq<ClientId>

    function State(): Guard
      reads this
    {
      Guard(payload, client, devices, scenes)
    }

    ghost predicate Valid()
      reads this
    {
      Coherent(State())
    }

    constructor (refreshWindow: int, loaded: Option<Payload>)
      ensures Valid() && State() == Guard(loaded, None, None, None) && window == refreshWindow
      ensures saved == [] && closed == []
    {
      payload := loaded;
      client := None;
      devices := None;
      scenes := None;
      window := refreshWindow;
      saved := [];
      closed := [];
    }

    /** _ensure_client, with the client and adapters stored once initialized. */
    method Ensure(env: Env) returns (r: Result<ClientId>)
      requires Valid()
      modifies this
      ensures var o := EnsureClient(old(State()), env, window);
        && State() == o.guard && r == o.result
        && saved == old(saved) + (if o.written.Some? then [o.written.value] else [])
        && closed == old(closed) + (if o.closed.Some? then [o.closed.value] else [])
      ensures Valid()
    {
      if !env.tokenFileExists {
        payload := None;
        return Err(AuthRequired);
      }
      if payload.None? {
        if env.tokenFile.None? {
          return Err(TokenFileInvalid);
        }
        payload := env.tokenFile;
      }
      if client.None? {
        if env.init != InitOk {
          return Err(ClientInitFailed);
        }
        var made := env.newClient;
        client := Some(made);
        devices := Some(made);
        scenes := Some(made);
      }
      var p := payload.value;
      var c := client.value;
      if NeedsRefresh(p.oauth.expiresTs, env.now, window) {
        if p.oauth.refreshToken.None? || env.refreshed.None? {
          payload := None;
          closed := closed + [c];
          client := None;
          devices := None;
          scenes := None;
          return Err(AuthRequired);
        }
        var p' := p.(oauth := env.refreshed.value, savedAt := env.now);
        payload := Some(p');
        saved := saved + [p'];
      }
      return Ok(c);
    }

    /** _ensure_devices_mcp: the device adapter of a ready client. */
    method EnsureDevices(env: Env) returns (r: Result<ClientId>)
      requires Valid()
      modifies this
      ensures var o := EnsureClient(old(State()), env, window);
        State() == o.guard && r == o.result && (r.Ok? ==> devices == Some(r.value))
      ensures Valid()
    {
      r := Ensure(env);
      if r.Err? {
        return;
      }
      assert devices.Some?;
      r := Ok(devices.value);
    }

    /** _ensure_scenes_mcp: the scene adapter of a ready client. */
    method EnsureScenes(env: Env) returns (r: Result<ClientId>)
      requires Valid()
      modifies this
      ensures var o := EnsureClient(old(State()), env, window);
        State() == o.guard && r == o.result && (r.Ok? ==> scenes == Some(r.value))
      ensures Valid()
    {
      r := Ensure(env);
      if r.Err? {
        return;
      }
      assert scenes.Some?;
      r := Ok(scenes.value);
    }
  }
}
