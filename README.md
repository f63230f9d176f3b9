# mini_miloco camera registry, token guard and redirect parser

mini_miloco runs an MCP server in front of a Xiaomi Home account. Before any
tool can act, it must have a ready IoT client. The camera tools keep
long-running camera connections in three tables:

- `camera_instances`: one session per camera did;
- `camera_cache`: a bounded frame buffer per (did, channel);
- `camera_cache_events`: a wake-up event per cached (did, channel).

This project models, and proves properties of:

- **The camera tables and the tools that change them.** Creating and starting
  a session, binding a pin code, starting and stopping a frame cache, the frame
  callback, the cached reads, one-shot snapshots, clip recording and the batch
  start over every listed camera.
  - `CameraTables` states each tool as a pure step. A step maps the tables
    before the call to the tables after it, the tool's result, and the calls
    it made on the camera library.
  - `CameraRegistry.Registry` is the mutable object. It has the three tables
    as `map`/`set` fields, and each method is proved equal to its step.
  - All steps keep the invariant `CameraTables.Inv`:
    - the cache and event tables share their keys;
    - each session's registrations match its cached channels;
    - a session with a cached channel is started;
    - each buffer stays within its size;
    - each cached channel has a buffer.
- **The frame buffer (`Frames`).** A deque bounded by `buffer_size`, its
  staleness rule and the two cached reads.
- **Frame capture (`Capture`).**
  - A snapshot's one-shot future, which is set at most once.
  - A clip's futures, each filled in turn by the first-unfilled rule. They are
    kept in an array and drained in order.
- **The token guard (`TokenGuard`).**
  - `_needs_refresh`.
  - `_ensure_client`, both as written and in a corrected form.
  - The mutable guard object, `TokenGuard.ClientGuard`.
- **The redirect parser (`CodeState`).**
  - `_parse_code_state`, with `str.strip`, `parse_qs`'s first-value lookup and
    the part of `urlparse` it relies on written out: the deletion of tabs and
    line breaks, the unbalanced-bracket error and the query.
  - The code/state decision of the command-line helper.

The camera library, the IoT client, the token file and the clock are inputs:

- `Sessions.CameraIo` answers whether creating or starting a camera's
  connection succeeds, and which id a decode registration returns.
- `TokenGuard.Env` gives the token file, the client's initialization outcome,
  the refreshed token and the time.
- A wait is given by the frames that arrive before it times out.

## Model

| member | source | states |
|---|---|---|
| Sessions.ChannelAllowed | mini_miloco/server.py:305-306 | a channel is accepted iff 0 <= channel < (channel_count or 1); a missing or zero count admits only channel 0, a negative count admits none |
| Sessions.Acquire | mini_miloco/server.py:245-269 | one session per did, created only when absent (a failed create leaves no entry, a new one starts with no channel); with start_if_needed the returned session is started; without it no start is made and the started flag is what it was; a started session stays started; channels and registrations are untouched, so a well-formed session stays well-formed |
| Sessions.AcquirePinRules | mini_miloco/server.py:258-261 | a set pin that differs from a bound one raises pin_code mismatch and rebinds nothing; a pin is bound only when none was; a set pin that is not refused ends up bound |
| Sessions.AcquireStartedIsNoOp | mini_miloco/server.py:261-267 | acquiring a started session with no pin or its own pin changes nothing and makes no library call |
| Sessions.AttachChannel | mini_miloco/server.py:599-600 | the channel joins the cached set together with its registration id; a started, well-formed session stays well-formed |
| Sessions.DetachChannel | mini_miloco/server.py:668-675 | the channel and its registration are dropped; started becomes false exactly when no cached channel remains; the pin stays bound |
| Sessions.ReleaseIfIdle | mini_miloco/server.py:344-346 | the connection is stopped exactly when no cached channel uses it; channels, registrations and pin are unchanged |
| Frames.Newest | mini_miloco/server.py:739 | `s[-n:]`: the last min(len(s), n) elements of s, as a suffix |
| Frames.BoundedAppend | mini_miloco/server.py:580 | appending to a deque with maxlen cap keeps the newest cap items and makes the new item the last |
| Frames.AppendAllKeepsNewest | mini_miloco/server.py:579-590 | after any run of appends the buffer holds exactly the newest buffer_size frames of everything it has seen, in arrival order |
| Frames.OnFrame | mini_miloco/server.py:589-590 | the frame callback appends the frame as the newest, drops the oldest from a full buffer, never exceeds the size, and sets updated_at to the receive time |
| Frames.Latest | mini_miloco/server.py:701-703 | the newest frame, or "snapshot cache empty" exactly when the buffer is empty |
| Frames.CachedSnapshot | mini_miloco/server.py:686-703 | an absent key is "camera cache not started"; it waits only when stale (never updated, or older than max_age) and wait_timeout > 0; otherwise it returns the newest frame even if stale; a timed-out wait is "cache wait timeout"; a wake returns the frame that caused it |
| Frames.SnapshotFromCache | mini_miloco/server.py:309-319 | on a cached channel the snapshot is the newest frame; an empty buffer waits for the next frame or times out; the "snapshot cache empty" error after the wait is never returned |
| Frames.RecentFrames | mini_miloco/server.py:730-741 | count <= 0 is rejected before the cache is looked up; an absent key or empty buffer raises; a positive count on a cached, non-empty buffer always succeeds, with the newest min(count, 50, len(frames)) frames, oldest first, ending with the newest |
| Frames.RecentAfterAppend | mini_miloco/server.py:730-741 | after a frame is appended to a buffer, a read of any positive count succeeds, ends with that frame and returns min(count, 50, frames kept) frames |
| Frames.ReadAfterAppend | mini_miloco/server.py:737-741 | right after a frame is appended, reading one recent frame returns exactly that frame |
| Capture.OneShot.constructor | mini_miloco/server.py:330 | a new future holds no result |
| Capture.OneShot.Deliver | mini_miloco/server.py:332-335 | the callback sets the future only when it is not done; later frames leave it unchanged |
| Capture.AwaitOne | mini_miloco/server.py:330-341 | the snapshot future ends holding the first frame to arrive, or none when no frame came before the timeout |
| Capture.FrameCount | mini_miloco/server.py:401 | max(1, duration * fps) is duration * fps once both are positive, so at least one frame is awaited |
| Capture.FirstUnfilled | mini_miloco/server.py:409-412 | the first future not yet done: every earlier one is done, and none means all are done |
| Capture.FillFirstUnfilled | mini_miloco/server.py:408-412 | the callback's loop sets the first unfilled future to the frame and touches no other; with all futures done the frame is dropped |
| Capture.FillKeepsArrivalOrder | mini_miloco/server.py:408-412 | filling the first unfilled future keeps the filled futures a prefix in arrival order: the k-th frame to arrive lands in future k |
| Capture.CaptureFrames | mini_miloco/server.py:401-420 | the clip is exactly the first frame_count frames to arrive, in order; fewer arrivals end in "record timeout" |
| CameraTables.CheckCamera | mini_miloco/server.py:303-306 | a camera tool fails with the client's error, "camera not found" or "invalid channel", in that order, and otherwise yields the camera's listing entry |
| CameraTables.StartCacheChannelStep | mini_miloco/server.py:558-606 | _start_camera_cache keeps the invariant, changes no other camera's session and drops no buffer; a rejected camera or channel changes nothing; an existing buffer gets no new buffer, event or registration; otherwise the channel ends cached with an empty buffer of buffer_size, registered, and on a started session; a success always leaves the channel cached; a failed registration leaves a buffer without a registration |
| CameraTables.StartCacheRules | mini_miloco/server.py:571-600 | the camera's existing registrations are kept, a bound pin stays bound, and a set pin that is not refused ends up bound |
| CameraTables.StartCacheOutcomes | mini_miloco/server.py:571-606 | past the checks, the start fails with pin_code mismatch exactly when the pin conflicts with the bound one, and then changes nothing and calls nothing; any other failure is a camera library call that raised |
| CameraTables.AcquireKeepsInv | mini_miloco/server.py:245-269 | getting or creating a session keeps the tables' invariant |
| CameraTables.AcquireFrames | mini_miloco/server.py:245-269 | getting or creating a session keeps the invariant, touches only that camera's session and no buffer, keeps its cached channels, registrations and bound pin, and on success stores the session it returns |
| CameraTables.CacheChannel | mini_miloco/server.py:577-600 | once the session is started: an existing buffer leaves everything as it is; otherwise an empty buffer of buffer_size and its event are created, then the channel is attached with the id the registration returned, or left unattached when the registration raised; no other camera's session changes, and the session keeps its pin and registrations |
| CameraTables.StartCacheStep | mini_miloco/server.py:608-621 | buffer_size <= 0 is rejected before anything changes; otherwise it is _start_camera_cache |
| CameraTables.StartCacheIsIdempotent | mini_miloco/server.py:577-578 | repeating a successful start with the same pin changes nothing and calls nothing, whatever new buffer_size it asks for |
| CameraTables.OnFrameStep | mini_miloco/server.py:585-590 | the frame callback changes only its own buffer (newest frame appended, oldest dropped when full, updated_at set) and is a no-op once the buffer is gone |
| CameraTables.StopCacheStep | mini_miloco/server.py:657-677 | an absent key gives not_running and changes nothing; otherwise the buffer and event are removed, the channel is unregistered and dropped, and started becomes false exactly when no channel remains; sessions are never removed; a buffer without a registration is dropped without touching the session |
| CameraTables.NoFrameAfterStop | mini_miloco/server.py:586-588 | a frame delivered after its cache was stopped changes nothing |
| CameraTables.TwoChannelTeardown | mini_miloco/server.py:668-675 | with two cached channels, stopping the first keeps the connection running; stopping the second stops it and keeps the session with its pin |
| CameraTables.SnapshotStep | mini_miloco/server.py:296-346 | get_camera_snapshot keeps the invariant; rejected input changes nothing; a cached channel is served from its buffer without touching sessions; otherwise it is a transient capture, with the error paths, the result and the exact library calls TransientSnapshot states |
| CameraTables.TransientSnapshot | mini_miloco/server.py:321-346 | the one-shot capture changes no other camera's session and leaves the cache, the session's channels, registrations and bound pin alone; a failing session acquire returns its error with only its own calls and session entry; a refused registration gives a library error after the acquire; a made registration returns the first arriving frame or "snapshot timeout" and its calls are exactly the acquire's, the registration, its undoing and a stop when no cache uses the connection, which afterwards runs only if a cache uses it |
| CameraTables.ClipRestartIsUnreachable | mini_miloco/server.py:386-394 | the start at the head of the capture never runs, because the acquisition already started the session whenever the channel has no cache |
| CameraTables.RecordClipStep | mini_miloco/server.py:374-382 | duration, then fps, then camera and channel are checked before anything changes; otherwise it is the capture; the cache is never changed |
| CameraTables.ClipCapture | mini_miloco/server.py:384-456 | changes no other camera's session and leaves the cache, the session's channels, registrations and bound pin alone; the result is the acquisition's error, a library error when the registration raised, and otherwise the capture's result over duration*fps frames; a cached channel's connection is never stopped; without a cache the connection is closed again unless another cache uses it |
| CameraTables.ClipAcquired | mini_miloco/server.py:401-425 | once acquired: a registration that raised changes nothing and is a library error; otherwise the result is the capture's over n frames; only the session's started flag may change, and a cached channel's connection is never stopped |
| CameraTables.ClipCaptureOutcomes | mini_miloco/server.py:401-456 | a clip is the first duration*fps frames to arrive; "record timeout" means fewer arrived; "no frames captured" never happens; "ffmpeg is not available" and "ffmpeg failed" come from the encoder's outcome |
| CameraTables.ClipRegistered | mini_miloco/server.py:414-425 | after the registration: the registration is undone, and the connection is stopped exactly when the channel has no cache and no channel is cached; the cache is untouched; the result is ClipResult |
| CameraTables.ClipResult | mini_miloco/server.py:415-456 | the clip is the first n frames exactly when at least n arrived and ffmpeg encodes; fewer arrivals give "record timeout", a missing ffmpeg "ffmpeg is not available", a failing one "ffmpeg failed"; with n >= 1 "no frames captured" never happens |
| CameraTables.Candidates | mini_miloco/server.py:638-639 | start_all tries channel 0 .. (channel_count or 1) - 1 with all_channels, else only the requested channel |
| CameraTables.InRange | mini_miloco/server.py:641-643 | the channels start_all keeps are exactly the candidates within [0, limit), in order |
| CameraTables.StartOne | mini_miloco/server.py:644-653 | one channel's cache start, with the tables and library calls of _start_camera_cache and no other camera's session changed; success gives a started entry whose channel is cached, a ToolError an error entry, any other error ends the batch and is a library error |
| CameraTables.StartOneRules | mini_miloco/server.py:644-653 | past the checks, an entry is an error exactly on a pin conflict, which changes nothing and records pin_code mismatch; a started channel leaves no conflict; a camera library that answers never ends the batch |
| CameraTables.StartChannels | mini_miloco/server.py:641-653 | touches only that camera's session and drops no buffer; out-of-range channels are skipped silently; every other channel gets exactly one entry, in order; only a camera library call that raised ends the loop |
| CameraTables.StartChannelsEntries | mini_miloco/server.py:641-653 | each entry is an error exactly when the pin conflicts with the one bound to the camera, and is then its pin mismatch; a started entry's channel is cached |
| CameraTables.StartChannelsConflict | mini_miloco/server.py:641-653 | a pin that conflicts with the one bound to the camera makes the whole loop change nothing and call nothing |
| CameraTables.StartChannelsFinish | mini_miloco/server.py:641-653 | when the camera library answers for every candidate channel, the loop finishes with its entries: per-channel errors never end it |
| CameraTables.StartCameras | mini_miloco/server.py:637-654 | touches only the listed cameras' sessions and drops no buffer; one entry list per camera, in order; only a camera library call that raised ends the batch |
| CameraTables.StartCamerasLists | mini_miloco/server.py:637-654 | each camera's list is over that camera's in-range candidate channels, in order |
| CameraTables.StartCamerasEntries | mini_miloco/server.py:637-654 | with each camera once, an entry is an error exactly when the pin conflicts with the one bound to its camera before the batch; a started entry's channel is cached |
| CameraTables.StartCamerasFinish | mini_miloco/server.py:637-654 | when the camera library answers for every listed camera and channel, the batch finishes with every list |
| CameraTables.StartAllStep | mini_miloco/server.py:623-655 | buffer_size, then channel < 0, then the client are checked before anything changes; on success every camera of the listing gets its list over its in-range candidates; an entry is an error exactly on a pin conflict with its camera; a started entry's channel is cached; only a camera library call that raised ends the batch, so a library that answers gives every list |
| CameraRegistry.Registry.constructor | mini_miloco/server.py:159-161 | the three tables start empty and the invariant holds |
| CameraRegistry.Registry.GetOrCreateSession | mini_miloco/server.py:245-269 | updates camera_instances as Sessions.Acquire says and leaves the cache alone |
| CameraRegistry.Registry.StartCacheChannel | mini_miloco/server.py:558-606 | the new tables, result and library calls are those of StartCacheChannelStep; the invariant is kept |
| CameraRegistry.Registry.AddCacheChannel | mini_miloco/server.py:577-600 | as CacheChannel, keeping the invariant |
| CameraRegistry.Registry.StartCache | mini_miloco/server.py:608-621 | as StartCacheStep, keeping the invariant |
| CameraRegistry.Registry.OnCacheFrame | mini_miloco/server.py:585-592 | as OnFrameStep, keeping the invariant |
| CameraRegistry.Registry.StopCache | mini_miloco/server.py:657-677 | as StopCacheStep, keeping the invariant |
| CameraRegistry.Registry.GetCachedSnapshot | mini_miloco/server.py:679-703 | as CachedSnapshot on the key's buffer, woken by the first arriving frame; the sessions and events are unchanged |
| CameraRegistry.Registry.GetCachedFrames | mini_miloco/server.py:724-741 | returns RecentFrames of the key's buffer and changes nothing, so a positive count on a cached, non-empty buffer returns frames |
| CameraRegistry.Registry.GetSnapshot | mini_miloco/server.py:296-346 | as SnapshotStep with the first arriving frame, keeping the invariant; on an uncached channel that includes TransientSnapshot's error paths and exact library calls |
| CameraRegistry.Registry.GetSnapshotFromCache | mini_miloco/server.py:309-319 | updates the buffer and returns the frame as SnapshotFromCache says; sessions, events and library calls are untouched |
| CameraRegistry.Registry.GetTransientSnapshot | mini_miloco/server.py:321-346 | as TransientSnapshot, keeping the invariant: the acquire's error, a library error for a refused registration, otherwise the first frame or a timeout with exactly the registration, its undoing and the conditional stop |
| CameraRegistry.Registry.AwaitRegistered | mini_miloco/server.py:337-346 | register, wait for one frame, unregister, then stop the connection if no channel is cached; the result is the first frame or "snapshot timeout" |
| CameraRegistry.Registry.RecordClip | mini_miloco/server.py:367-456 | as RecordClipStep, keeping the invariant |
| CameraRegistry.Registry.CaptureClip | mini_miloco/server.py:384-456 | as ClipCapture, keeping the invariant |
| CameraRegistry.Registry.RecordRegistered | mini_miloco/server.py:414-456 | as ClipRegistered, keeping the invariant; the futures are filled and drained by Capture.CaptureFrames |
| CameraRegistry.Registry.StartOneChannel | mini_miloco/server.py:644-653 | as StartOne, keeping the invariant |
| CameraRegistry.Registry.StartCameraChannels | mini_miloco/server.py:641-653 | the inner loop ends in the tables, entries and library calls of StartChannels |
| CameraRegistry.Registry.StartAll | mini_miloco/server.py:623-655 | the nested loops end in the tables, results and library calls of StartAllStep |
| TokenGuard.ExpiryInt | mini_miloco/server.py:72-73 | expires_ts is an integer when it is a JSON integer or boolean; anything else is none |
| TokenGuard.NeedsRefresh | mini_miloco/server.py:71-75 | false when expires_ts is missing or not an int; otherwise true exactly when expires_ts - now < refresh_window |
| TokenGuard.DueStaysDue | mini_miloco/server.py:71-75 | a token due for refresh stays due as time passes, and under a wider window |
| TokenGuard.EnsureClientAsWritten | mini_miloco/server.py:170-230 | a missing token file clears the payload and asks for authorization; a held client is kept; a failed client init leaves the client stored without adapters |
| TokenGuard.RefreshIfDue | mini_miloco/server.py:212-228 | no refresh when not due; a refresh that cannot run or fails drops payload, client and both adapters, closes the client and asks for authorization; a successful one replaces oauth_info and saved_at and saves the payload |
| TokenGuard.EnsureDevicesAsWritten | mini_miloco/server.py:271-274 | the device adapter is returned with the client; a ready client without it fails the assertion |
| TokenGuard.InitFailureStrandsClient | mini_miloco/server.py:180-189 | after one failed client init, the next call returns the stored client and every device tool fails its assertion |
| TokenGuard.EnsureClient | mini_miloco/server.py:170-230 | the corrected guard: client and adapters are present together; a missing token file clears the payload; a held payload is used, otherwise the token file's, and an unreadable file changes nothing; a failed initialization keeps the payload and stores no client; otherwise the refresh rules decide, with the held or new client and both adapters bound to it |
| TokenGuard.HeldPayloadIsNotReloaded | mini_miloco/server.py:177-178 | while a payload is held, the token file's contents do not affect the outcome |
| TokenGuard.AdaptersFollowClient | mini_miloco/server.py:271-279 | with the correction, after any run of calls the adapters are present whenever the client is, so both assertions always hold |
| TokenGuard.ClientGuard.constructor | mini_miloco/server.py:147-157 | the payload loaded at start-up, no client and no adapters |
| TokenGuard.ClientGuard.Ensure | mini_miloco/server.py:170-230 | the new state, result, saved payloads and closed clients are those of EnsureClient; client and adapters stay together |
| TokenGuard.ClientGuard.EnsureDevices | mini_miloco/server.py:271-274 | as Ensure, returning the device adapter, which is there whenever the client is ready |
| TokenGuard.ClientGuard.EnsureScenes | mini_miloco/server.py:276-279 | as Ensure, returning the scene adapter, which is there whenever the client is ready |
| CodeState.Strip | mini_miloco/auth.py:25 | the result is a slice of the input with only whitespace before and after it; no leading or trailing whitespace remains; the result is empty iff the input is all whitespace |
| CodeState.StripIdempotent | mini_miloco/auth.py:58 | stripping twice is stripping once |
| CodeState.IndexOf | mini_miloco/auth.py:35 | the position of the first occurrence of a character, none iff it does not occur |
| CodeState.SplitThenJoin | mini_miloco/auth.py:35 | joining the '&' fields of a query gives back the query |
| CodeState.JoinThenSplit | mini_miloco/auth.py:35 | splitting joined separator-free fields gives back the fields |
| CodeState.Field | mini_miloco/auth.py:35 | a field splits at its first '='; a field without '=' or with an empty value is dropped |
| CodeState.First | mini_miloco/auth.py:31-32 | `qs.get(key, [None])[0]`: the value of the first pair with that name, none iff there is none |
| CodeState.QueryValue | mini_miloco/auth.py:30-32 | a value found in a query is never empty |
| CodeState.QueryValueNamesField | mini_miloco/auth.py:35-37 | a value is found for a key free of '=' only in a field that is exactly the key, '=' and the value; any such field with a non-empty value is found |
| CodeState.WithoutUnsafe | mini_miloco/auth.py:29 | urlsplit's deletion of tab, carriage return and line feed: none remains, and text without them is kept |
| CodeState.UrlQuery | mini_miloco/auth.py:29-30 | the query of the URL text urlsplit splits lies after a '?' and contains no fragment |
| CodeState.UrlQueryOf | mini_miloco/auth.py:29-30 | the query is exactly the text after the first '?' and before the first '#' |
| CodeState.UrlQueryNone | mini_miloco/auth.py:29-30 | with no '?' before the fragment the query is empty |
| CodeState.QueryValueIsFirstNamed | mini_miloco/auth.py:31-37 | for a key free of '=', the value parse_qs yields first is that of the first '&'-separated field spelt key, '=' and a non-empty value, in query order |
| CodeState.CodeThenState | mini_miloco/auth.py:31-37 | the query "code=C&state=S" yields C and S |
| CodeState.HostPathQuery | mini_miloco/auth.py:29-30 | after the scheme, the network location of host/path?query is the host and its query is the query |
| CodeState.ParseHttps | mini_miloco/auth.py:24-33 | an https URL with nothing to strip or delete raises exactly for unbalanced brackets in its network location, and otherwise yields its query's code and state |
| CodeState.RedirectRoundTrip | mini_miloco/auth.py:24-33 | a redirect URL https://host/path?code=C&state=S parses back to code C and state S |
| CodeState.ParseUrl | mini_miloco/auth.py:29-33 | the URL branch: after deleting tabs and line breaks, a network location with unbalanced brackets raises ValueError; otherwise code and state are the first values of their fields in the query (the query as UrlQueryOf pins it, the first value as QueryValueIsFirstNamed pins it) |
| CodeState.UnsafeCharsAreIgnored | mini_miloco/auth.py:29-33 | a URL parses as it does with its tabs, carriage returns and line feeds deleted |
| CodeState.ParseCodeState | mini_miloco/auth.py:24-39 | blank input gives (None, None); an http(s) URL is parsed by the URL branch, which alone can raise; other input containing "code=" is parsed as a query; anything else is the stripped text as code, with no state; a redirect URL round-trips (RedirectRoundTrip) |
| CodeState.NeverEmpty | mini_miloco/auth.py:59-64 | no input gives an empty code or state, so `not code` means no code at all |
| CodeState.CodeComesFromCodeField | mini_miloco/auth.py:34-38 | outside a URL, text holding "code=" yields a code only from a field that is exactly "code=" and the code (so "xcode=1" gives none), and any such field yields one |
| CodeState.StrippedLineParsesAlike | mini_miloco/auth.py:58-59 | stripping the line before parsing changes nothing |
| CodeState.RunStep | mini_miloco/auth.py:59-65 | the helper stops with status 2 exactly when no code came out; otherwise it exchanges the code with the parsed state, or with the OAuth client's own state when there is none |

`_parse_code_state` at mini_miloco/server.py:22-37 is the same text as
mini_miloco/auth.py:24-39, apart from its type annotation. `CodeState.ParseCodeState`
stands for both, so the two copies agree on every input by construction.

Points where the model follows the code rather than the intent its messages suggest:

- frame_count is at least one, so a recording never reports "no frames
  captured". Too few frames end in "record timeout" instead.
- A session can be started with no cached channel. This happens during a
  one-shot capture, and after a cache start whose decode registration raised.
- A failed registration leaves a buffer that no callback feeds. A later start
  of the same channel finds the buffer and does not repair it.
- `start_all_camera_cache` records only ToolErrors per channel. Any other
  exception from the camera library aborts the whole batch.

## Left out

- MCP tool registration, the HTTP routes and their pages (including the `/auth/callback` use of the parser, mini_miloco/server.py:859-905): transport and user-interface plumbing.
- The IoT client and camera library internals are not modelled; only their outcomes are inputs. This covers client and adapter initialization, `get_cameras_async`, camera creation, start, decode registration, token exchange and refresh. `unregister_decode_jpg_async` and `stop_async` have no outcome: they are taken never to raise (see the three lines below).
- Locks, the event set/clear wake-up, `wait_for` timeouts and the `_auto_start_all_cameras` retry loop (mini_miloco/server.py:787-797). The model runs tool calls one after another, and each wait is given by the frames that arrive before it ends.
- File output is not modelled: snapshot and frame JPEGs, the temporary frame directory, base64 encoding, the ffmpeg command line and the clean-up of the frame directory. ffmpeg is reduced to three outcomes (missing, failing, encoding).
- Token file I/O and `chmod`, and `_load_token_file`'s JSON parsing: loading either gives a payload or fails with one error.
- A token payload without "uuid", "redirect_uri" or "oauth_info" keys (a KeyError at mini_miloco/server.py:182-185 or 212) is not modelled; payloads are records that always have these fields.
- `time.time()` is not modelled: times are integer seconds passed in. The two clock reads of the frame callback (mini_miloco/server.py:589-590) are taken to be the same instant.
- `_interactive_auth` (mini_miloco/server.py:78-122) and the token exchange and save in `_run` are I/O around the parser, which is modelled.
- CodeState.QueryValue: does not percent-decode or turn '+' into a space as `parse_qs` does; the values are the raw text between '&' separators.
- CameraTables.StopCacheStep: takes `unregister_decode_jpg_async` and `stop_async` never to raise. As written, `stop_camera_cache` pops the registration id (mini_miloco/server.py:670) before the unregister call (:671) and discards the channel only after it (:672), so a raising unregister leaves the channel in the session's channels with no registration and no buffer, and a raising stop leaves the session marked started with no channel; neither half-detached state is modelled, and the invariant is proved only for calls that return.
- CameraTables.TransientSnapshot: takes the unregister and stop in the `finally` block (mini_miloco/server.py:343-346) never to raise; as written, a raising unregister skips the stop and leaves the connection started with no cached channel, which the model does not capture.
- CameraTables.ClipRegistered: takes the unregister and stop in the `finally` block (mini_miloco/server.py:422-425) never to raise; as written, a raising unregister skips the stop and leaves the connection started, which the model does not capture.
- CodeState.UrlQuery: urlsplit's deletion of tabs and line breaks and its unbalanced-bracket ValueError are modelled (ParseUrl); its other netloc checks are not: the NFKC normalization check on non-ASCII network locations and, in newer Python versions, the validation of a bracketed host as an IPv6 or IPvFuture address. URLs that fail only those checks parse here instead of raising.
- CameraTables.StartAllStep: the camera listing is read once and taken to be the same for the inner `_start_camera_cache` calls, so their own `_ensure_client` and listing calls are taken to succeed.
- CameraTables.Candidates: the key a camera is listed under is taken to be its `camera_info.did`, for every tool and not only `start_all`. As written, sessions are stored under `camera_info.did` (mini_miloco/server.py:245, 256), while caches are keyed by the did the tool was given (:575) and `stop_camera_cache` looks the session up by that did (:667); a listing whose key differs from the record's did would split one camera across two keys, which the model does not capture.
- CameraTables.ClipCapture: the session start at mini_miloco/server.py:392-394 is shown unreachable and not modelled further; the pin it would pass does not matter.
- The connection handle and its lock inside a session record have no counterpart; a session is its started flag, pin, channels and registrations.
- TokenGuard.RefreshIfDue: takes `client.deinit_async()` (mini_miloco/server.py:223-224) never to raise. As written, a raising close skips lines 225-227 after the payload is set to None, so the client and both adapters stay stored and the close's own exception propagates instead of the authorization ToolError; the model does not capture that state.
- The adapters' own state after a failed adapter initialization is not modelled. As written, they stay stored but uninitialized.

## Findings

| source | as written | input that shows it | evidently intended | confidence | as-written member | corrected member |
|---|---|---|---|---|---|---|
| mini_miloco/server.py:180-189 | `_ensure_client` stores the new client before awaiting its `init_async`; the device and scene adapters are built only after it succeeds | a first tool call whose client initialization raises, then any device tool call while the token is not due for refresh: the second `_ensure_client` sees a stored client and skips construction, so `_ensure_devices_mcp`'s assertion fails on every call until a refresh fails | the client and both adapters are stored only once all three are initialized, so a failed initialization is retried on the next call | not executed | TokenGuard.InitFailureStrandsClient | TokenGuard.AdaptersFollowClient |
