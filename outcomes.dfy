/** Optional values, tool results and the errors a tool call of the server can end with. */
module Outcomes {

  datatype Option<+T> = None | Some(value: T)

  /** Every way a tool call, or the redirect parser, ends in failure. Most are
      raised as a ToolError; the last five stand for exceptions of other kinds,
      which the tools' own ToolError handlers let through. */
  datatype Error =
    | AuthRequired                // no token file, or the token refresh failed
    | CameraNotFound(did: string) // the camera listing has no such did
    | InvalidChannel(channel: int)
    | NotPositive(field: string)  // "duration", "fps", "buffer_size" or "count" was <= 0
    | PinMismatch                 // a different pin code is already bound to the camera
    | SnapshotTimeout
    | SnapshotCacheEmpty
    | CacheNotStarted
    | CacheWaitTimeout
    | RecordTimeout
    | EncodingUnavailable         // ffmpeg is not on the PATH
    | NoFramesCaptured
    | EncodingFailed              // ffmpeg exited with a non-zero status
    | TokenFileInvalid            // ValueError: the token file is unreadable or lacks oauth_info
    | ClientInitFailed            // MIoTClient.init_async raised
    | LibraryError                // a call on the camera handle raised
    | AdapterMissing              // AssertionError: a device or scene adapter is None
    | InvalidUrl                  // ValueError: urlparse rejects the pasted URL
  {
    /** True for the errors raised as ToolError, the only kind a tool's own handler catches. */
    predicate IsToolError() {
      !(TokenFileInvalid? || ClientInitFailed? || LibraryError? || AdapterMissing? || InvalidUrl?)
    }

    /** True for the errors that getting a ready client, or its camera listing, can end with. */
    predicate IsClientFailure() {
      AuthRequired? || TokenFileInvalid? || ClientInitFailed? || LibraryError?
    }
  }

  /** The errors that getting a ready client, or its camera listing, can end with. */
  type ClientFailure = e: Error | e.IsClientFailure() witness AuthRequired

  datatype Result<+T> = Ok(value: T) | Err(error: Error)
}
