/**
 * The application's error type, the `ErrorHandler` classification
 * predicates and constructors, and the `ErrorContext` builders. Payloads
 * that come from other crates are opaque values.
 */
module Errors {
  import opened Wrappers
  import opened FileSystem

  /** A foreign error value (`config::ConfigError`, `serde_json::Error`, `AccessError`, `anyhow::Error`). */
  datatype Opaque = Opaque(description: string)

  /** `std::io::ErrorKind`, the variants that exist on every platform. */
  datatype IoErrorKind =
    | NotFound | PermissionDenied | ConnectionRefused | ConnectionReset | ConnectionAborted
    | NotConnected | AddrInUse | AddrNotAvailable | BrokenPipe | AlreadyExists | WouldBlock
    | InvalidInput | InvalidData | TimedOut | WriteZero | Interrupted | Unsupported
    | UnexpectedEof | OutOfMemory | Other

  /** `std::io::Error`: its kind, and the rest kept opaque. */
  datatype IoError = IoError(kind: IoErrorKind, detail: Opaque)

  /** `rustganizer::error::Error`. */
  datatype Error =
    | FileSystem(io: IoError)
    | Config(config: Opaque)
    | UserNotFound(username: string)
    | EmptyUsername
    | FileOperation(operation: string, path: Path, source: IoError)
    | DirectoryOperation(operation: string, path: Path, source: IoError)
    | PermissionDenied(path: Path)
    | InvalidExtension(extension: string)
    | Serialization(serialization: Opaque)
    | Thread(thread: Opaque)
    | InvalidLanguage(language: string)
    | Cancelled
    | InvalidConfig(message: string)
    | Other(other: Opaque)

  /** `ErrorHandler::is_retryable_error`: an I/O error that would block or was interrupted. */
  predicate IsRetryableError(e: Error) {
    e.FileSystem? && (e.io.kind == IoErrorKind.WouldBlock || e.io.kind == IoErrorKind.Interrupted)
  }

  /** `ErrorHandler::is_fatal_error`: a refused path, a bad configuration or language, or no username. */
  predicate IsFatalError(e: Error) {
    e.PermissionDenied? || e.InvalidConfig? || e.InvalidLanguage? || e.EmptyUsername?
  }

  /** Retrying is offered for exactly two kinds of plain I/O error, and for no other variant. */
  lemma RetryableExactly(e: Error)
    ensures IsRetryableError(e) ==> e.FileSystem?
    ensures forall io :: IsRetryableError(FileSystem(io)) <==>
      io.kind in {IoErrorKind.WouldBlock, IoErrorKind.Interrupted}
  {
  }

  /** No error is both fatal and retryable. */
  lemma NeverFatalAndRetryable(e: Error)
    ensures !(IsFatalError(e) && IsRetryableError(e))
  {
  }

  /** A missing user is neither fatal nor retryable. */
  lemma UserNotFoundIsNeither(username: string)
    ensures !IsFatalError(UserNotFound(username)) && !IsRetryableError(UserNotFound(username))
  {
  }

  /** A refused I/O call reported as a plain `FileSystem` error is not fatal: only the `PermissionDenied` variant is. */
  lemma IoPermissionDeniedIsNotFatal(detail: Opaque, path: Path)
    ensures !IsFatalError(FileSystem(IoError(IoErrorKind.PermissionDenied, detail)))
    ensures IsFatalError(Error.PermissionDenied(path))
  {
  }

  /** `ErrorHandler::handle_file_operation`: a `FileOperation` carrying the operation, path and cause. */
  function HandleFileOperation(error: IoError, operation: string, path: Path): (r: Error)
    ensures r.FileOperation? && r.operation == operation && r.path == path && r.source == error
  {
    FileOperation(operation, path, error)
  }

  /** `ErrorHandler::handle_directory_operation`: a `DirectoryOperation` carrying the operation, path and cause. */
  function HandleDirectoryOperation(error: IoError, operation: string, path: Path): (r: Error)
    ensures r.DirectoryOperation? && r.operation == operation && r.path == path && r.source == error
  {
    DirectoryOperation(operation, path, error)
  }

  /**
   * Wrapping an I/O error with either handler makes it neither fatal nor
   * retryable, even when the plain error would have been retryable.
   */
  lemma HandledErrorsAreNeither(error: IoError, operation: string, path: Path)
    ensures !IsFatalError(HandleFileOperation(error, operation, path))
    ensures !IsRetryableError(HandleFileOperation(error, operation, path))
    ensures !IsFatalError(HandleDirectoryOperation(error, operation, path))
    ensures !IsRetryableError(HandleDirectoryOperation(error, operation, path))
  {
  }

  /** `ErrorContext` without its timestamp. */
  datatype ErrorContext = ErrorContext(operation: string, path: Option<Path>, userInfo: Option<string>)

  /** `ErrorContext::new`: the operation, no path, no user information. */
  function NewContext(operation: string): (r: ErrorContext)
    ensures r.operation == operation && r.path.None? && r.userInfo.None?
  {
    ErrorContext(operation, None, None)
  }

  /** `ErrorContext::with_path`: sets the path and keeps the other fields. */
  function WithPath(c: ErrorContext, path: Path): (r: ErrorContext)
    ensures r.path == Some(path)
    ensures r.operation == c.operation && r.userInfo == c.userInfo
  {
    c.(path := Some(path))
  }

  /** `ErrorContext::with_user_info`: sets the user information and keeps the other fields. */
  function WithUserInfo(c: ErrorContext, userInfo: string): (r: ErrorContext)
    ensures r.userInfo == Some(userInfo)
    ensures r.operation == c.operation && r.path == c.path
  {
    c.(userInfo := Some(userInfo))
  }

  /** The two builders touch different fields, so their order does not matter. */
  lemma BuildersCommute(c: ErrorContext, path: Path, userInfo: string)
    ensures WithUserInfo(WithPath(c, path), userInfo) == WithPath(WithUserInfo(c, userInfo), path)
  {
  }

  /** The last `with_path` wins. */
  lemma LastPathWins(c: ErrorContext, p: Path, q: Path)
    ensures WithPath(WithPath(c, p), q) == WithPath(c, q)
  {
  }

  /** A context built by `new` and both builders holds exactly what was given. */
  lemma BuiltContext(operation: string, path: Path, userInfo: string)
    ensures WithUserInfo(WithPath(NewContext(operation), path), userInfo) ==
      ErrorContext(operation, Some(path), Some(userInfo))
  {
  }
}
