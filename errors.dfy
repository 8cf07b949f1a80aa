/** The error kinds of the asciinema layer and the error value that carries one. */
module Errors {

  datatype ErrorKind =
    | NotInstalled
    | InvalidCastFormat
    | FileNotFound
    | RecordingFailed
    | PlaybackFailed
    | BatchProcessingFailed
    | ClipboardFailed
    | ParsingFailed

  /** The string value of each enum member. */
  function Code(k: ErrorKind): string {
    match k
    case NotInstalled => "ASCIINEMA_NOT_INSTALLED"
    case InvalidCastFormat => "INVALID_CAST_FORMAT"
    case FileNotFound => "FILE_NOT_FOUND"
    case RecordingFailed => "RECORDING_FAILED"
    case PlaybackFailed => "PLAYBACK_FAILED"
    case BatchProcessingFailed => "BATCH_PROCESSING_FAILED"
    case ClipboardFailed => "CLIPBOARD_FAILED"
    case ParsingFailed => "PARSING_FAILED"
  }

  /** An `AsciinemaError`: its kind and its message.  The untyped `details`
      payload is not modelled. */
  datatype AsciinemaError = AsciinemaError(kind: ErrorKind, message: string)
}
