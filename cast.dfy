/** The data model of parsed recordings and of the options the player and the
    batch coordinator take. */
module Cast {
  import opened Wrappers
  import opened Json

  /** What format detection reports. */
  datatype Format = V1 | V2 | Unknown

  /** An event's type: `'o'` (output) or `'i'` (input). */
  datatype EventKind = Output | Input

  /** One event.  Time and data are whatever the recording held at those
      positions: the parser copies them without checking their types. */
  datatype CastEvent = CastEvent(time: Json, kind: EventKind, data: Json)

  /** The header.  `width` and `height` are always set (defaulted); every other
      field is `None` when the recording leaves it undefined. */
  datatype CastHeader = CastHeader(
    version: int,
    width: Json,
    height: Json,
    timestamp: Option<Json>,
    duration: Option<Json>,
    idleTimeLimit: Option<Json>,
    command: Option<Json>,
    title: Option<Json>,
    env: Option<Json>)

  datatype ParsedCast = ParsedCast(header: CastHeader, events: seq<CastEvent>, format: Format)

  /** Player options; `None` is an undefined (or NaN) number. */
  datatype PlayOptions = PlayOptions(speed: Option<real>, idleTimeLimit: Option<real>)

  /** Batch options.  `parallel` is an integer here; an absent `skipErrors` is false. */
  datatype BatchOptions = BatchOptions(
    inputDir: string,
    outputDir: Option<string>,
    pattern: Option<string>,
    parallel: Option<int>,
    skipErrors: bool)
}
