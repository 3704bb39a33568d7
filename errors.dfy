/** Optional values, results, and the errors the engine reports. Go returns
    `error` values and, in the engine, aborts a job with a panic; both become
    explicit values of the types below. */
module Errors {

  datatype Option<+T> = None | Some(value: T)

  datatype Result<+T> = Ok(value: T) | Err(error: Error)

  /** Every error the modelled code can produce. */
  datatype Error =
    | ApiError(message: string)                          // a failed provider call, passed through
    | MissingFields(record: string, fields: seq<string>) // "Mandatory fields missing in <record>: f1, f2"
    | TagsMissing                                        // LaunchConfig without Tags
    | RetentionCountZero
    | NameMissing
    | NilDereference(what: string)                       // a Go runtime panic on a nil pointer
    | IndexOutOfRange(what: string)                      // a Go runtime panic on a slice index
    | ConfigErrorsFound(count: int)                      // "Config validation failed, exiting..."
    | ConfigPathMissing
    | InvalidLogLevel(level: string)
}
