/** Small shared vocabulary of the two synchronisation scripts. */
module Common {

  /** A value that may be missing: a JavaScript `undefined` result, a failed read. */
  datatype Option<+T> = None | Some(value: T)

  /** An ISO-8601 time stamp as produced by `new Date().toISOString()`.
      The clock is not modelled: every run receives one opaque `now`. */
  type Timestamp = string
}
