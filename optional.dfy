/** A value that may be absent: the model's stand-in for TypeScript's
    `T | null` and for optional properties such as `longDescription?`. */
module Optional {

  datatype Option<+T> = None | Some(value: T)
}
