/** A value that may be absent, for the optional fields of loaded items and
    for JavaScript's `NaN` / `null` results. */
module Optional {

  datatype Option<+T> = None | Some(value: T)
}
