/** Optional values: Go's nil pointers (a Stage without a run hash, an artifact
    without a run) and the error results of a parser. */
module Options {

  datatype Option<+T> = None | Some(value: T)
}
