/** Optional values and results with an error, used wherever the editor may
    lack a value (an absent block list, an optional undo) or may fail (a
    command name nobody registered). */
module Options {

  datatype Option<+T> = None | Some(value: T) {

    /** The wrapped value, or `default` when there is none: the `x || []`
        idiom of the editor for a value that may be absent. */
    function GetOr(default: T): T
    {
      match this
      case Some(v) => v
      case None => default
    }
  }

  datatype Result<+R, +E> = Success(value: R) | Failure(error: E)
}
