/** A value that may be absent: the model's stand-in for a nullable pointer or handle. */
module Options {

  datatype Option<T> = None | Some(value: T) {

    /** The wrapped value, or `fallback` when absent. */
    function OrElse(fallback: T): (r: T)
      ensures Some? ==> r == value
      ensures None? ==> r == fallback
    {
      match this
      case Some(v) => v
      case None => fallback
    }
  }
}
