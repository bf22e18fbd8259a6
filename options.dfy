/** An optional value: a SQL NULL, a missing array key, a JavaScript `undefined`. */
module Options {

  datatype Option<+T> = None | Some(value: T) {

    /** PHP's `$x ?? $default` and JavaScript's `x || default` on a present value. */
    function GetOr(default: T): T {
      match this
      case Some(v) => v
      case None => default
    }
  }
}
