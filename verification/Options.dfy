/** The optional result used by every lookup in the model. */
module Options {
  datatype Option<+T> = None | Some(value: T)
  {
    function GetOr(fallback: T): T {
      match this
      case None => fallback
      case Some(v) => v
    }
  }
}
