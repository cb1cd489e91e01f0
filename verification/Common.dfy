/** Vocabulary shared by every component of the model. */
module Common {
  datatype Option<+T> = None | Some(value: T)
  {
    function UnwrapOr(default: T): T {
      if Some? then value else default
    }
  }
}
