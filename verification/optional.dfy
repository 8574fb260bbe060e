/** An optional value: JavaScript's `undefined` / `null` on one side, a present value on the other. */
module Optional {

  datatype Option<+T> = None | Some(value: T) {

    /** The present value, or the given default when absent (a defaulted parameter). */
    function GetOr(default: T): T {
      match this
      case Some(v) => v
      case None => default
    }

    predicate IsFailure() {
      None?
    }

    function PropagateFailure<U>(): Option<U>
      requires None?
    {
      None
    }

    function Extract(): T
      requires Some?
    {
      value
    }
  }
}
