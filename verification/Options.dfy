// The outcome of code that either yields a value or raises.
module Options {
  datatype Option<+T> = None | Some(value: T) {

    predicate IsFailure() {
      None?
    }

    function PropagateFailure<U>(): Option<U>
      requires None?
    {
      None
    }

    function Extract(): T
      requires Some?
    {
      value
    }
  }

  // The pipeline's require(): go on or raise.
  function Require(ok: bool): Option<()> {
    if ok then Some(()) else None
  }
}
