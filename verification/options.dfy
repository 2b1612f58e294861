/** The optional-value type used for results that may be absent (a log line
    that is not written, a text that does not parse). */
module Options {

  datatype Option<+T> = None | Some(value: T) {

    /** An absent value stops a `:-` chain. */
    predicate IsFailure() {
      None?
    }

    /** The absence handed on by a stopped `:-` chain. */
    function PropagateFailure<U>(): Option<U>
      requires None?
    {
      None
    }

    /** What a `:-` binds when a value is present. */
    function Extract(): T
      requires Some?
    {
      value
    }
  }
}
