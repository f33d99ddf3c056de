/** A value that may be absent; `:-` propagates the absence. */
module Options {
  datatype Option<+T> = None | Some(value: T) {
    predicate IsFailure() {
      None?
    }

    function PropagateFailure<U>(): Option<U>
      requires None?
    {
      None
    }

    function Extract(): T
      requires Some?
    {
      value
    }
  }

  /** Text in front of what is printed later, if that does not fail. */
  function Prepend(text: string, rest: Option<string>): Option<string> {
    var r :- rest;
    Some(text + r)
  }
}
