/** Outcome types shared by the whole model.
    The parser signals three kinds of outcome: a value, the end of the token
    stream (Python's StopIteration, which the parse loop catches), and a genuine
    Python exception that escapes the parser altogether. */
module Basics {

  datatype Option<+T> = None | Some(value: T)

  /** The exceptions the parser can raise on ordinary (if unusual) input. */
  datatype Fault =
    | UnpackMismatch    // ValueError: `_parsedotname` returned a 2-tuple where 5 values are unpacked
    | NoneStatement     // AttributeError: `statement.set_vars` on a None statement (`except , x:`)
    | NoLastStatement   // IndexError: `statements[-1]` on a scope without statements
    | NotAFlow          // AttributeError: `set_next` on a plain Statement
    | EmptyDocstring    // IndexError: `d[0]` on a docstring that was stripped to nothing
    | ImportHasNoNames  // AttributeError: `n2.names` on an Import in Class.get_set_vars
    | EmptyNameIndex    // IndexError: `n2.names[0]` on a Name without segments in Class.get_set_vars

  /** The result of a token-consuming reader: a value together with the cursor
      position after it, the end of the token stream, or an exception. */
  datatype Read<+T> = Got(val: T, pos: nat) | AtEnd | Raised(fault: Fault) {
    predicate IsFailure() { !Got? }

    function PropagateFailure<U>(): Read<U>
      requires !Got?
    {
      if AtEnd? then AtEnd else Raised(fault)
    }

    function Extract(): T
      requires Got?
    {
      val
    }
  }
}
