/** Result types shared by the terminfo and termios models. */
module Outcomes {

  datatype Option<T> = None | Some(value: T)

  /** How a Go call of the modelled code ends:
      - Ok: it returned a value and a nil error;
      - Err: it returned the error with this message;
      - Panic: a Go runtime fault (index or slice out of range, failed type
        assertion, integer division by zero);
      - Underflow: a pop of an empty value stack, whose behaviour belongs to
        the stack package and is not part of this model. */
  datatype Result<T> = Ok(value: T) | Err(msg: string) | Panic | Underflow
}
