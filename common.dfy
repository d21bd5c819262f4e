/** Shared result types: Go's `(value, error)` pairs and nil-able pointers. */
module Common {

  /** A value that may be absent (a nil pointer, a nil error). */
  datatype Option<T> = None | Some(value: T)

  /** A value or the text of the error that replaced it. */
  datatype Result<T> = Ok(value: T) | Err(msg: string)

  /**
   * A key press as Bubble Tea's `KeyMsg.String()` names it: the special keys
   * the program tests for, a typed character (`"q"`, `"/"`, `" "` and so on)
   * or some other key.
   */
  datatype Key = Up | Down | Enter | Esc | CtrlC | Rune(c: char) | OtherKey
}
