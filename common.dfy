/**
 * Values shared by the whole model: optional values, the outcome of a step that
 * can raise one of the Python exceptions the script leaves uncaught, and the
 * character class `\d`.
 */
module Common {

  datatype Option<+T> = None | Some(value: T)

  /** The uncaught Python exceptions that end a run of the script. */
  datatype PyError =
    | ValueError          // int() of text that is not an integer
    | IndexError          // indexing past the end of a list
    | TypeError           // `number_chosen - 1` or `docs[...]` on a value that is not an int
    | UnicodeEncodeError  // a character outside Latin-1 (Python 2 only)

  datatype Result<+T> = Ok(value: T) | Err(error: PyError)

  /** The ASCII decimal digits, which is what `\d` matches in the coordinate strings. */
  predicate IsDigit(c: char)
  {
    '0' <= c <= '9'
  }

  /** Looks up `key`, giving the empty string when it is absent. */
  function GetOrBlank<K>(m: map<K, string>, key: K): string
  {
    if key in m then m[key] else ""
  }
}
