/** Both analyzers answer with a dictionary that either carries the
    measurement or holds a single "error" key with a message; a caller
    (the HTTP layer) tests for that key. */
module Reports {

  datatype Report<+T> = Ok(value: T) | Error(message: string)
}
