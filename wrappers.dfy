/** The optional value used wherever the script reads a variable or a JSON
    field that may be absent (`undefined` / `null` in JavaScript). */
module Wrappers {

  datatype Option<+T> = None | Some(value: T)
}
