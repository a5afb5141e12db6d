/** The outcome of parsing one text field: a value, or nothing when the text
    does not parse (Kotlin's `toDoubleOrNull` / `toIntOrNull` returning null). */
module Wrappers {

  datatype Option<+T> = None | Some(value: T)
}
