/** Types used throughout. */
module Basics {

  datatype Option<+T> = None | Some(value: T)

  type Bytes = seq<bv8>

  /** What reading a key of a Go map of strings gives. */
  function Entry(m: map<string, string>, key: string): string {
    if key in m then m[key] else ""
  }
}
