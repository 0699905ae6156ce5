// Results and optional values shared by every module, and the two text types.
//
// A Go string or byte slice is modelled as a Dafny string whose characters are its bytes.
// Where the code depends on every element being a byte (the crypto frame), the type is Bytes.
module Wrappers {
  datatype Option<+T> = None | Some(value: T)

  datatype Result<+T, +E> = Ok(value: T) | Err(error: E)

  type Byte = c: char | c as int < 256

  type Bytes = seq<Byte>
}
