/** Small vocabulary shared by the other modules. */
module Basics {

  /** 32-bit unsigned arithmetic is modulo WORD. */
  const WORD: nat := 0x1_0000_0000

  type Word32 = n: nat | n < WORD

  datatype Option<T> = None | Some(value: T)

  datatype Result<T> = Ok(value: T) | Err(message: string)

  function Without<T>(s: seq<T>, i: nat): seq<T>
    requires i < |s|
  {
    s[..i] + s[i + 1..]
  }
}
