/** Shared vocabulary: bytes, I/O errors and fallible results. */
module Basics {

  type Byte = b: int | 0 <= b < 256

  const U64_MAX: nat := 0xFFFF_FFFF_FFFF_FFFF

  datatype Option<+T> = None | Some(value: T)

  datatype Result<+T> = Ok(value: T) | Err(error: IoError)

  /** `io::Error`, as far as the engine looks at it: only `WouldBlock` is told apart. */
  datatype IoError = WouldBlock | InvalidInput(message: string) | Other(message: string) | Os(code: int)

  function Min(a: nat, b: nat): (r: nat)
    ensures r <= a && r <= b && (r == a || r == b)
  {
    if a <= b then a else b
  }

  function Bit(b: bool): nat {
    if b then 1 else 0
  }

  function UnwrapOr<T>(o: Option<T>, default: T): T {
    if o.Some? then o.value else default
  }
}
