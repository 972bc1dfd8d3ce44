/** Shared value types of the load-test client: bytes, unsigned 64-bit
    integers, optional values, the error values the client passes around and
    the outcome of a call that may panic. */
module Common {

  /** One byte of a payload or of a network parameter value. */
  type byte = x: int | 0 <= x < 256

  const TWO_TO_THE_64: nat := 0x1_0000_0000_0000_0000

  /** Go's `uint64`. */
  type u64 = x: int | 0 <= x < TWO_TO_THE_64

  datatype Option<+T> = None | Some(value: T)

  datatype Result<+T, +E> = Success(value: T) | Failure(error: E)

  /** The error values this code creates or passes on. Errors coming from the
      SDK or the store are opaque and carried as their text. */
  datatype Error =
    | Sdk(text: string)
      // "network configuration misses max object size value"
    | MissingMaxObjectSize
      // "buffer size must be positive"
    | NegativeBufferSize
      // "payload size %d is bigger than network limit %d"
    | PayloadTooLarge(size: nat, limit: nat)
      // a Go runtime panic: a method called through a nil pointer or a nil error
    | NilDereference

  /** The outcome of an exported call: it returns a value or panics. */
  datatype Call<+T> = Returned(value: T) | Panicked(reason: Error)

  function Min(a: int, b: int): (m: int)
    ensures m <= a && m <= b && (m == a || m == b)
  {
    if a <= b then a else b
  }
}
