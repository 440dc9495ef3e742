/** The failure-carrying datatypes, the bytes and the little arithmetic the other modules use. */
module Base {

  datatype Option<+T> = None | Some(value: T)

  datatype Result<+T, +E> = Ok(value: T) | Err(error: E)

  type Byte = b: int | 0 <= b < 256

  type Blob = seq<Byte>

  function Max(a: nat, b: nat): nat {
    if a < b then b else a
  }

  /** The numbers below this take `n` bytes at most. */
  function Power256(n: nat): (p: nat)
    ensures p >= 1
  {
    if n == 0 then 1 else 256 * Power256(n - 1)
  }

  /** The number in `count` bytes, most significant first. */
  function BigEndian(n: nat, count: nat): (b: Blob)
    ensures |b| == count
  {
    if count == 0 then [] else BigEndian(n / 256, count - 1) + [n % 256]
  }
}
