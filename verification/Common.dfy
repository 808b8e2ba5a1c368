/** Shared vocabulary: options, results, machine-width integers and the identifiers used on the wire. */
module Common {
  datatype Option<+T> = None | Some(value: T)

  datatype Result<+T, +E> = Ok(value: T) | Err(error: E) {
    predicate IsFailure() {
      Err?
    }

    function PropagateFailure<U>(): Result<U, E>
      requires Err?
    {
      Result.Err(error)
    }

    function Extract(): T
      requires Ok?
    {
      value
    }
  }

  const U32_LIMIT := 0x1_0000_0000
  const U64_LIMIT := 0x1_0000_0000_0000_0000

  type u8 = x: int | 0 <= x < 256
  type u32 = x: int | 0 <= x < U32_LIMIT
  type u64 = x: int | 0 <= x < U64_LIMIT

  type Wallet = string
  type RequestId = string

  /** Rust's `as u32` on a wider unsigned integer: keeps the low 32 bits. */
  function AsU32(n: nat): u32 {
    n % U32_LIMIT
  }

  function Bump(m: map<Wallet, nat>, w: Wallet): map<Wallet, nat> {
    m[w := (if w in m then m[w] else 0) + 1]
  }
}
