/** Types shared by every part of the model: optional values, fallible results and the machine
    integers the guest program stores. */
module Prelude {

  datatype Option<+T> = None | Some(value: T)

  datatype Result<+T> = Ok(value: T) | Err(error: string) {
    predicate IsFailure() {
      Err?
    }

    function PropagateFailure<U>(): Result<U>
      requires Err?
    {
      Result.Err(error)
    }

    function Extract(): T
      requires Ok?
    {
      value
    }
  }

  const U8_LIMIT := 0x100
  const U32_LIMIT := 0x1_0000_0000
  const U64_LIMIT := 0x1_0000_0000_0000_0000

  type u8 = n: int | 0 <= n < U8_LIMIT
  type u32 = n: int | 0 <= n < U32_LIMIT
  type u64 = n: int | 0 <= n < U64_LIMIT

  type Bytes = seq<u8>
}
