/** Shared result types and the machine-integer bounds of the native runtime. */
module Common {

  datatype Option<+T> = None | Some(value: T)

  /** The outcome of an operation that the source reports as `Result` or as a raised exception. */
  datatype Result<+T, +E> = Success(value: T) | Failure(error: E) {
    predicate IsFailure() {
      Failure?
    }

    function PropagateFailure<U>(): (r: Result<U, E>)
      requires Failure?
    {
      Failure(error)
    }

    function Extract(): (v: T)
      requires Success?
    {
      value
    }
  }

  const U64_MAX: nat := 0xffff_ffff_ffff_ffff
  const I64_MIN: int := -0x8000_0000_0000_0000
  const I64_MAX: int := 0x7fff_ffff_ffff_ffff

  predicate IsI64(v: int) {
    I64_MIN <= v <= I64_MAX
  }

  /** `i64::checked_add`: the sum, or nothing when it leaves the signed 64-bit range. */
  function CheckedAddI64(a: int, b: int): (r: Option<int>) {
    if IsI64(a + b) then Some(a + b) else None
  }

  /** `u64::checked_add` on counters. */
  function CheckedAddU64(a: nat, b: nat): (r: Option<nat>) {
    if a + b <= U64_MAX then Some(a + b) else None
  }

  predicate Distinct<T(==)>(s: seq<T>) {
    forall i, j :: 0 <= i < j < |s| ==> s[i] != s[j]
  }
}
