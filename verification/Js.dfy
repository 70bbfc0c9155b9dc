/** Value types of the host language that the model needs: fixed-width unsigned integers held in
    typed arrays, strings as sequences of UTF-16 code units, and the shapes of fallible results. */
module Js {

  /** One element of a `Uint8Array`. */
  type u8 = n: int | 0 <= n < 0x100

  /** One element of a `Uint32Array`. */
  type u32 = n: int | 0 <= n < 0x1_0000_0000

  /** One UTF-16 code unit, as read by `charCodeAt`. */
  type CodeUnit = n: int | 0 <= n < 0x1_0000

  type JsString = seq<CodeUnit>

  datatype Option<+T> = None | Some(value: T)

  /** A value, or the exception the source throws (or the error it returns) instead. */
  datatype Result<+T, +E> = Ok(value: T) | Err(error: E) {
    predicate IsFailure() {
      Err?
    }

    function PropagateFailure<U>(): Result<U, E>
      requires Err?
    {
      Err(error)
    }

    function Extract(): T
      requires Ok?
    {
      value
    }
  }

  /** `x >>> 0` of an integral number. */
  function ToUint32(x: int): u32 {
    x % 0x1_0000_0000
  }

  /** `x & 0xff` of an integral number. */
  function LowByte(x: int): u8 {
    x % 0x100
  }

  predicate NoDuplicates<T(==)>(s: seq<T>) {
    forall i, j :: 0 <= i < j < |s| ==> s[i] != s[j]
  }

  lemma SubsetOfSameSize<T>(a: set<T>, b: set<T>)
    requires a <= b && |a| == |b|
    ensures a == b
  {
    assert b == a + (b - a);
    assert |b| == |a| + |b - a|;
  }
}
