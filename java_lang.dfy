// The slice of the Java platform the sink relies on: fixed-width integers,
// nullable references, exceptions and the way a method call completes.

module JavaLang {

  /** Java's primitive integer types, as ranges of mathematical integers. */
  newtype int8 = x: int | -0x80 <= x < 0x80
  newtype int16 = x: int | -0x8000 <= x < 0x8000
  newtype int32 = x: int | -0x8000_0000 <= x < 0x8000_0000
  newtype int64 = x: int | -0x8000_0000_0000_0000 <= x < 0x8000_0000_0000_0000

  /** Integer.MAX_VALUE, also the largest length a Java array can have. */
  const IntMaxValue: int := 0x7fff_ffff

  /** A float or double is carried as its IEEE 754 bit pattern; nothing computes with it. */
  datatype Float32 = Float32Bits(bits: bv32)
  datatype Float64 = Float64Bits(bits: bv64)

  /** A reference that may be null: None stands for Java's null. */
  datatype Option<+T> = None | Some(value: T)

  datatype Result<+T, +E> = Success(value: T) | Failure(error: E)

  /** The exceptions a write can end with. */
  datatype JavaException =
    | IllegalArgumentException(message: string)
    | ClassCastException(fromClass: string, toClass: string)
    | NullPointerException
    | IndexOutOfBoundsException
      /** Anything thrown from inside the protobuf utilities (a JSON printing failure, say). */
    | ForeignException(exceptionClass: string)

  /** How a Java method call ends: it returns, or it throws. */
  datatype Completion = Normal | Threw(exception: JavaException)

  predicate EndsWith(s: string, suffix: string) {
    |suffix| <= |s| && s[|s| - |suffix|..] == suffix
  }
}
