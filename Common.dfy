/** Machine integers of the Go source, their wrap-around, and the error and
    option types shared by the rest of the model. */
module Common {

  const Two32: int := 0x1_0000_0000
  const Two63: int := 0x8000_0000_0000_0000
  const Two64: int := 0x1_0000_0000_0000_0000

  /** Go's uint8, uint32, uint64 and int64, as ranges of the unbounded integers. */
  type Byte = x: int | 0 <= x < 256
  type U32 = x: int | 0 <= x < Two32
  type U64 = x: int | 0 <= x < Two64
  type I64 = x: int | -Two63 <= x < Two63

  /** A string with no space in it: a field of a whitespace-delimited line. */
  predicate SpaceFree(s: string) {
    forall i | 0 <= i < |s| :: s[i] != ' '
  }
  type Token = s: string | SpaceFree(s)

  datatype Option<T> = None | Some(value: T)

  /** The errors the two fetchers return, one constructor per `fmt.Errorf` site. */
  datatype Error =
    | SerializeFailed              // "failed to serialize block"
    | ProcessFailed(cause: Error)  // "failed to process block: %w"
    | ConnectionNil                // "ouroboros connection is nil"
    | FetchFailed                  // "failed to fetch block"
    | UnexpectedBlockData          // "unexpected block data type"
    | InvalidNetwork(name: string) // "invalid network specified"
    | BadStartHash                 // "failed to decode start hash"
    | TipFailed                    // "failed to get current tip"
    | CloseFailed                  // "failed to close connection"

  datatype Result<T> = Ok(value: T) | Err(error: Error)

  /** uint64 subtraction `a - b`: wraps modulo 2^64 when b > a. */
  function Sub64(a: U64, b: U64): (r: U64)
    ensures a >= b ==> r == a - b
    ensures a < b ==> r == a - b + Two64
  {
    (a - b) % Two64
  }

  /** Reduces an integer to int64 the way two's-complement arithmetic does:
      the one value in [-2^63, 2^63) congruent to x modulo 2^64. */
  function Wrap64(x: int): (r: I64)
    ensures (x - r) % Two64 == 0
  {
    (x + Two63) % Two64 - Two63
  }

  /** A value already in int64 range is not changed. */
  lemma Wrap64Id(x: int)
    requires -Two63 <= x < Two63
    ensures Wrap64(x) == x
  {
  }

  /** Adding a multiple of 2^64 does not change the int64 a value wraps to. */
  lemma Wrap64Shift(x: int, k: int)
    ensures Wrap64(x + k * Two64) == Wrap64(x)
  {
    assert x + k * Two64 + Two63 == (x + Two63) + k * Two64;
  }

  /** Wrapping an operand before an int64 multiplication changes nothing. */
  lemma Wrap64Mul(x: int, y: int)
    ensures Wrap64(Wrap64(x) * y) == Wrap64(x * y)
  {
    var q := (x + Two63) / Two64;
    assert Wrap64(x) == x - q * Two64;
    assert Wrap64(x) * y == x * y + (-(q * y)) * Two64;
    Wrap64Shift(x * y, -(q * y));
  }

  /** Wrapping an operand before an int64 addition changes nothing. */
  lemma Wrap64Add(x: int, y: int)
    ensures Wrap64(Wrap64(x) + y) == Wrap64(x + y)
  {
    var q := (x + Two63) / Two64;
    assert Wrap64(x) + y == (x + y) + (-q) * Two64;
    Wrap64Shift(x + y, -q);
  }

  /** `int64(a) * b + c` in int64 arithmetic, where `a` is congruent to the
      exact difference `e`: the same as the exact `e * b + c`, wrapped once. */
  lemma Wrap64MulAdd(a: int, e: int, b: int, c: int)
    requires (a - e) % Two64 == 0
    ensures Wrap64(c + Wrap64(Wrap64(a) * b)) == Wrap64(c + e * b)
  {
    Wrap64Mul(a, b);
    var k := (a - e) / Two64;
    assert a == e + k * Two64;
    MulDistributes(e, k * Two64, b);
    assert a * b == e * b + (k * b) * Two64;
    Wrap64Shift(e * b, k * b);
    Wrap64Add(e * b, c);
    assert c + Wrap64(a * b) == Wrap64(a * b) + c;
  }

  lemma MulDistributes(x: int, y: int, z: int)
    ensures (x + y) * z == x * z + y * z
  {
  }
}
