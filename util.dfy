/** Machine-level helpers shared by the WavSplitter model: C#'s `byte`,
    its unchecked 32-bit `int` arithmetic and its truncating division. */
module Util {

  /** An unsigned 8-bit value, as C#'s `byte`. */
  newtype byte = b: int | 0 <= b < 256

  datatype Option<T> = None | Some(value: T)

  datatype Result<T, E> = Ok(value: T) | Err(error: E)

  const TwoTo32: int := 0x1_0000_0000
  const Int32Min: int := -0x8000_0000
  const Int32Max: int := 0x7FFF_FFFF

  /** The value C#'s unchecked `int` arithmetic produces for the exact result x:
      the unique 32-bit two's-complement integer congruent to x. */
  function Wrap32(x: int): (r: int)
    ensures Int32Min <= r <= Int32Max
    ensures (x - r) % TwoTo32 == 0
    ensures Int32Min <= x <= Int32Max ==> r == x
  {
    var m := x % TwoTo32;
    if m <= Int32Max then m else m - TwoTo32
  }

  /** Wrap32 is determined by its two ensures. */
  lemma WrapUnique(x: int, r: int)
    requires Int32Min <= r <= Int32Max && (x - r) % TwoTo32 == 0
    ensures Wrap32(x) == r
  {
    var w := Wrap32(x);
    assert (w - r) % TwoTo32 == 0 by {
      assert w - r == (x - r) - (x - w);
    }
  }

  /** Wrapping an intermediate sum changes nothing at the end: C#'s unchecked
      `a + (b)` equals one wrap of the exact a + b. */
  lemma WrapInner(a: int, b: int)
    ensures Wrap32(a + Wrap32(b)) == Wrap32(a + b)
  {
    var w, r := Wrap32(b), Wrap32(a + Wrap32(b));
    assert (a + b - r) == (b - w) + (a + w - r);
    WrapUnique(a + b, r);
  }

  /** The longest `byte[]` the .NET runtime allocates; offsets a few bytes past
      it still fit in an `int`. */
  const MaxByteArrayLength: int := 0x7FFF_FFC7

  /** C#'s integer division by a positive divisor, which truncates toward
      zero (Dafny's `/` is Euclidean). */
  function TruncDiv(a: int, d: int): (q: int)
    requires d > 0
    ensures a >= 0 ==> 0 <= a - q * d < d
    ensures a < 0 ==> -d < a - q * d <= 0
  {
    if a >= 0 then a / d else -((-a) / d)
  }

  /** The unsigned little-endian 32-bit integer held in s[pos..pos + 4]. */
  function LeU32(s: seq<byte>, pos: int): (r: int)
    requires 0 <= pos && pos + 4 <= |s|
    ensures 0 <= r < TwoTo32
    ensures r % 256 == s[pos] as int
  {
    s[pos] as int + 0x100 * (s[pos + 1] as int) + 0x1_0000 * (s[pos + 2] as int)
      + 0x100_0000 * (s[pos + 3] as int)
  }
}
