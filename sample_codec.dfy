/** Conversion between three little-endian bytes and a signed 24-bit sample
    (`readSample` and `writeSample` in Program.cs). */
module SampleCodec {
  import opened Util

  const SampleMin: int := -0x80_0000
  const SampleMax: int := 0x7F_FFFF

  /** A value the 24-bit container can hold. */
  predicate InSampleRange(v: int) {
    SampleMin <= v <= SampleMax
  }

  /** Reinterprets 32 bits as a two's-complement C# `int`. */
  function ToInt32(x: bv32): (r: int)
    ensures Int32Min <= r <= Int32Max
    ensures r >= 0 ==> r == x as int
    ensures r < 0 ==> r == x as int - TwoTo32
  {
    if x as int <= Int32Max then x as int else x as int - TwoTo32
  }

  /** The signed 24-bit little-endian integer at pos, stated positionally:
      the three bytes as an unsigned number, less 2^24 when the top bit is set. */
  function SampleValue(data: seq<byte>, pos: int): (r: int)
    requires 0 <= pos && pos + 3 <= |data|
    ensures InSampleRange(r)
    ensures r < 0 <==> data[pos + 2] >= 0x80
  {
    data[pos] as int + 0x100 * (data[pos + 1] as int) + 0x1_0000 * (data[pos + 2] as int)
      - (if data[pos + 2] >= 0x80 then 0x100_0000 else 0)
  }

  /** `readSample`: the bytes at pos + 2 (most significant), pos + 1 and pos
      assembled with shifts and ors, the top eight bits filled with ones when
      bit 7 of the most significant byte is set. */
  method ReadSample(data: seq<byte>, pos: int) returns (r: int)
    requires 0 <= pos && pos + 3 <= |data|
    ensures r == SampleValue(data, pos)
  {
    var hi, mid, lo := data[pos + 2] as bv8, data[pos + 1] as bv8, data[pos] as bv8;
    SignExtended(lo, mid, hi);
    BitsOfByte(data[pos]);
    BitsOfByte(data[pos + 1]);
    BitsOfByte(data[pos + 2]);
    r := ToInt32(SampleBits(hi, mid, lo));
  }

  /** The 32 bits `readSample` builds from its bytes b1 (most significant),
      b2 and b3, in the order and with the operations it uses. */
  function SampleBits(hi: bv8, mid: bv8, lo: bv8): bv32 {
    var b0: bv32 := 0xff;
    var b1: bv32 := hi as bv32;
    var b2: bv32 := mid as bv32;
    var b3: bv32 := lo as bv32;
    var result: bv32 := 0;
    var result := if b1 & 0x80 != 0 then result | (b0 << 24) else result;
    var result := result | (b1 << 16);
    var result := result | (b2 << 8);
    result | b3
  }

  /** The arithmetic meaning of `readSample`'s bit operations. */
  lemma SignExtended(lo: bv8, mid: bv8, hi: bv8)
    ensures ToInt32(SampleBits(hi, mid, lo))
        == lo as int + 0x100 * (mid as int) + 0x1_0000 * (hi as int) - (if hi as int >= 0x80 then 0x100_0000 else 0)
  {
    LowValue(hi, mid, lo);
    BvRange(lo);
    BvRange(mid);
    BvRange(hi);
    if hi >= 0x80 {
      NegativeShape(hi, mid, lo);
      SignFill(LowBits(hi, mid, lo));
    } else {
      PositiveShape(hi, mid, lo);
    }
  }

  /** The low 24 bits `readSample` assembles, before sign extension. */
  function LowBits(hi: bv8, mid: bv8, lo: bv8): bv32 {
    ((hi as bv32) << 16) | ((mid as bv32) << 8) | (lo as bv32)
  }

  lemma NegativeShape(hi: bv8, mid: bv8, lo: bv8)
    requires hi >= 0x80
    ensures SampleBits(hi, mid, lo) == (0xff << 24) | LowBits(hi, mid, lo)
  {
  }

  lemma PositiveShape(hi: bv8, mid: bv8, lo: bv8)
    requires hi < 0x80
    ensures SampleBits(hi, mid, lo) == LowBits(hi, mid, lo)
  {
  }

  lemma LowValue(hi: bv8, mid: bv8, lo: bv8)
    ensures LowBits(hi, mid, lo) as int == lo as int + 0x100 * (mid as int) + 0x1_0000 * (hi as int)
  {
    AssembleBytes(lo, mid, hi);
    assert LowBits(hi, mid, lo) == ((hi as bv32) << 16) | ((mid as bv32) << 8) | (lo as bv32);
  }

  /** Shifting three bytes into place and or-ing them is the positional sum. */
  lemma AssembleBytes(lo: bv8, mid: bv8, hi: bv8)
    ensures (((hi as bv32) << 16) | ((mid as bv32) << 8) | (lo as bv32)) as int
            == lo as int + 0x100 * (mid as int) + 0x1_0000 * (hi as int)
  {
  }

  /** Filling the top eight bits of a 24-bit value adds 0xFF000000. */
  lemma SignFill(x: bv32)
    requires x as int < 0x100_0000
    ensures ((0xff as bv32 << 24) | x) as int == x as int + 0xFF00_0000
  {
  }

  lemma BvRange(b: bv8)
    ensures 0 <= b as int < 0x100
    ensures b >= 0x80 <==> b as int >= 0x80
  {
  }

  /** A byte read as eight bits has the same value. */
  lemma BitsOfByte(b: byte)
    ensures (b as bv8) as int == b as int
  {
    BitsOfSmall(b as int);
    SmallResidue(b as int);
  }

  lemma BitsOfSmall(n: int)
    requires 0 <= n < 0x100
    ensures (n as bv8) as int == n % 0x100
  {
  }

  lemma SmallResidue(n: int)
    requires 0 <= n < 0x100
    ensures n % 0x100 == n
  {
  }

  lemma Positional(m: int)
    requires 0 <= m < 0x100_0000
    ensures m % 0x100 + 0x100 * ((m / 0x100) % 0x100) + 0x1_0000 * (m / 0x1_0000) == m
    ensures m / 0x1_0000 < 0x100
  {
  }

  lemma FloorBounds(p: real, n: int)
    ensures 0.0 <= p <= n as real ==> 0 <= p.Floor <= n
  {
  }

  lemma ProductBounds(a: real, b: real)
    ensures 0.0 <= b <= 1.0 && a >= 0.0 ==> 0.0 <= a * b <= a
    ensures 0.0 <= b <= 1.0 && a < 0.0 ==> a <= a * b <= 0.0
  {
  }

  /** The first three bytes `BitConverter.GetBytes` yields for v: the low
      24 bits of its two's-complement form, least significant first. */
  function Le24Bytes(v: int): (bs: seq<byte>)
    ensures |bs| == 3
    ensures bs[0] as int + 0x100 * (bs[1] as int) + 0x1_0000 * (bs[2] as int) == v % 0x100_0000
  {
    var m := v % 0x100_0000;
    Positional(m);
    [(m % 0x100) as byte, ((m / 0x100) % 0x100) as byte, (m / 0x1_0000) as byte]
  }

  /** `(int)(value * volumeMultiplier)`: the product truncated toward zero. */
  function Scale(value: int, volume: real): (r: int)
    ensures volume == 1.0 ==> r == value
    ensures 0.0 <= volume <= 1.0 && value >= 0 ==> 0 <= r <= value
    ensures 0.0 <= volume <= 1.0 && value < 0 ==> value <= r <= 0
  {
    var p := value as real * volume;
    ProductBounds(value as real, volume);
    FloorBounds(p, value);
    FloorBounds(-p, -value);
    assert value < 0 && 0.0 <= volume <= 1.0 ==> -p <= -value as real;
    if p >= 0.0 then p.Floor else -((-p).Floor)
  }

  /** `writeSample`: for three bytes per sample, stores the low three bytes of
      the scaled value at pos, least significant first, and nothing else; for
      two bytes (only a local variable is cleared) and every other width it
      leaves target untouched. */
  method WriteSample(value: int, target: array<byte>, bytesPerSample: int, pos: int, volume: real)
    requires bytesPerSample == 3 ==> 0 <= pos && pos + 3 <= target.Length
    modifies target
    ensures bytesPerSample == 3 ==>
      target[..] == old(target[..pos]) + Le24Bytes(Scale(value, volume)) + old(target[pos + 3..])
    ensures bytesPerSample != 3 ==> target[..] == old(target[..])
  {
    var v := value;
    if bytesPerSample == 2 {
      v := 0;
    } else if bytesPerSample == 3 {
      v := Scale(v, volume);
      var valueAsBytes := Le24Bytes(v);
      target[pos] := valueAsBytes[0];
      target[pos + 1] := valueAsBytes[1];
      target[pos + 2] := valueAsBytes[2];
      assert target[..] == old(target[..pos]) + valueAsBytes + old(target[pos + 3..]);
    }
  }

  /** Decoding the bytes encoded for any 24-bit value gives that value back,
      the extremes -8388608 and 8388607 included. */
  lemma DecodeEncode(v: int)
    requires InSampleRange(v)
    ensures SampleValue(Le24Bytes(v), 0) == v
  {
    var bs := Le24Bytes(v);
    var m := v % 0x100_0000;
    assert bs[2] as int == m / 0x1_0000;
    if v < 0 {
      assert m == v + 0x100_0000;
      assert bs[2] >= 0x80;
    } else {
      assert m == v;
      assert bs[2] < 0x80;
    }
  }

  /** Re-encoding a decoded sample reproduces the three bytes it came from. */
  lemma EncodeDecode(data: seq<byte>, pos: int)
    requires 0 <= pos && pos + 3 <= |data|
    ensures Le24Bytes(SampleValue(data, pos)) == data[pos..pos + 3]
  {
    var r := SampleValue(data, pos);
    var a, b, c := data[pos] as int, data[pos + 1] as int, data[pos + 2] as int;
    var u := a + 0x100 * b + 0x1_0000 * c;
    var k := if c >= 0x80 then 1 else 0;
    assert r == u - k * 0x100_0000;
    Le24Shifted(a, b, c, k);
    assert data[pos..pos + 3] == [a as byte, b as byte, c as byte];
  }

  lemma Le24Shifted(a: int, b: int, c: int, k: int)
    requires 0 <= a < 0x100 && 0 <= b < 0x100 && 0 <= c < 0x100
    ensures Le24Bytes(a + 0x100 * b + 0x1_0000 * c - k * 0x100_0000) == [a as byte, b as byte, c as byte]
  {
    var u := a + 0x100 * b + 0x1_0000 * c;
    Digits(a, b, c);
    ModShift(u, k);
    Le24Residue(u - k * 0x100_0000);
    Le24Digits(a, b, c);
  }

  /** The encoding depends only on the value's residue modulo 2^24. */
  lemma Le24Residue(v: int)
    ensures Le24Bytes(v) == Le24Bytes(v % 0x100_0000)
  {
  }

  lemma Le24Digits(a: int, b: int, c: int)
    requires 0 <= a < 0x100 && 0 <= b < 0x100 && 0 <= c < 0x100
    ensures Le24Bytes(a + 0x100 * b + 0x1_0000 * c) == [a as byte, b as byte, c as byte]
  {
    Digits(a, b, c);
  }

  lemma ModShift(u: int, k: int)
    requires 0 <= u < 0x100_0000
    ensures (u - k * 0x100_0000) % 0x100_0000 == u
  {
  }

  lemma Digits(a: int, b: int, c: int)
    requires 0 <= a < 0x100 && 0 <= b < 0x100 && 0 <= c < 0x100
    ensures 0 <= a + 0x100 * b + 0x1_0000 * c < 0x100_0000
    ensures (a + 0x100 * b + 0x1_0000 * c) % 0x100 == a
    ensures ((a + 0x100 * b + 0x1_0000 * c) / 0x100) % 0x100 == b
    ensures (a + 0x100 * b + 0x1_0000 * c) / 0x1_0000 == c
  {
  }

  /** `writeSample(v, target, 3, pos, 1)` followed by `readSample(target, pos, 3)`
      returns v for every 24-bit v, and the bytes outside pos .. pos + 2 are
      those target held before. */
  method WriteThenRead(v: int, target: array<byte>, pos: int) returns (r: int)
    requires InSampleRange(v)
    requires 0 <= pos && pos + 3 <= target.Length
    modifies target
    ensures r == v
    ensures target[..pos] == old(target[..pos]) && target[pos + 3..] == old(target[pos + 3..])
  {
    WriteSample(v, target, 3, pos, 1.0);
    assert target[pos..pos + 3] == Le24Bytes(v);
    DecodeEncode(v);
    r := ReadSample(target[..], pos);
  }
}
