/** Byte-level helpers shared by the codecs: the integer widths of the C# source,
    its unchecked narrowing casts, and little-endian `BitConverter` layouts. */
module Wire {

  datatype Option<+T> = None | Some(value: T)

  type byte = b: int | 0 <= b < 0x100
  type u16 = x: int | 0 <= x < 0x1_0000
  type i16 = x: int | -0x8000 <= x < 0x8000
  type i32 = x: int | -0x8000_0000 <= x < 0x8000_0000

  /** C#'s unchecked `(short)` cast: keep the low 16 bits, read them as two's complement. */
  function ToInt16(x: int): (r: i16)
    ensures (x - r) % 0x1_0000 == 0
    ensures -0x8000 <= x < 0x8000 ==> r == x
  {
    var u := x % 0x1_0000;
    if u < 0x8000 then u else u - 0x1_0000
  }

  /** C#'s unchecked `int` arithmetic: keep the low 32 bits, read them as two's complement,
      that is, shift by multiples of 2^32 into the int32 range. */
  function ToInt32(x: int): (r: i32)
    decreases if x < 0 then -x else x + 1
  {
    if -0x8000_0000 <= x < 0x8000_0000 then x
    else if x < 0 then ToInt32(x + 0x1_0000_0000)
    else ToInt32(x - 0x1_0000_0000)
  }

  /** Shifting by 2^32 does not change the wrapped value. */
  lemma ToInt32Shift(x: int)
    ensures ToInt32(x + 0x1_0000_0000) == ToInt32(x)
  {
  }

  /** Shifting by any multiple of 2^32 does not change the wrapped value. */
  lemma {:induction false} ToInt32ShiftBy(x: int, k: int)
    ensures ToInt32(x + k * 0x1_0000_0000) == ToInt32(x)
    decreases if k < 0 then -k else k
  {
    if k > 0 {
      ToInt32ShiftBy(x, k - 1);
      ToInt32Shift(x + (k - 1) * 0x1_0000_0000);
    } else if k < 0 {
      ToInt32ShiftBy(x, k + 1);
      ToInt32Shift(x + k * 0x1_0000_0000);
    }
  }

  /** The wrapped value differs from the exact one by a multiple of 2^32. */
  lemma {:induction false} ToInt32Congruent(x: int)
    ensures (x - ToInt32(x)) % 0x1_0000_0000 == 0
    decreases if x < 0 then -x else x + 1
  {
    if !(-0x8000_0000 <= x < 0x8000_0000) {
      var y := if x < 0 then x + 0x1_0000_0000 else x - 0x1_0000_0000;
      ToInt32Congruent(y);
    }
  }

  /** Wrapping twice is wrapping once: adding to an already wrapped value gives the
      same result as adding to the unwrapped one. */
  lemma ToInt32Absorbs(a: int, b: int)
    ensures ToInt32(ToInt32(a) + b) == ToInt32(a + b)
  {
    ToInt32Congruent(a);
    var k := (ToInt32(a) - a) / 0x1_0000_0000;
    assert ToInt32(a) - a == k * 0x1_0000_0000;
    ToInt32ShiftBy(a + b, k);
  }

  /** `a` keeps some of the elements of `b`, in the same order. */
  predicate IsSubsequence<T(==)>(a: seq<T>, b: seq<T>)
    decreases |b|
  {
    a == [] || (b != [] && ((a[0] == b[0] && IsSubsequence(a[1..], b[1..])) || IsSubsequence(a, b[1..])))
  }

  /** `BitConverter.ToUInt16(s, i)` */
  function ReadU16(s: seq<byte>, i: int): u16
    requires 0 <= i && i + 2 <= |s|
  {
    s[i] as int + 0x100 * s[i + 1] as int
  }

  /** `BitConverter.ToInt16(s, i)` */
  function ReadI16(s: seq<byte>, i: int): i16
    requires 0 <= i && i + 2 <= |s|
  {
    var u := ReadU16(s, i);
    if u < 0x8000 then u else u - 0x1_0000
  }

  /** `BitConverter.ToInt32(s, i)`, also what `BinaryReader.ReadInt32` returns. */
  function ReadI32(s: seq<byte>, i: int): i32
    requires 0 <= i && i + 4 <= |s|
  {
    var u := s[i] as int + 0x100 * s[i + 1] as int + 0x1_0000 * s[i + 2] as int + 0x100_0000 * s[i + 3] as int;
    if u < 0x8000_0000 then u else u - 0x1_0000_0000
  }

  /** `BitConverter.GetBytes` of an unsigned 16-bit value. */
  function U16Bytes(x: u16): (r: seq<byte>)
    ensures |r| == 2 && ReadU16(r, 0) == x
  {
    [x % 0x100, x / 0x100]
  }

  /** `BitConverter.GetBytes` of a `short`. */
  function I16Bytes(x: i16): (r: seq<byte>)
    ensures |r| == 2 && ReadI16(r, 0) == x
  {
    U16Bytes(x % 0x1_0000)
  }

  /** `BitConverter.GetBytes` of an `int`, also what `BinaryWriter.Write(int)` emits. */
  function I32Bytes(x: i32): (r: seq<byte>)
    ensures |r| == 4 && ReadI32(r, 0) == x
  {
    var u := x % 0x1_0000_0000;
    var b0, q0 := u % 0x100, u / 0x100;
    var b1, q1 := q0 % 0x100, q0 / 0x100;
    var b2, b3 := q1 % 0x100, q1 / 0x100;
    assert u == b0 + 0x100 * (b1 + 0x100 * (b2 + 0x100 * b3));
    [b0, b1, b2, b3]
  }

  /** Reading is local: bytes around the read window do not matter. */
  lemma ReadI32Slice(s: seq<byte>, i: int, prefix: seq<byte>, suffix: seq<byte>)
    requires 0 <= i && i + 4 <= |s|
    ensures ReadI32(prefix + s + suffix, |prefix| + i) == ReadI32(s, i)
  {
    var t := prefix + s + suffix;
    assert t[|prefix| + i .. |prefix| + i + 4] == s[i .. i + 4];
  }

  /** Four bytes equal to the encoding of `x` read back as `x`. */
  lemma ReadAt(d: seq<byte>, pos: nat, x: i32)
    requires pos + 4 <= |d| && d[pos .. pos + 4] == I32Bytes(x)
    ensures ReadI32(d, pos) == x
  {
    ReadI32Slice(I32Bytes(x), 0, d[..pos], d[pos + 4..]);
    assert d[..pos] + I32Bytes(x) + d[pos + 4..] == d;
  }
}
