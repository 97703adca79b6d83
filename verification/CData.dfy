/** C data as bytes: the object representations that `memcpy` moves between a
    variable and a buffer (little-endian, two's complement, LP64), and the
    NUL-terminated strings that `strlen` measures. */
module CData {
  datatype Option<+T> = None | Some(value: T)

  type byte = b: int | 0 <= b < 256
  type bytes = seq<byte>

  const INT_MAX := 0x7fff_ffff
  const TWO31 := 0x8000_0000
  const TWO32 := 0x1_0000_0000
  const TWO63 := 0x8000_0000_0000_0000
  const TWO64 := 0x1_0000_0000_0000_0000

  /** The low `width` bytes of `n`, least significant first. */
  function Little(n: nat, width: nat): (b: bytes)
    ensures |b| == width
  {
    if width == 0 then [] else [n % 256] + Little(n / 256, width - 1)
  }

  function FromLittle(b: bytes): nat {
    if |b| == 0 then 0 else b[0] + 256 * FromLittle(b[1..])
  }

  function Pow256(width: nat): (p: nat)
    ensures p >= 1
  {
    if width == 0 then 1 else 256 * Pow256(width - 1)
  }

  lemma {:induction false} LittleRoundTrip(n: nat, width: nat)
    requires n < Pow256(width)
    ensures FromLittle(Little(n, width)) == n
  {
    if width == 0 {
    } else {
      LittleRoundTrip(n / 256, width - 1);
      assert Little(n, width)[1..] == Little(n / 256, width - 1);
    }
  }

  lemma DivMod(low: byte, high: nat)
    ensures (low + 256 * high) % 256 == low && (low + 256 * high) / 256 == high
  {
  }

  /** Every byte string of a given width is the representation of exactly one number. */
  lemma {:induction false} FromLittleRoundTrip(b: bytes)
    ensures FromLittle(b) < Pow256(|b|)
    ensures Little(FromLittle(b), |b|) == b
  {
    if |b| == 0 {
    } else {
      FromLittleRoundTrip(b[1..]);
      DivMod(b[0], FromLittle(b[1..]));
      assert b == [b[0]] + b[1..];
    }
  }

  /** Least significant byte first, and negative numbers in two's complement. */
  lemma LittleEndian(b: bytes)
    requires |b| == 4
    ensures FromLittle(b) == b[0] as int + 0x100 * b[1] as int + 0x1_0000 * b[2] as int + 0x100_0000 * b[3] as int
    ensures ToI32(b) == FromLittle(b) - if b[3] >= 0x80 then 0x1_0000_0000 else 0
  {
    OneMoreByte(b[0], b[1..], []);
    OneMoreByte(b[1], b[2..], []);
    OneMoreByte(b[2], b[3..], []);
    OneMoreByte(b[3], [], []);
    assert b == [b[0]] + b[1..] && b[1..] == [b[1]] + b[2..];
    assert b[2..] == [b[2]] + b[3..] && b[3..] == [b[3]] + [];
  }

  lemma LittleEndian8(b: bytes)
    requires |b| == 8
    ensures FromLittle(b) == FromLittle(b[..4]) + 0x1_0000_0000 * FromLittle(b[4..])
    ensures ToI64(b) == FromLittle(b) - if b[7] >= 0x80 then 0x1_0000_0000_0000_0000 else 0
  {
    FourMore(b[..4], b[4..]);
    assert b == b[..4] + b[4..];
    LittleEndian(b[..4]);
    LittleEndian(b[4..]);
  }

  lemma FourMore(low: bytes, high: bytes)
    requires |low| == 4
    ensures FromLittle(low + high) == FromLittle(low) + 0x1_0000_0000 * FromLittle(high)
  {
    OneMoreByte(low[0], low[1..], high);
    OneMoreByte(low[1], low[2..], high);
    OneMoreByte(low[2], low[3..], high);
    OneMoreByte(low[3], [], high);
    assert low == [low[0]] + low[1..] && low[1..] == [low[1]] + low[2..];
    assert low[2..] == [low[2]] + low[3..] && low[3..] == [low[3]] + [];
    assert [] + high == high;
  }

  lemma OneMoreByte(b: byte, low: bytes, high: bytes)
    ensures FromLittle([b] + low + high) == b as int + 0x100 * FromLittle(low + high)
    ensures FromLittle([b] + low) == b as int + 0x100 * FromLittle(low)
  {
    assert ([b] + low + high)[1..] == low + high;
    assert ([b] + low)[1..] == low;
  }

  lemma Widths()
    ensures Pow256(4) == TWO32 && Pow256(8) == TWO64
  {
    assert Pow256(2) == 0x1_0000;
    assert Pow256(4) == TWO32;
    assert Pow256(6) == 0x1_0000_0000_0000;
  }

  predicate IsInt32(v: int) { -TWO31 <= v < TWO31 }
  predicate IsInt64(v: int) { -TWO63 <= v < TWO63 }
  predicate IsUInt32(v: int) { 0 <= v < TWO32 }
  predicate IsSize(v: int) { 0 <= v < TWO64 }

  /** Representations of `int`, `off_t`/`ssize_t`, `mode_t` and `size_t`. */
  function I32(v: int): (b: bytes)
    requires IsInt32(v)
    ensures |b| == 4
  {
    Little(if v < 0 then v + TWO32 else v, 4)
  }

  function I64(v: int): (b: bytes)
    requires IsInt64(v)
    ensures |b| == 8
  {
    Little(if v < 0 then v + TWO64 else v, 8)
  }

  function U32(v: nat): (b: bytes)
    ensures |b| == 4
  {
    Little(v, 4)
  }

  function U64(v: nat): (b: bytes)
    ensures |b| == 8
  {
    Little(v, 8)
  }

  function ToI32(b: bytes): (v: int)
    requires |b| == 4
    ensures IsInt32(v)
  {
    FromLittleRoundTrip(b);
    Widths();
    var n := FromLittle(b);
    if n >= TWO31 then n - TWO32 else n
  }

  function ToI64(b: bytes): (v: int)
    requires |b| == 8
    ensures IsInt64(v)
  {
    FromLittleRoundTrip(b);
    Widths();
    var n := FromLittle(b);
    if n >= TWO63 then n - TWO64 else n
  }

  lemma I32RoundTrip(v: int)
    requires IsInt32(v)
    ensures ToI32(I32(v)) == v
  {
    Widths();
    LittleRoundTrip(if v < 0 then v + TWO32 else v, 4);
  }

  lemma I64RoundTrip(v: int)
    requires IsInt64(v)
    ensures ToI64(I64(v)) == v
  {
    Widths();
    LittleRoundTrip(if v < 0 then v + TWO64 else v, 8);
  }

  lemma U32RoundTrip(v: nat)
    requires IsUInt32(v)
    ensures FromLittle(U32(v)) == v
  {
    Widths();
    LittleRoundTrip(v, 4);
  }

  lemma U64RoundTrip(v: nat)
    requires IsSize(v)
    ensures FromLittle(U64(v)) == v
  {
    Widths();
    LittleRoundTrip(v, 8);
  }

  /** `size_t` arithmetic is modulo 2^64. */
  function SizeAdd(a: nat, b: nat): (r: nat)
    ensures IsSize(r)
  {
    (a + b) % TWO64
  }

  function SizeSub(a: nat, b: nat): (r: nat)
    requires b < TWO64
    ensures IsSize(r)
  {
    (a + TWO64 - b) % TWO64
  }

  predicate NulFree(s: bytes) {
    forall i :: 0 <= i < |s| ==> s[i] != 0
  }

  /** Where a scan for NUL from `from` stops: the first zero byte, or the end of
      the memory when there is none. */
  function FirstNul(b: bytes, from: nat): (r: nat)
    requires from <= |b|
    ensures from <= r <= |b|
    ensures r < |b| ==> b[r] == 0
    ensures forall i :: from <= i < r ==> b[i] != 0
    decreases |b| - from
  {
    if from == |b| || b[from] == 0 then from else FirstNul(b, from + 1)
  }

  /** A string laid out after `before` is found whole, whatever follows it. */
  lemma FirstNulFinds(before: bytes, s: bytes, after: bytes)
    requires NulFree(s)
    ensures FirstNul(before + s + [0] + after, |before|) == |before| + |s|
  {
    var b := before + s + [0] + after;
    assert b[|before| + |s|] == 0;
    assert forall i :: 0 <= i < |s| ==> b[|before| + i] == s[i];
    assert forall i :: |before| <= i < |before| + |s| ==> b[i] == s[i - |before|] != 0;
  }

  function Zeros(n: nat): (z: bytes)
    ensures |z| == n
  {
    seq(n, i => 0)
  }

  function Min(a: int, b: int): int { if a <= b then a else b }
  function Max(a: int, b: int): int { if a <= b then b else a }
}
