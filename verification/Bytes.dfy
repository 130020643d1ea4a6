/** Bytes, big-endian integers and the growable byte buffer that the muxer and the RTMP writer append to. */
module Bytes {

  type byte = x: int | 0 <= x < 0x100

  const TWO_TO_16: int := 0x1_0000
  const TWO_TO_31: int := 0x8000_0000
  const TWO_TO_32: int := 0x1_0000_0000

  /** Arithmetic on `u32`: what is left of `v` when it wraps around. */
  function Wrap32(v: int): (r: nat)
    ensures r < TWO_TO_32
    ensures 0 <= v < TWO_TO_32 ==> r == v
  {
    v % 0x1_0000_0000
  }

  datatype Option<+T> = None | Some(value: T)

  datatype Result<+T, +E> = Ok(value: T) | Err(error: E)

  /** The low `n` bytes of `v`, most significant first; a negative `v` is written in two's complement. */
  function Digits(v: int, n: nat): (r: seq<byte>)
    ensures |r| == n
    decreases n
  {
    if n == 0 then [] else Digits(v / 0x100, n - 1) + [v % 0x100]
  }

  /** The number a byte string spells, most significant byte first. */
  function Number(s: seq<byte>): nat {
    if s == [] then 0 else 0x100 * Number(s[..|s| - 1]) + s[|s| - 1]
  }

  function U16(v: int): (r: seq<byte>)
    ensures |r| == 2
  {
    Digits(v, 2)
  }

  function U24(v: int): (r: seq<byte>)
    ensures |r| == 3
  {
    Digits(v, 3)
  }

  function U32(v: int): (r: seq<byte>)
    ensures |r| == 4
  {
    Digits(v, 4)
  }

  function U64(v: int): (r: seq<byte>)
    ensures |r| == 8
  {
    Digits(v, 8)
  }

  lemma {:induction false} SliceOfSuffix<T>(s: seq<T>, i: nat, j: nat, k: nat)
    requires i + j <= i + k <= |s|
    ensures s[i..][j..k] == s[i + j..i + k]
    ensures s[i..][k..] == s[i + k..]
  {
  }

  /** Splitting off the low digit of `v` in base `b` leaves the digits above it. */
  lemma {:induction false} DigitSplit(v: int, b: int, m: int)
    requires b > 0 && m > 0
    ensures v % (b * m) == b * (v / b % m) + v % b
  {
    var q, r := v / b, v % b;
    var q', r' := q / m, q % m;
    assert v == b * m * q' + (b * r' + r) by {
      calc {
        v;
        b * q + r;
        b * (m * q' + r') + r;
        b * m * q' + (b * r' + r);
      }
    }
    DigitsInRange(b, m, r', r);
    Quotient(v, b * m, q', b * r' + r);
  }

  lemma {:induction false} DigitsInRange(b: int, m: int, high: int, low: int)
    requires 0 <= low < b && 0 <= high < m
    ensures 0 <= b * high + low < b * m
  {
    assert b * high <= b * (m - 1);
    assert b * (m - 1) == b * m - b;
  }

  lemma {:induction false} Quotient(v: int, n: int, q: int, r: int)
    requires n > 0 && 0 <= r < n && v == n * q + r
    ensures v / n == q && v % n == r
  {
    var q', r' := v / n, v % n;
    assert v == n * q' + r';
    SmallMultiple(n, q - q');
  }

  lemma {:induction false} SmallMultiple(n: int, d: int)
    requires n > 0
    ensures d == 0 || n * d >= n || n * d <= -n
  {
    if d >= 1 {
      assert n * d >= n * 1;
    } else if d <= -1 {
      assert n * d <= n * -1;
    }
  }

  function Pow256(n: nat): (r: nat)
    ensures r > 0
  {
    if n == 0 then 1 else 0x100 * Pow256(n - 1)
  }

  lemma {:induction false} Pow256Values()
    ensures Pow256(2) == 0x1_0000 && Pow256(3) == 0x100_0000 && Pow256(4) == TWO_TO_32
  {
    assert Pow256(1) == 0x100;
  }

  /** Reading back `n` bytes yields the number that was written, reduced to `n` bytes. */
  lemma {:induction false} NumberOfDigits(v: int, n: nat)
    ensures Number(Digits(v, n)) == v % Pow256(n)
    decreases n
  {
    if n > 0 {
      NumberOfDigits(v / 0x100, n - 1);
      assert Digits(v, n)[..n - 1] == Digits(v / 0x100, n - 1);
      DigitSplit(v, 0x100, Pow256(n - 1));
    }
  }

  /** No other byte string of that length spells the same number. */
  lemma {:induction false} DigitsOfNumber(s: seq<byte>)
    ensures Digits(Number(s), |s|) == s
    ensures Number(s) < Pow256(|s|)
  {
    if s != [] {
      DigitsOfNumber(s[..|s| - 1]);
      assert s == s[..|s| - 1] + [s[|s| - 1]];
    }
  }

  lemma {:induction false} U16Value(v: int)
    ensures Number(U16(v)) == v % 0x1_0000
  {
    NumberOfDigits(v, 2);
    Pow256Values();
  }

  lemma {:induction false} U24Value(v: int)
    ensures Number(U24(v)) == v % 0x100_0000
  {
    NumberOfDigits(v, 3);
    Pow256Values();
  }

  lemma {:induction false} U32Value(v: int)
    ensures Number(U32(v)) == Wrap32(v)
  {
    NumberOfDigits(v, 4);
    Pow256Values();
  }

  /** The value of a 32-bit two's complement word. */
  function AsI32(v: nat): (r: int)
    requires v < TWO_TO_32
    ensures -TWO_TO_31 <= r < TWO_TO_31
  {
    if v < TWO_TO_31 then v else v - TWO_TO_32
  }

  /** `BytesMut`: a buffer that is only ever appended to. */
  class BytesMut {
    var data: seq<byte>

    constructor ()
      ensures data == []
    {
      data := [];
    }

    method PutU8(v: byte)
      modifies this
      ensures data == old(data) + [v]
      ensures old(data) == [] ==> data == [v]
    {
      data := data + [v];
    }

    method PutU16(v: int)
      modifies this
      ensures data == old(data) + U16(v)
      ensures old(data) == [] ==> data == U16(v)
    {
      data := data + U16(v);
    }

    method PutU32(v: int)
      modifies this
      ensures data == old(data) + U32(v)
      ensures old(data) == [] ==> data == U32(v)
    {
      data := data + U32(v);
    }

    method PutSlice(s: seq<byte>)
      modifies this
      ensures data == old(data) + s
      ensures old(data) == [] ==> data == s
    {
      data := data + s;
    }
  }
}
