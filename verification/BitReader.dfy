/** The H.264 bit reader: single bits, fixed-width fields and the Exp-Golomb codes of
    section 9.1 of ITU-T H.264. */
module BitReader {
  import opened Bytes

  type bit = x: int | 0 <= x < 2

  function Pow2(n: nat): (r: nat)
    ensures r > 0
  {
    if n == 0 then 1 else 2 * Pow2(n - 1)
  }

  /** `(b >> (7 - k)) & 1` */
  function BitAt(b: byte, k: nat): bit
    requires k < 8
  {
    match k
    case 0 => b / 0x80
    case 1 => b / 0x40 % 2
    case 2 => b / 0x20 % 2
    case 3 => b / 0x10 % 2
    case 4 => b / 8 % 2
    case 5 => b / 4 % 2
    case 6 => b / 2 % 2
    case _ => b % 2
  }

  /** The bits of a byte, most significant first, from bit `k` on. */
  function ByteBits(b: byte, k: nat): (r: seq<bit>)
    requires k <= 8
    ensures |r| == 8 - k
    decreases 8 - k
  {
    if k == 8 then [] else [BitAt(b, k)] + ByteBits(b, k + 1)
  }

  function Bits(data: seq<byte>): (r: seq<bit>)
    ensures |r| == 8 * |data|
  {
    if data == [] then [] else ByteBits(data[0], 0) + Bits(data[1..])
  }

  /** `rest` is what remains of `data` from bit `bitPos` of byte `bytePos` on. */
  ghost predicate Unread(data: seq<byte>, bytePos: nat, bitPos: nat, rest: seq<bit>)
    decreases |rest|
  {
    if rest == [] then bytePos == |data| && bitPos == 0
    else
      && bytePos < |data|
      && bitPos < 8
      && rest[0] == BitAt(data[bytePos], bitPos)
      && if bitPos == 7 then Unread(data, bytePos + 1, 0, rest[1..])
         else Unread(data, bytePos, bitPos + 1, rest[1..])
  }

  lemma {:induction false} UnreadFrom(data: seq<byte>, bytePos: nat)
    requires bytePos <= |data|
    ensures Unread(data, bytePos, 0, Bits(data[bytePos..]))
    decreases |data| - bytePos
  {
    if bytePos < |data| {
      UnreadFrom(data, bytePos + 1);
      assert data[bytePos..][1..] == data[bytePos + 1..];
      UnreadByte(data, bytePos, 0, Bits(data[bytePos + 1..]));
    }
  }

  lemma {:induction false} UnreadByte(data: seq<byte>, bytePos: nat, k: nat, rest: seq<bit>)
    requires bytePos < |data| && k < 8
    requires Unread(data, bytePos + 1, 0, rest)
    ensures Unread(data, bytePos, k, ByteBits(data[bytePos], k) + rest)
    decreases 8 - k
  {
    var s := ByteBits(data[bytePos], k) + rest;
    assert s[1..] == ByteBits(data[bytePos], k + 1) + rest;
    if k < 7 {
      UnreadByte(data, bytePos, k + 1, rest);
    } else {
      assert s[1..] == rest;
    }
  }

  /** What one read yields: its value, if there was one, and the bits left unread. */
  datatype Read<+T> = Read(value: Option<T>, rest: seq<bit>)

  function ReadBitOf(s: seq<bit>): Read<bit> {
    if s == [] then Read(None, []) else Read(Some(s[0]), s[1..])
  }

  /** Reads `n` bits onto the end of the 32-bit word `acc`. */
  function ReadBitsOf(s: seq<bit>, n: nat, acc: nat): Read<nat> {
    if n == 0 then Read(Some(acc), s)
    else if s == [] then Read(None, [])
    else ReadBitsOf(s[1..], n - 1, Wrap32(2 * acc + s[0]))
  }

  /** Reads an unsigned code of which `zeros` leading zero bits are already consumed. */
  function ReadUeOf(s: seq<bit>, zeros: nat): (r: Read<nat>)
    requires zeros <= 31
    ensures r.value.Some? ==> r.value.value < TWO_TO_32
  {
    if s == [] then Read(None, [])
    else if s[0] == 0 then
      if zeros + 1 > 31 then Read(None, s[1..]) else ReadUeOf(s[1..], zeros + 1)
    else if zeros == 0 then Read(Some(0), s[1..])
    else
      var suffix := ReadBitsOf(s[1..], zeros, 0);
      if suffix.value.None? then suffix
      else Read(Some(Wrap32(Pow2(zeros) - 1 + suffix.value.value)), suffix.rest)
  }

  /** The signed value of a code number, in the reader's 32-bit arithmetic. */
  function SignedOf(code: nat): int
    requires code < TWO_TO_32
  {
    if code % 2 == 1 then AsI32(Wrap32(code + 1) / 2) else -AsI32(code / 2)
  }

  function ReadSeOf(s: seq<bit>): Read<int> {
    var code := ReadUeOf(s, 0);
    if code.value.None? then Read(None, code.rest)
    else Read(Some(SignedOf(code.value.value)), code.rest)
  }

  class BitReader {
    const data: seq<byte>
    var bytePos: nat
    /** Bit position within the current byte: 0 is the most significant bit. */
    var bitPos: nat

    /** The bits not read yet. */
    ghost var rest: seq<bit>

    ghost predicate Valid()
      reads this
    {
      Unread(data, bytePos, bitPos, rest)
    }

    constructor (data: seq<byte>)
      ensures Valid() && rest == Bits(data)
    {
      this.data := data;
      bytePos := 0;
      bitPos := 0;
      rest := Bits(data);
      new;
      UnreadFrom(data, 0);
      assert data[0..] == data;
    }

    method ReadBit() returns (r: Option<bit>)
      requires Valid()
      modifies this
      ensures Valid() && Read(r, rest) == ReadBitOf(old(rest))
    {
      if bytePos >= |data| {
        return None;
      }
      var bit := BitAt(data[bytePos], bitPos);
      bitPos := bitPos + 1;
      if bitPos == 8 {
        bitPos := 0;
        bytePos := bytePos + 1;
      }
      rest := rest[1..];
      return Some(bit);
    }

    method ReadBits(n: nat) returns (r: Option<nat>)
      requires Valid()
      modifies this
      ensures Valid() && Read(r, rest) == ReadBitsOf(old(rest), n, 0)
    {
      var val := 0;
      ghost var all := rest;
      for i := 0 to n
        invariant Valid() && val >= 0
        invariant ReadBitsOf(rest, n - i, val) == ReadBitsOf(all, n, 0)
      {
        var bit := ReadBit();
        if bit.None? {
          return None;
        }
        val := Wrap32(2 * val + bit.value);
      }
      return Some(val);
    }

    method ReadUe() returns (r: Option<nat>)
      requires Valid()
      modifies this
      ensures Valid() && Read(r, rest) == ReadUeOf(old(rest), 0)
    {
      var leadingZeros := 0;
      while true
        invariant Valid() && leadingZeros <= 31
        invariant ReadUeOf(rest, leadingZeros) == ReadUeOf(old(rest), 0)
        decreases |rest|
      {
        var bit := ReadBit();
        if bit.None? {
          return None;
        }
        if bit.value != 0 {
          break;
        }
        leadingZeros := leadingZeros + 1;
        if leadingZeros > 31 {
          return None;
        }
      }
      if leadingZeros == 0 {
        return Some(0);
      }
      var suffix := ReadBits(leadingZeros);
      if suffix.None? {
        return None;
      }
      return Some(Wrap32(Pow2(leadingZeros) - 1 + suffix.value));
    }

    method ReadSe() returns (r: Option<int>)
      requires Valid()
      modifies this
      ensures Valid() && Read(r, rest) == ReadSeOf(old(rest))
    {
      var code := ReadUe();
      if code.None? {
        return None;
      }
      return Some(SignedOf(code.value));
    }
  }

  // ----- The codes of section 9.1 of ITU-T H.264 -----

  /** The number a bit string spells in binary. */
  function Value(s: seq<bit>): (v: nat)
    ensures v < Pow2(|s|)
  {
    if s == [] then 0 else 2 * Value(s[..|s| - 1]) + s[|s| - 1]
  }

  /** The low `n` bits of `v`, most significant bit first. */
  function BitsOf(v: nat, n: nat): (r: seq<bit>)
    ensures |r| == n
  {
    if n == 0 then [] else BitsOf(v / 2, n - 1) + [v % 2]
  }

  /** The largest `k` with `Pow2(k) <= n`. */
  function Log2(n: nat): (k: nat)
    requires n > 0
    ensures Pow2(k) <= n < Pow2(k + 1)
  {
    if n == 1 then 0 else 1 + Log2(n / 2)
  }

  function Zeros(n: nat): (r: seq<bit>)
    ensures |r| == n
  {
    if n == 0 then [] else [0] + Zeros(n - 1)
  }

  /** ue(v): as many zeros as there are bits after the leading one of `v + 1`, then `v + 1` itself. */
  function Ue(v: nat): (r: seq<bit>)
    ensures |r| == 2 * Log2(v + 1) + 1
  {
    var k := Log2(v + 1);
    Zeros(k) + BitsOf(v + 1, k + 1)
  }

  /** The code number of a signed value, section 9.1.1. */
  function SeCode(v: int): nat {
    if v > 0 then 2 * v - 1 else -2 * v
  }

  function Se(v: int): seq<bit> {
    Ue(SeCode(v))
  }

  // ----- Numbers and bit strings -----

  lemma {:induction false} Pow2Monotone(m: nat, n: nat)
    requires m <= n
    ensures Pow2(m) <= Pow2(n)
    decreases n
  {
    if m < n {
      Pow2Monotone(m, n - 1);
    }
  }

  lemma {:induction false} Pow2Word()
    ensures Pow2(31) == TWO_TO_31 && Pow2(32) == TWO_TO_32
  {
    assert Pow2(8) == 0x100;
    assert Pow2(16) == 0x1_0000;
    assert Pow2(24) == 0x100_0000;
  }

  lemma {:induction false} Log2Unique(n: nat, k: nat)
    requires Pow2(k) <= n < Pow2(k + 1)
    ensures Log2(n) == k
  {
    if Log2(n) < k {
      Pow2Monotone(Log2(n) + 1, k);
    } else if Log2(n) > k {
      Pow2Monotone(k + 1, Log2(n));
    }
  }

  lemma {:induction false} ValueOfBits(v: nat, n: nat)
    requires v < Pow2(n)
    ensures Value(BitsOf(v, n)) == v
  {
    if n > 0 {
      ValueOfBits(v / 2, n - 1);
      assert BitsOf(v, n)[..n - 1] == BitsOf(v / 2, n - 1);
    }
  }

  lemma {:induction false} BitsOfValue(s: seq<bit>)
    ensures BitsOf(Value(s), |s|) == s
  {
    if s != [] {
      BitsOfValue(s[..|s| - 1]);
      assert s == s[..|s| - 1] + [s[|s| - 1]];
    }
  }

  lemma {:induction false} ValuePrefix(s: seq<bit>, i: nat)
    requires i <= |s|
    ensures Value(s[..i]) <= Value(s)
  {
    if i < |s| {
      ValuePrefix(s[..|s| - 1], i);
      assert s[..|s| - 1][..i] == s[..i];
    } else {
      assert s[..i] == s;
    }
  }

  /** The leading bit weighs as much as all the bits below it can spell, plus one. */
  lemma {:induction false} ValueLeading(b: bit, s: seq<bit>)
    ensures Value([b] + s) == (if b == 1 then Pow2(|s|) else 0) + Value(s)
  {
    var w := [b] + s;
    if s == [] {
      assert w[..0] == [];
    } else {
      ValueLeading(b, s[..|s| - 1]);
      assert w[..|w| - 1] == [b] + s[..|s| - 1];
    }
  }

  // ----- Reading inverts writing, and accepts nothing else -----

  /** The loop of a fixed-width read, after `i` of its `|s|` bits. */
  lemma {:induction false} ReadBitsFrom(s: seq<bit>, i: nat, t: seq<bit>)
    requires i <= |s| && Value(s) < TWO_TO_32
    ensures ReadBitsOf(s[i..] + t, |s| - i, Value(s[..i])) == Read(Some(Value(s)), t)
    decreases |s| - i
  {
    if i == |s| {
      assert s[i..] + t == t && s[..i] == s;
    } else {
      assert (s[i..] + t)[1..] == s[i + 1..] + t;
      assert s[..i + 1][..i] == s[..i];
      ValuePrefix(s, i + 1);
      ReadBitsFrom(s, i + 1, t);
    }
  }

  /** A fixed-width read takes exactly the bits it asks for, and yields the number they spell. */
  lemma {:induction false} ReadBitsTakes(s: seq<bit>, t: seq<bit>)
    requires |s| <= 32
    ensures ReadBitsOf(s + t, |s|, 0) == Read(Some(Value(s)), t)
  {
    Pow2Word();
    Pow2Monotone(|s|, 32);
    ReadBitsFrom(s, 0, t);
    assert s[0..] == s && s[..0] == [];
  }

  lemma {:induction false} ReadBitsShort(s: seq<bit>, n: nat, acc: nat)
    requires |s| < n
    ensures ReadBitsOf(s, n, acc).value == None
  {
    if s != [] {
      ReadBitsShort(s[1..], n - 1, Wrap32(2 * acc + s[0]));
    }
  }

  /** Leading zeros are counted one by one, up to the guard. */
  lemma {:induction false} ReadUeSkipsZeros(k: nat, zeros: nat, t: seq<bit>)
    requires zeros <= 31
    ensures if zeros + k <= 31 then ReadUeOf(Zeros(k) + t, zeros) == ReadUeOf(t, zeros + k)
            else ReadUeOf(Zeros(k) + t, zeros).value == None
    decreases k
  {
    if k == 0 {
      assert Zeros(0) + t == t;
    } else {
      assert (Zeros(k) + t)[1..] == Zeros(k - 1) + t;
      if zeros + 1 <= 31 {
        ReadUeSkipsZeros(k - 1, zeros + 1, t);
      }
    }
  }

  /** After `|s|` zeros and a one, the bits `s` complete the code of `Value([1] + s) - 1`. */
  lemma {:induction false} ReadUeEnds(s: seq<bit>, t: seq<bit>)
    requires |s| <= 31
    ensures Value([1] + s) <= TWO_TO_32 - 1
    ensures ReadUeOf([1] + s + t, |s|) == Read(Some(Value([1] + s) - 1), t)
  {
    Pow2Word();
    Pow2Monotone(|s| + 1, 32);
    ValueLeading(1, s);
    ReadBitsTakes(s, t);
    assert ([1] + s + t)[1..] == s + t;
    if s == [] {
      assert s + t == t;
    }
  }

  /** Exactly the values below 2^32 - 1 are decoded from their code, each consuming exactly its own bits. */
  lemma {:induction false} UeRoundTrip(v: nat, t: seq<bit>)
    ensures v < TWO_TO_32 - 1 <==> ReadUeOf(Ue(v) + t, 0) == Read(Some(v), t)
    ensures v >= TWO_TO_32 - 1 ==> ReadUeOf(Ue(v) + t, 0).value == None
  {
    Pow2Word();
    var k := Log2(v + 1);
    var code := BitsOf(v + 1, k + 1);
    assert Ue(v) + t == Zeros(k) + (code + t);
    ReadUeSkipsZeros(k, 0, code + t);
    if k <= 31 {
      Pow2Monotone(k + 1, 32);
      CodeRead(v, k, code, t);
    } else {
      Pow2Monotone(32, k);
    }
  }

  lemma {:induction false} CodeRead(v: nat, k: nat, code: seq<bit>, t: seq<bit>)
    requires k <= 31 && Pow2(k) <= v + 1 < Pow2(k + 1) && code == BitsOf(v + 1, k + 1)
    ensures v < TWO_TO_32 - 1 && ReadUeOf(code + t, k) == Read(Some(v), t)
  {
    var s := code[1..];
    ValueOfBits(v + 1, k + 1);
    assert code == [code[0]] + s;
    ValueLeading(code[0], s);
    assert code[0] == 1;
    ReadUeEnds(s, t);
  }

  /** A value is only ever read off its own code: no other bit string is accepted for it. */
  lemma {:induction false} ReadUeSound(s: seq<bit>, zeros: nat)
    requires zeros <= 31 && ReadUeOf(s, zeros).value.Some?
    ensures ReadUeOf(s, zeros).value.value < TWO_TO_32 - 1
    ensures Zeros(zeros) + s == Ue(ReadUeOf(s, zeros).value.value) + ReadUeOf(s, zeros).rest
    decreases |s|
  {
    if s[0] == 0 {
      ReadUeSound(s[1..], zeros + 1);
      ZerosShift(zeros, s[1..]);
      assert s == [0] + s[1..];
    } else {
      if |s| - 1 < zeros {
        ReadBitsShort(s[1..], zeros, 0);
        assert false;
      }
      var suffix, rest := s[1..zeros + 1], s[zeros + 1..];
      assert s == [1] + suffix + rest;
      ReadUeSoundEnd(suffix, rest);
    }
  }

  lemma {:induction false} ReadUeSoundEnd(s: seq<bit>, t: seq<bit>)
    requires |s| <= 31
    ensures var v := Value([1] + s) - 1;
      && 0 <= v < TWO_TO_32 - 1
      && ReadUeOf([1] + s + t, |s|) == Read(Some(v), t)
      && Zeros(|s|) + ([1] + s + t) == Ue(v) + t
  {
    ReadUeEnds(s, t);
    ValueLeading(1, s);
    var code := [1] + s;
    UeIs(code, |s|, Value(code) - 1);
    Regrouped(Zeros(|s|), code, t);
  }

  lemma {:induction false} Regrouped(a: seq<bit>, b: seq<bit>, c: seq<bit>)
    ensures a + (b + c) == a + b + c
  {
  }

  lemma {:induction false} UeIs(code: seq<bit>, k: nat, v: nat)
    requires |code| == k + 1 && v + 1 == Value(code) && Pow2(k) <= v + 1
    ensures Ue(v) == Zeros(k) + code
  {
    Log2Unique(v + 1, k);
    BitsOfValue(code);
  }

  lemma {:induction false} ZerosShift(n: nat, t: seq<bit>)
    ensures Zeros(n) + ([0] + t) == Zeros(n + 1) + t
  {
    if n == 0 {
      assert Zeros(1) == [0];
    } else {
      ZerosShift(n - 1, t);
      assert Zeros(n) + ([0] + t) == [0] + (Zeros(n - 1) + ([0] + t));
      assert Zeros(n + 1) + t == [0] + (Zeros(n) + t);
    }
  }

  /** Section 9.1.1's mapping is inverted on exactly the values whose code number is below 2^32 - 1;
      on those neither conversion leaves the 32-bit range. */
  lemma {:induction false} SeRoundTrip(v: int, t: seq<bit>)
    ensures -TWO_TO_31 < v < TWO_TO_31 <==> ReadSeOf(Se(v) + t) == Read(Some(v), t)
  {
    UeRoundTrip(SeCode(v), t);
    if SeCode(v) < TWO_TO_32 - 1 {
      SignedOfCode(v);
    }
  }

  lemma {:induction false} SignedOfCode(v: int)
    requires -TWO_TO_31 < v < TWO_TO_31
    ensures SignedOf(SeCode(v)) == v
  {
  }

  // ----- Lists of codes -----

  datatype Field = Unsigned(u: nat) | Signed(i: int) {
    predicate InRange() {
      match this
      case Unsigned(u) => u < TWO_TO_32 - 1
      case Signed(i) => -TWO_TO_31 < i < TWO_TO_31
    }
  }

  function WriteField(f: Field): seq<bit> {
    match f
    case Unsigned(u) => Ue(u)
    case Signed(i) => Se(i)
  }

  function ReadField(s: seq<bit>, shape: Field): Read<Field> {
    if shape.Unsigned? then
      var r := ReadUeOf(s, 0);
      Read(if r.value.None? then None else Some(Unsigned(r.value.value)), r.rest)
    else
      var r := ReadSeOf(s);
      Read(if r.value.None? then None else Some(Signed(r.value.value)), r.rest)
  }

  function Write(fields: seq<Field>): seq<bit> {
    if fields == [] then [] else WriteField(fields[0]) + Write(fields[1..])
  }

  /** Reads one field after the other, each signed or unsigned as `shape` says. */
  function ReadFields(s: seq<bit>, shape: seq<Field>): Option<(seq<Field>, seq<bit>)>
    decreases |shape|
  {
    if shape == [] then Some(([], s))
    else
      var first := ReadField(s, shape[0]);
      if first.value.None? then None
      else
        var tail := ReadFields(first.rest, shape[1..]);
        if tail.None? then None else Some(([first.value.value] + tail.value.0, tail.value.1))
  }

  lemma {:induction false} FieldRoundTrip(f: Field, t: seq<bit>)
    ensures f.InRange() <==> ReadField(WriteField(f) + t, f) == Read(Some(f), t)
  {
    match f
    case Unsigned(u) => UeRoundTrip(u, t);
    case Signed(i) => SeRoundTrip(i, t);
  }

  /** Any list of codes decodes back, in order, leaving exactly what follows it. */
  lemma {:induction false} FieldsRoundTrip(fields: seq<Field>, t: seq<bit>)
    requires forall f :: f in fields ==> f.InRange()
    ensures ReadFields(Write(fields) + t, fields) == Some((fields, t))
  {
    if fields == [] {
      assert Write(fields) + t == t;
    } else {
      var rest := Write(fields[1..]) + t;
      assert Write(fields) + t == WriteField(fields[0]) + rest;
      FieldRoundTrip(fields[0], rest);
      FieldsRoundTrip(fields[1..], t);
      ReadFieldsStep(Write(fields) + t, rest, fields, t);
    }
  }

  lemma {:induction false} ReadFieldsStep(s: seq<bit>, rest: seq<bit>, fields: seq<Field>, t: seq<bit>)
    requires fields != [] && ReadField(s, fields[0]) == Read(Some(fields[0]), rest)
    requires ReadFields(rest, fields[1..]) == Some((fields[1..], t))
    ensures ReadFields(s, fields) == Some((fields, t))
  {
    assert fields == [fields[0]] + fields[1..];
  }

  // ----- Bits as bytes -----

  lemma {:induction false} Halved(s: seq<bit>, k: nat)
    requires k < |s|
    ensures Value(s[..k + 1]) / 2 == Value(s[..k]) && Value(s[..k + 1]) % 2 == s[k]
  {
    assert s[..k + 1][..k] == s[..k];
  }

  lemma {:induction false} HalvedAgain(x: nat)
    ensures x / 2 / 2 == x / 4 && x / 4 / 2 == x / 8 && x / 8 / 2 == x / 0x10
    ensures x / 0x10 / 2 == x / 0x20 && x / 0x20 / 2 == x / 0x40 && x / 0x40 / 2 == x / 0x80
  {
  }

  lemma {:induction false} LastBits(x: byte, s: seq<bit>, v: nat)
    requires |s| == 8 && x == Value(s) && v == Value(s[..4])
    ensures BitAt(x, 7) == s[7] && BitAt(x, 6) == s[6] && BitAt(x, 5) == s[5] && BitAt(x, 4) == s[4]
    ensures x / 0x10 == v
  {
    assert s[..8] == s;
    Halved(s, 7);
    Halved(s, 6);
    Halved(s, 5);
    Halved(s, 4);
    HalvedAgain(x);
  }

  lemma {:induction false} FirstBits(x: byte, s: seq<bit>)
    requires |s| == 8 && x / 0x10 == Value(s[..4])
    ensures BitAt(x, 3) == s[3] && BitAt(x, 2) == s[2] && BitAt(x, 1) == s[1] && BitAt(x, 0) == s[0]
  {
    Halved(s, 3);
    Halved(s, 2);
    Halved(s, 1);
    Halved(s, 0);
    assert s[..0] == [];
    HalvedAgain(x);
  }

  lemma {:induction false} BitsFrom(x: byte, s: seq<bit>, k: nat)
    requires |s| == 8 && k <= 8
    requires forall i :: 0 <= i < 8 ==> BitAt(x, i) == s[i]
    ensures ByteBits(x, k) == s[k..]
    decreases 8 - k
  {
    if k < 8 {
      BitsFrom(x, s, k + 1);
    }
  }

  lemma {:induction false} ByteOf(s: seq<bit>) returns (x: byte)
    requires |s| == 8
    ensures x == Value(s) && ByteBits(x, 0) == s
  {
    assert Pow2(8) == 0x100 by {
      assert Pow2(3) == 8 && Pow2(6) == 8 * Pow2(3);
    }
    x := Value(s);
    LastBits(x, s, Value(s[..4]));
    FirstBits(x, s);
    BitsFrom(x, s, 0);
  }

  lemma {:induction false} BitsOfByte(v: byte)
    ensures ByteBits(v, 0) == BitsOf(v, 8)
  {
    assert Pow2(8) == 0x100 by {
      assert Pow2(3) == 8 && Pow2(6) == 8 * Pow2(3);
    }
    ValueOfBits(v, 8);
    var x := ByteOf(BitsOf(v, 8));
  }

  /** Bits that fill whole bytes are the bits of some bytes. */
  lemma {:induction false} BytesOf(s: seq<bit>) returns (data: seq<byte>)
    requires |s| % 8 == 0
    ensures Bits(data) == s
    decreases |s|
  {
    if s == [] {
      data := [];
    } else {
      var x := ByteOf(s[..8]);
      var rest := BytesOf(s[8..]);
      data := [x] + rest;
      assert s == s[..8] + s[8..];
      assert data[1..] == rest;
    }
  }
}
