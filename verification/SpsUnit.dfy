/** Whole SPS units: an SPS with a scaling matrix, whose size the demuxer gets wrong, and the emulation prevention bytes
    of section 7.4.1 of ITU-T H.264, which the demuxer does not take out. */
module SpsUnits {
  import opened Bytes
  import opened BitReader
  import opened Sps

  // ----- A scaling matrix -----

  /** An SPS of a high profile with a scaling matrix, after its NAL header byte. */
  function MatrixSpsBits(f: SpsFields, lists: seq<ScalingList>, t: seq<bit>): seq<bit>
    requires f.high.High?
  {
    BitsOf(f.profile, 8) + (BitsOf(f.constraints, 8) + (BitsOf(f.level, 8) + (Ue(f.id) +
    HighPrefix(f.high, 1, MatrixBits(lists, PocBits(f.log2FrameNum, f.poc, FrameBits(f, t)))))))
  }

  const EIGHT_ABSENT: seq<ScalingList> := [Absent, Absent, Absent, Absent, Absent, Absent, Absent, Absent]

  /** A picture one macroblock wide and `h + 1` macroblocks high. */
  function Tall(h: nat): SpsFields {
    SpsFields(100, 0, 30, 0, High(1, 0, 0, 0, 0), 0, Type2, 0, 1, 0, h, 1, 0, 1, None)
  }

  /** A picture `h + 1` macroblocks wide and one macroblock high. */
  function Wide(h: nat): SpsFields {
    Tall(h).(widthMbs := h, heightUnits := 0, direct8x8 := 0)
  }

  lemma {:induction false} SmallCodes()
    ensures Ue(0) == [1] && Ue(2) == [0, 1, 1] && Ue(4) == [0, 0, 1, 0, 1]
  {
    assert Log2(1) == 0 && Log2(3) == 1 && Log2(5) == 2;
    assert BitsOf(1, 1) == [1] && BitsOf(3, 2) == [1, 1] && BitsOf(5, 3) == [1, 0, 1];
    assert Zeros(0) == [] && Zeros(1) == [0] && Zeros(2) == [0, 0];
  }

  lemma {:induction false} TallBits(h: nat, tail: seq<bit>)
    ensures FrameBits(Tall(h), tail) == [1] + ([1] + ([1] + (Ue(h) + ([1] + ([1] + ([0] + tail))))))
  {
    SmallCodes();
    NoFront([1] + ([0] + tail));
  }

  lemma {:induction false} NoFront(s: seq<bit>)
    ensures [] + s == s
  {
  }

  lemma {:induction false} WideBits(h: nat, tail: seq<bit>)
    ensures FrameBits(Wide(h), tail) == [1] + ([1] + (Ue(h) + ([1] + ([1] + ([0] + ([0] + tail))))))
  {
    SmallCodes();
    NoFront([0] + ([0] + tail));
  }

  /** The two flags left over and the fields behind them, as the demuxer takes them. */
  lemma {:induction false} TallReadAsWide(h: nat, t: seq<bit>)
    ensures [0] + ([0] + PocBits(0, Type2, FrameBits(Tall(h), [0] + t)))
         == Ue(4) + (Ue(0) + (Ue(0) + FrameBits(Wide(h), t)))
  {
    SmallCodes();
    TallBits(h, [0] + t);
    WideBits(h, t);
    LeftOver(FrameBits(Wide(h), t));
  }

  lemma {:induction false} LeftOver(s: seq<bit>)
    ensures [0] + ([0] + ([1] + ([0, 1, 1] + ([1] + s)))) == [0, 0, 1, 0, 1] + ([1] + ([1] + s))
  {
  }

  lemma {:induction false} TallSize(h: nat)
    requires 16 * (h + 1) < TWO_TO_32
    ensures InRange(Tall(h)) && CroppedWidth(Tall(h)) == 16 && CroppedHeight(Tall(h)) == 16 * (h + 1)
    ensures InRange(Wide(h)) && Sized(Wide(h)) && CropSupported(Wide(h))
    ensures CroppedWidth(Wide(h)) == 16 * (h + 1) && CroppedHeight(Wide(h)) == 16
  {
  }

  lemma {:induction false} TwoFlags(t: seq<bit>)
    ensures MatrixBits(EIGHT_ABSENT[6..], t) == [0] + ([0] + t)
  {
    assert EIGHT_ABSENT[6..] == [Absent, Absent] && [Absent, Absent][1..] == [Absent];
    assert [Absent][1..] == [] && MatrixBits([Absent], t) == [0] + t;
  }

  lemma {:induction false} AbsentFit()
    ensures ListsFit(EIGHT_ABSENT, 0)
  {
    AllAbsentFit(EIGHT_ABSENT, 0);
  }

  lemma {:induction false} AllAbsentFit(lists: seq<ScalingList>, i: nat)
    requires forall k :: 0 <= k < |lists| ==> lists[k].Absent?
    ensures ListsFit(lists, i)
  {
    if lists != [] {
      AllAbsentFit(lists[1..], i + 1);
    }
  }

  /** An SPS with the simplest scaling matrix there is, one without any list: of a picture one macroblock wide, the
      demuxer reports the width for the height and the height for the width. */
  lemma {:induction false} ScalingMatrixSwapsSize(sps: seq<byte>, h: nat, t: seq<bit>)
    requires 16 * (h + 1) < TWO_TO_32
    requires sps != [] && Bits(sps[1..]) == MatrixSpsBits(Tall(h), EIGHT_ABSENT, [0] + t)
    ensures CroppedWidth(Tall(h)) == 16 && CroppedHeight(Tall(h)) == 16 * (h + 1)
    ensures ParsedOf(sps) == Parsed(Some((16 * (h + 1), 16)), false)
  {
    var f := Tall(h);
    TallSize(h);
    var t2 := PocBits(0, Type2, FrameBits(f, [0] + t));
    var s1 := HighPrefix(f.high, 1, MatrixBits(EIGHT_ABSENT, t2));
    var s2 := [0] + ([0] + t2);
    var s3 := FrameBits(Wide(h), t);
    assert |Bits(sps[1..])| >= 24;
    HeaderRead(f, s1);
    assert ChromaOf(s1, f.profile) == Go(Chroma(1, false), s2) by {
      AbsentFit();
      ScalingMatrixMisread(f, EIGHT_ABSENT, t2);
      TwoFlags(t2);
    }
    assert PocOf(s2) == Go((), s3) by {
      TallReadAsWide(h, t);
      UeRoundTrip(4, Ue(0) + (Ue(0) + s3));
      UeRoundTrip(0, Ue(0) + s3);
      UeRoundTrip(0, s3);
    }
    var frame := Frame(h, 0, 1, NO_CROP);
    assert FrameOf(s3) == Some(frame) by {
      FrameRead(Wide(h), t);
    }
    ParsedFrom(sps, f.profile, s1, Chroma(1, false), s2, s3, frame);
    SizeExact(Wide(h));
  }

  lemma {:induction false} ListAppend(list: ScalingList, tail: seq<bit>, t: seq<bit>)
    ensures ListBits(list, tail + t) == ListBits(list, tail) + t
  {
    match list
    case Absent => Joined([0], tail, t);
    case Present(deltas) =>
      SeListAppend(deltas, tail + t);
      SeListAppend(deltas, tail);
      Joined(SeList(deltas, []), tail, t);
      Joined([1], SeList(deltas, tail), t);
  }

  lemma {:induction false} MatrixAppend(lists: seq<ScalingList>, tail: seq<bit>, t: seq<bit>)
    ensures MatrixBits(lists, tail + t) == MatrixBits(lists, tail) + t
  {
    if lists != [] {
      MatrixAppend(lists[1..], tail, t);
      ListAppend(lists[0], MatrixBits(lists[1..], tail), t);
    }
  }

  lemma {:induction false} MatrixSpsAppend(f: SpsFields, lists: seq<ScalingList>, t: seq<bit>)
    requires f.high.High?
    ensures MatrixSpsBits(f, lists, t) == MatrixSpsBits(f, lists, []) + t
  {
    var frame := FrameBits(f, []);
    var poc := PocBits(f.log2FrameNum, f.poc, frame);
    var matrix := MatrixBits(lists, poc);
    FrameAppend(f, t);
    PocAppend(f.log2FrameNum, f.poc, frame, t);
    MatrixAppend(lists, poc, t);
    HighPrefixAppend(f.high, 1, matrix, t);
    FiveParts(BitsOf(f.profile, 8), BitsOf(f.constraints, 8), BitsOf(f.level, 8), Ue(f.id),
              HighPrefix(f.high, 1, matrix), t);
  }

  /** There is such an SPS for every height. */
  lemma {:induction false} SwappedSize(h: nat) returns (sps: seq<byte>, pad: seq<bit>)
    requires 16 * (h + 1) < TWO_TO_32
    ensures sps != [] && Bits(sps[1..]) == MatrixSpsBits(Tall(h), EIGHT_ABSENT, [0] + pad)
    ensures ParsedOf(sps) == Parsed(Some((16 * (h + 1), 16)), false)
  {
    var data;
    data, pad := PackedBehind(MatrixSpsBits(Tall(h), EIGHT_ABSENT, []), [0]);
    MatrixSpsAppend(Tall(h), EIGHT_ABSENT, [0] + pad);
    sps := [0x67] + data;
    assert sps[1..] == data;
    ScalingMatrixSwapsSize(sps, h, pad);
  }

  // ----- Emulation prevention -----

  /** The payload of a NAL unit with its emulation prevention bytes: after two zero bytes, of which `zeros` have come
      before `d`, a byte of at most 3 gets a 3 in front. */
  function Escaped(d: seq<byte>, zeros: nat): seq<byte> {
    if d == [] then []
    else if zeros == 2 && d[0] <= 3 then [3, d[0]] + Escaped(d[1..], if d[0] == 0 then 1 else 0)
    else [d[0]] + Escaped(d[1..], if d[0] == 0 then zeros + 1 else 0)
  }

  /** No emulation prevention byte is needed within the first `n` bytes. */
  predicate Plain(d: seq<byte>, zeros: nat, n: nat) {
    n > 0 && d != [] ==>
      && !(zeros == 2 && d[0] <= 3)
      && Plain(d[1..], if d[0] == 0 then zeros + 1 else 0, n - 1)
  }

  predicate EscapeAt(d: seq<byte>, i: nat)
    requires i + 2 < |d|
  {
    d[i] == 0 && d[i + 1] == 0 && d[i + 2] <= 3
  }

  /** In the bytes' own terms: from `start` to `end`, no two zero bytes with a byte of at most 3 behind them. */
  predicate Unescaped(d: seq<byte>, start: nat, end: nat) {
    forall i: nat :: start <= i && i + 2 < end && i + 2 < |d| ==> !EscapeAt(d, i)
  }

  lemma {:induction false} PlainExactly(d: seq<byte>, p: nat, zeros: nat, n: nat)
    requires zeros <= 2 && zeros <= p <= |d| && forall i :: p - zeros <= i < p ==> d[i] == 0
    ensures Plain(d[p..], zeros, n) <==> Unescaped(d, p - zeros, p + n)
    decreases n
  {
    if n > 0 && p < |d| {
      assert d[p..][0] == d[p] && d[p..][1..] == d[p + 1..];
      if zeros == 2 && d[p] <= 3 {
        assert EscapeAt(d, p - 2);
      } else if d[p] == 0 {
        PlainExactly(d, p + 1, zeros + 1, n - 1);
      } else {
        PlainExactly(d, p + 1, 0, n - 1);
        PastNonZero(d, p, zeros, p + n);
      }
    }
  }

  lemma {:induction false} PastNonZero(d: seq<byte>, p: nat, zeros: nat, end: nat)
    requires zeros <= 2 && zeros <= p < |d| && d[p] != 0 && !(zeros == 2 && d[p] <= 3)
    ensures Unescaped(d, p - zeros, end) <==> Unescaped(d, p + 1, end)
  {
  }

  lemma {:induction false} PlainPrefix(d: seq<byte>, zeros: nat, n: nat) returns (rest: seq<byte>)
    requires n <= |d| && Plain(d, zeros, n)
    ensures Escaped(d, zeros) == d[..n] + rest
    decreases n
  {
    if n == 0 {
      rest := Escaped(d, zeros);
      assert d[..0] + rest == rest;
    } else {
      rest := PlainPrefix(d[1..], if d[0] == 0 then zeros + 1 else 0, n - 1);
      assert [d[0]] + (d[1..][..n - 1] + rest) == d[..n] + rest;
    }
  }

  lemma {:induction false} BitsCons(x: byte, d: seq<byte>)
    ensures Bits([x] + d) == ByteBits(x, 0) + Bits(d)
  {
    assert ([x] + d)[1..] == d;
  }

  lemma {:induction false} BitsAppend(a: seq<byte>, b: seq<byte>)
    ensures Bits(a + b) == Bits(a) + Bits(b)
  {
    if a == [] {
      assert a + b == b;
    } else {
      var x, rest := a[0], a[1..];
      assert a + b == [x] + (rest + b) && a == [x] + rest;
      BitsAppend(rest, b);
      BitsCons(x, rest + b);
      BitsCons(x, rest);
      Joined(ByteBits(x, 0), Bits(rest), Bits(b));
    }
  }

  lemma {:induction false} SameStart(head: seq<bit>, t: seq<bit>, a: seq<bit>, b: seq<bit>, c: seq<bit>)
    returns (t': seq<bit>)
    requires head + t == a + b && |head| <= |a|
    ensures a + c == head + t'
  {
    t' := a[|head|..] + c;
    assert a[..|head|] == (a + b)[..|head|] == (head + t)[..|head|] == head;
    assert a == head + a[|head|..];
  }

  /** How many bytes of the payload the fields up to the cropping offsets take. */
  function FieldBytes(f: SpsFields): nat {
    (|SpsBits(f, [])| + 7) / 8
  }

  lemma {:induction false} PlainHead(head: seq<bit>, t: seq<bit>, payload: seq<byte>, n: nat) returns (t': seq<bit>)
    requires Bits(payload) == head + t && n <= |payload| && |head| <= 8 * n && Plain(payload, 0, n)
    ensures Bits(Escaped(payload, 0)) == head + t'
  {
    var rest := PlainPrefix(payload, 0, n);
    t' := KeptBehind(head, t, payload, payload[..n], payload[n..], rest, Escaped(payload, 0));
  }

  lemma {:induction false} KeptBehind(
    head: seq<bit>, t: seq<bit>, payload: seq<byte>, a: seq<byte>, b: seq<byte>, rest: seq<byte>, esc: seq<byte>)
    returns (t': seq<bit>)
    requires payload == a + b && esc == a + rest && Bits(payload) == head + t && |head| <= 8 * |a|
    ensures Bits(esc) == head + t'
  {
    t' := HeadKept(head, t, a, b, rest);
  }

  lemma {:induction false} HeadFits(head: seq<bit>, t: seq<bit>, payload: seq<byte>, n: nat)
    requires Bits(payload) == head + t && n == (|head| + 7) / 8
    ensures n <= |payload| && |head| <= 8 * n
  {
    assert |head| <= |Bits(payload)|;
  }

  lemma {:induction false} HeadKept(head: seq<bit>, t: seq<bit>, a: seq<byte>, b: seq<byte>, rest: seq<byte>)
    returns (t': seq<bit>)
    requires Bits(a + b) == head + t && |head| <= 8 * |a|
    ensures Bits(a + rest) == head + t'
  {
    BitsAppend(a, b);
    BitsAppend(a, rest);
    t' := SameStart(head, t, Bits(a), Bits(b), Bits(rest));
  }

  /** The bits that a demuxer finds in a unit without emulation prevention bytes among its fields are still laid out
      as the standard prescribes, whatever escapes follow. */
  lemma {:induction false} PlainFields(f: SpsFields, t: seq<bit>, payload: seq<byte>) returns (t': seq<bit>)
    requires Bits(payload) == SpsBits(f, t) && Plain(payload, 0, FieldBytes(f))
    ensures Bits(Escaped(payload, 0)) == SpsBits(f, t')
  {
    SpsBitsAppend(f, t);
    HeadFits(SpsBits(f, []), t, payload, FieldBytes(f));
    t' := PlainHead(SpsBits(f, []), t, payload, FieldBytes(f));
    SpsBitsAppend(f, t');
  }

  /** For every SPS unit without a scaling matrix, and without an emulation prevention byte before the end of the
      cropping offsets, the demuxer reports the cropped size of section 7.4.2.1.1 if and only if it supports the
      cropping. */
  lemma {:induction false} UnitDimensions(f: SpsFields, t: seq<bit>, payload: seq<byte>, unit: seq<byte>)
    requires InRange(f) && Sized(f) && Bits(payload) == SpsBits(f, t) && Unescaped(payload, 0, FieldBytes(f))
    requires unit != [] && unit[1..] == Escaped(payload, 0)
    ensures ParsedOf(unit) == Parsed(Some((CroppedWidth(f), CroppedHeight(f))), false) <==> CropSupported(f)
  {
    PlainFromBytes(payload, FieldBytes(f));
    var t' := PlainFields(f, t, payload);
    SpsDimensions(unit, f, t');
  }

  lemma {:induction false} PlainFromBytes(payload: seq<byte>, n: nat)
    requires Unescaped(payload, 0, n)
    ensures Plain(payload, 0, n)
  {
    PlainExactly(payload, 0, 0, n);
    assert payload[0..] == payload;
  }

  // ----- A unit with an escape among its fields -----

  lemma {:induction false} EscapeStep(x: byte, d: seq<byte>, zeros: nat, rest: seq<byte>)
    requires Escaped(d, if x == 0 then zeros + 1 else 0) == rest && !(zeros == 2 && x <= 3)
    ensures Escaped([x] + d, zeros) == [x] + rest
  {
    assert ([x] + d)[1..] == d;
  }

  lemma {:induction false} EscapeHere(x: byte, d: seq<byte>, rest: seq<byte>)
    requires Escaped(d, if x == 0 then 1 else 0) == rest && x <= 3
    ensures Escaped([x] + d, 2) == [3] + ([x] + rest)
  {
    assert ([x] + d)[1..] == d;
    assert [3, x] + rest == [3] + ([x] + rest);
  }

  /** The end of the payload below: what follows its only escape. */
  function Tail(): seq<byte> {
    [0] + ([3] + ([0x13] + ([0x2E] + ([0x40] + []))))
  }

  /** The payload of an SPS: a picture of 32 by 16 samples, and a large offset_for_top_to_bottom_field. */
  function Payload(): seq<byte> {
    [66] + ([0] + ([30] + ([0xD2] + ([0] + ([0] + ([2] + Tail()))))))
  }

  lemma {:induction false} TailPlain()
    ensures Escaped(Tail(), 0) == Tail()
  {
    EscapeStep(0x40, [], 0, []);
    EscapeStep(0x2E, [0x40] + [], 0, [0x40] + []);
    EscapeStep(0x13, [0x2E] + ([0x40] + []), 0, [0x2E] + ([0x40] + []));
    EscapeStep(3, [0x13] + ([0x2E] + ([0x40] + [])), 1, [0x13] + ([0x2E] + ([0x40] + [])));
    EscapeStep(0, [3] + ([0x13] + ([0x2E] + ([0x40] + []))), 0, [3] + ([0x13] + ([0x2E] + ([0x40] + []))));
  }

  lemma {:induction false} PayloadEscaped(tail: seq<byte>)
    requires Escaped(tail, 0) == tail
    ensures Escaped([66] + ([0] + ([30] + ([0xD2] + ([0] + ([0] + ([2] + tail)))))), 0)
         == [66] + ([0] + ([30] + ([0xD2] + ([0] + ([0] + ([3] + ([2] + tail)))))))
  {
    EscapeHere(2, tail, tail);
    var d1, e1 := [2] + tail, [3] + ([2] + tail);
    EscapeStep(0, d1, 1, e1);
    EscapeStep(0, [0] + d1, 0, [0] + e1);
    EscapeStep(0xD2, [0] + ([0] + d1), 0, [0] + ([0] + e1));
    var d2, e2 := [0xD2] + ([0] + ([0] + d1)), [0xD2] + ([0] + ([0] + e1));
    EscapeStep(30, d2, 1, e2);
    EscapeStep(0, [30] + d2, 0, [30] + e2);
    EscapeStep(66, [0] + ([30] + d2), 0, [0] + ([30] + e2));
  }

  // Their bits, with the zeros of whole bytes and of parts of bytes kept together.

  lemma {:induction false} ByteBitsAre()
    ensures ByteBits(0xD2, 0) == [1, 1, 0, 1, 0, 0, 1] + [0] && ByteBits(0, 0) == Zeros(8)
    ensures ByteBits(2, 0) == Zeros(6) + [1, 0] && ByteBits(3, 0) == Zeros(6) + [1, 1]
    ensures ByteBits(0x13, 0) == [0, 0, 0, 1, 0, 0] + [1, 1]
    ensures ByteBits(0x2E, 0) == [0] + ([0, 1, 0] + [1, 1, 1, 0]) && ByteBits(0x40, 0) == [0, 1] + Zeros(6)
  {
    SixZeros();
    BitsFrom(0xD2, [1, 1, 0, 1, 0, 0, 1, 0], 0);
    BitsFrom(0, [0, 0, 0, 0, 0, 0, 0, 0], 0);
    BitsFrom(2, [0, 0, 0, 0, 0, 0, 1, 0], 0);
    BitsFrom(3, [0, 0, 0, 0, 0, 0, 1, 1], 0);
    BitsFrom(0x13, [0, 0, 0, 1, 0, 0, 1, 1], 0);
    BitsFrom(0x2E, [0, 0, 1, 0, 1, 1, 1, 0], 0);
    BitsFrom(0x40, [0, 1, 0, 0, 0, 0, 0, 0], 0);
  }

  lemma {:induction false} SixZeros()
    ensures Zeros(6) == [0, 0, 0, 0, 0, 0] && Zeros(8) == [0, 0, 0, 0, 0, 0, 0, 0]
  {
    assert Zeros(2) == [0, 0] && Zeros(4) == [0, 0, 0, 0];
  }

  lemma {:induction false} ZerosJoin(a: nat, b: nat)
    ensures Zeros(a) + Zeros(b) == Zeros(a + b)
  {
    if a > 0 {
      ZerosJoin(a - 1, b);
    }
  }

  /** 23 zeros, as they come in the bytes. */
  lemma {:induction false} TwentyThreeZeros()
    ensures [0] + (Zeros(8) + (Zeros(8) + Zeros(6))) == Zeros(23)
  {
    ZerosJoin(8, 6);
    ZerosJoin(8, 14);
    ZerosJoin(1, 22);
    assert Zeros(1) == [0];
  }

  /** The payload's bits behind its first three bytes, put together from those of the bytes. */
  lemma {:induction false} BodyRegrouped(
    p: seq<bit>, o: seq<bit>, z8: seq<bit>, z6: seq<bit>, a: seq<bit>, more: seq<bit>)
    ensures (p + o) + (z8 + (z8 + ((z6 + a) + more))) == p + ((o + (z8 + (z8 + z6))) + (a + more))
  {
    assert (p + o) + (z8 + (z8 + ((z6 + a) + more))) == p + (o + (z8 + (z8 + (z6 + (a + more)))));
    assert (o + (z8 + (z8 + z6))) + (a + more) == o + (z8 + (z8 + (z6 + (a + more))));
  }

  lemma {:induction false} TailRegrouped(
    z8: seq<bit>, z6: seq<bit>, a: seq<bit>, b: seq<bit>, c: seq<bit>, d: seq<bit>, more: seq<bit>)
    ensures a + (z8 + ((z6 + b) + ((c + d) + more))) == (a + (z8 + (z6 + (b + c)))) + (d + more)
  {
  }

  lemma {:induction false} EscapedRegrouped(
    z8: seq<bit>, z6: seq<bit>, a: seq<bit>, b: seq<bit>, more: seq<bit>)
    ensures a + ((z6 + b) + (z8 + ((z6 + a) + more))) == (a + (z6 + (b + (z8 + z6)))) + (a + more)
  {
  }

  /** The code of the offset as it was written, and as the demuxer reads it. */
  function WrittenCode(): seq<bit> {
    [1, 0] + (Zeros(8) + (Zeros(6) + ([1, 1] + [0, 0, 0, 1, 0, 0])))
  }

  function MisreadCode(): seq<bit> {
    [1, 1] + (Zeros(6) + ([1, 0] + (Zeros(8) + Zeros(6))))
  }

  function Offset(code: seq<bit>): nat
    requires |code| == 24
  {
    Value(code[..23])
  }

  lemma {:induction false} OffsetCode(code: seq<bit>)
    requires |code| == 24 && code[0] == 1 && code[23] == 0
    ensures Se(Offset(code)) == Zeros(23) + code && SeRange(Offset(code))
  {
    var low := code[1..];
    assert code == [1] + low;
    ValueLeading(1, low);
    Pow2Monotone(23, 31);
    Pow2Word();
    UeIs(code, 23, Value(code) - 1);
    assert Pow2(23) > 1;
  }

  /** The fields with a given offset code, width and direct_8x8_inference_flag. */
  function OffsetFields(code: seq<bit>, widthMbs: nat, direct8x8: bit): SpsFields
    requires |code| == 24
  {
    SpsFields(66, 0, 30, 0, NotHigh, 0, Type1(0, 0, Offset(code), []), 0, 0, widthMbs, 0, 1, 0, direct8x8, None)
  }

  const LEADING: seq<bit> := [1, 1, 0, 1, 0, 0, 1]

  lemma {:induction false} LeadingBits(rest: seq<bit>)
    ensures [1] + ([1] + ([0, 1, 0] + ([0] + ([1] + rest)))) == LEADING + rest
  {
  }

  lemma {:induction false} OffsetBits(code: seq<bit>, w: nat, d: bit, t: seq<bit>)
    requires |code| == 24 && Se(Offset(code)) == Zeros(23) + code
    ensures var f := OffsetFields(code, w, d);
      SpsBits(f, t) == BitsOf(66, 8) + (BitsOf(0, 8) + (BitsOf(30, 8) + (
        LEADING + (Zeros(23) + code + ([1] + FrameBits(f, t))))))
  {
    var f := OffsetFields(code, w, d);
    SmallCodes();
    assert Ue(1) == [0, 1, 0] by {
      assert Log2(2) == 1 && BitsOf(2, 2) == [1, 0] && Zeros(1) == [0];
    }
    LeadingBits(Zeros(23) + code + ([1] + FrameBits(f, t)));
  }

  /** The bits of the last two bytes, behind the fields up to the picture height. */
  function More(): seq<bit> {
    ([0] + ([0, 1, 0] + [1, 1, 1, 0])) + ([0, 1] + Zeros(6))
  }

  lemma {:induction false} MoreBits()
    ensures Bits([0x2E] + ([0x40] + [])) == More()
  {
    ByteBitsAre();
    BitsCons(0x2E, [0x40] + []);
    BitsCons(0x40, []);
    assert ByteBits(0x40, 0) + Bits([]) == ByteBits(0x40, 0);
  }

  lemma {:induction false} TailBits()
    ensures Bits(Tail()) ==
      Zeros(8) + ((Zeros(6) + [1, 1]) + (([0, 0, 0, 1, 0, 0] + [1, 1]) + More()))
  {
    ByteBitsAre();
    MoreBits();
    var last := [0x2E] + ([0x40] + []);
    BitsCons(0, [3] + ([0x13] + last));
    BitsCons(3, [0x13] + last);
    BitsCons(0x13, last);
  }

  lemma {:induction false} HeadBits(rest: seq<byte>)
    ensures Bits([66] + ([0] + ([30] + ([0xD2] + ([0] + ([0] + rest)))))) ==
      BitsOf(66, 8) + (BitsOf(0, 8) + (BitsOf(30, 8) + ((LEADING + [0]) + (Zeros(8) + (Zeros(8) + Bits(rest))))))
  {
    BitsOfByte(66);
    BitsOfByte(0);
    BitsOfByte(30);
    ByteBitsAre();
    BitsCons(66, [0] + ([30] + ([0xD2] + ([0] + ([0] + rest)))));
    BitsCons(0, [30] + ([0xD2] + ([0] + ([0] + rest))));
    BitsCons(30, [0xD2] + ([0] + ([0] + rest)));
    BitsCons(0xD2, [0] + ([0] + rest));
    BitsCons(0, [0] + rest);
    BitsCons(0, rest);
  }

  lemma {:induction false} WrittenFrame(code: seq<bit>)
    requires |code| == 24
    ensures [1] + FrameBits(OffsetFields(code, 1, 1), [0, 1] + Zeros(6)) == [1, 1] + More()
  {
    SmallCodes();
    assert Ue(1) == [0, 1, 0] by {
      assert Log2(2) == 1 && BitsOf(2, 2) == [1, 0] && Zeros(1) == [0];
    }
    NoFront([1] + ([0] + ([0, 1] + Zeros(6))));
    Flattened([0, 1] + Zeros(6));
  }

  lemma {:induction false} Flattened(t: seq<bit>)
    ensures [1] + ([1] + ([0] + ([0, 1, 0] + ([1] + ([1] + ([1] + ([0] + t))))))) ==
      [1, 1] + (([0] + ([0, 1, 0] + [1, 1, 1, 0])) + t)
  {
  }

  lemma {:induction false} MisreadFrame(code: seq<bit>)
    requires |code| == 24
    ensures [1] + FrameBits(OffsetFields(code, 3, 0), [1, 0] + ([1, 1, 1, 0] + ([0, 1] + Zeros(6)))) ==
      [1, 1] + (([0, 0, 0, 1, 0, 0] + [1, 1]) + More())
  {
    SmallCodes();
    assert Ue(3) == [0, 0, 1, 0, 0] by {
      assert Log2(4) == 2 && BitsOf(4, 3) == [1, 0, 0] && Zeros(2) == [0, 0];
    }
    NoFront([0] + ([0] + ([1, 0] + ([1, 1, 1, 0] + ([0, 1] + Zeros(6))))));
    FlattenedMisread([0, 1] + Zeros(6));
  }

  lemma {:induction false} FlattenedMisread(t: seq<bit>)
    ensures [1] + ([1] + ([0] + ([0, 0, 1, 0, 0] + ([1] + ([1] + ([0] + ([0] + ([1, 0] + ([1, 1, 1, 0] + t))))))))) ==
      [1, 1] + (([0, 0, 0, 1, 0, 0] + [1, 1]) + (([0] + ([0, 1, 0] + [1, 1, 1, 0])) + t))
  {
  }

  lemma {:induction false} PayloadBits()
    ensures Bits(Payload()) == SpsBits(OffsetFields(WrittenCode(), 1, 1), [0, 1] + Zeros(6))
  {
    var code := WrittenCode();
    var rest := ([0, 0, 0, 1, 0, 0] + [1, 1]) + More();
    OffsetCode(code);
    OffsetBits(code, 1, 1, [0, 1] + Zeros(6));
    WrittenFrame(code);
    HeadBits([2] + Tail());
    BitsCons(2, Tail());
    ByteBitsAre();
    TailBits();
    TwentyThreeZeros();
    BodyRegrouped(LEADING, [0], Zeros(8), Zeros(6), [1, 0], Zeros(8) + ((Zeros(6) + [1, 1]) + rest));
    TailRegrouped(Zeros(8), Zeros(6), [1, 0], [1, 1], [0, 0, 0, 1, 0, 0], [1, 1], More());
    Joined(Zeros(23), code, [1, 1] + More());
  }

  lemma {:induction false} EscapedBits()
    ensures Bits(Escaped(Payload(), 0)) ==
      SpsBits(OffsetFields(MisreadCode(), 3, 0), [1, 0] + ([1, 1, 1, 0] + ([0, 1] + Zeros(6))))
  {
    var code := MisreadCode();
    var rest := ([0, 0, 0, 1, 0, 0] + [1, 1]) + More();
    TailPlain();
    PayloadEscaped(Tail());
    OffsetCode(code);
    OffsetBits(code, 3, 0, [1, 0] + ([1, 1, 1, 0] + ([0, 1] + Zeros(6))));
    MisreadFrame(code);
    HeadBits([3] + ([2] + Tail()));
    BitsCons(3, [2] + Tail());
    BitsCons(2, Tail());
    ByteBitsAre();
    TailBits();
    TwentyThreeZeros();
    var more := (Zeros(6) + [1, 0]) + (Zeros(8) + ((Zeros(6) + [1, 1]) + rest));
    BodyRegrouped(LEADING, [0], Zeros(8), Zeros(6), [1, 1], more);
    EscapedRegrouped(Zeros(8), Zeros(6), [1, 1], [1, 0], rest);
    Joined(Zeros(23), code, [1, 1] + rest);
  }

  lemma {:induction false} OffsetSize(code: seq<bit>, w: nat, d: bit)
    requires |code| == 24 && SeRange(Offset(code)) && w < 100
    ensures var f := OffsetFields(code, w, d);
      && InRange(f) && Sized(f) && CropSupported(f) && CroppedWidth(f) == 16 * (w + 1) && CroppedHeight(f) == 16
  {
  }

  lemma {:induction false} UnitSize(body: seq<byte>, f: SpsFields, t: seq<bit>)
    requires InRange(f) && Sized(f) && CropSupported(f) && Bits(body) == SpsBits(f, t)
    ensures ParsedOf([0x67] + body) == Parsed(Some((CroppedWidth(f), CroppedHeight(f))), false)
  {
    var unit := [0x67] + body;
    assert unit[1..] == body;
    SpsDimensions(unit, f, t);
  }

  /** The restriction is needed: this payload lays out an SPS with a picture of 32 by 16 samples, … */
  lemma {:induction false} EscapeWritten()
    ensures var f := OffsetFields(WrittenCode(), 1, 1);
      && InRange(f) && Sized(f) && CropSupported(f) && CroppedWidth(f) == 32 && CroppedHeight(f) == 16
      && Bits(Payload()) == SpsBits(f, [0, 1] + Zeros(6))
  {
    OffsetCode(WrittenCode());
    OffsetSize(WrittenCode(), 1, 1);
    PayloadBits();
  }

  lemma {:induction false} EscapedFields() returns (f: SpsFields, t: seq<bit>)
    ensures Bits(Escaped(Payload(), 0)) == SpsBits(f, t)
    ensures InRange(f) && Sized(f) && CropSupported(f) && CroppedWidth(f) == 64 && CroppedHeight(f) == 16
  {
    f, t := OffsetFields(MisreadCode(), 3, 0), [1, 0] + ([1, 1, 1, 0] + ([0, 1] + Zeros(6)));
    OffsetCode(MisreadCode());
    OffsetSize(MisreadCode(), 3, 0);
    EscapedBits();
  }

  /** … and of its unit, which has one emulation prevention byte among the fields, the demuxer reports 64 by 16. */
  lemma {:induction false} EscapeMisread()
    ensures ParsedOf([0x67] + Escaped(Payload(), 0)) == Parsed(Some((64, 16)), false)
  {
    var f, t := EscapedFields();
    UnitSize(Escaped(Payload(), 0), f, t);
  }
}
