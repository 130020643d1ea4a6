/** The sequence parameter set: the demuxer's reading of the picture size against the layout and
    semantics of sections 7.3.2.1.1 and 7.4.2.1.1 of ITU-T H.264. */
module Sps {
  import opened Bytes
  import opened BitReader

  // ----- What the demuxer reads -----

  /** The size a parse arrives at, if it arrives at one, and whether some 32-bit operation overflowed on the
      way (and wrapped around; a build with overflow checks stops there instead). */
  datatype Parsed = Parsed(size: Option<(nat, nat)>, overflowed: bool)

  /** A section of the parse gives up, with an overflow behind it or not, or goes on with a value. */
  datatype Step<+T> = Stop(overflowed: bool) | Go(value: T, rest: seq<bit>)

  datatype Chroma = Chroma(format: nat, overflowed: bool)

  datatype Crop = Crop(left: nat, right: nat, top: nat, bottom: nat)

  datatype Frame = Frame(widthMbs: nat, heightUnits: nat, frameMbsOnly: bit, crop: Crop)

  const NO_CROP := Crop(0, 0, 0, 0)

  predicate HighProfile(profile: nat) {
    profile in {100, 110, 122, 244, 44, 83, 86, 118, 128, 138, 139, 134}
  }

  predicate InI32(v: int) {
    -TWO_TO_31 <= v < TWO_TO_31
  }

  /** The remainder of a division that truncates toward zero. */
  function Remainder256(v: int): (r: int)
    ensures -0x100 < r < 0x100
  {
    if v >= 0 then v % 0x100 else -(-v % 0x100)
  }

  function SkipUe(s: seq<bit>): seq<bit> {
    ReadUeOf(s, 0).rest
  }

  function SkipSe(s: seq<bit>): seq<bit> {
    ReadSeOf(s).rest
  }

  function SkipBit(s: seq<bit>): seq<bit> {
    ReadBitOf(s).rest
  }

  function SkipByte(s: seq<bit>): seq<bit> {
    ReadBitsOf(s, 8, 0).rest
  }

  function SkipSes(s: seq<bit>, n: nat): seq<bit>
    decreases n
  {
    if n == 0 then s else SkipSes(SkipSe(s), n - 1)
  }

  function WrapI32(v: int): int {
    AsI32(Wrap32(v))
  }

  /** The next scale in 32-bit arithmetic, and whether that overflowed. */
  function Scaled(last: int, delta: int): (int, bool) {
    var sum := WrapI32(last + delta);
    (Remainder256(WrapI32(sum + 0x100)), !InI32(last + delta) || !InI32(sum + 0x100))
  }

  /** The remaining `n` entries of one scaling list; yields whether any overflowed. */
  function ScalingListOf(s: seq<bit>, n: nat, last: int, next: int, overflowed: bool): Step<bool>
    decreases n
  {
    if n == 0 then Go(overflowed, s)
    else if next == 0 then ScalingListOf(s, n - 1, last, next, overflowed)
    else
      var delta := ReadSeOf(s);
      if delta.value.None? then Stop(overflowed)
      else
        var (next', bad) := Scaled(last, delta.value.value);
        ScalingListOf(delta.rest, n - 1, if next' == 0 then last else next', next', overflowed || bad)
  }

  /** Scaling lists number `i` up to `n`. */
  function ScalingListsOf(s: seq<bit>, i: nat, n: nat, overflowed: bool): Step<bool>
    requires i <= n
    decreases n - i
  {
    if i == n then Go(overflowed, s)
    else
      var present := ReadBitOf(s);
      if present.value.None? then Stop(overflowed)
      else if present.value.value == 0 then ScalingListsOf(present.rest, i + 1, n, overflowed)
      else
        match ScalingListOf(present.rest, if i < 6 then 16 else 64, 8, 8, overflowed)
        case Stop(overflowed') => Stop(overflowed')
        case Go(overflowed', rest) => ScalingListsOf(rest, i + 1, n, overflowed')
  }

  /** The fields that only high profiles carry. */
  function ChromaOf(s: seq<bit>, profile: nat): Step<Chroma> {
    if !HighProfile(profile) then Go(Chroma(1, false), s)
    else
      var format := ReadUeOf(s, 0);
      if format.value.None? then Stop(false)
      else
        var s1 := if format.value.value == 3 then SkipBit(format.rest) else format.rest;
        var scaling := ReadBitOf(SkipBit(SkipUe(SkipUe(s1))));
        if scaling.value.None? then Stop(false)
        else if scaling.value.value == 0 then Go(Chroma(format.value.value, false), scaling.rest)
        else
          match ScalingListsOf(scaling.rest, 0, if format.value.value != 3 then 6 else 8, false)
          case Stop(overflowed) => Stop(overflowed)
          case Go(overflowed, rest) => Go(Chroma(format.value.value, overflowed), rest)
  }

  /** log2_max_frame_num and the picture order count fields. */
  function PocOf(s: seq<bit>): Step<()> {
    var poc := ReadUeOf(SkipUe(s), 0);
    if poc.value.None? then Stop(false)
    else if poc.value.value == 0 then Go((), SkipUe(poc.rest))
    else if poc.value.value == 1 then
      var count := ReadUeOf(SkipSe(SkipSe(SkipBit(poc.rest))), 0);
      if count.value.None? then Stop(false) else Go((), SkipSes(count.rest, count.value.value))
    else Go((), poc.rest)
  }

  function ValueOr0(r: Option<nat>): nat {
    if r.None? then 0 else r.value
  }

  /** Cropping offsets; one that cannot be read counts as zero. */
  function CropOf(s: seq<bit>): Crop {
    var l := ReadUeOf(s, 0);
    var r := ReadUeOf(l.rest, 0);
    var t := ReadUeOf(r.rest, 0);
    var b := ReadUeOf(t.rest, 0);
    Crop(ValueOr0(l.value), ValueOr0(r.value), ValueOr0(t.value), ValueOr0(b.value))
  }

  /** From max_num_ref_frames to the cropping offsets. */
  function FrameOf(s: seq<bit>): Option<Frame> {
    var width := ReadUeOf(SkipBit(SkipUe(s)), 0);
    if width.value.None? then None
    else
      var height := ReadUeOf(width.rest, 0);
      if height.value.None? then None
      else
        var mbsOnly := ReadBitOf(height.rest);
        if mbsOnly.value.None? then None
        else
          var s1 := if mbsOnly.value.value == 0 then SkipBit(mbsOnly.rest) else mbsOnly.rest;
          var cropping := ReadBitOf(SkipBit(s1));
          if cropping.value.None? then None
          else
            Some(Frame(width.value.value, height.value.value, mbsOnly.value.value,
                       if cropping.value.value == 1 then CropOf(cropping.rest) else NO_CROP))
  }

  predicate InU32(v: int) {
    0 <= v < TWO_TO_32
  }

  /** The demuxer's size computation. */
  function SizeOf(chroma: Chroma, f: Frame): Parsed {
    var fields := 2 - f.frameMbsOnly;
    var unitX := if chroma.format == 0 then 1 else 2;
    var unitY := if chroma.format == 0 then fields else 2 * fields;
    Cut((f.widthMbs + 1) * 16, fields * (f.heightUnits + 1) * 16,
        unitX * (f.crop.left + f.crop.right), unitY * (f.crop.top + f.crop.bottom), chroma.overflowed)
  }

  /** Wrap-around commutes with sums, differences and products, so wrapping once at the end is as good as
      wrapping after every operation. */
  function Cut(width: nat, height: nat, cropX: nat, cropY: nat, overflowed: bool): Parsed {
    var w, h := Wrap32(width - cropX), Wrap32(height - cropY);
    Parsed(if w > 0 && h > 0 then Some((w, h)) else None,
           overflowed || !InU32(width) || !InU32(height) || !InU32(cropX) || !InU32(cropY)
           || !InU32(width - cropX) || !InU32(height - cropY))
  }

  const UNREADABLE := Parsed(None, false)

  /** The whole of the demuxer's SPS parse. */
  function ParsedOf(sps: seq<byte>): Parsed {
    if |sps| < 4 then UNREADABLE
    else
      var profile := ReadBitsOf(Bits(sps[1..]), 8, 0);
      if profile.value.None? then UNREADABLE
      else
        match ChromaOf(SkipUe(SkipByte(SkipByte(profile.rest))), profile.value.value)
        case Stop(overflowed) => Parsed(None, overflowed)
        case Go(chroma, rest) =>
          match PocOf(rest)
          case Stop(_) => Parsed(None, chroma.overflowed)
          case Go(_, rest) =>
            match FrameOf(rest)
            case None => Parsed(None, chroma.overflowed)
            case Some(frame) => SizeOf(chroma, frame)
  }

  // ----- The parser itself -----

  /** What a parsing method returns; the bits it leaves are in the reader. */
  ghost function With<T>(value: Option<T>, rest: seq<bit>, overflowed: bool): Step<T> {
    if value.None? then Stop(overflowed) else Go(value.value, rest)
  }

  method ReadScalingList(r: BitReader, size: nat, before: bool) returns (done: bool, overflowed: bool)
    requires r.Valid()
    modifies r
    ensures r.Valid()
    ensures (if done then Go(overflowed, r.rest) else Stop(overflowed))
         == ScalingListOf(old(r.rest), size, 8, 8, before)
  {
    var last, next := 8, 8;
    overflowed := before;
    for j := 0 to size
      invariant r.Valid()
      invariant ScalingListOf(r.rest, size - j, last, next, overflowed) ==
        ScalingListOf(old(r.rest), size, 8, 8, before)
    {
      if next != 0 {
        var delta := r.ReadSe();
        if delta.None? {
          return false, overflowed;
        }
        var (scale, bad) := Scaled(last, delta.value);
        next, overflowed := scale, overflowed || bad;
      }
      last := if next == 0 then last else next;
    }
    done := true;
  }

  method ReadScalingLists(r: BitReader, n: nat) returns (done: bool, overflowed: bool)
    requires r.Valid()
    modifies r
    ensures r.Valid()
    ensures (if done then Go(overflowed, r.rest) else Stop(overflowed)) == ScalingListsOf(old(r.rest), 0, n, false)
  {
    done, overflowed := true, false;
    for i := 0 to n
      invariant r.Valid() && done
      invariant ScalingListsOf(r.rest, i, n, overflowed) == ScalingListsOf(old(r.rest), 0, n, false)
    {
      var present := r.ReadBit();
      if present.None? {
        return false, overflowed;
      }
      if present.value == 1 {
        done, overflowed := ReadScalingList(r, if i < 6 then 16 else 64, overflowed);
        if !done {
          return;
        }
      }
    }
  }

  method ReadChroma(r: BitReader, profile: nat) returns (chroma: Option<Chroma>, overflowed: bool)
    requires r.Valid()
    modifies r
    ensures r.Valid() && With(chroma, r.rest, overflowed) == ChromaOf(old(r.rest), profile)
  {
    overflowed := false;
    if !HighProfile(profile) {
      return Some(Chroma(1, false)), false;
    }
    var format := r.ReadUe();
    if format.None? {
      return None, false;
    }
    if format.value == 3 {
      var _ := r.ReadBit();
    }
    var _ := r.ReadUe();
    var _ := r.ReadUe();
    var _ := r.ReadBit();
    var scaling := r.ReadBit();
    if scaling.None? {
      return None, false;
    }
    if scaling.value == 1 {
      var done;
      done, overflowed := ReadScalingLists(r, if format.value != 3 then 6 else 8);
      if !done {
        return None, overflowed;
      }
    }
    chroma := Some(Chroma(format.value, overflowed));
  }

  method ReadPoc(r: BitReader) returns (done: Option<()>)
    requires r.Valid()
    modifies r
    ensures r.Valid() && With(done, r.rest, false) == PocOf(old(r.rest))
  {
    var _ := r.ReadUe();
    var poc := r.ReadUe();
    if poc.None? {
      return None;
    }
    if poc.value == 0 {
      var _ := r.ReadUe();
    } else if poc.value == 1 {
      var _ := r.ReadBit();
      var _ := r.ReadSe();
      var _ := r.ReadSe();
      var count := r.ReadUe();
      if count.None? {
        return None;
      }
      ghost var offsets := r.rest;
      for i := 0 to count.value
        invariant r.Valid()
        invariant SkipSes(r.rest, count.value - i) == SkipSes(offsets, count.value)
      {
        var _ := r.ReadSe();
      }
    }
    return Some(());
  }

  method ReadCrop(r: BitReader) returns (crop: Crop)
    requires r.Valid()
    modifies r
    ensures r.Valid() && crop == CropOf(old(r.rest))
  {
    var left := r.ReadUe();
    var right := r.ReadUe();
    var top := r.ReadUe();
    var bottom := r.ReadUe();
    return Crop(ValueOr0(left), ValueOr0(right), ValueOr0(top), ValueOr0(bottom));
  }

  method ReadFrame(r: BitReader) returns (frame: Option<Frame>)
    requires r.Valid()
    modifies r
    ensures r.Valid() && frame == FrameOf(old(r.rest))
  {
    var _ := r.ReadUe();
    var _ := r.ReadBit();
    var width := r.ReadUe();
    if width.None? {
      return None;
    }
    var height := r.ReadUe();
    if height.None? {
      return None;
    }
    var mbsOnly := r.ReadBit();
    if mbsOnly.None? {
      return None;
    }
    if mbsOnly.value == 0 {
      var _ := r.ReadBit();
    }
    var _ := r.ReadBit();
    var cropping := r.ReadBit();
    if cropping.None? {
      return None;
    }
    var crop := NO_CROP;
    if cropping.value == 1 {
      crop := ReadCrop(r);
    }
    return Some(Frame(width.value, height.value, mbsOnly.value, crop));
  }

  /** `parse_sps_dimensions`, on the bytes of one SPS unit. */
  method ParseDimensions(sps: seq<byte>) returns (p: Parsed)
    ensures p == ParsedOf(sps)
  {
    if |sps| < 4 {
      return UNREADABLE;
    }
    var r := new BitReader(sps[1..]);
    var profile := r.ReadBits(8);
    if profile.None? {
      return UNREADABLE;
    }
    var _ := r.ReadBits(8);
    var _ := r.ReadBits(8);
    var _ := r.ReadUe();
    var chroma, overflowed := ReadChroma(r, profile.value);
    if chroma.None? {
      return Parsed(None, overflowed);
    }
    var poc := ReadPoc(r);
    if poc.None? {
      return Parsed(None, chroma.value.overflowed);
    }
    var frame := ReadFrame(r);
    if frame.None? {
      return Parsed(None, chroma.value.overflowed);
    }
    return SizeOf(chroma.value, frame.value);
  }

  // ----- The layout of section 7.3.2.1.1 -----

  datatype High =
    | NotHigh
    | High(chromaFormat: nat, separatePlanes: bit, depthLuma: nat, depthChroma: nat, bypass: bit)

  datatype Poc =
    | Type0(log2Lsb: nat)
    | Type1(alwaysZero: bit, nonRef: int, topToBottom: int, refOffsets: seq<int>)
    | Type2

  datatype SpsFields = SpsFields(
    profile: nat, constraints: nat, level: nat, id: nat, high: High, log2FrameNum: nat, poc: Poc,
    maxRefFrames: nat, gaps: bit, widthMbs: nat, heightUnits: nat, frameMbsOnly: bit, mbaff: bit,
    direct8x8: bit, crop: Option<Crop>)

  predicate UeRange(v: nat) {
    v < TWO_TO_32 - 1
  }

  predicate SeRange(v: int) {
    -TWO_TO_31 < v < TWO_TO_31
  }

  /** The values of profile_idc for which section 7.3.2.1.1 has chroma_format_idc and the fields behind it, by name in
      section A.2 and the annexes on scalable and multiview coding. */
  predicate HasChromaFields(profile: nat) {
    || profile == 100                    // High
    || profile == 110                    // High 10
    || profile == 122                    // High 4:2:2
    || profile == 244                    // High 4:4:4 Predictive
    || profile == 44                     // CAVLC 4:4:4 Intra
    || profile == 83 || profile == 86    // Scalable Baseline, Scalable High
    || profile == 118 || profile == 128  // Multiview High, Stereo High
    || profile == 138 || profile == 139  // Multiview Depth High, Enhanced Multiview Depth High
    || profile == 134                    // MFC High
  }

  /** The demuxer looks for these fields in exactly the profiles that have them. */
  lemma {:induction false} HighProfilesAgree(profile: byte)
    ensures HighProfile(profile) <==> HasChromaFields(profile)
  {
  }

  /** Every field fits its descriptor, and the high-profile fields are there iff the profile has them. */
  predicate InRange(f: SpsFields) {
    && f.profile < 0x100 && f.constraints < 0x100 && f.level < 0x100 && UeRange(f.id)
    && (HasChromaFields(f.profile) <==> f.high.High?)
    && (f.high.High? ==>
          f.high.chromaFormat <= 3 && UeRange(f.high.depthLuma) && UeRange(f.high.depthChroma))
    && UeRange(f.log2FrameNum)
    && (match f.poc
        case Type0(lsb) => UeRange(lsb)
        case Type1(_, nonRef, top, offsets) =>
          && SeRange(nonRef) && SeRange(top) && UeRange(|offsets|)
          && forall i :: 0 <= i < |offsets| ==> SeRange(offsets[i])
        case Type2 => true)
    && UeRange(f.maxRefFrames) && UeRange(f.widthMbs) && UeRange(f.heightUnits)
    && (f.crop.Some? ==>
          && UeRange(f.crop.value.left) && UeRange(f.crop.value.right)
          && UeRange(f.crop.value.top) && UeRange(f.crop.value.bottom))
  }

  // Each function writes its fields in front of the bits `t` that follow them.

  /** The high-profile fields up to seq_scaling_matrix_present_flag, which is `matrix`. */
  function HighPrefix(h: High, matrix: bit, t: seq<bit>): seq<bit>
    requires h.High?
  {
    Ue(h.chromaFormat) + ((if h.chromaFormat == 3 then [h.separatePlanes] else []) +
                          (Ue(h.depthLuma) + (Ue(h.depthChroma) + ([h.bypass] + ([matrix] + t)))))
  }

  /** The high-profile fields, without a scaling matrix. */
  function HighBits(h: High, t: seq<bit>): seq<bit> {
    if h.NotHigh? then t else HighPrefix(h, 0, t)
  }

  function SeList(vs: seq<int>, t: seq<bit>): seq<bit> {
    if vs == [] then t else Se(vs[0]) + SeList(vs[1..], t)
  }

  function PocBits(log2FrameNum: nat, p: Poc, t: seq<bit>): seq<bit> {
    Ue(log2FrameNum) +
    match p
    case Type0(lsb) => Ue(0) + (Ue(lsb) + t)
    case Type1(zero, nonRef, top, offsets) =>
      Ue(1) + ([zero] + (Se(nonRef) + (Se(top) + (Ue(|offsets|) + SeList(offsets, t)))))
    case Type2 => Ue(2) + t
  }

  function CropBits(c: Option<Crop>, t: seq<bit>): seq<bit> {
    match c
    case None => [0] + t
    case Some(c) => [1] + (Ue(c.left) + (Ue(c.right) + (Ue(c.top) + (Ue(c.bottom) + t))))
  }

  function FrameBits(f: SpsFields, t: seq<bit>): seq<bit> {
    Ue(f.maxRefFrames) + ([f.gaps] + (Ue(f.widthMbs) + (Ue(f.heightUnits) + ([f.frameMbsOnly] +
    ((if f.frameMbsOnly == 0 then [f.mbaff] else []) + ([f.direct8x8] + CropBits(f.crop, t)))))))
  }

  /** The SPS after its NAL header byte; `t` is everything from vui_parameters_present_flag on. */
  function SpsBits(f: SpsFields, t: seq<bit>): seq<bit> {
    BitsOf(f.profile, 8) + (BitsOf(f.constraints, 8) + (BitsOf(f.level, 8) + (Ue(f.id) +
    HighBits(f.high, PocBits(f.log2FrameNum, f.poc, FrameBits(f, t))))))
  }

  // ----- The semantics of section 7.4.2.1.1 -----

  function ChromaFormat(h: High): nat {
    if h.High? then h.chromaFormat else 1
  }

  /** ChromaArrayType is 0 when there is no chroma or its planes are coded separately. */
  function ChromaArrayType(h: High): nat {
    if h.High? && h.chromaFormat == 3 && h.separatePlanes == 1 then 0 else ChromaFormat(h)
  }

  function CropUnitX(h: High): nat {
    if ChromaArrayType(h) in {1, 2} then 2 else 1
  }

  function CropUnitY(f: SpsFields): nat {
    (if ChromaArrayType(f.high) == 1 then 2 else 1) * (2 - f.frameMbsOnly)
  }

  function Cropping(f: SpsFields): Crop {
    if f.crop.None? then NO_CROP else f.crop.value
  }

  function CroppedWidth(f: SpsFields): int {
    16 * (f.widthMbs + 1) - CropUnitX(f.high) * (Cropping(f).left + Cropping(f).right)
  }

  function CroppedHeight(f: SpsFields): int {
    16 * (2 - f.frameMbsOnly) * (f.heightUnits + 1) - CropUnitY(f) * (Cropping(f).top + Cropping(f).bottom)
  }

  /** The picture is not empty and its uncropped size fits 32 bits. */
  predicate Sized(f: SpsFields) {
    && CroppedWidth(f) > 0 && CroppedHeight(f) > 0
    && 16 * (f.widthMbs + 1) < TWO_TO_32 && 16 * (2 - f.frameMbsOnly) * (f.heightUnits + 1) < TWO_TO_32
  }

  /** The formats whose cropping offsets the demuxer scales as the standard does: monochrome and 4:2:0 always,
      4:2:2 without vertical and 4:4:4 without any cropping. */
  predicate CropSupported(f: SpsFields) {
    var c := Cropping(f);
    var format := ChromaFormat(f.high);
    || format <= 1
    || (c.top + c.bottom == 0 && (format == 2 || c.left + c.right == 0))
  }

  // ----- Reading a laid-out SPS -----

  lemma {:induction false} ByteField(v: nat, t: seq<bit>)
    requires v < 0x100
    ensures ReadBitsOf(BitsOf(v, 8) + t, 8, 0) == Read(Some(v), t)
  {
    assert Pow2(4) == 16;
    ReadBitsTakes(BitsOf(v, 8), t);
    ValueOfBits(v, 8);
  }

  lemma {:induction false} BitField(b: bit, t: seq<bit>)
    ensures ReadBitOf([b] + t) == Read(Some(b), t)
  {
  }

  lemma {:induction false} OptionalBit(present: bool, b: bit, t: seq<bit>)
    ensures (if present then SkipBit((if present then [b] else []) + t)
             else (if present then [b] else []) + t) == t
  {
    if present {
      BitField(b, t);
    } else {
      assert [] + t == t;
    }
  }

  /** Up to the scaling matrix flag, the fields are read as they were written. */
  lemma {:induction false} PrefixRead(f: SpsFields, matrix: bit, t: seq<bit>)
    requires InRange(f) && f.high.High?
    ensures var h := f.high; var s := HighPrefix(h, matrix, t);
      var format := ReadUeOf(s, 0);
      && format.value == Some(h.chromaFormat)
      && ReadBitOf(SkipBit(SkipUe(SkipUe(if h.chromaFormat == 3 then SkipBit(format.rest) else format.rest))))
         == Read(Some(matrix), t)
  {
    var h := f.high;
    var t1 := [h.bypass] + ([matrix] + t);
    var t2 := Ue(h.depthLuma) + (Ue(h.depthChroma) + t1);
    UeRoundTrip(h.chromaFormat, (if h.chromaFormat == 3 then [h.separatePlanes] else []) + t2);
    OptionalBit(h.chromaFormat == 3, h.separatePlanes, t2);
    UeRoundTrip(h.depthLuma, Ue(h.depthChroma) + t1);
    UeRoundTrip(h.depthChroma, t1);
    BitField(h.bypass, [matrix] + t);
    BitField(matrix, t);
  }

  lemma {:induction false} ChromaRead(f: SpsFields, t: seq<bit>)
    requires InRange(f)
    ensures ChromaOf(HighBits(f.high, t), f.profile) == Go(Chroma(ChromaFormat(f.high), false), t)
  {
    if f.high.High? {
      PrefixRead(f, 0, t);
    }
  }

  lemma {:induction false} SeListSkipped(vs: seq<int>, t: seq<bit>)
    requires forall i :: 0 <= i < |vs| ==> SeRange(vs[i])
    ensures SkipSes(SeList(vs, t), |vs|) == t
  {
    if vs != [] {
      SeRoundTrip(vs[0], SeList(vs[1..], t));
      SeListSkipped(vs[1..], t);
    }
  }

  lemma {:induction false} PocRead(f: SpsFields, t: seq<bit>)
    requires InRange(f)
    ensures PocOf(PocBits(f.log2FrameNum, f.poc, t)) == Go((), t)
  {
    match f.poc
    case Type0(lsb) =>
      UeRoundTrip(f.log2FrameNum, Ue(0) + (Ue(lsb) + t));
      UeRoundTrip(0, Ue(lsb) + t);
      UeRoundTrip(lsb, t);
    case Type1(_, _, _, _) =>
      UeRoundTrip(f.log2FrameNum, PocBits(f.log2FrameNum, f.poc, t)[|Ue(f.log2FrameNum)|..]);
      Poc1Read(f.log2FrameNum, f.poc, t);
    case Type2 =>
      UeRoundTrip(f.log2FrameNum, Ue(2) + t);
      UeRoundTrip(2, t);
  }

  lemma {:induction false} Poc1Read(log2FrameNum: nat, p: Poc, t: seq<bit>)
    requires p.Type1? && UeRange(log2FrameNum) && SeRange(p.nonRef) && SeRange(p.topToBottom)
    requires UeRange(|p.refOffsets|)
    requires forall i :: 0 <= i < |p.refOffsets| ==> SeRange(p.refOffsets[i])
    ensures PocOf(PocBits(log2FrameNum, p, t)) == Go((), t)
  {
    var n := |p.refOffsets|;
    var t1 := SeList(p.refOffsets, t);
    var t2 := Se(p.nonRef) + (Se(p.topToBottom) + (Ue(n) + t1));
    UeRoundTrip(log2FrameNum, Ue(1) + ([p.alwaysZero] + t2));
    UeRoundTrip(1, [p.alwaysZero] + t2);
    BitField(p.alwaysZero, t2);
    SeRoundTrip(p.nonRef, Se(p.topToBottom) + (Ue(n) + t1));
    SeRoundTrip(p.topToBottom, Ue(n) + t1);
    UeRoundTrip(n, t1);
    SeListSkipped(p.refOffsets, t);
  }

  lemma {:induction false} CropRead(c: Crop, t: seq<bit>)
    requires UeRange(c.left) && UeRange(c.right) && UeRange(c.top) && UeRange(c.bottom)
    ensures CropOf(Ue(c.left) + (Ue(c.right) + (Ue(c.top) + (Ue(c.bottom) + t)))) == c
  {
    UeRoundTrip(c.left, Ue(c.right) + (Ue(c.top) + (Ue(c.bottom) + t)));
    UeRoundTrip(c.right, Ue(c.top) + (Ue(c.bottom) + t));
    UeRoundTrip(c.top, Ue(c.bottom) + t);
    UeRoundTrip(c.bottom, t);
  }

  lemma {:induction false} FrameRead(f: SpsFields, t: seq<bit>)
    requires InRange(f)
    ensures FrameOf(FrameBits(f, t)) == Some(Frame(f.widthMbs, f.heightUnits, f.frameMbsOnly, Cropping(f)))
  {
    var t1 := CropBits(f.crop, t);
    var t2 := [f.direct8x8] + t1;
    var t3 := (if f.frameMbsOnly == 0 then [f.mbaff] else []) + t2;
    var t4 := [f.frameMbsOnly] + t3;
    var t5 := Ue(f.heightUnits) + t4;
    var t6 := Ue(f.widthMbs) + t5;
    assert SkipBit(SkipUe(FrameBits(f, t))) == t6 by {
      UeRoundTrip(f.maxRefFrames, [f.gaps] + t6);
      BitField(f.gaps, t6);
    }
    UeRoundTrip(f.widthMbs, t5);
    UeRoundTrip(f.heightUnits, t4);
    assert SkipBit(if f.frameMbsOnly == 0 then SkipBit(t3) else t3) == t1 by {
      OptionalBit(f.frameMbsOnly == 0, f.mbaff, t2);
      BitField(f.direct8x8, t1);
    }
    CroppingRead(f, t);
    FrameFrom(FrameBits(f, t), t6, f.widthMbs, t5, f.heightUnits, t4, f.frameMbsOnly, t3, t1, Cropping(f));
  }

  lemma {:induction false} CroppingRead(f: SpsFields, t: seq<bit>)
    requires InRange(f)
    ensures var flag := ReadBitOf(CropBits(f.crop, t));
      && flag.value.Some?
      && (if flag.value.value == 1 then CropOf(flag.rest) else NO_CROP) == Cropping(f)
  {
    match f.crop
    case None =>
    case Some(c) =>
      BitField(1, Ue(c.left) + (Ue(c.right) + (Ue(c.top) + (Ue(c.bottom) + t))));
      CropRead(c, t);
  }

  lemma {:induction false} FrameFrom(
    s: seq<bit>, s1: seq<bit>, w: nat, s2: seq<bit>, h: nat, s3: seq<bit>, mbsOnly: bit, s4: seq<bit>, s5: seq<bit>,
    crop: Crop)
    requires s1 == SkipBit(SkipUe(s)) && ReadUeOf(s1, 0) == Read(Some(w), s2)
    requires ReadUeOf(s2, 0) == Read(Some(h), s3)
    requires ReadBitOf(s3) == Read(Some(mbsOnly), s4)
    requires SkipBit(if mbsOnly == 0 then SkipBit(s4) else s4) == s5
    requires var flag := ReadBitOf(s5);
      flag.value.Some? && (if flag.value.value == 1 then CropOf(flag.rest) else NO_CROP) == crop
    ensures FrameOf(s) == Some(Frame(w, h, mbsOnly, crop))
  {
  }

  /** The demuxer's arithmetic on the fields of a laid-out SPS. */
  lemma {:induction false} SizeExact(f: SpsFields)
    requires InRange(f) && Sized(f)
    ensures SizeOf(Chroma(ChromaFormat(f.high), false), Frame(f.widthMbs, f.heightUnits, f.frameMbsOnly, Cropping(f)))
            == Parsed(Some((CroppedWidth(f), CroppedHeight(f))), false)
        <==> CropSupported(f)
  {
    var c := Cropping(f);
    var fields := 2 - f.frameMbsOnly;
    var chroma := ChromaFormat(f.high);
    SameProduct(if chroma == 0 then 1 else 2, CropUnitX(f.high), c.left + c.right);
    SameProduct(if chroma == 0 then fields else 2 * fields, CropUnitY(f), c.top + c.bottom);
    assert fields * (f.heightUnits + 1) * 16 == 16 * fields * (f.heightUnits + 1);
    CutExact((f.widthMbs + 1) * 16, fields * (f.heightUnits + 1) * 16,
             (if chroma == 0 then 1 else 2) * (c.left + c.right), CropUnitX(f.high) * (c.left + c.right),
             (if chroma == 0 then fields else 2 * fields) * (c.top + c.bottom),
             CropUnitY(f) * (c.top + c.bottom));
    UnitsAgree(f);
  }

  lemma {:induction false} UnitsAgree(f: SpsFields)
    requires InRange(f)
    ensures var fields := 2 - f.frameMbsOnly; var chroma := ChromaFormat(f.high);
      && (CropUnitX(f.high) == (if chroma == 0 then 1 else 2)
          <==> chroma <= 2)
      && (CropUnitY(f) == (if chroma == 0 then fields else 2 * fields) <==> chroma <= 1)
  {
    if f.frameMbsOnly == 0 {} else {}
  }

  lemma {:induction false} SameProduct(k: nat, m: nat, v: nat)
    ensures k * v == m * v <==> k == m || v == 0
    ensures k * v >= 0 && m * v >= 0
  {
    if k > m && v > 0 {
      assert (k - m) * v > 0;
    } else if k < m && v > 0 {
      assert (m - k) * v > 0;
    }
  }

  lemma {:induction false} CutExact(width: nat, height: nat, cropX: nat, x: nat, cropY: nat, y: nat)
    requires x < width < TWO_TO_32 && y < height < TWO_TO_32
    ensures Cut(width, height, cropX, cropY, false) == Parsed(Some((width - x, height - y)), false) <==>
      cropX == x && cropY == y
  {
  }

  /** The parse up to the high-profile fields. */
  lemma {:induction false} HeaderRead(f: SpsFields, t: seq<bit>)
    requires InRange(f)
    ensures var s := BitsOf(f.profile, 8) + (BitsOf(f.constraints, 8) + (BitsOf(f.level, 8) + (Ue(f.id) + t)));
            && ReadBitsOf(s, 8, 0).value == Some(f.profile)
            && SkipUe(SkipByte(SkipByte(SkipByte(s)))) == t
  {
    var t3 := Ue(f.id) + t;
    ByteField(f.profile, BitsOf(f.constraints, 8) + (BitsOf(f.level, 8) + t3));
    ByteField(f.constraints, BitsOf(f.level, 8) + t3);
    ByteField(f.level, t3);
    UeRoundTrip(f.id, t);
  }

  /** For every SPS laid out as the standard prescribes, without a scaling matrix, the parse of the whole unit
      comes down to the demuxer's size computation on the fields that were written. */
  lemma {:induction false} SpsRead(sps: seq<byte>, f: SpsFields, t: seq<bit>)
    requires InRange(f) && sps != [] && Bits(sps[1..]) == SpsBits(f, t)
    ensures ParsedOf(sps)
         == SizeOf(Chroma(ChromaFormat(f.high), false), Frame(f.widthMbs, f.heightUnits, f.frameMbsOnly, Cropping(f)))
  {
    assert |Bits(sps[1..])| >= 24;
    var t1 := FrameBits(f, t);
    var t2 := PocBits(f.log2FrameNum, f.poc, t1);
    var t3 := HighBits(f.high, t2);
    HeaderRead(f, t3);
    assert ChromaOf(t3, f.profile) == Go(Chroma(ChromaFormat(f.high), false), t2) by {
      ChromaRead(f, t2);
    }
    assert PocOf(t2) == Go((), t1) by {
      PocRead(f, t1);
    }
    assert FrameOf(t1) == Some(Frame(f.widthMbs, f.heightUnits, f.frameMbsOnly, Cropping(f))) by {
      FrameRead(f, t);
    }
    ParsedFrom(sps, f.profile, t3, Chroma(ChromaFormat(f.high), false), t2, t1,
               Frame(f.widthMbs, f.heightUnits, f.frameMbsOnly, Cropping(f)));
  }

  lemma {:induction false} ParsedFrom(
    sps: seq<byte>, profile: nat, s1: seq<bit>, chroma: Chroma, s2: seq<bit>, s3: seq<bit>, frame: Frame)
    requires |sps| >= 4
    requires ReadBitsOf(Bits(sps[1..]), 8, 0).value == Some(profile)
    requires s1 == SkipUe(SkipByte(SkipByte(SkipByte(Bits(sps[1..])))))
    requires ChromaOf(s1, profile) == Go(chroma, s2)
    requires PocOf(s2) == Go((), s3)
    requires FrameOf(s3) == Some(frame)
    ensures ParsedOf(sps) == SizeOf(chroma, frame)
  {
  }

  /** The demuxer reports exactly the cropped size of section 7.4.2.1.1, with no 32-bit overflow on the way,
      for every SPS whose cropping it supports, and for no other. */
  lemma {:induction false} SpsDimensions(sps: seq<byte>, f: SpsFields, t: seq<bit>)
    requires InRange(f) && Sized(f) && sps != [] && Bits(sps[1..]) == SpsBits(f, t)
    ensures ParsedOf(sps) == Parsed(Some((CroppedWidth(f), CroppedHeight(f))), false) <==> CropSupported(f)
  {
    SpsRead(sps, f, t);
    SizeExact(f);
  }

  /** Of a Baseline, Main or Extended profile, which have no chroma fields, every laid-out SPS gets its cropped size. */
  lemma {:induction false} PlainProfileDimensions(sps: seq<byte>, f: SpsFields, t: seq<bit>)
    requires f.profile == 66 || f.profile == 77 || f.profile == 88
    requires InRange(f) && Sized(f) && sps != [] && Bits(sps[1..]) == SpsBits(f, t)
    ensures ParsedOf(sps) == Parsed(Some((CroppedWidth(f), CroppedHeight(f))), false)
  {
    SpsDimensions(sps, f, t);
  }

  // ----- Scaling matrices -----

  datatype ScalingList = Absent | Present(deltas: seq<int>)

  function ListSize(i: nat): nat {
    if i < 6 then 16 else 64
  }

  function NextScale(last: int, delta: int): (r: int)
    ensures 0 <= r < 256
  {
    (last + delta + 256) % 256
  }

  /** The differences that section 7.3.2.1.1.1 writes for the remaining `n` entries of a list: one for each entry, up
      to the one that makes the next scale zero. */
  predicate DeltasFit(deltas: seq<int>, n: nat, last: int, next: int)
    decreases n
  {
    if n == 0 || next == 0 then deltas == []
    else
      deltas != [] && -128 <= deltas[0] <= 127 &&
      (var next' := NextScale(last, deltas[0]);
       DeltasFit(deltas[1..], n - 1, if next' == 0 then last else next', next'))
  }

  /** Lists number `i` and following. */
  predicate ListsFit(lists: seq<ScalingList>, i: nat)
    decreases |lists|
  {
    lists != [] ==>
      && (lists[0].Present? ==> DeltasFit(lists[0].deltas, ListSize(i), 8, 8))
      && ListsFit(lists[1..], i + 1)
  }

  function ListBits(list: ScalingList, t: seq<bit>): seq<bit> {
    match list
    case Absent => [0] + t
    case Present(deltas) => [1] + SeList(deltas, t)
  }

  function MatrixBits(lists: seq<ScalingList>, t: seq<bit>): seq<bit> {
    if lists == [] then t else ListBits(lists[0], MatrixBits(lists[1..], t))
  }

  /** How many lists section 7.3.2.1.1 writes, and how many of them the demuxer reads. */
  function WrittenLists(h: High): nat {
    if ChromaFormat(h) == 3 then 12 else 8
  }

  function ReadLists(h: High): nat {
    if ChromaFormat(h) == 3 then 8 else 6
  }

  lemma {:induction false} ListRead(deltas: seq<int>, n: nat, last: int, next: int, t: seq<bit>)
    requires 0 <= last < 256 && 0 <= next < 256 && DeltasFit(deltas, n, last, next)
    ensures ScalingListOf(SeList(deltas, t), n, last, next, false) == Go(false, t)
    decreases n
  {
    if n > 0 {
      if next == 0 {
        ListRead(deltas, n - 1, last, next, t);
      } else {
        var d, rest := deltas[0], SeList(deltas[1..], t);
        var next' := NextScale(last, d);
        var last' := if next' == 0 then last else next';
        assert ReadSeOf(SeList(deltas, t)) == Read(Some(d), rest) by {
          SeRoundTrip(d, rest);
        }
        EntryRead(SeList(deltas, t), n, last, next, d, rest, last', next');
        ListRead(deltas[1..], n - 1, last', next', t);
      }
    }
  }

  lemma {:induction false} EntryRead(
    s: seq<bit>, n: nat, last: int, next: int, d: int, rest: seq<bit>, last': int, next': int)
    requires n > 0 && 0 <= last < 256 && next != 0 && -128 <= d <= 127 && ReadSeOf(s) == Read(Some(d), rest)
    requires next' == NextScale(last, d) && last' == if next' == 0 then last else next'
    ensures ScalingListOf(s, n, last, next, false) == ScalingListOf(rest, n - 1, last', next', false)
  {
    SmallSums(last, d);
  }

  lemma {:induction false} SmallSums(last: int, d: int)
    requires 0 <= last < 256 && -128 <= d <= 127
    ensures Scaled(last, d) == (NextScale(last, d), false)
  {
    SmallRemainder(last + d + 256);
  }

  lemma {:induction false} SmallRemainder(v: nat)
    requires v < 768
    ensures v % 0x100 == if v < 256 then v else if v < 512 then v - 256 else v - 512
  {
  }

  lemma {:induction false} OneListRead(list: ScalingList, i: nat, n: nat, rest: seq<bit>)
    requires i < n && (list.Present? ==> DeltasFit(list.deltas, ListSize(i), 8, 8))
    ensures ScalingListsOf(ListBits(list, rest), i, n, false) == ScalingListsOf(rest, i + 1, n, false)
  {
    match list
    case Absent => BitField(0, rest);
    case Present(deltas) =>
      BitField(1, SeList(deltas, rest));
      ListRead(deltas, ListSize(i), 8, 8, rest);
  }

  lemma {:induction false} ListsRead(lists: seq<ScalingList>, i: nat, n: nat, t: seq<bit>)
    requires i <= n <= i + |lists| && ListsFit(lists, i)
    ensures ScalingListsOf(MatrixBits(lists, t), i, n, false) == Go(false, MatrixBits(lists[n - i..], t))
    decreases n - i
  {
    if i == n {
      assert lists[0..] == lists;
    } else {
      var rest := MatrixBits(lists[1..], t);
      OneListRead(lists[0], i, n, rest);
      ListsRead(lists[1..], i + 1, n, t);
      assert lists[1..][n - (i + 1)..] == lists[n - i..];
    }
  }

  /** Of any scaling matrix that section 7.3.2.1.1 writes, eight lists, or twelve when chroma_format_idc is 3, the
      demuxer reads six, or eight, and takes the others for the fields that follow. */
  lemma {:induction false} ScalingMatrixMisread(f: SpsFields, lists: seq<ScalingList>, t: seq<bit>)
    requires InRange(f) && f.high.High? && |lists| == WrittenLists(f.high) && ListsFit(lists, 0)
    ensures ChromaOf(HighPrefix(f.high, 1, MatrixBits(lists, t)), f.profile)
         == Go(Chroma(f.high.chromaFormat, false), MatrixBits(lists[ReadLists(f.high)..], t))
  {
    var t' := MatrixBits(lists, t);
    PrefixRead(f, 1, t');
    ListsRead(lists, 0, ReadLists(f.high), t);
    ChromaFrom(HighPrefix(f.high, 1, t'), f, ReadLists(f.high), t', MatrixBits(lists[ReadLists(f.high)..], t));
  }

  lemma {:induction false} ChromaFrom(s: seq<bit>, f: SpsFields, lists: nat, t: seq<bit>, rest: seq<bit>)
    requires HighProfile(f.profile) && ReadUeOf(s, 0).value.Some?
    requires var format := ReadUeOf(s, 0);
      ReadBitOf(SkipBit(SkipUe(SkipUe(if format.value.value == 3 then SkipBit(format.rest) else format.rest))))
      == Read(Some(1), t)
    requires lists == if ReadUeOf(s, 0).value.value != 3 then 6 else 8
    requires ScalingListsOf(t, 0, lists, false) == Go(false, rest)
    ensures ChromaOf(s, f.profile) == Go(Chroma(ReadUeOf(s, 0).value.value, false), rest)
  {
  }

  // ----- Every SPS has bytes -----

  lemma {:induction false} SeListAppend(vs: seq<int>, t: seq<bit>)
    ensures SeList(vs, t) == SeList(vs, []) + t
  {
    if vs != [] {
      SeListAppend(vs[1..], t);
      Joined(Se(vs[0]), SeList(vs[1..], []), t);
    }
  }

  lemma {:induction false} Joined(a: seq<bit>, b: seq<bit>, t: seq<bit>)
    ensures a + (b + t) == (a + b) + t
  {
  }

  lemma {:induction false} CropAppend(c: Option<Crop>, t: seq<bit>)
    ensures CropBits(c, t) == CropBits(c, []) + t
  {
  }

  lemma {:induction false} FrameAppend(f: SpsFields, t: seq<bit>)
    ensures FrameBits(f, t) == FrameBits(f, []) + t
  {
    CropAppend(f.crop, t);
    var tail := CropBits(f.crop, []);
    FrameHead(Ue(f.maxRefFrames), [f.gaps], Ue(f.widthMbs), Ue(f.heightUnits), [f.frameMbsOnly],
              if f.frameMbsOnly == 0 then [f.mbaff] else [], [f.direct8x8], tail, t);
  }

  lemma {:induction false} FrameHead(
    a: seq<bit>, b: seq<bit>, c: seq<bit>, d: seq<bit>, e: seq<bit>, g: seq<bit>, h: seq<bit>, tail: seq<bit>,
    t: seq<bit>)
    ensures a + (b + (c + (d + (e + (g + (h + (tail + t))))))) == a + (b + (c + (d + (e + (g + (h + tail)))))) + t
  {
  }

  lemma {:induction false} PocAppend(log2FrameNum: nat, p: Poc, tail: seq<bit>, t: seq<bit>)
    ensures PocBits(log2FrameNum, p, tail + t) == PocBits(log2FrameNum, p, tail) + t
  {
    match p
    case Type0(lsb) => ThreeParts(Ue(log2FrameNum), Ue(0), Ue(lsb), tail, t);
    case Type1(zero, nonRef, top, offsets) =>
      SeListAppend(offsets, tail + t);
      SeListAppend(offsets, tail);
      Joined(SeList(offsets, []), tail, t);
      SixParts(Ue(log2FrameNum), Ue(1), [zero], Se(nonRef), Se(top), Ue(|offsets|), SeList(offsets, tail), t);
    case Type2 => ThreeParts(Ue(log2FrameNum), Ue(2), [], tail, t);
  }

  lemma {:induction false} ThreeParts(a: seq<bit>, b: seq<bit>, c: seq<bit>, tail: seq<bit>, t: seq<bit>)
    ensures a + (b + (c + (tail + t))) == a + (b + (c + tail)) + t
    ensures c == [] ==> a + (b + (tail + t)) == a + (b + tail) + t
  {
  }

  lemma {:induction false} HighPrefixAppend(h: High, matrix: bit, tail: seq<bit>, t: seq<bit>)
    requires h.High?
    ensures HighPrefix(h, matrix, tail + t) == HighPrefix(h, matrix, tail) + t
  {
    SixParts(Ue(h.chromaFormat), if h.chromaFormat == 3 then [h.separatePlanes] else [], Ue(h.depthLuma),
             Ue(h.depthChroma), [h.bypass], [matrix], tail, t);
  }

  lemma {:induction false} HighAppend(h: High, tail: seq<bit>, t: seq<bit>)
    ensures HighBits(h, tail + t) == HighBits(h, tail) + t
  {
    if h.High? {
      HighPrefixAppend(h, 0, tail, t);
    }
  }

  lemma {:induction false} SixParts(
    a: seq<bit>, b: seq<bit>, c: seq<bit>, d: seq<bit>, e: seq<bit>, g: seq<bit>, tail: seq<bit>, t: seq<bit>)
    ensures a + (b + (c + (d + (e + (g + (tail + t)))))) == a + (b + (c + (d + (e + (g + tail))))) + t
  {
  }

  lemma {:induction false} SpsBitsAppend(f: SpsFields, t: seq<bit>)
    ensures SpsBits(f, t) == SpsBits(f, []) + t
  {
    var frame := FrameBits(f, []);
    var poc := PocBits(f.log2FrameNum, f.poc, frame);
    FrameAppend(f, t);
    PocAppend(f.log2FrameNum, f.poc, frame, t);
    HighAppend(f.high, poc, t);
    FiveParts(BitsOf(f.profile, 8), BitsOf(f.constraints, 8), BitsOf(f.level, 8), Ue(f.id), HighBits(f.high, poc), t);
  }

  lemma {:induction false} FiveParts(
    a: seq<bit>, b: seq<bit>, c: seq<bit>, d: seq<bit>, e: seq<bit>, t: seq<bit>)
    ensures a + (b + (c + (d + (e + t)))) == a + (b + (c + (d + e))) + t
  {
  }

  lemma {:induction false} PaddingTo(n: nat) returns (pad: seq<bit>)
    ensures |pad| < 8 && (n + |pad|) % 8 == 0
  {
    pad := Zeros(if n % 8 == 0 then 0 else 8 - n % 8);
  }

  lemma {:induction false} PackedBehind(head: seq<bit>, t: seq<bit>) returns (data: seq<byte>, pad: seq<bit>)
    ensures |pad| < 8 && Bits(data) == head + (t + pad)
  {
    pad := PaddingTo(|head| + |t|);
    data := BytesOf(head + (t + pad));
  }

  /** Whatever its fields and what follows them, an SPS can be laid out in bytes, with up to seven more bits at its
      end. These are the bytes of its raw payload; a NAL unit may have emulation prevention bytes among them. */
  lemma {:induction false} EverySpsHasBytes(f: SpsFields, t: seq<bit>) returns (sps: seq<byte>, pad: seq<bit>)
    ensures sps != [] && |pad| < 8 && Bits(sps[1..]) == SpsBits(f, t + pad)
  {
    var data;
    data, pad := PackedBehind(SpsBits(f, []), t);
    SpsBitsAppend(f, t + pad);
    sps := [0x67] + data;
    assert sps[1..] == data;
  }
}
