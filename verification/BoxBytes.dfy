/** The boxes whose content is fixed up to a few fields, byte by byte, as sections 4.3, 8.2 to 8.8 and 12 of ISO/IEC
    14496-12 and section 5.3.4 of ISO/IEC 14496-15 have them. */
module BoxBytes {
  import opened Bytes
  import opened BoxTree
  import opened Fmp4
  import MediaSegment

  // ----- Numbers and zeros -----

  lemma {:induction false} Two(a: byte, b: byte)
    ensures U16(0x100 * a + b) == [a, b]
  {
    assert (0x100 * a + b) / 0x100 == a && (0x100 * a + b) % 0x100 == b;
    assert a / 0x100 == 0 && a % 0x100 == a;
    assert Digits(a, 1) == Digits(0, 0) + [a];
  }

  lemma {:induction false} Three(a: byte, b: byte, c: byte)
    ensures U24(0x1_0000 * a + 0x100 * b + c) == [a, b, c]
  {
    var v := 0x1_0000 * a + 0x100 * b + c;
    assert v / 0x100 == 0x100 * a + b && v % 0x100 == c;
    Two(a, b);
  }

  lemma {:induction false} Four(a: byte, b: byte, c: byte, d: byte)
    ensures U32(0x100_0000 * a + 0x1_0000 * b + 0x100 * c + d) == [a, b, c, d]
  {
    var v := 0x100_0000 * a + 0x1_0000 * b + 0x100 * c + d;
    assert v / 0x100 == 0x1_0000 * a + 0x100 * b + c && v % 0x100 == d;
    Three(a, b, c);
  }

  lemma {:induction false} NoFlags()
    ensures VersionAndFlags(0, 0) == [0, 0, 0, 0] && VersionAndFlags(0, 1) == [0, 0, 0, 1]
    ensures VersionAndFlags(0, 3) == [0, 0, 0, 3] && U32(0) == [0, 0, 0, 0] && U32(1) == [0, 0, 0, 1]
  {
    Three(0, 0, 0);
    Three(0, 0, 1);
    Three(0, 0, 3);
    Four(0, 0, 0, 0);
    Four(0, 0, 0, 1);
  }

  /** Nothing but zeros. */
  predicate Blank(s: seq<byte>, n: nat) {
    |s| == n && forall i :: 0 <= i < n ==> s[i] == 0
  }

  lemma {:induction false} ZerosBlank(n: nat)
    ensures Blank(Zeros(n), n)
    decreases n
  {
    if n > 0 {
      ZerosBlank(n - 1);
    }
  }

  lemma {:induction false} BlankBoth(a: seq<byte>, b: seq<byte>, n: nat, m: nat)
    requires Blank(a, n) && Blank(b, m)
    ensures Blank(a + b, n + m)
  {
  }

  // ----- Fixed boxes -----

  /** Types, versions, flags and contents of the boxes without parameters. */
  lemma {:induction false} FixedBoxes()
    ensures Vmhd().kind == 0x766D6864 && Vmhd().fields[..4] == [0, 0, 0, 1] && Blank(Vmhd().fields[4..], 8)
    ensures Smhd().kind == 0x736D6864 && Blank(Smhd().fields, 8)
    ensures Url() == Box(0x75726C20, [0, 0, 0, 1], [])
    ensures Dref() == Box(0x64726566, [0, 0, 0, 0, 0, 0, 0, 1], [Url()])
    ensures Dinf() == Box(0x64696E66, [], [Dref()])
  {
    NoFlags();
    ZerosBlank(8);
    ZerosBlank(4);
    BlankBoth([0, 0, 0, 0], Zeros(4), 4, 4);
    assert [0, 0, 0, 1] + [] == [0, 0, 0, 1] && [0, 0, 0, 0] + [0, 0, 0, 1] == [0, 0, 0, 0, 0, 0, 0, 1];
    assert ([0, 0, 0, 1] + Zeros(8))[4..] == Zeros(8);
  }

  /** The sample table of a track whose samples are all in fragments: one sample entry, and empty tables. */
  lemma {:induction false} EmptyTables(entry: Box)
    ensures var tables := Stbl(entry).children;
      && Stbl(entry).kind == 0x7374626C && Stbl(entry).fields == [] && |tables| == 5
      && tables[0] == Box(0x73747364, [0, 0, 0, 0, 0, 0, 0, 1], [entry])
      && tables[1].kind == 0x73747473 && Blank(tables[1].fields, 8) && tables[1].children == []
      && tables[2].kind == 0x73747363 && Blank(tables[2].fields, 8) && tables[2].children == []
      && tables[3].kind == 0x7374737A && Blank(tables[3].fields, 12) && tables[3].children == []
      && tables[4].kind == 0x7374636F && Blank(tables[4].fields, 8) && tables[4].children == []
  {
    NoFlags();
    ZerosBlank(8);
    BlankBoth([0, 0, 0, 0], Zeros(8), 4, 8);
    assert [0, 0, 0, 0] + [0, 0, 0, 1] == [0, 0, 0, 0, 0, 0, 0, 1];
  }

  /** The file types: `isom` with version 512, compatible with `isom`, `iso6` and `mp41`; segments are `msdh`,
      compatible with `msdh` and `msix`. */
  lemma {:induction false} FileTypes()
    ensures Ftyp().kind == 0x66747970 && Ftyp().children == []
    ensures Ftyp().fields == [0x69, 0x73, 0x6F, 0x6D, 0, 0, 2, 0] + [0x69, 0x73, 0x6F, 0x6D, 0x69, 0x73, 0x6F, 0x36]
                             + [0x6D, 0x70, 0x34, 0x31]
    ensures MediaSegment.Styp().kind == 0x73747970 && MediaSegment.Styp().children == []
    ensures MediaSegment.Styp().fields == [0x6D, 0x73, 0x64, 0x68, 0, 0, 0, 0, 0x6D, 0x73, 0x64, 0x68]
                                          + [0x6D, 0x73, 0x69, 0x78]
  {
    IsoTypes();
    SegmentTypes();
  }

  lemma {:induction false} IsoTypes()
    ensures U32(0x69736F6D) == [0x69, 0x73, 0x6F, 0x6D] && U32(0x200) == [0, 0, 2, 0]
    ensures U32(0x69736F36) == [0x69, 0x73, 0x6F, 0x36] && U32(0x6D703431) == [0x6D, 0x70, 0x34, 0x31]
  {
    Four(0x69, 0x73, 0x6F, 0x6D);
    Four(0, 0, 2, 0);
    Four(0x69, 0x73, 0x6F, 0x36);
    Four(0x6D, 0x70, 0x34, 0x31);
  }

  lemma {:induction false} SegmentTypes()
    ensures U32(0x6D736468) == [0x6D, 0x73, 0x64, 0x68] && U32(0) == [0, 0, 0, 0]
    ensures U32(0x6D736978) == [0x6D, 0x73, 0x69, 0x78]
  {
    Four(0x6D, 0x73, 0x64, 0x68);
    Four(0, 0, 0, 0);
    Four(0x6D, 0x73, 0x69, 0x78);
  }

  /** Media data and the boxes that hold boxes. */
  lemma {:induction false} PlainBoxes(p: InitParams, q: MediaSegment.MediaParams)
    ensures Moov(p).kind == 0x6D6F6F76 && Moov(p).fields == []
    ensures MediaSegment.Moof(q).kind == 0x6D6F6F66 && MediaSegment.Moof(q).fields == []
    ensures MediaSegment.Mdat(q.mediaData) == Box(0x6D646174, q.mediaData, [])
    ensures |MediaSegment.MediaTree(q)| == 3 && MediaSegment.MediaTree(q)[1] == MediaSegment.Moof(q)
    ensures MediaSegment.MediaTree(q)[2].kind == 0x6D646174 && MediaSegment.MediaTree(q)[0].kind == 0x73747970
  {
  }

  // ----- Headers -----

  const UNITY: seq<byte> :=
    [0, 1, 0, 0, 0, 0, 0, 0, 0, 0, 0, 0] + [0, 0, 0, 0, 0, 1, 0, 0, 0, 0, 0, 0]
    + [0, 0, 0, 0, 0, 0, 0, 0, 0x40, 0, 0, 0]

  lemma {:induction false} MatrixIsUnity()
    ensures Matrix() == UNITY
  {
    Four(0, 0, 0, 0);
    Four(0, 1, 0, 0);
    Four(0x40, 0, 0, 0);
    NineWords(U32(0x1_0000), U32(0), U32(0x4000_0000));
  }

  lemma {:induction false} NineWords(x: seq<byte>, z: seq<byte>, w: seq<byte>)
    requires x == [0, 1, 0, 0] && z == [0, 0, 0, 0] && w == [0x40, 0, 0, 0]
    ensures x + z + z + z + x + z + z + z + w == UNITY
  {
    assert x + z + z + z + x + z + z + z + w == (x + z + z) + (z + x + z) + (z + z + w);
  }

  /** `mvhd`: rate 1, volume 1, the unity matrix, and 2 as the next track's number. */
  lemma {:induction false} MvhdBytes(timescale: nat) returns (a: seq<byte>, b: seq<byte>, c: seq<byte>)
    ensures Blank(a, 12) && Blank(b, 10) && Blank(c, 24)
    ensures Mvhd(timescale) == Box(0x6D766864,
      a + (U32(timescale) + ([0, 0, 0, 0, 0, 1, 0, 0, 1, 0] + (b + (UNITY + (c + [0, 0, 0, 2]))))), [])
  {
    var z, rate, volume, next := U32(0), U32(0x1_0000), U16(0x100), U32(2);
    a, b, c := [0, 0, 0, 0] + [0, 0, 0, 0] + [0, 0, 0, 0], Zeros(10), Zeros(24);
    MvhdNumbers(z, rate, volume, next, b, c);
    MatrixIsUnity();
    MvhdParts(VersionAndFlags(0, 0), z, U32(timescale), rate, volume, b, UNITY, c, next);
  }

  lemma {:induction false} MvhdNumbers(
    z: seq<byte>, rate: seq<byte>, volume: seq<byte>, next: seq<byte>, b: seq<byte>, c: seq<byte>)
    requires z == U32(0) && rate == U32(0x1_0000) && volume == U16(0x100) && next == U32(2)
    requires b == Zeros(10) && c == Zeros(24)
    ensures z == [0, 0, 0, 0] && rate == [0, 1, 0, 0] && volume == [1, 0] && next == [0, 0, 0, 2]
    ensures Blank(b, 10) && Blank(c, 24) && VersionAndFlags(0, 0) == [0, 0, 0, 0]
  {
    Three(0, 0, 0);
    Four(0, 0, 0, 0);
    Four(0, 1, 0, 0);
    Two(1, 0);
    Four(0, 0, 0, 2);
    ZerosBlank(10);
    ZerosBlank(24);
  }

  lemma {:induction false} MvhdParts(
    head: seq<byte>, z: seq<byte>, t: seq<byte>, rate: seq<byte>, volume: seq<byte>, b: seq<byte>, m: seq<byte>,
    c: seq<byte>, next: seq<byte>)
    requires head == z == [0, 0, 0, 0] && rate == [0, 1, 0, 0] && volume == [1, 0]
    ensures head + (z + z + t + z + rate + volume + b + m + c + next) ==
      ([0, 0, 0, 0] + [0, 0, 0, 0] + [0, 0, 0, 0]) +
      (t + ([0, 0, 0, 0, 0, 1, 0, 0, 1, 0] + (b + (m + (c + next)))))
  {
    assert z + rate + volume == [0, 0, 0, 0, 0, 1, 0, 0, 1, 0];
    assert z + z + t + z + rate + volume + b + m + c + next
        == z + z + (t + ((z + rate + volume) + (b + (m + (c + next)))));
    Front(head, z, z, t + ((z + rate + volume) + (b + (m + (c + next)))));
  }

  lemma {:induction false} Front(a: seq<byte>, b: seq<byte>, c: seq<byte>, d: seq<byte>)
    ensures a + (b + c + d) == a + b + c + d
  {
  }

  /** `tkhd`: no layer, no alternate group, volume 1 for sound and 0 for pictures, the unity matrix. */
  lemma {:induction false} TkhdBytes(id: nat, width: nat, height: nat, isVideo: bool)
    returns (a: seq<byte>, b: seq<byte>)
    ensures Blank(a, 8) && Blank(b, 20)
    ensures Tkhd(id, width, height, isVideo) == Box(0x746B6864,
      [0, 0, 0, 3] + (a + (U32(id) + (b + ((if isVideo then [0, 0, 0, 0] else [1, 0, 0, 0]) +
      (UNITY + (U32(width * 0x1_0000) + U32(height * 0x1_0000))))))), [])
  {
    var z, e, y, volume := U32(0), Zeros(8), U16(0), U16(if isVideo then 0 else 0x100);
    a, b := z + z, z + z + e + y + y;
    TkhdNumbers(isVideo, z, e, y, volume);
    MatrixIsUnity();
    TkhdParts(z, U32(id), e, y, volume, UNITY, U32(width * 0x1_0000), U32(height * 0x1_0000));
  }

  lemma {:induction false} TkhdNumbers(isVideo: bool, z: seq<byte>, e: seq<byte>, y: seq<byte>, volume: seq<byte>)
    requires z == U32(0) && e == Zeros(8) && y == U16(0) && volume == U16(if isVideo then 0 else 0x100)
    ensures Blank(z + z, 8) && Blank(z + z + e + y + y, 20)
    ensures volume + y == if isVideo then [0, 0, 0, 0] else [1, 0, 0, 0]
    ensures VersionAndFlags(0, 3) == [0, 0, 0, 3]
  {
    Four(0, 0, 0, 0);
    Three(0, 0, 3);
    Two(0, 0);
    Two(1, 0);
    ZerosBlank(8);
  }

  lemma {:induction false} TkhdParts(
    z: seq<byte>, id: seq<byte>, e: seq<byte>, y: seq<byte>, volume: seq<byte>, m: seq<byte>, w: seq<byte>,
    h: seq<byte>)
    ensures z + z + id + z + z + e + y + y + volume + y + m + w + h ==
      (z + z) + (id + ((z + z + e + y + y) + ((volume + y) + (m + (w + h)))))
  {
    var b, v := z + z + e + y + y, volume + y;
    FivePlus(z + z + id, z, z, e, y, y);
    assert (z + z + id) + b + volume + y + m + w + h == (z + z) + (id + (b + (v + (m + (w + h)))));
  }

  lemma {:induction false} FivePlus(
    x: seq<byte>, a: seq<byte>, b: seq<byte>, c: seq<byte>, d: seq<byte>, e: seq<byte>)
    ensures x + a + b + c + d + e == x + (a + b + c + d + e)
  {
  }

  /** `mdhd`: the language is undetermined, which is 55C4 in its packed form. */
  lemma {:induction false} MdhdBytes(timescale: nat) returns (a: seq<byte>)
    ensures Blank(a, 12)
    ensures Mdhd(timescale) == Box(0x6D646864, a + (U32(timescale) + [0, 0, 0, 0, 0x55, 0xC4, 0, 0]), [])
  {
    NoFlags();
    Two(0x55, 0xC4);
    Two(0, 0);
    a := [0, 0, 0, 0] + [0, 0, 0, 0] + [0, 0, 0, 0];
    var t, z := U32(timescale), U32(0);
    assert z + [0x55, 0xC4] + [0, 0] == [0, 0, 0, 0, 0x55, 0xC4, 0, 0];
    assert z + z + t + z + [0x55, 0xC4] + [0, 0] == z + z + (t + (z + [0x55, 0xC4] + [0, 0]));
    Front([0, 0, 0, 0], z, z, t + (z + [0x55, 0xC4] + [0, 0]));
  }

  /** `trex`: samples use the first sample description, and have no duration, size or flags by default. */
  lemma {:induction false} TrexBytes(id: nat) returns (a: seq<byte>)
    ensures Blank(a, 12) && Trex(id) == Box(0x74726578, [0, 0, 0, 0] + (U32(id) + ([0, 0, 0, 1] + a)), [])
  {
    NoFlags();
    a := [0, 0, 0, 0] + [0, 0, 0, 0] + [0, 0, 0, 0];
    var t, z := U32(id), U32(0);
    assert t + U32(1) + z + z + z == t + (U32(1) + (z + z + z));
  }

  // ----- Sample entries -----

  /** `avc1`: the first data reference, 72 dpi, one frame per sample, no compressor name, 24-bit colour. */
  lemma {:induction false} Avc1Bytes(width: nat, height: nat) returns (a: seq<byte>, b: seq<byte>, c: seq<byte>)
    ensures Blank(a, 6) && Blank(b, 16) && Blank(c, 32)
    ensures Avc1Fields(width, height) ==
      a + ([0, 1] + (b + (U16(width) + (U16(height) + ([0, 0x48, 0, 0, 0, 0x48, 0, 0, 0, 0, 0, 0, 0, 1] +
      (c + [0, 0x18, 0xFF, 0xFF]))))))
  {
    var one, d, z, depth, last := U16(1), U32(0x48_0000), U32(0), U16(0x18), U16(-1);
    a, b, c := Zeros(6), Zeros(16), Zeros(32);
    Avc1Numbers(one, d, z, depth, last);
    ZerosBlank(6);
    ZerosBlank(16);
    ZerosBlank(32);
    Avc1Parts(a, one, b, U16(width), U16(height), d, z, c, depth, last);
  }

  lemma {:induction false} Avc1Numbers(one: seq<byte>, d: seq<byte>, z: seq<byte>, depth: seq<byte>, last: seq<byte>)
    requires one == U16(1) && d == U32(0x48_0000) && z == U32(0) && depth == U16(0x18) && last == U16(-1)
    ensures one == [0, 1] && d + d + z + one == [0, 0x48, 0, 0, 0, 0x48, 0, 0, 0, 0, 0, 0, 0, 1]
    ensures depth + last == [0, 0x18, 0xFF, 0xFF]
  {
    assert d == [0, 0x48, 0, 0] && z == [0, 0, 0, 0] && one == [0, 1] by {
      Resolution(one, d, z);
    }
    assert depth == [0, 0x18] && last == [0xFF, 0xFF] by {
      Two(0, 0x18);
      MinusOne();
    }
  }

  lemma {:induction false} Resolution(one: seq<byte>, d: seq<byte>, z: seq<byte>)
    requires one == U16(1) && d == U32(0x48_0000) && z == U32(0)
    ensures one == [0, 1] && d == [0, 0x48, 0, 0] && z == [0, 0, 0, 0]
  {
    Two(0, 1);
    Four(0, 0x48, 0, 0);
    Four(0, 0, 0, 0);
  }

  lemma {:induction false} MinusOne()
    ensures U16(-1) == [0xFF, 0xFF]
  {
    assert -1 / 0x100 == -1 && -1 % 0x100 == 0xFF;
    assert Digits(-1, 1) == Digits(-1, 0) + [0xFF];
  }

  lemma {:induction false} Avc1Parts(
    a: seq<byte>, one: seq<byte>, b: seq<byte>, w: seq<byte>, h: seq<byte>, d: seq<byte>, z: seq<byte>, c: seq<byte>,
    depth: seq<byte>, last: seq<byte>)
    ensures a + one + b + w + h + d + d + z + one + c + depth + last ==
      a + (one + (b + (w + (h + ((d + d + z + one) + (c + (depth + last)))))))
  {
    assert a + one + b + w + h + d + d + z + one + c + depth + last
        == (a + one + b + w + h) + ((d + d + z + one) + (c + (depth + last)));
    FiveFirst(a, one, b, w, h, (d + d + z + one) + (c + (depth + last)));
  }

  lemma {:induction false} FiveFirst(
    a: seq<byte>, b: seq<byte>, c: seq<byte>, d: seq<byte>, e: seq<byte>, f: seq<byte>)
    ensures a + b + c + d + e + f == a + (b + (c + (d + (e + f))))
  {
  }

  /** `mp4a`: the first data reference, two channels, 16 bits per sample, and the rate as a 16.16 number. */
  lemma {:induction false} Mp4aBytes(timescale: nat) returns (a: seq<byte>, b: seq<byte>)
    ensures Blank(a, 6) && Blank(b, 8)
    ensures Mp4aFields(timescale) == a + ([0, 1] + (b + ([0, 2, 0, 16, 0, 0, 0, 0] + U32(timescale * 0x1_0000))))
  {
    var one, two, bits, y := U16(1), U16(2), U16(16), U16(0);
    a, b := Zeros(6), Zeros(8);
    Mp4aNumbers(one, two, bits, y);
    ZerosBlank(6);
    ZerosBlank(8);
    Mp4aParts(a, one, b, two, bits, y, U32(timescale * 0x1_0000));
  }

  lemma {:induction false} Mp4aNumbers(one: seq<byte>, two: seq<byte>, bits: seq<byte>, y: seq<byte>)
    requires one == U16(1) && two == U16(2) && bits == U16(16) && y == U16(0)
    ensures one == [0, 1] && two + bits + y + y == [0, 2, 0, 16, 0, 0, 0, 0]
  {
    Two(0, 1);
    Two(0, 2);
    Two(0, 16);
    Two(0, 0);
  }

  lemma {:induction false} Mp4aParts(
    a: seq<byte>, one: seq<byte>, b: seq<byte>, two: seq<byte>, bits: seq<byte>, y: seq<byte>, rate: seq<byte>)
    ensures a + one + b + two + bits + y + y + rate == a + (one + (b + ((two + bits + y + y) + rate)))
  {
    FivePlus(a + one + b, two, bits, y, y, []);
    assert two + bits + y + y + [] == two + bits + y + y;
    assert a + one + b + two + bits + y + y == a + one + b + (two + bits + y + y);
  }

  // ----- Handlers and the audio decoder -----

  /** `hdlr` of the two tracks: their types, and their names with a zero behind. */
  lemma {:induction false} HandlerBytes() returns (a: seq<byte>, b: seq<byte>)
    ensures Blank(a, 8) && Blank(b, 12)
    ensures Hdlr(VIDE, VIDEO_HANDLER) == Box(0x68646C72, a + ([0x76, 0x69, 0x64, 0x65] + (b +
      [0x56, 0x69, 0x64, 0x65, 0x6F, 0x48, 0x61, 0x6E, 0x64, 0x6C, 0x65, 0x72, 0])), [])
    ensures Hdlr(SOUN, SOUND_HANDLER) == Box(0x68646C72, a + ([0x73, 0x6F, 0x75, 0x6E] + (b +
      [0x53, 0x6F, 0x75, 0x6E, 0x64, 0x48, 0x61, 0x6E, 0x64, 0x6C, 0x65, 0x72, 0])), [])
  {
    var head, z := VersionAndFlags(0, 0), U32(0);
    a, b := head + z, Zeros(12);
    NoFlags();
    ZerosBlank(12);
    Four(0x76, 0x69, 0x64, 0x65);
    Four(0x73, 0x6F, 0x75, 0x6E);
    HandlerParts(head, z, U32(VIDE), b, VIDEO_HANDLER);
    HandlerParts(head, z, U32(SOUN), b, SOUND_HANDLER);
  }

  lemma {:induction false} HandlerParts(
    head: seq<byte>, z: seq<byte>, handler: seq<byte>, b: seq<byte>, name: seq<byte>)
    ensures head + (z + handler + b + name + [0]) == (head + z) + (handler + (b + (name + [0])))
  {
  }

  /** The decoder configuration: MPEG-4 audio, an audio stream, no buffer size, 128 kbit/s at most and on average. */
  lemma {:induction false} DecoderBytes()
    ensures DecoderConfigFields() == [0x40, 0x15, 0, 0, 0] + [0, 1, 0xF4, 0, 0, 1, 0xF4, 0]
  {
    Four(0, 1, 0xF4, 0);
    ZerosBlank(3);
    assert Zeros(3) == [0, 0, 0];
  }
}
