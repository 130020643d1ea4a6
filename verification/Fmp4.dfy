/** The fragmented-MP4 muxer. Every builder appends to a buffer, and what it appends is the layout of a box. */
module Fmp4 {
  import opened Bytes
  import opened BoxTree
  import opened AvcConfig

  datatype InitParams = InitParams(
    width: nat, height: nat, videoTimescale: nat, audioTimescale: nat, sps: seq<byte>, pps: seq<byte>,
    audioSpecificConfig: Option<seq<byte>>, hasAudio: bool)

  /** "VideoHandler" and "SoundHandler". */
  const VIDEO_HANDLER: seq<byte> := [0x56, 0x69, 0x64, 0x65, 0x6F, 0x48, 0x61, 0x6E, 0x64, 0x6C, 0x65, 0x72]
  const SOUND_HANDLER: seq<byte> := [0x53, 0x6F, 0x75, 0x6E, 0x64, 0x48, 0x61, 0x6E, 0x64, 0x6C, 0x65, 0x72]
  const VIDE := 0x76696465
  const SOUN := 0x736F756E

  function Zeros(n: nat): (r: seq<byte>)
    ensures |r| == n
    decreases n
  {
    if n == 0 then [] else Zeros(n - 1) + [0]
  }

  /** The unity transformation matrix. */
  function Matrix(): (r: seq<byte>)
    ensures |r| == 36
  {
    U32(0x1_0000) + U32(0) + U32(0) + U32(0) + U32(0x1_0000) + U32(0) + U32(0) + U32(0) + U32(0x4000_0000)
  }

  function VersionAndFlags(version: byte, flags: nat): (r: seq<byte>)
    ensures |r| == 4
  {
    [version] + U24(flags)
  }

  // ----- The intended boxes -----

  function FullLeaf(kind: nat, version: byte, flags: nat, content: seq<byte>): Box {
    Leaf(kind, VersionAndFlags(version, flags) + content)
  }

  function Ftyp(): Box {
    Leaf(FTYP, U32(0x69736F6D) + U32(0x200) + U32(0x69736F6D) + U32(0x69736F36) + U32(0x6D703431))
  }

  function Mvhd(timescale: nat): Box {
    FullLeaf(MVHD, 0, 0,
             U32(0) + U32(0) + U32(timescale) + U32(0) + U32(0x1_0000) + U16(0x100) + Zeros(10) + Matrix()
             + Zeros(24) + U32(2))
  }

  function Tkhd(trackId: nat, width: nat, height: nat, isVideo: bool): Box {
    FullLeaf(TKHD, 0, 3,
             U32(0) + U32(0) + U32(trackId) + U32(0) + U32(0) + Zeros(8) + U16(0) + U16(0)
             + U16(if isVideo then 0 else 0x100) + U16(0) + Matrix() + U32(width * 0x1_0000)
             + U32(height * 0x1_0000))
  }

  function Mdhd(timescale: nat): Box {
    FullLeaf(MDHD, 0, 0, U32(0) + U32(0) + U32(timescale) + U32(0) + U16(0x55C4) + U16(0))
  }

  function Hdlr(handler: nat, name: seq<byte>): Box {
    FullLeaf(HDLR, 0, 0, U32(0) + U32(handler) + Zeros(12) + name + [0])
  }

  function Url(): Box {
    FullLeaf(URL, 0, 1, [])
  }

  function Dref(): Box {
    Box(DREF, VersionAndFlags(0, 0) + U32(1), [Url()])
  }

  function Dinf(): Box {
    Box(DINF, [], [Dref()])
  }

  function AvcC(sps: seq<byte>, pps: seq<byte>): Box {
    Leaf(AVCC, AvcRecord(sps, pps))
  }

  function Avc1Fields(width: nat, height: nat): (r: seq<byte>)
    ensures |r| == 78
  {
    Zeros(6) + U16(1) + Zeros(16) + U16(width) + U16(height) + U32(0x48_0000) + U32(0x48_0000) + U32(0)
    + U16(1) + Zeros(32) + U16(0x18) + U16(-1)
  }

  function Avc1(p: InitParams): Box {
    Box(AVC1, Avc1Fields(p.width, p.height), [AvcC(p.sps, p.pps)])
  }

  function Mp4aFields(timescale: nat): (r: seq<byte>)
    ensures |r| == 28
  {
    Zeros(6) + U16(1) + Zeros(8) + U16(2) + U16(16) + U16(0) + U16(0) + U32(timescale * 0x1_0000)
  }

  /** A descriptor with the low byte of its length. */
  function Descriptor(tag: byte, content: seq<byte>): seq<byte> {
    [tag, |content| % 0x100] + content
  }

  function DecoderConfigFields(): (r: seq<byte>)
    ensures |r| == 13
  {
    [0x40, 0x15] + Zeros(3) + U32(128000) + U32(128000)
  }

  function DecoderConfig(asc: seq<byte>): seq<byte> {
    DecoderConfigFields() + Descriptor(5, asc)
  }

  function EsContent(asc: seq<byte>): seq<byte> {
    [0, 1, 0] + Descriptor(4, DecoderConfig(asc)) + Descriptor(6, [2])
  }

  function Esds(asc: seq<byte>): Box {
    FullLeaf(ESDS, 0, 0, Descriptor(3, EsContent(asc)))
  }

  function Mp4a(p: InitParams): Box {
    Box(MP4A, Mp4aFields(p.audioTimescale),
        if p.audioSpecificConfig.Some? then [Esds(p.audioSpecificConfig.value)] else [])
  }

  function Stsd(entry: Box): Box {
    Box(STSD, VersionAndFlags(0, 0) + U32(1), [entry])
  }

  function Stbl(entry: Box): Box {
    Box(STBL, [], [Stsd(entry), FullLeaf(STTS, 0, 0, U32(0)), FullLeaf(STSC, 0, 0, U32(0)),
                   FullLeaf(STSZ, 0, 0, Zeros(8)), FullLeaf(STCO, 0, 0, U32(0))])
  }

  function Vmhd(): Box {
    FullLeaf(VMHD, 0, 1, Zeros(8))
  }

  function Smhd(): Box {
    FullLeaf(SMHD, 0, 0, Zeros(4))
  }

  function Minf(header: Box, entry: Box): Box {
    Box(MINF, [], [header, Dinf(), Stbl(entry)])
  }

  function Mdia(timescale: nat, handler: Box, minf: Box): Box {
    Box(MDIA, [], [Mdhd(timescale), handler, minf])
  }

  function VideoTrak(p: InitParams): Box {
    Box(TRAK, [], [Tkhd(1, p.width, p.height, true),
                   Mdia(p.videoTimescale, Hdlr(VIDE, VIDEO_HANDLER), Minf(Vmhd(), Avc1(p)))])
  }

  function AudioTrak(p: InitParams): Box {
    Box(TRAK, [], [Tkhd(2, 0, 0, false),
                   Mdia(p.audioTimescale, Hdlr(SOUN, SOUND_HANDLER), Minf(Smhd(), Mp4a(p)))])
  }

  function Trex(trackId: nat): Box {
    FullLeaf(TREX, 0, 0, U32(trackId) + U32(1) + U32(0) + U32(0) + U32(0))
  }

  function Mvex(hasAudio: bool): Box {
    Box(MVEX, [], if hasAudio then [Trex(1), Trex(2)] else [Trex(1)])
  }

  function Moov(p: InitParams): Box {
    Box(MOOV, [], [Mvhd(p.videoTimescale), VideoTrak(p)] + (if p.hasAudio then [AudioTrak(p)] else [])
                  + [Mvex(p.hasAudio)])
  }

  /** An initialization segment: `ftyp`, then `moov` with its tracks and their defaults. */
  function InitTree(p: InitParams): seq<Box> {
    [Ftyp(), Moov(p)]
  }

  // ----- The builders -----

  method WriteBox(buf: BytesMut, kind: nat, content: seq<byte>)
    modifies buf
    ensures buf.data == old(buf.data) + Framed(kind, content)
  {
    var size := |content| + 8;
    buf.PutU32(size);
    buf.PutU32(kind);
    buf.PutSlice(content);
    Assoc(old(buf.data), U32(size), U32(kind), content);
  }

  method WriteFullBox(buf: BytesMut, kind: nat, version: byte, flags: nat, content: seq<byte>)
    modifies buf
    ensures buf.data == old(buf.data) + Framed(kind, VersionAndFlags(version, flags) + content)
  {
    var size := |content| + 12;
    buf.PutU32(size);
    buf.PutU32(kind);
    buf.PutU8(version);
    buf.PutSlice(U24(flags));
    buf.PutSlice(content);
    AssocFull(old(buf.data), U32(size), U32(kind), [version], U24(flags), content);
  }

  lemma {:induction false} AssocFull(a: seq<byte>, b: seq<byte>, c: seq<byte>, d: seq<byte>, e: seq<byte>, f: seq<byte>)
    ensures a + b + c + d + e + f == a + (b + (c + (d + e + f)))
  {
  }

  lemma {:induction false} Assoc(a: seq<byte>, b: seq<byte>, c: seq<byte>, d: seq<byte>)
    ensures a + b + c + d == a + (b + (c + d))
  {
  }

  method WriteFtyp(buf: BytesMut)
    modifies buf
    ensures buf.data == old(buf.data) + Write(Ftyp())
  {
    var content := new BytesMut();
    content.PutU32(0x69736F6D);
    content.PutU32(0x200);
    content.PutU32(0x69736F6D);
    content.PutU32(0x69736F36);
    content.PutU32(0x6D703431);
    LeafWrite(FTYP, content.data);
    WriteBox(buf, FTYP, content.data);
  }

  method PutMatrix(buf: BytesMut)
    modifies buf
    ensures buf.data == old(buf.data) + Matrix()
  {
    var matrix := new BytesMut();
    matrix.PutU32(0x1_0000);
    matrix.PutU32(0);
    matrix.PutU32(0);
    matrix.PutU32(0);
    matrix.PutU32(0x1_0000);
    matrix.PutU32(0);
    matrix.PutU32(0);
    matrix.PutU32(0);
    matrix.PutU32(0x4000_0000);
    buf.PutSlice(matrix.data);
  }

  method BuildMvhd(buf: BytesMut, timescale: nat)
    modifies buf
    ensures buf.data == old(buf.data) + Write(Mvhd(timescale))
  {
    var content := new BytesMut();
    content.PutU32(0);
    content.PutU32(0);
    content.PutU32(timescale);
    content.PutU32(0);
    content.PutU32(0x1_0000);
    content.PutU16(0x100);
    content.PutSlice(Zeros(10));
    PutMatrix(content);
    content.PutSlice(Zeros(24));
    content.PutU32(2);
    LeafWrite(MVHD, VersionAndFlags(0, 0) + content.data);
    WriteFullBox(buf, MVHD, 0, 0, content.data);
  }

  method BuildTkhd(buf: BytesMut, trackId: nat, width: nat, height: nat, isVideo: bool)
    modifies buf
    ensures buf.data == old(buf.data) + Write(Tkhd(trackId, width, height, isVideo))
  {
    var content := new BytesMut();
    content.PutU32(0);
    content.PutU32(0);
    content.PutU32(trackId);
    content.PutU32(0);
    content.PutU32(0);
    content.PutSlice(Zeros(8));
    content.PutU16(0);
    content.PutU16(0);
    content.PutU16(if isVideo then 0 else 0x100);
    content.PutU16(0);
    PutMatrix(content);
    content.PutU32(width * 0x1_0000);
    content.PutU32(height * 0x1_0000);
    LeafWrite(TKHD, VersionAndFlags(0, 3) + content.data);
    WriteFullBox(buf, TKHD, 0, 3, content.data);
  }

  method BuildMdhd(buf: BytesMut, timescale: nat)
    modifies buf
    ensures buf.data == old(buf.data) + Write(Mdhd(timescale))
  {
    var content := new BytesMut();
    content.PutU32(0);
    content.PutU32(0);
    content.PutU32(timescale);
    content.PutU32(0);
    content.PutU16(0x55C4);
    content.PutU16(0);
    LeafWrite(MDHD, VersionAndFlags(0, 0) + content.data);
    WriteFullBox(buf, MDHD, 0, 0, content.data);
  }

  method BuildHdlr(buf: BytesMut, handler: nat, name: seq<byte>)
    modifies buf
    ensures buf.data == old(buf.data) + Write(Hdlr(handler, name))
  {
    var content := new BytesMut();
    content.PutU32(0);
    content.PutU32(handler);
    content.PutSlice(Zeros(12));
    content.PutSlice(name);
    content.PutU8(0);
    LeafWrite(HDLR, VersionAndFlags(0, 0) + content.data);
    WriteFullBox(buf, HDLR, 0, 0, content.data);
  }

  method WriteFullLeaf(buf: BytesMut, kind: nat, version: byte, flags: nat, content: seq<byte>)
    modifies buf
    ensures buf.data == old(buf.data) + Write(FullLeaf(kind, version, flags, content))
  {
    LeafWrite(kind, VersionAndFlags(version, flags) + content);
    WriteFullBox(buf, kind, version, flags, content);
  }

  /** An entry list: a full box around an entry count of one and the entry. */
  method WriteEntryBox(buf: BytesMut, kind: nat, entry: Box, written: seq<byte>)
    requires written == U32(1) + Write(entry)
    modifies buf
    ensures buf.data == old(buf.data) + Write(Box(kind, VersionAndFlags(0, 0) + U32(1), [entry]))
  {
    WriteOne(entry);
    assert VersionAndFlags(0, 0) + U32(1) + Write(entry) == VersionAndFlags(0, 0) + (U32(1) + Write(entry));
    WriteFullBox(buf, kind, 0, 0, written);
  }

  method BuildDinf(buf: BytesMut)
    modifies buf
    ensures buf.data == old(buf.data) + Write(Dinf())
  {
    var drefContent := new BytesMut();
    drefContent.PutU32(1);
    WriteFullLeaf(drefContent, URL, 0, 1, []);
    var dinfContent := new BytesMut();
    WriteEntryBox(dinfContent, DREF, Url(), drefContent.data);
    WriteOne(Dref());
    ContainerWrite(DINF, [Dref()]);
    assert [] + Write(Dref()) == Write(Dref());
    WriteBox(buf, DINF, dinfContent.data);
  }

  method BuildAvcC(buf: BytesMut, sps: seq<byte>, pps: seq<byte>)
    modifies buf
    ensures buf.data == old(buf.data) + Write(AvcC(sps, pps))
  {
    var content := new BytesMut();
    content.PutU8(1);
    content.PutU8(ByteOr(sps, 1, 100));
    content.PutU8(ByteOr(sps, 2, 0));
    content.PutU8(ByteOr(sps, 3, 41));
    content.PutU8(0xFF);
    content.PutU8(0xE1);
    var head := content.data;
    assert head == [1, ByteOr(sps, 1, 100), ByteOr(sps, 2, 0), ByteOr(sps, 3, 41), 0xFF, 0xE1];
    content.PutU16(|sps|);
    content.PutSlice(sps);
    content.PutU8(1);
    content.PutU16(|pps|);
    content.PutSlice(pps);
    Assoc(head + U16(|sps|) + sps, [1], U16(|pps|), pps);
    Assoc(head, U16(|sps|), sps, [1] + (U16(|pps|) + pps));
    LeafWrite(AVCC, content.data);
    WriteBox(buf, AVCC, content.data);
  }

  method BuildAvc1Entry(buf: BytesMut, p: InitParams)
    modifies buf
    ensures buf.data == old(buf.data) + Write(Avc1(p))
  {
    var content := new BytesMut();
    content.PutSlice(Zeros(6));
    content.PutU16(1);
    content.PutSlice(Zeros(16));
    content.PutU16(p.width);
    content.PutU16(p.height);
    content.PutU32(0x48_0000);
    content.PutU32(0x48_0000);
    content.PutU32(0);
    content.PutU16(1);
    content.PutSlice(Zeros(32));
    content.PutU16(0x18);
    content.PutU16(-1);
    assert content.data == Avc1Fields(p.width, p.height);
    BuildAvcC(content, p.sps, p.pps);
    WriteOne(AvcC(p.sps, p.pps));
    WriteBox(buf, AVC1, content.data);
  }

  method BuildEsds(buf: BytesMut, asc: seq<byte>)
    modifies buf
    ensures buf.data == old(buf.data) + Write(Esds(asc))
  {
    var content := new BytesMut();
    content.PutU8(3);
    content.PutU8((23 + |asc|) % 0x100);
    content.PutSlice([0, 1]);
    content.PutU8(0);
    ghost var head := content.data;
    assert head == [3, (23 + |asc|) % 0x100] + [0, 1, 0];
    content.PutU8(4);
    content.PutU8((15 + |asc|) % 0x100);
    assert content.data == head + [4, (15 + |asc|) % 0x100];
    PutDecoderConfig(content);
    PutDescriptor(content, 5, asc);
    PutDescriptor(content, 6, [2]);
    EsdsLayout(asc);
    WriteFullLeaf(buf, ESDS, 0, 0, content.data);
  }

  method PutDescriptor(buf: BytesMut, tag: byte, body: seq<byte>)
    modifies buf
    ensures buf.data == old(buf.data) + Descriptor(tag, body)
  {
    buf.PutU8(tag);
    buf.PutU8(|body| % 0x100);
    buf.PutSlice(body);
  }

  method PutDecoderConfig(buf: BytesMut)
    modifies buf
    ensures buf.data == old(buf.data) + DecoderConfigFields()
  {
    var config := new BytesMut();
    config.PutU8(0x40);
    config.PutU8(0x15);
    assert config.data == [0x40, 0x15];
    config.PutSlice(Zeros(3));
    config.PutU32(128000);
    config.PutU32(128000);
    buf.PutSlice(config.data);
  }

  /** The hand-computed descriptor lengths are those of the descriptors' contents. */
  lemma {:induction false} EsdsLayout(asc: seq<byte>)
    ensures [3, (23 + |asc|) % 0x100] + [0, 1, 0] + [4, (15 + |asc|) % 0x100] + DecoderConfigFields()
            + Descriptor(5, asc) + Descriptor(6, [2])
         == Descriptor(3, EsContent(asc))
  {
    assert |DecoderConfig(asc)| == 15 + |asc| && |EsContent(asc)| == 23 + |asc|;
    Nest([3, (23 + |asc|) % 0x100], [0, 1, 0], [4, (15 + |asc|) % 0x100], DecoderConfigFields(),
         Descriptor(5, asc), Descriptor(6, [2]));
  }

  lemma {:induction false} Nest(a: seq<byte>, b: seq<byte>, c: seq<byte>, d: seq<byte>, e: seq<byte>, f: seq<byte>)
    ensures a + b + c + d + e + f == a + (b + (c + (d + e)) + f)
  {
  }

  method BuildMp4aEntry(buf: BytesMut, p: InitParams)
    modifies buf
    ensures buf.data == old(buf.data) + Write(Mp4a(p))
  {
    var content := new BytesMut();
    content.PutSlice(Zeros(6));
    content.PutU16(1);
    content.PutSlice(Zeros(8));
    content.PutU16(2);
    content.PutU16(16);
    content.PutU16(0);
    content.PutU16(0);
    content.PutU32(p.audioTimescale * 0x1_0000);
    var fields := content.data;
    assert fields == Mp4aFields(p.audioTimescale);
    if p.audioSpecificConfig.Some? {
      BuildEsds(content, p.audioSpecificConfig.value);
      WriteOne(Esds(p.audioSpecificConfig.value));
    } else {
      assert fields + WriteAll([]) == fields;
    }
    WriteBox(buf, MP4A, content.data);
  }

  /** The sample table of either track, around an already written sample entry. */
  method BuildStbl(buf: BytesMut, entry: Box, written: seq<byte>)
    requires written == Write(entry)
    modifies buf
    ensures buf.data == old(buf.data) + Write(Stbl(entry))
  {
    var content := new BytesMut();
    var stsdContent := new BytesMut();
    stsdContent.PutU32(1);
    stsdContent.PutSlice(written);
    WriteEntryBox(content, STSD, entry, stsdContent.data);
    WriteFullLeaf(content, STTS, 0, 0, U32(0));
    WriteFullLeaf(content, STSC, 0, 0, U32(0));
    WriteFullLeaf(content, STSZ, 0, 0, Zeros(8));
    WriteFullLeaf(content, STCO, 0, 0, U32(0));
    assert [] + Write(Stsd(entry)) == Write(Stsd(entry));
    WriteFive(Stsd(entry), FullLeaf(STTS, 0, 0, U32(0)), FullLeaf(STSC, 0, 0, U32(0)),
              FullLeaf(STSZ, 0, 0, Zeros(8)), FullLeaf(STCO, 0, 0, U32(0)));
    ContainerWrite(STBL, Stbl(entry).children);
    WriteBox(buf, STBL, content.data);
  }

  method BuildVideoStbl(buf: BytesMut, p: InitParams)
    modifies buf
    ensures buf.data == old(buf.data) + Write(Stbl(Avc1(p)))
  {
    var entry := new BytesMut();
    BuildAvc1Entry(entry, p);
    assert [] + Write(Avc1(p)) == Write(Avc1(p));
    BuildStbl(buf, Avc1(p), entry.data);
  }

  method BuildAudioStbl(buf: BytesMut, p: InitParams)
    modifies buf
    ensures buf.data == old(buf.data) + Write(Stbl(Mp4a(p)))
  {
    var entry := new BytesMut();
    BuildMp4aEntry(entry, p);
    assert [] + Write(Mp4a(p)) == Write(Mp4a(p));
    BuildStbl(buf, Mp4a(p), entry.data);
  }

  method BuildVideoTrak(buf: BytesMut, p: InitParams)
    modifies buf
    ensures buf.data == old(buf.data) + Write(VideoTrak(p))
  {
    var trakContent := new BytesMut();
    var mdiaContent := new BytesMut();
    var minfContent := new BytesMut();
    BuildTkhd(trakContent, 1, p.width, p.height, true);
    BuildMdhd(mdiaContent, p.videoTimescale);
    BuildHdlr(mdiaContent, VIDE, VIDEO_HANDLER);
    WriteFullLeaf(minfContent, VMHD, 0, 1, Zeros(8));
    BuildDinf(minfContent);
    BuildVideoStbl(minfContent, p);
    NestTrak(buf, trakContent, mdiaContent, minfContent, Tkhd(1, p.width, p.height, true), p.videoTimescale,
             Hdlr(VIDE, VIDEO_HANDLER), Vmhd(), Avc1(p));
  }

  method BuildAudioTrak(buf: BytesMut, p: InitParams)
    modifies buf
    ensures buf.data == old(buf.data) + Write(AudioTrak(p))
  {
    var trakContent := new BytesMut();
    var mdiaContent := new BytesMut();
    var minfContent := new BytesMut();
    BuildTkhd(trakContent, 2, 0, 0, false);
    BuildMdhd(mdiaContent, p.audioTimescale);
    BuildHdlr(mdiaContent, SOUN, SOUND_HANDLER);
    WriteFullLeaf(minfContent, SMHD, 0, 0, Zeros(4));
    BuildDinf(minfContent);
    BuildAudioStbl(minfContent, p);
    NestTrak(buf, trakContent, mdiaContent, minfContent, Tkhd(2, 0, 0, false), p.audioTimescale,
             Hdlr(SOUN, SOUND_HANDLER), Smhd(), Mp4a(p));
  }

  /** Wraps `minf` into `mdia`, that into `trak`, and that into the output. */
  method NestTrak(
    buf: BytesMut, trakContent: BytesMut, mdiaContent: BytesMut, minfContent: BytesMut,
    ghost tkhd: Box, ghost timescale: nat, ghost hdlr: Box, ghost header: Box, ghost entry: Box)
    requires buf != trakContent && trakContent != mdiaContent && mdiaContent != buf
    requires trakContent.data == [] + Write(tkhd)
    requires mdiaContent.data == [] + Write(Mdhd(timescale)) + Write(hdlr)
    requires minfContent.data == [] + Write(header) + Write(Dinf()) + Write(Stbl(entry))
    modifies buf, trakContent, mdiaContent
    ensures var minf := Minf(header, entry);
      buf.data == old(buf.data) + Write(Box(TRAK, [], [tkhd, Mdia(timescale, hdlr, minf)]))
  {
    ghost var minf := Minf(header, entry);
    ghost var mdia := Mdia(timescale, hdlr, minf);
    assert minfContent.data == WriteAll(minf.children) by {
      assert [] + Write(header) == Write(header);
      WriteThree(header, Dinf(), Stbl(entry));
    }
    ContainerWrite(MINF, minf.children);
    WriteBox(mdiaContent, MINF, minfContent.data);
    assert mdiaContent.data == WriteAll(mdia.children) by {
      assert [] + Write(Mdhd(timescale)) == Write(Mdhd(timescale));
      WriteThree(Mdhd(timescale), hdlr, minf);
    }
    ContainerWrite(MDIA, mdia.children);
    WriteBox(trakContent, MDIA, mdiaContent.data);
    assert trakContent.data == WriteAll([tkhd, mdia]) by {
      assert [] + Write(tkhd) == Write(tkhd);
      WriteTwo(tkhd, mdia);
    }
    ContainerWrite(TRAK, [tkhd, mdia]);
    WriteBox(buf, TRAK, trakContent.data);
  }

  method BuildTrex(buf: BytesMut, trackId: nat)
    modifies buf
    ensures buf.data == old(buf.data) + Write(Trex(trackId))
  {
    var content := new BytesMut();
    content.PutU32(trackId);
    content.PutU32(1);
    content.PutU32(0);
    content.PutU32(0);
    content.PutU32(0);
    WriteFullLeaf(buf, TREX, 0, 0, content.data);
  }

  method BuildMvex(buf: BytesMut, hasAudio: bool)
    modifies buf
    ensures buf.data == old(buf.data) + Write(Mvex(hasAudio))
  {
    var content := new BytesMut();
    ghost var bs: seq<Box> := [];
    BuildTrex(content, 1);
    WriteAllAppend(bs, Trex(1));
    bs := bs + [Trex(1)];
    if hasAudio {
      BuildTrex(content, 2);
      WriteAllAppend(bs, Trex(2));
      bs := bs + [Trex(2)];
    }
    assert bs == Mvex(hasAudio).children;
    ContainerWrite(MVEX, Mvex(hasAudio).children);
    WriteBox(buf, MVEX, content.data);
  }

  method BuildMoov(p: InitParams) returns (moov: seq<byte>)
    ensures moov == Write(Moov(p))
  {
    var content := new BytesMut();
    BuildMvhd(content, p.videoTimescale);
    assert content.data == Write(Mvhd(p.videoTimescale));
    BuildVideoTrak(content, p);
    ghost var bs := [Mvhd(p.videoTimescale), VideoTrak(p)];
    WriteTwo(Mvhd(p.videoTimescale), VideoTrak(p));
    if p.hasAudio {
      BuildAudioTrak(content, p);
      WriteAllAppend(bs, AudioTrak(p));
      bs := bs + [AudioTrak(p)];
    }
    BuildMvex(content, p.hasAudio);
    WriteAllAppend(bs, Mvex(p.hasAudio));
    assert bs + [Mvex(p.hasAudio)] == Moov(p).children;
    ContainerWrite(MOOV, Moov(p).children);
    var buf := new BytesMut();
    WriteBox(buf, MOOV, content.data);
    assert [] + Write(Moov(p)) == Write(Moov(p));
    return buf.data;
  }

  /** `generate_init_segment`; it has no way to fail. */
  method GenerateInitSegment(p: InitParams) returns (data: seq<byte>)
    ensures data == WriteAll(InitTree(p))
  {
    var buf := new BytesMut();
    WriteFtyp(buf);
    assert buf.data == Write(Ftyp());
    var moov := BuildMoov(p);
    buf.PutSlice(moov);
    WriteTwo(Ftyp(), Moov(p));
    return buf.data;
  }

  // ----- The segment parses back into its tree -----

  lemma {:induction false} FullLeafShaped(kind: nat, version: byte, flags: nat, content: seq<byte>)
    requires kind < TWO_TO_32 && ChildOffset(kind) == None
    ensures Shaped(FullLeaf(kind, version, flags, content))
  {
    LeafShaped(kind, VersionAndFlags(version, flags) + content);
  }

  lemma {:induction false} Avc1Shaped(p: InitParams)
    ensures Shaped(Avc1(p))
  {
    LeafShaped(AVCC, AvcRecord(p.sps, p.pps));
    NodeShaped(AVC1, Avc1Fields(p.width, p.height), [AvcC(p.sps, p.pps)]);
  }

  lemma {:induction false} Mp4aShaped(p: InitParams)
    ensures Shaped(Mp4a(p))
  {
    if p.audioSpecificConfig.Some? {
      LeafShaped(ESDS, Esds(p.audioSpecificConfig.value).fields);
    }
    NodeShaped(MP4A, Mp4aFields(p.audioTimescale), Mp4a(p).children);
  }

  lemma {:induction false} StblShaped(entry: Box)
    requires Shaped(entry)
    ensures Shaped(Stbl(entry))
  {
    NodeShaped(STSD, VersionAndFlags(0, 0) + U32(1), [entry]);
    FullLeafShaped(STTS, 0, 0, U32(0));
    FullLeafShaped(STSC, 0, 0, U32(0));
    FullLeafShaped(STSZ, 0, 0, Zeros(8));
    FullLeafShaped(STCO, 0, 0, U32(0));
    NodeShaped(STBL, [], Stbl(entry).children);
  }

  lemma {:induction false} MinfShaped(header: Box, entry: Box)
    requires Shaped(header) && Shaped(entry)
    ensures Shaped(Minf(header, entry))
  {
    FullLeafShaped(URL, 0, 1, []);
    NodeShaped(DREF, VersionAndFlags(0, 0) + U32(1), [Url()]);
    NodeShaped(DINF, [], [Dref()]);
    StblShaped(entry);
    NodeShaped(MINF, [], [header, Dinf(), Stbl(entry)]);
  }

  lemma {:induction false} TrakShaped(tkhd: Box, timescale: nat, hdlr: Box, header: Box, entry: Box)
    requires Shaped(tkhd) && Shaped(hdlr) && Shaped(header) && Shaped(entry)
    ensures Shaped(Box(TRAK, [], [tkhd, Mdia(timescale, hdlr, Minf(header, entry))]))
  {
    var minf := Minf(header, entry);
    MinfShaped(header, entry);
    FullLeafShaped(MDHD, 0, 0, U32(0) + U32(0) + U32(timescale) + U32(0) + U16(0x55C4) + U16(0));
    NodeShaped(MDIA, [], [Mdhd(timescale), hdlr, minf]);
    NodeShaped(TRAK, [], [tkhd, Mdia(timescale, hdlr, minf)]);
  }

  lemma {:induction false} VideoTrakShaped(p: InitParams)
    ensures Shaped(VideoTrak(p))
  {
    var tkhd, hdlr, header, entry :=
      Tkhd(1, p.width, p.height, true), Hdlr(VIDE, VIDEO_HANDLER), Vmhd(), Avc1(p);
    assert Shaped(tkhd) by {
      ChildlessShaped(tkhd);
    }
    assert Shaped(hdlr) by {
      ChildlessShaped(hdlr);
    }
    assert Shaped(header) by {
      ChildlessShaped(header);
    }
    assert Shaped(entry) by {
      Avc1Shaped(p);
    }
    TrakShaped(tkhd, p.videoTimescale, hdlr, header, entry);
  }

  lemma {:induction false} AudioTrakShaped(p: InitParams)
    ensures Shaped(AudioTrak(p))
  {
    var tkhd, hdlr, header, entry := Tkhd(2, 0, 0, false), Hdlr(SOUN, SOUND_HANDLER), Smhd(), Mp4a(p);
    assert Shaped(tkhd) by {
      ChildlessShaped(tkhd);
    }
    assert Shaped(hdlr) by {
      ChildlessShaped(hdlr);
    }
    assert Shaped(header) by {
      ChildlessShaped(header);
    }
    assert Shaped(entry) by {
      Mp4aShaped(p);
    }
    TrakShaped(tkhd, p.audioTimescale, hdlr, header, entry);
  }

  lemma {:induction false} MvexShaped(hasAudio: bool)
    ensures Shaped(Mvex(hasAudio))
  {
    LeafShaped(TREX, Trex(1).fields);
    LeafShaped(TREX, Trex(2).fields);
    NodeShaped(MVEX, [], Mvex(hasAudio).children);
  }

  lemma {:induction false} MoovShaped(p: InitParams)
    ensures Shaped(Moov(p))
  {
    LeafShaped(MVHD, Mvhd(p.videoTimescale).fields);
    VideoTrakShaped(p);
    AudioTrakShaped(p);
    MvexShaped(p.hasAudio);
    NodeShaped(MOOV, [], Moov(p).children);
  }

  lemma {:induction false} FitsTwo(a: Box, b: Box)
    ensures AllFit([a, b]) <==> |Write(a)| < TWO_TO_32 && |Write(b)| < TWO_TO_32
  {
    FitsOutermost(a);
    FitsOutermost(b);
    assert [a, b][1..] == [b] && [b][1..] == [];
    assert AllFit([b]) <==> Fits(b);
    assert AllFit([a, b]) <==> Fits(a) && AllFit([b]);
  }

  /** A box parser consumes the whole initialization segment, with no bytes left at any level, and recovers the
      intended tree, exactly when the movie box fits a 32-bit size. */
  lemma {:induction false} InitSegmentRoundTrip(p: InitParams)
    ensures Parse(WriteAll(InitTree(p))) == Some(InitTree(p)) <==> |Write(Moov(p))| < TWO_TO_32
  {
    MoovShaped(p);
    LeafShaped(FTYP, Ftyp().fields);
    ShapedList(InitTree(p));
    TreeRoundTrip(InitTree(p));
    FitsTwo(Ftyp(), Moov(p));
  }
}
