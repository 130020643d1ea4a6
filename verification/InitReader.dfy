/** A reader of initialization segments, box by box at the places that section 8 of ISO/IEC 14496-12 gives the fields:
    what it finds is what the segment was generated from. */
module InitReader {
  import opened Bytes
  import opened BoxTree
  import opened AvcConfig
  import opened Fmp4
  import D = Descriptors

  /** Picture sizes of a video track are there twice: for the presentation and for the coded samples. */
  datatype Track =
    | Video(id: nat, width: nat, height: nat, timescale: nat, codedWidth: nat, codedHeight: nat, record: Record)
    | Audio(id: nat, timescale: nat, channels: nat, rate: nat, config: Option<seq<byte>>)

  /** `defaults` are the tracks that fragments may belong to. */
  datatype Movie = Movie(timescale: nat, tracks: seq<Track>, defaults: seq<nat>)

  // ----- Finding boxes and fields -----
  // Box types are the four characters of their names as a number: `avc1` is 0x61766331.

  /** The first box of a type. */
  function Find(boxes: seq<Box>, kind: nat): Option<Box> {
    if boxes == [] then None else if boxes[0].kind == kind then Some(boxes[0]) else Find(boxes[1..], kind)
  }

  function Child(b: Option<Box>, kind: nat): Option<Box> {
    if b.None? then None else Find(b.value.children, kind)
  }

  /** The number in `n` bytes of the box's fields. */
  function Field(b: Option<Box>, at: nat, n: nat): Option<nat> {
    if b.None? || |b.value.fields| < at + n then None else Some(Number(b.value.fields[at..at + n]))
  }

  /** Its version and flags. */
  predicate Headed(b: Option<Box>, head: seq<byte>) {
    b.Some? && |b.value.fields| >= 4 && b.value.fields[..4] == head
  }

  // ----- Reading -----

  /** Section 12.1.3: an `avc1` entry and its decoder configuration. */
  function ReadVideo(id: nat, width: nat, height: nat, timescale: nat, stsd: Option<Box>): Option<Track> {
    var entry := Child(stsd, 0x61766331);
    var w, h, avcC := Field(entry, 24, 2), Field(entry, 26, 2), Child(entry, 0x61766343);
    if w.None? || h.None? || avcC.None? then None
    else
      var record := ReadRecord(avcC.value.fields);
      if record.None? then None else Some(Video(id, width, height, timescale, w.value, h.value, record.value))
  }

  /** The decoder specific information in an `esds` box, whose stream has no optional fields. */
  function AudioConfig(esds: Box): Option<seq<byte>> {
    if |esds.fields| < 4 then None
    else
      var es := D.Parse(esds.fields[4..]);
      if es.None? || |es.value| != 1 || es.value[0].tag != 3 || |es.value[0].fields| < 3 || es.value[0].fields[2] != 0
         || |es.value[0].children| < 1 then None
      else
        var config := es.value[0].children[0];
        if config.tag != 4 || |config.fields| < 1 || config.fields[0] != 0x40 || |config.children| != 1
           || config.children[0].tag != 5 then None
        else Some(config.children[0].fields)
  }

  /** Section 12.2.3: an `mp4a` entry, whose sampling rate is a 16.16 number. */
  function ReadAudio(id: nat, timescale: nat, stsd: Option<Box>): Option<Track> {
    var entry := Child(stsd, 0x6D703461);
    var channels, rate, esds := Field(entry, 16, 2), Field(entry, 24, 4), Child(entry, 0x65736473);
    if channels.None? || rate.None? then None
    else if esds.None? then Some(Audio(id, timescale, channels.value, rate.value / 0x1_0000, None))
    else
      var config := AudioConfig(esds.value);
      if config.None? then None else Some(Audio(id, timescale, channels.value, rate.value / 0x1_0000, config))
  }

  /** A track that is enabled and in the movie: its header, its timescale, and by its handler video or audio. Width and
      height are 16.16 numbers. */
  function ReadTrack(trak: Box): Option<Track> {
    // tkhd; mdia; in it mdhd, hdlr, and minf with stbl with stsd
    var tkhd, mdia := Find(trak.children, 0x746B6864), Find(trak.children, 0x6D646961);
    var stsd := Child(Child(Child(mdia, 0x6D696E66), 0x7374626C), 0x73747364);
    var id, w, h := Field(tkhd, 12, 4), Field(tkhd, 76, 4), Field(tkhd, 80, 4);
    var timescale, handler := Field(Child(mdia, 0x6D646864), 12, 4), Field(Child(mdia, 0x68646C72), 8, 4);
    if !Headed(tkhd, [0, 0, 0, 3]) || id.None? || w.None? || h.None? || timescale.None? || handler.None? then None
    else if handler.value == 0x76696465 then
      ReadVideo(id.value, w.value / 0x1_0000, h.value / 0x1_0000, timescale.value, stsd)
    else if handler.value == 0x736F756E then ReadAudio(id.value, timescale.value, stsd)
    else None
  }

  function ReadTracks(boxes: seq<Box>): Option<seq<Track>> {
    if boxes == [] then Some([])
    else
      var rest := ReadTracks(boxes[1..]);
      if rest.None? then None
      else if boxes[0].kind != 0x7472616B then rest
      else
        var track := ReadTrack(boxes[0]);
        if track.None? then None else Some([track.value] + rest.value)
  }

  function ReadDefaults(boxes: seq<Box>): Option<seq<nat>> {
    if boxes == [] then Some([])
    else
      var rest, id := ReadDefaults(boxes[1..]), Field(Some(boxes[0]), 4, 4);
      if rest.None? then None
      else if boxes[0].kind != 0x74726578 then rest
      else if id.None? then None
      else Some([id.value] + rest.value)
  }

  function ReadMoov(moov: Box): Option<Movie> {
    var timescale := Field(Find(moov.children, 0x6D766864), 12, 4); // mvhd
    var tracks, mvex := ReadTracks(moov.children), Find(moov.children, 0x6D766578);
    if timescale.None? || tracks.None? || mvex.None? then None
    else
      var defaults := ReadDefaults(mvex.value.children);
      if defaults.None? then None else Some(Movie(timescale.value, tracks.value, defaults.value))
  }

  function ReadInit(file: seq<byte>): Option<Movie> {
    match Parse(file)
    case None => None
    case Some(boxes) =>
      var moov := Find(boxes, 0x6D6F6F76);
      if moov.None? then None else ReadMoov(moov.value)
  }

  // ----- Places -----

  lemma {:induction false} TkhdPlaces(
    head: seq<byte>, a: seq<byte>, b: seq<byte>, id: seq<byte>, c: seq<byte>, d: seq<byte>, e: seq<byte>, f: seq<byte>,
    g: seq<byte>, volume: seq<byte>, k: seq<byte>, matrix: seq<byte>, w: seq<byte>, h: seq<byte>)
    requires |head| == |a| == |b| == |id| == |c| == |d| == |w| == |h| == 4 && |e| == 8 && |matrix| == 36
    requires |f| == |g| == |volume| == |k| == 2
    ensures var x := head + (a + b + id + c + d + e + f + g + volume + k + matrix + w + h);
      |x| == 84 && x[..4] == head && x[12..16] == id && x[76..80] == w && x[80..84] == h
  {
    var front := a + b + id;
    var middle := c + d + e + f + g + volume + k + matrix;
    assert a + b + id + c + d + e + f + g + volume + k + matrix + w + h == front + (middle + (w + h));
    assert |front| == 12 && |middle| == 60;
    FrontAndBack(head, front, middle, w, h);
    assert front[8..12] == id;
  }

  lemma {:induction false} FrontAndBack(
    head: seq<byte>, front: seq<byte>, middle: seq<byte>, w: seq<byte>, h: seq<byte>)
    requires |head| == |w| == |h| == 4 && |front| == 12 && |middle| == 60
    ensures var x := head + (front + (middle + (w + h)));
      |x| == 84 && x[..4] == head && x[12..16] == front[8..12] && x[76..80] == w && x[80..84] == h
  {
  }

  lemma {:induction false} ThirdWord(head: seq<byte>, a: seq<byte>, b: seq<byte>, word: seq<byte>, rest: seq<byte>)
    requires |head| == |a| == |b| == |word| == 4
    ensures var x := head + (a + b + word + rest); |x| >= 16 && x[12..16] == word
  {
  }

  lemma {:induction false} SecondWord(head: seq<byte>, a: seq<byte>, word: seq<byte>, rest: seq<byte>)
    requires |head| == |a| == |word| == 4
    ensures var x := head + (a + word + rest); |x| >= 12 && x[8..12] == word
  {
  }

  /** The whole part of a 16.16 number. */
  lemma {:induction false} WholePart(v: nat)
    ensures Wrap32(v * 0x1_0000) / 0x1_0000 == v % 0x1_0000
    ensures v % 0x1_0000 == v <==> v < 0x1_0000
  {
    var q, r := v / 0x1_0000, v % 0x1_0000;
    assert v * 0x1_0000 == 0x1_0000_0000 * q + r * 0x1_0000;
    Quotient(v * 0x1_0000, 0x1_0000_0000, q, r * 0x1_0000);
    Quotient(r * 0x1_0000, 0x1_0000, r, 0);
  }

  // ----- Headers -----

  lemma {:induction false} TkhdRead(id: nat, width: nat, height: nat, isVideo: bool)
    ensures var b := Some(Tkhd(id, width, height, isVideo));
      && Headed(b, VersionAndFlags(0, 3)) && Field(b, 12, 4) == Some(Wrap32(id))
      && Field(b, 76, 4) == Some(Wrap32(width * 0x1_0000)) && Field(b, 80, 4) == Some(Wrap32(height * 0x1_0000))
  {
    var w, h, volume := width * 0x1_0000, height * 0x1_0000, U16(if isVideo then 0 else 0x100);
    U32Value(id);
    U32Value(w);
    U32Value(h);
    TkhdPlaces(VersionAndFlags(0, 3), U32(0), U32(0), U32(id), U32(0), U32(0), Zeros(8), U16(0), U16(0), volume, U16(0),
               Matrix(), U32(w), U32(h));
  }

  lemma {:induction false} MdhdRead(timescale: nat)
    ensures Field(Some(Mdhd(timescale)), 12, 4) == Some(Wrap32(timescale))
  {
    U32Value(timescale);
    var rest := U32(0) + U16(0x55C4) + U16(0);
    ThirdWord(VersionAndFlags(0, 0), U32(0), U32(0), U32(timescale), rest);
    assert U32(0) + U32(0) + U32(timescale) + U32(0) + U16(0x55C4) + U16(0)
        == U32(0) + U32(0) + U32(timescale) + rest;
  }

  lemma {:induction false} MvhdRead(timescale: nat)
    ensures Field(Some(Mvhd(timescale)), 12, 4) == Some(Wrap32(timescale))
  {
    U32Value(timescale);
    var a, b, c, d, e, f := U32(0), U32(0x1_0000), U16(0x100), Zeros(10), Matrix(), Zeros(24);
    var rest := a + b + c + d + e + f + U32(2);
    ThirdWord(VersionAndFlags(0, 0), a, a, U32(timescale), rest);
    SevenMore(a + a + U32(timescale), a, b, c, d, e, f, U32(2));
  }

  lemma {:induction false} SevenMore(
    x: seq<byte>, a: seq<byte>, b: seq<byte>, c: seq<byte>, d: seq<byte>, e: seq<byte>, f: seq<byte>, g: seq<byte>)
    ensures x + a + b + c + d + e + f + g == x + (a + b + c + d + e + f + g)
  {
  }

  lemma {:induction false} HdlrRead(handler: nat, name: seq<byte>)
    requires handler < TWO_TO_32
    ensures Field(Some(Hdlr(handler, name)), 8, 4) == Some(handler)
  {
    U32Value(handler);
    SecondWord(VersionAndFlags(0, 0), U32(0), U32(handler), Zeros(12) + name + [0]);
    assert U32(0) + U32(handler) + Zeros(12) + name + [0] == U32(0) + U32(handler) + (Zeros(12) + name + [0]);
  }

  lemma {:induction false} EntryPlaces(
    a: seq<byte>, b: seq<byte>, c: seq<byte>, w: seq<byte>, h: seq<byte>, rest: seq<byte>)
    requires |a| == 6 && |b| == |w| == |h| == 2 && |c| == 16
    ensures var x := a + b + c + w + h + rest; |x| >= 28 && x[24..26] == w && x[26..28] == h
  {
  }

  lemma {:induction false} Avc1Read(width: nat, height: nat, children: seq<Box>)
    ensures var b := Some(Box(AVC1, Avc1Fields(width, height), children));
      Field(b, 24, 2) == Some(width % 0x1_0000) && Field(b, 26, 2) == Some(height % 0x1_0000)
  {
    U16Value(width);
    U16Value(height);
    var a, b, c, d, e, f, g := U32(0x48_0000), U32(0x48_0000), U32(0), U16(1), Zeros(32), U16(0x18), U16(-1);
    EntryPlaces(Zeros(6), U16(1), Zeros(16), U16(width), U16(height), a + b + c + d + e + f + g);
    SevenMore(Zeros(6) + U16(1) + Zeros(16) + U16(width) + U16(height), a, b, c, d, e, f, g);
  }

  lemma {:induction false} SoundPlaces(
    a: seq<byte>, b: seq<byte>, c: seq<byte>, channels: seq<byte>, d: seq<byte>, e: seq<byte>, f: seq<byte>,
    rate: seq<byte>)
    requires |a| == 6 && |b| == |channels| == |d| == |e| == |f| == 2 && |c| == 8 && |rate| == 4
    ensures var x := a + b + c + channels + d + e + f + rate; |x| == 28 && x[16..18] == channels && x[24..28] == rate
  {
  }

  lemma {:induction false} Mp4aRead(timescale: nat, children: seq<Box>)
    ensures var b := Some(Box(MP4A, Mp4aFields(timescale), children));
      Field(b, 16, 2) == Some(2) && Field(b, 24, 4) == Some(Wrap32(timescale * 0x1_0000))
  {
    var rate := timescale * 0x1_0000;
    U16Value(2);
    U32Value(rate);
    SoundPlaces(Zeros(6), U16(1), Zeros(8), U16(2), U16(16), U16(0), U16(0), U32(rate));
  }

  lemma {:induction false} TrexRead(id: nat)
    requires id < TWO_TO_32
    ensures Field(Some(Trex(id)), 4, 4) == Some(id)
  {
    U32Value(id);
    var head, rest := VersionAndFlags(0, 0), U32(1) + U32(0) + U32(0) + U32(0);
    assert U32(id) + U32(1) + U32(0) + U32(0) + U32(0) == U32(id) + rest;
    assert (head + (U32(id) + rest))[4..8] == U32(id);
  }

  lemma {:induction false} EnabledFlags()
    ensures VersionAndFlags(0, 3) == [0, 0, 0, 3]
  {
    assert Digits(0, 1) == Digits(0, 0) + [0] && Digits(0, 2) == Digits(0, 1) + [0];
    assert Digits(3, 3) == Digits(0, 2) + [3];
  }

  // ----- Tracks -----

  lemma {:induction false} FindTwo(a: Box, b: Box)
    requires a.kind != b.kind
    ensures Find([a, b], a.kind) == Some(a) && Find([a, b], b.kind) == Some(b)
  {
    assert [a, b][1..] == [b];
    assert Find([b], b.kind) == Some(b);
  }

  lemma {:induction false} FindThree(a: Box, b: Box, c: Box)
    requires a.kind != b.kind && a.kind != c.kind && b.kind != c.kind
    ensures Find([a, b, c], a.kind) == Some(a) && Find([a, b, c], b.kind) == Some(b)
    ensures Find([a, b, c], c.kind) == Some(c)
  {
    assert [a, b, c][1..] == [b, c];
    FindTwo(b, c);
  }

  /** The way down to the sample description. */
  lemma {:induction false} StsdFound(timescale: nat, handler: Box, header: Box, entry: Box)
    requires handler.kind == HDLR && header.kind != DINF && header.kind != STBL
    ensures var mdia := Some(Mdia(timescale, handler, Minf(header, entry)));
      && Child(mdia, 0x6D646864) == Some(Mdhd(timescale)) && Child(mdia, 0x68646C72) == Some(handler)
      && Child(Child(Child(mdia, 0x6D696E66), 0x7374626C), 0x73747364) == Some(Stsd(entry))
  {
    FindThree(Mdhd(timescale), handler, Minf(header, entry));
    FindThree(header, Dinf(), Stbl(entry));
    FirstIsStsd(entry);
  }

  lemma {:induction false} FirstIsStsd(entry: Box)
    ensures Find(Stbl(entry).children, STSD) == Some(Stsd(entry))
  {
    assert Stbl(entry).children[0] == Stsd(entry);
  }

  lemma {:induction false} EntryFound(entry: Box)
    ensures Child(Some(Stsd(entry)), entry.kind) == Some(entry)
  {
    assert Stsd(entry).children[0] == entry;
  }

  lemma {:induction false} ReadVideoEntry(id: nat, width: nat, height: nat, timescale: nat, p: InitParams)
    ensures var record := ReadRecord(AvcRecord(p.sps, p.pps));
      ReadVideo(id, width, height, timescale, Some(Stsd(Avc1(p)))) ==
        if record.None? then None
        else Some(Video(id, width, height, timescale, p.width % 0x1_0000, p.height % 0x1_0000, record.value))
  {
    EntryFound(Avc1(p));
    Avc1Read(p.width, p.height, [AvcC(p.sps, p.pps)]);
    assert [AvcC(p.sps, p.pps)][0] == AvcC(p.sps, p.pps);
  }

  lemma {:induction false} VideoRead(p: InitParams)
    ensures var record := ReadRecord(AvcRecord(p.sps, p.pps));
      ReadTrack(VideoTrak(p)) ==
        if record.None? then None
        else Some(Video(1, p.width % 0x1_0000, p.height % 0x1_0000, Wrap32(p.videoTimescale),
                        p.width % 0x1_0000, p.height % 0x1_0000, record.value))
  {
    var tkhd, hdlr := Tkhd(1, p.width, p.height, true), Hdlr(VIDE, VIDEO_HANDLER);
    var mdia := Mdia(p.videoTimescale, hdlr, Minf(Vmhd(), Avc1(p)));
    FindTwo(tkhd, mdia);
    EnabledFlags();
    TkhdRead(1, p.width, p.height, true);
    WholePart(p.width);
    WholePart(p.height);
    StsdFound(p.videoTimescale, hdlr, Vmhd(), Avc1(p));
    MdhdRead(p.videoTimescale);
    HdlrRead(VIDE, VIDEO_HANDLER);
    ReadVideoEntry(1, p.width % 0x1_0000, p.height % 0x1_0000, Wrap32(p.videoTimescale), p);
    TrackFrom(VideoTrak(p), tkhd, mdia, 1, Wrap32(p.width * 0x1_0000), Wrap32(p.height * 0x1_0000),
              Wrap32(p.videoTimescale), VIDE, Stsd(Avc1(p)));
  }

  /** A track by what is found in it. */
  lemma {:induction false} TrackFrom(
    trak: Box, tkhd: Box, mdia: Box, id: nat, w: nat, h: nat, timescale: nat, handler: nat, stsd: Box)
    requires Find(trak.children, 0x746B6864) == Some(tkhd) && Find(trak.children, 0x6D646961) == Some(mdia)
    requires Headed(Some(tkhd), [0, 0, 0, 3]) && Field(Some(tkhd), 12, 4) == Some(id)
    requires Field(Some(tkhd), 76, 4) == Some(w) && Field(Some(tkhd), 80, 4) == Some(h)
    requires Field(Child(Some(mdia), 0x6D646864), 12, 4) == Some(timescale)
    requires Field(Child(Some(mdia), 0x68646C72), 8, 4) == Some(handler)
    requires Child(Child(Child(Some(mdia), 0x6D696E66), 0x7374626C), 0x73747364) == Some(stsd)
    ensures ReadTrack(trak) ==
      if handler == 0x76696465 then ReadVideo(id, w / 0x1_0000, h / 0x1_0000, timescale, Some(stsd))
      else if handler == 0x736F756E then ReadAudio(id, timescale, Some(stsd))
      else None
  {
  }

  /** A configuration of more than 104 bytes makes the length of its descriptor wrong. */
  lemma {:induction false} ConfigFound(asc: seq<byte>)
    ensures AudioConfig(Esds(asc)) == if |asc| <= 104 then Some(asc) else None
  {
    var head, es := VersionAndFlags(0, 0), Fmp4.Descriptor(3, EsContent(asc));
    assert (head + es)[4..] == es;
    if |asc| <= 104 {
      D.ShortConfig(asc);
    } else {
      D.EsLength(asc);
      assert EsContent(asc)[3] == 4;
      LongContent(EsContent(asc));
    }
  }

  lemma {:induction false} LongContent(content: seq<byte>)
    requires |content| >= 0x80 && content[..3] == [0, 1, 0] && content[3] == 4
    ensures var es := D.Parse(Fmp4.Descriptor(3, content));
      es.None? || |es.value| != 1 || |es.value[0].fields| < 3 || es.value[0].fields[2] != 0
  {
    var n, d := |content| % 0x100, Fmp4.Descriptor(3, content);
    assert d[1..] == [n] + content && ([n] + content)[1..] == content;
    assert content[0] == content[..3][0];
    if n < 0x80 {
      assert D.ReadLength(d[1..], 4, 0) == Some((n, content));
      assert content[n..] != [];
    } else {
      D.ContinuedLength(n, content);
      assert content[1..][..3][2] == content[3];
    }
  }

  predicate ConfigFits(p: InitParams) {
    p.audioSpecificConfig.Some? ==> |p.audioSpecificConfig.value| <= 104
  }

  lemma {:induction false} ReadAudioEntry(id: nat, timescale: nat, p: InitParams)
    ensures ReadAudio(id, timescale, Some(Stsd(Mp4a(p)))) ==
      if ConfigFits(p) then Some(Audio(id, timescale, 2, p.audioTimescale % 0x1_0000, p.audioSpecificConfig)) else None
  {
    EntryFound(Mp4a(p));
    Mp4aRead(p.audioTimescale, Mp4a(p).children);
    WholePart(p.audioTimescale);
    if p.audioSpecificConfig.Some? {
      ConfigFound(p.audioSpecificConfig.value);
      assert Mp4a(p).children[0] == Esds(p.audioSpecificConfig.value);
    }
  }

  lemma {:induction false} AudioRead(p: InitParams)
    ensures ReadTrack(AudioTrak(p)) ==
      if ConfigFits(p) then
        Some(Audio(2, Wrap32(p.audioTimescale), 2, p.audioTimescale % 0x1_0000, p.audioSpecificConfig))
      else None
  {
    var tkhd, hdlr := Tkhd(2, 0, 0, false), Hdlr(SOUN, SOUND_HANDLER);
    var mdia := Mdia(p.audioTimescale, hdlr, Minf(Smhd(), Mp4a(p)));
    FindTwo(tkhd, mdia);
    EnabledFlags();
    TkhdRead(2, 0, 0, false);
    StsdFound(p.audioTimescale, hdlr, Smhd(), Mp4a(p));
    MdhdRead(p.audioTimescale);
    HdlrRead(SOUN, SOUND_HANDLER);
    ReadAudioEntry(2, Wrap32(p.audioTimescale), p);
    TrackFrom(AudioTrak(p), tkhd, mdia, 2, Wrap32(0), Wrap32(0), Wrap32(p.audioTimescale), SOUN, Stsd(Mp4a(p)));
  }

  // ----- The whole movie -----

  lemma {:induction false} OtherBox(b: Box, rest: seq<Box>)
    requires b.kind != TRAK
    ensures ReadTracks([b] + rest) == ReadTracks(rest)
  {
    assert ([b] + rest)[1..] == rest;
  }

  lemma {:induction false} TrakBox(b: Box, rest: seq<Box>)
    requires b.kind == TRAK
    ensures ReadTracks([b] + rest) ==
      if ReadTrack(b).None? || ReadTracks(rest).None? then None
      else Some([ReadTrack(b).value] + ReadTracks(rest).value)
  {
    assert ([b] + rest)[1..] == rest;
  }

  /** The tracks of a list with at most one box: none is missing if that one is read. */
  function ReadAtMostOne(audio: seq<Box>): Option<seq<Track>>
    requires |audio| <= 1
  {
    if audio == [] then Some([])
    else if ReadTrack(audio[0]).None? then None
    else Some([ReadTrack(audio[0]).value])
  }

  lemma {:induction false} TracksRead(mvhd: Box, video: Box, audio: seq<Box>, mvex: Box, all: seq<Box>)
    requires mvhd.kind != TRAK && video.kind == TRAK && mvex.kind != TRAK && |audio| <= 1
    requires audio != [] ==> audio[0].kind == TRAK
    requires all == [mvhd, video] + audio + [mvex]
    ensures ReadTracks(all) ==
      if ReadTrack(video).None? || ReadAtMostOne(audio).None? then None
      else Some([ReadTrack(video).value] + ReadAtMostOne(audio).value)
  {
    var rest := audio + [mvex];
    AudioOrNone(audio, mvex, rest);
    TrakBox(video, rest);
    OtherBox(mvhd, [video] + rest);
    assert all == [mvhd] + ([video] + rest);
  }

  lemma {:induction false} AudioOrNone(audio: seq<Box>, mvex: Box, rest: seq<Box>)
    requires mvex.kind != TRAK && |audio| <= 1 && rest == audio + [mvex]
    requires audio != [] ==> audio[0].kind == TRAK
    ensures ReadTracks(rest) == ReadAtMostOne(audio)
  {
    var none: seq<Box> := [];
    assert [mvex][1..] == none;
    assert ReadTracks([mvex]) == Some([]);
    if audio == [] {
      assert rest == [mvex];
    } else {
      assert rest == [audio[0]] + [mvex];
      TrakBox(audio[0], [mvex]);
      var noMore: seq<Track> := [];
      assert ReadTrack(audio[0]).Some? ==> [ReadTrack(audio[0]).value] + noMore == [ReadTrack(audio[0]).value];
    }
  }

  lemma {:induction false} TrexBox(id: nat, rest: seq<Box>)
    requires id < TWO_TO_32 && ReadDefaults(rest).Some?
    ensures ReadDefaults([Trex(id)] + rest) == Some([id] + ReadDefaults(rest).value)
  {
    TrexRead(id);
    FirstTrex(Trex(id), id, rest);
  }

  lemma {:induction false} FirstTrex(b: Box, id: nat, rest: seq<Box>)
    requires b.kind == 0x74726578 && Field(Some(b), 4, 4) == Some(id) && ReadDefaults(rest).Some?
    ensures ReadDefaults([b] + rest) == Some([id] + ReadDefaults(rest).value)
  {
    assert ([b] + rest)[1..] == rest;
  }

  lemma {:induction false} DefaultsRead(hasAudio: bool)
    ensures ReadDefaults(Mvex(hasAudio).children) == Some(if hasAudio then [1, 2] else [1])
  {
    var none: seq<nat> := [];
    assert ReadDefaults([]) == Some(none);
    if hasAudio {
      TrexBox(2, []);
      TrexBox(1, [Trex(2)]);
      assert [Trex(2)] + [] == [Trex(2)] && [Trex(1)] + [Trex(2)] == Mvex(hasAudio).children;
      assert [2] + none == [2] && [1] + [2] == [1, 2];
    } else {
      TrexBox(1, []);
      assert [Trex(1)] + [] == Mvex(hasAudio).children && [1] + none == [1];
    }
  }

  /** What the parameters are meant to say. */
  function MovieOf(p: InitParams): Movie {
    Movie(p.videoTimescale, [VideoOf(p)] + AudioOf(p), if p.hasAudio then [1, 2] else [1])
  }

  function VideoOf(p: InitParams): Track {
    var profile, compatibility := if |p.sps| > 1 then p.sps[1] else 100, if |p.sps| > 2 then p.sps[2] else 0;
    var level := if |p.sps| > 3 then p.sps[3] else 41;
    Video(1, p.width, p.height, p.videoTimescale, p.width, p.height,
          Record(profile, compatibility, level, 4, [p.sps], [p.pps]))
  }

  function AudioOf(p: InitParams): seq<Track> {
    if p.hasAudio then [Audio(2, p.audioTimescale, 2, p.audioTimescale, p.audioSpecificConfig)] else []
  }

  lemma {:induction false} EndsFound(mvhd: Box, video: Box, audio: seq<Box>, mvex: Box)
    requires mvhd.kind == MVHD && video.kind == TRAK && mvex.kind == MVEX
    requires |audio| <= 1 && (audio != [] ==> audio[0].kind == TRAK)
    ensures Find([mvhd, video] + audio + [mvex], MVHD) == Some(mvhd)
    ensures Find([mvhd, video] + audio + [mvex], MVEX) == Some(mvex)
  {
    var all := [mvhd, video] + audio + [mvex];
    assert all[0] == mvhd && all[1..][0] == video;
    var none: seq<Box> := [];
    assert [mvex][1..] == none && Find([mvex], MVEX) == Some(mvex);
    if audio == [] {
      assert all[1..][1..] == [mvex];
    } else {
      assert all[1..][1..] == [audio[0], mvex] && [audio[0], mvex][1..] == [mvex];
      assert Find([audio[0], mvex], MVEX) == Some(mvex);
    }
  }

  lemma {:induction false} MoovFrom(
    moov: Box, mvhd: Box, mvex: Box, timescale: nat, tracks: Option<seq<Track>>, defaults: seq<nat>)
    requires Find(moov.children, MVHD) == Some(mvhd) && Find(moov.children, MVEX) == Some(mvex)
    requires Field(Some(mvhd), 12, 4) == Some(timescale) && ReadTracks(moov.children) == tracks
    requires ReadDefaults(mvex.children) == Some(defaults)
    ensures ReadMoov(moov) == if tracks.None? then None else Some(Movie(timescale, tracks.value, defaults))
  {
  }

  function Numbers(hasAudio: bool): seq<nat> {
    if hasAudio then [1, 2] else [1]
  }

  /** Whatever the parameters are, the audio tracks that are read. */
  function AudioTracks(p: InitParams): Option<seq<Track>> {
    if !p.hasAudio then Some([])
    else if !ConfigFits(p) then None
    else Some([Audio(2, Wrap32(p.audioTimescale), 2, p.audioTimescale % 0x1_0000, p.audioSpecificConfig)])
  }

  function AudioTraks(p: InitParams): seq<Box> {
    if p.hasAudio then [AudioTrak(p)] else []
  }

  lemma {:induction false} TracksOf(p: InitParams, moov: Box)
    requires moov.children == [Mvhd(p.videoTimescale), VideoTrak(p)] + AudioTraks(p) + [Mvex(p.hasAudio)]
    ensures var video, audio := ReadTrack(VideoTrak(p)), AudioTracks(p);
      ReadTracks(moov.children) == if video.None? || audio.None? then None else Some([video.value] + audio.value)
  {
    if p.hasAudio {
      AudioRead(p);
    }
    TracksRead(Mvhd(p.videoTimescale), VideoTrak(p), AudioTraks(p), Mvex(p.hasAudio), moov.children);
  }

  lemma {:induction false} MoovRead(p: InitParams)
    ensures var video, audio := ReadTrack(VideoTrak(p)), AudioTracks(p);
      ReadMoov(Moov(p)) ==
        if video.None? || audio.None? then None
        else Some(Movie(Wrap32(p.videoTimescale), [video.value] + audio.value, Numbers(p.hasAudio)))
  {
    var moov := Moov(p);
    var mvhd, mvex := Mvhd(p.videoTimescale), Mvex(p.hasAudio);
    assert moov.children == [mvhd, VideoTrak(p)] + AudioTraks(p) + [mvex];
    TracksOf(p, moov);
    MvhdRead(p.videoTimescale);
    DefaultsRead(p.hasAudio);
    EndsFound(mvhd, VideoTrak(p), AudioTraks(p), mvex);
    MoovFrom(moov, mvhd, mvex, Wrap32(p.videoTimescale), ReadTracks(moov.children), Numbers(p.hasAudio));
  }

  // ----- What fits -----

  predicate InitFits(p: InitParams) {
    && p.width < 0x1_0000 && p.height < 0x1_0000 && p.videoTimescale < TWO_TO_32
    && |p.sps| < TWO_TO_16 && |p.pps| < TWO_TO_16 && (p.hasAudio ==> p.audioTimescale < 0x1_0000 && ConfigFits(p))
  }

  /** A reader finds in an initialization segment the tracks that it was generated for, with sizes, timescales,
      parameter sets, sampling rate and audio configuration as they were given, if all of them fit; and only then, as
      far as the movie box has a size at all. */
  lemma {:induction false} InitReadsBack(p: InitParams)
    ensures InitFits(p) ==> ReadInit(WriteAll(InitTree(p))) == Some(MovieOf(p))
    ensures ReadInit(WriteAll(InitTree(p))) == Some(MovieOf(p)) && |Write(Moov(p))| < TWO_TO_32 ==> InitFits(p)
  {
    MoovRead(p);
    MovieFits(p);
    if InitFits(p) {
      MoovLength(p);
      InitRead(p);
    } else if |Write(Moov(p))| < TWO_TO_32 {
      InitRead(p);
    }
  }

  lemma {:induction false} InitRead(p: InitParams)
    requires |Write(Moov(p))| < TWO_TO_32
    ensures ReadInit(WriteAll(InitTree(p))) == ReadMoov(Moov(p))
  {
    var file := WriteAll(InitTree(p));
    assert Parse(file) == Some(InitTree(p)) by {
      InitSegmentRoundTrip(p);
    }
    FindTwo(Ftyp(), Moov(p));
  }

  lemma {:induction false} MovieFits(p: InitParams)
    ensures var video, audio := ReadTrack(VideoTrak(p)), AudioTracks(p);
      (video.Some? && audio.Some? &&
       Movie(Wrap32(p.videoTimescale), [video.value] + audio.value, Numbers(p.hasAudio)) == MovieOf(p))
      <==> InitFits(p)
  {
    var video, audio := ReadTrack(VideoTrak(p)), AudioTracks(p);
    VideoFits(p);
    AudioFits(p);
    WrapIs(p.videoTimescale);
    if video.Some? && audio.Some? {
      SameTracks(video.value, audio.value, VideoOf(p), AudioOf(p));
    }
  }

  lemma {:induction false} SameTracks(video1: Track, audio1: seq<Track>, video2: Track, audio2: seq<Track>)
    requires |audio1| == |audio2|
    ensures [video1] + audio1 == [video2] + audio2 <==> video1 == video2 && audio1 == audio2
  {
    assert ([video1] + audio1)[0] == video1 && ([video2] + audio2)[0] == video2;
    assert ([video1] + audio1)[1..] == audio1 && ([video2] + audio2)[1..] == audio2;
  }

  lemma {:induction false} VideoFits(p: InitParams)
    ensures ReadTrack(VideoTrak(p)) == Some(VideoOf(p)) <==>
      && p.width < 0x1_0000 && p.height < 0x1_0000 && p.videoTimescale < TWO_TO_32
      && |p.sps| < TWO_TO_16 && |p.pps| < TWO_TO_16
  {
    VideoRead(p);
    RecordReadsBack(p.sps, p.pps);
    WholePart(p.width);
    WholePart(p.height);
    WrapIs(p.videoTimescale);
  }

  lemma {:induction false} AudioFits(p: InitParams)
    ensures AudioTracks(p) == Some(AudioOf(p)) <==> (p.hasAudio ==> p.audioTimescale < 0x1_0000 && ConfigFits(p))
  {
    WholePart(p.audioTimescale);
    WrapIs(p.audioTimescale);
    if p.hasAudio && ConfigFits(p) {
      assert AudioTracks(p).value[0].rate == p.audioTimescale % 0x1_0000 && AudioOf(p)[0].rate == p.audioTimescale;
    }
  }

  lemma {:induction false} WrapIs(v: nat)
    ensures Wrap32(v) == v <==> v < TWO_TO_32
  {
  }

  // ----- How long it is -----

  lemma {:induction false} OneChild(b: Box, x: Box)
    requires b.children == [x]
    ensures |Write(b)| == 8 + |b.fields| + |Write(x)|
  {
    WriteOne(x);
  }

  lemma {:induction false} TwoChildren(b: Box, x: Box, y: Box)
    requires b.children == [x, y]
    ensures |Write(b)| == 8 + |b.fields| + |Write(x)| + |Write(y)|
  {
    WriteTwo(x, y);
  }

  lemma {:induction false} ThreeChildren(b: Box, x: Box, y: Box, z: Box)
    requires b.children == [x, y, z]
    ensures |Write(b)| == 8 + |b.fields| + |Write(x)| + |Write(y)| + |Write(z)|
  {
    WriteThree(x, y, z);
  }

  lemma {:induction false} NoChildren(b: Box)
    requires b.children == []
    ensures |Write(b)| == 8 + |b.fields|
  {
    assert WriteAll(b.children) == [];
  }

  lemma {:induction false} StblLength(entry: Box)
    ensures |Write(Stbl(entry))| == 92 + |Write(entry)|
  {
    var a, b, c, d := FullLeaf(STTS, 0, 0, U32(0)), FullLeaf(STSC, 0, 0, U32(0)), FullLeaf(STSZ, 0, 0, Zeros(8)),
      FullLeaf(STCO, 0, 0, U32(0));
    OneChild(Stsd(entry), entry);
    WriteFive(Stsd(entry), a, b, c, d);
    NoChildren(a);
    NoChildren(b);
    NoChildren(c);
    NoChildren(d);
  }

  lemma {:induction false} MinfLength(header: Box, entry: Box)
    ensures |Write(Minf(header, entry))| == 136 + |Write(header)| + |Write(entry)|
  {
    ThreeChildren(Minf(header, entry), header, Dinf(), Stbl(entry));
    StblLength(entry);
    OneChild(Dinf(), Dref());
    OneChild(Dref(), Url());
    NoChildren(Url());
  }

  lemma {:induction false} TrakLength(trak: Box, tkhd: Box, mdia: Box, timescale: nat, handler: Box, minf: Box)
    requires trak.children == [tkhd, mdia] && trak.fields == [] && tkhd.children == [] && |tkhd.fields| == 84
    requires mdia == Mdia(timescale, handler, minf) && handler.children == [] && |handler.fields| <= 40
    ensures |Write(trak)| <= 188 + |Write(minf)|
  {
    TwoChildren(trak, tkhd, mdia);
    NoChildren(tkhd);
    ThreeChildren(mdia, Mdhd(timescale), handler, minf);
    NoChildren(Mdhd(timescale));
    NoChildren(handler);
  }

  lemma {:induction false} VideoLength(p: InitParams)
    ensures |Write(VideoTrak(p))| <= 500 + |p.sps| + |p.pps|
  {
    var hdlr, minf, avcC := Hdlr(VIDE, VIDEO_HANDLER), Minf(Vmhd(), Avc1(p)), AvcC(p.sps, p.pps);
    TrakLength(VideoTrak(p), Tkhd(1, p.width, p.height, true), Mdia(p.videoTimescale, hdlr, minf), p.videoTimescale,
               hdlr, minf);
    MinfLength(Vmhd(), Avc1(p));
    NoChildren(Vmhd());
    OneChild(Avc1(p), avcC);
    NoChildren(avcC);
  }

  lemma {:induction false} EntryLength(p: InitParams)
    requires ConfigFits(p)
    ensures |Write(Mp4a(p))| <= 200
  {
    if p.audioSpecificConfig.Some? {
      var esds := Esds(p.audioSpecificConfig.value);
      D.EsLength(p.audioSpecificConfig.value);
      OneChild(Mp4a(p), esds);
      NoChildren(esds);
    } else {
      NoChildren(Mp4a(p));
    }
  }

  lemma {:induction false} AudioLength(p: InitParams)
    requires ConfigFits(p)
    ensures |Write(AudioTrak(p))| <= 600
  {
    var hdlr, minf := Hdlr(SOUN, SOUND_HANDLER), Minf(Smhd(), Mp4a(p));
    TrakLength(AudioTrak(p), Tkhd(2, 0, 0, false), Mdia(p.audioTimescale, hdlr, minf), p.audioTimescale, hdlr, minf);
    MinfLength(Smhd(), Mp4a(p));
    NoChildren(Smhd());
    EntryLength(p);
  }

  lemma {:induction false} MvexLength(hasAudio: bool)
    ensures |Write(Mvex(hasAudio))| <= 72
  {
    NoChildren(Trex(1));
    NoChildren(Trex(2));
    if hasAudio {
      TwoChildren(Mvex(hasAudio), Trex(1), Trex(2));
    } else {
      OneChild(Mvex(hasAudio), Trex(1));
    }
  }

  lemma {:induction false} MoovLength(p: InitParams)
    requires p.hasAudio ==> ConfigFits(p)
    ensures |Write(Moov(p))| <= 1400 + |p.sps| + |p.pps|
  {
    var mvhd, video, mvex := Mvhd(p.videoTimescale), VideoTrak(p), Mvex(p.hasAudio);
    NoChildren(mvhd);
    VideoLength(p);
    MvexLength(p.hasAudio);
    if p.hasAudio {
      AudioLength(p);
      WriteTwo(mvhd, video);
      WriteTwo(AudioTrak(p), mvex);
      WriteAllConcat([mvhd, video], [AudioTrak(p), mvex]);
      assert Moov(p).children == [mvhd, video] + [AudioTrak(p), mvex];
    } else {
      ThreeChildren(Moov(p), mvhd, video, mvex);
    }
  }
}
