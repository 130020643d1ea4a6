/** Media segments: the movie fragment, the media data behind it, and the offset that ties the two together. */
module MediaSegment {
  import opened Bytes
  import opened BoxTree
  import opened Fmp4

  datatype Sample = Sample(duration: nat, size: nat, flags: nat, compositionOffset: int)

  datatype MediaParams = MediaParams(
    sequenceNumber: nat, baseDecodeTime: int, samples: seq<Sample>, mediaData: seq<byte>, trackId: nat)

  // ----- The intended boxes -----

  function Styp(): Box {
    Leaf(STYP, U32(0x6D736468) + U32(0) + U32(0x6D736468) + U32(0x6D736978))
  }

  function Mfhd(sequenceNumber: nat): Box {
    FullLeaf(MFHD, 0, 0, U32(sequenceNumber))
  }

  /** Flag 0x020000: default-base-is-moof. */
  function Tfhd(trackId: nat): Box {
    FullLeaf(TFHD, 0, 0x02_0000, U32(trackId))
  }

  function Tfdt(baseDecodeTime: int): Box {
    FullLeaf(TFDT, 1, 0, U64(baseDecodeTime))
  }

  /** The muxer's own offset, computed by hand in 32-bit signed arithmetic for `n` samples. */
  function DataOffset(n: nat): (offset: int)
    ensures -TWO_TO_31 <= offset < TWO_TO_31
  {
    AsI32(Wrap32(88 + 16 * n + 8))
  }

  function SampleEntry(s: Sample): (r: seq<byte>)
    ensures |r| == 16
  {
    U32(s.duration) + U32(s.size) + U32(s.flags) + U32(s.compositionOffset)
  }

  function SampleTable(samples: seq<Sample>): (r: seq<byte>)
    ensures |r| == 16 * |samples|
  {
    if samples == [] then []
    else SampleTable(samples[..|samples| - 1]) + SampleEntry(samples[|samples| - 1])
  }

  /** Flags: data offset, sample durations, sizes, flags and composition offsets present. */
  function Trun(samples: seq<Sample>): Box {
    FullLeaf(TRUN, 0, 0xF01, U32(|samples|) + U32(DataOffset(|samples|)) + SampleTable(samples))
  }

  function Traf(p: MediaParams): Box {
    Box(TRAF, [], [Tfhd(p.trackId), Tfdt(p.baseDecodeTime), Trun(p.samples)])
  }

  function Moof(p: MediaParams): Box {
    Box(MOOF, [], [Mfhd(p.sequenceNumber), Traf(p)])
  }

  function Mdat(data: seq<byte>): Box {
    Leaf(MDAT, data)
  }

  function MediaTree(p: MediaParams): seq<Box> {
    [Styp(), Moof(p), Mdat(p.mediaData)]
  }

  // ----- The builders -----

  method WriteStyp(buf: BytesMut)
    modifies buf
    ensures buf.data == old(buf.data) + Write(Styp())
  {
    var content := new BytesMut();
    content.PutU32(0x6D736468);
    content.PutU32(0);
    content.PutU32(0x6D736468);
    content.PutU32(0x6D736978);
    LeafWrite(STYP, content.data);
    WriteBox(buf, STYP, content.data);
  }

  method PutSample(buf: BytesMut, s: Sample)
    modifies buf
    ensures buf.data == old(buf.data) + SampleEntry(s)
  {
    buf.PutU32(s.duration);
    buf.PutU32(s.size);
    buf.PutU32(s.flags);
    buf.PutU32(s.compositionOffset);
    FourWords(old(buf.data), U32(s.duration), U32(s.size), U32(s.flags), U32(s.compositionOffset));
  }

  lemma {:induction false} FourWords(a: seq<byte>, b: seq<byte>, c: seq<byte>, d: seq<byte>, e: seq<byte>)
    ensures a + b + c + d + e == a + (b + c + d + e)
  {
  }

  method PutSamples(buf: BytesMut, samples: seq<Sample>)
    modifies buf
    ensures buf.data == old(buf.data) + SampleTable(samples)
  {
    ghost var before := buf.data;
    assert before + [] == before;
    for i := 0 to |samples|
      invariant buf.data == before + SampleTable(samples[..i])
    {
      PutSample(buf, samples[i]);
      SampleTableStep(before, samples, i);
    }
    assert samples[..|samples|] == samples;
  }

  lemma {:induction false} SampleTableStep(before: seq<byte>, samples: seq<Sample>, i: nat)
    requires i < |samples|
    ensures before + SampleTable(samples[..i + 1]) == before + SampleTable(samples[..i]) + SampleEntry(samples[i])
  {
    assert samples[..i + 1][..i] == samples[..i];
    assert SampleTable(samples[..i + 1]) == SampleTable(samples[..i]) + SampleEntry(samples[i]);
  }

  method BuildTrun(buf: BytesMut, samples: seq<Sample>)
    modifies buf
    ensures buf.data == old(buf.data) + Write(Trun(samples))
  {
    var content := new BytesMut();
    content.PutU32(|samples|);
    content.PutU32(DataOffset(|samples|));
    PutSamples(content, samples);
    WriteFullLeaf(buf, TRUN, 0, 0xF01, content.data);
  }

  method BuildMoof(p: MediaParams) returns (moof: seq<byte>)
    ensures moof == Write(Moof(p))
  {
    var moofContent := new BytesMut();
    WriteFullLeaf(moofContent, MFHD, 0, 0, U32(p.sequenceNumber));
    var trafContent := new BytesMut();
    WriteFullLeaf(trafContent, TFHD, 0, 0x02_0000, U32(p.trackId));
    WriteFullLeaf(trafContent, TFDT, 1, 0, U64(p.baseDecodeTime));
    BuildTrun(trafContent, p.samples);
    assert trafContent.data == WriteAll(Traf(p).children) by {
      assert [] + Write(Tfhd(p.trackId)) == Write(Tfhd(p.trackId));
      WriteThree(Tfhd(p.trackId), Tfdt(p.baseDecodeTime), Trun(p.samples));
    }
    ContainerWrite(TRAF, Traf(p).children);
    WriteBox(moofContent, TRAF, trafContent.data);
    assert moofContent.data == WriteAll(Moof(p).children) by {
      assert [] + Write(Mfhd(p.sequenceNumber)) == Write(Mfhd(p.sequenceNumber));
      WriteTwo(Mfhd(p.sequenceNumber), Traf(p));
    }
    ContainerWrite(MOOF, Moof(p).children);
    var buf := new BytesMut();
    WriteBox(buf, MOOF, moofContent.data);
    assert [] + Write(Moof(p)) == Write(Moof(p));
    return buf.data;
  }

  /** `generate_media_segment`; it has no way to fail. */
  method GenerateMediaSegment(p: MediaParams) returns (data: seq<byte>)
    ensures data == WriteAll(MediaTree(p))
  {
    var buf := new BytesMut();
    WriteStyp(buf);
    assert buf.data == Write(Styp()) by {
      assert [] + Write(Styp()) == Write(Styp());
    }
    var moof := BuildMoof(p);
    buf.PutSlice(moof);
    assert Framed(MDAT, p.mediaData) == Write(Mdat(p.mediaData)) by {
      LeafWrite(MDAT, p.mediaData);
    }
    WriteBox(buf, MDAT, p.mediaData);
    WriteThree(Styp(), Moof(p), Mdat(p.mediaData));
    return buf.data;
  }

  // ----- The segment parses back into its tree -----

  lemma {:induction false} TrafShaped(p: MediaParams)
    ensures Shaped(Traf(p))
  {
    ChildlessShaped(Tfhd(p.trackId));
    ChildlessShaped(Tfdt(p.baseDecodeTime));
    ChildlessShaped(Trun(p.samples));
    NodeShaped(TRAF, [], Traf(p).children);
  }

  lemma {:induction false} MoofShaped(p: MediaParams)
    ensures Shaped(Moof(p))
  {
    TrafShaped(p);
    ChildlessShaped(Mfhd(p.sequenceNumber));
    NodeShaped(MOOF, [], Moof(p).children);
  }

  /** A box parser consumes the whole media segment and recovers the intended tree exactly when fragment and media
      data fit 32-bit sizes. */
  lemma {:induction false} MediaSegmentRoundTrip(p: MediaParams)
    ensures Parse(WriteAll(MediaTree(p))) == Some(MediaTree(p))
       <==> |Write(Moof(p))| < TWO_TO_32 && |Write(Mdat(p.mediaData))| < TWO_TO_32
  {
    MoofShaped(p);
    ChildlessShaped(Styp());
    ChildlessShaped(Mdat(p.mediaData));
    ShapedList(MediaTree(p));
    TreeRoundTrip(MediaTree(p));
    FitsThree(Styp(), Moof(p), Mdat(p.mediaData));
    LeafLength(STYP, Styp().fields);
  }

  lemma {:induction false} FitsThree(a: Box, b: Box, c: Box)
    ensures AllFit([a, b, c])
       <==> |Write(a)| < TWO_TO_32 && |Write(b)| < TWO_TO_32 && |Write(c)| < TWO_TO_32
  {
    FitsOutermost(a);
    FitsTwo(b, c);
    assert [a, b, c][1..] == [b, c];
  }

  // ----- The data offset -----

  lemma {:induction false} LeafLength(kind: nat, content: seq<byte>)
    ensures |Write(Leaf(kind, content))| == |content| + 8
  {
    LeafWrite(kind, content);
  }

  lemma {:induction false} TrafLength(p: MediaParams)
    ensures |Write(Traf(p))| == 64 + 16 * |p.samples|
  {
    LeafLength(TFHD, Tfhd(p.trackId).fields);
    LeafLength(TFDT, Tfdt(p.baseDecodeTime).fields);
    LeafLength(TRUN, Trun(p.samples).fields);
    WriteThree(Tfhd(p.trackId), Tfdt(p.baseDecodeTime), Trun(p.samples));
    ContainerWrite(TRAF, Traf(p).children);
  }

  /** The real layout: a fragment with `n` samples has 88 + 16n bytes. */
  lemma {:induction false} MoofLength(p: MediaParams)
    ensures |Write(Moof(p))| == 88 + 16 * |p.samples|
  {
    TrafLength(p);
    LeafLength(MFHD, Mfhd(p.sequenceNumber).fields);
    WriteTwo(Mfhd(p.sequenceNumber), Traf(p));
    ContainerWrite(MOOF, Moof(p).children);
  }

  /** Where the fragment and the media payload start in a segment. */
  function MoofStart(): nat {
    |Write(Styp())|
  }

  function PayloadStart(p: MediaParams): nat {
    MoofStart() + |Write(Moof(p))| + 8
  }

  /** The data_offset a reader finds in `trun`: behind version, flags and sample count. */
  function ReadDataOffset(trun: Box): int
    requires |trun.fields| >= 12
  {
    AsI32(Wrap32(Number(trun.fields[8..12])))
  }

  lemma {:induction false} DataOffsetRead(samples: seq<Sample>)
    ensures |Trun(samples).fields| >= 12 && ReadDataOffset(Trun(samples)) == DataOffset(|samples|)
  {
    var offset := DataOffset(|samples|);
    U32Value(offset);
    OffsetPlace(VersionAndFlags(0, 0xF01), U32(|samples|), U32(offset), SampleTable(samples));
    TwosComplement(offset);
  }

  lemma {:induction false} OffsetPlace(a: seq<byte>, b: seq<byte>, c: seq<byte>, d: seq<byte>)
    requires |a| == |b| == |c| == 4
    ensures (a + (b + c + d))[8..12] == c
  {
  }

  lemma {:induction false} TwosComplement(v: int)
    requires -TWO_TO_31 <= v < TWO_TO_31
    ensures AsI32(Wrap32(Wrap32(v))) == v
  {
    if v < 0 {
      assert Wrap32(v) == v + TWO_TO_32 by {
        assert (v + 0x1_0000_0000) % 0x1_0000_0000 == v % 0x1_0000_0000;
      }
    }
  }

  /** The data_offset in `trun` is the distance from the first byte of `moof` to the first byte of the `mdat`
      payload exactly as long as that distance fits a signed 32-bit number. */
  lemma {:induction false} DataOffsetExact(p: MediaParams)
    ensures MoofStart() + ReadDataOffset(Trun(p.samples)) == PayloadStart(p) <==> 96 + 16 * |p.samples| < TWO_TO_31
  {
    DataOffsetRead(p.samples);
    MoofLength(p);
  }

  lemma {:induction false} PayloadPlace(p: MediaParams)
    ensures |WriteAll(MediaTree(p))| == PayloadStart(p) + |p.mediaData|
    ensures WriteAll(MediaTree(p))[PayloadStart(p)..] == p.mediaData
  {
    WriteThree(Styp(), Moof(p), Mdat(p.mediaData));
    LeafWrite(MDAT, p.mediaData);
    LastPart(Write(Styp()), Write(Moof(p)), U32(|p.mediaData| + 8), U32(MDAT), p.mediaData);
  }

  lemma {:induction false} LastPart(a: seq<byte>, b: seq<byte>, c: seq<byte>, d: seq<byte>, e: seq<byte>)
    requires |c| == |d| == 4
    ensures |a + b + (c + (d + e))| == |a| + |b| + 8 + |e|
    ensures (a + b + (c + (d + e)))[|a| + |b| + 8..] == e
  {
  }

  // ----- The sample table -----

  /** The sample sizes that a reader finds in `n` entries of a sample table: the second word of each. */
  function TableSizes(table: seq<byte>, n: nat): (r: seq<nat>)
    requires |table| >= 16 * n
    ensures |r| == n
  {
    if n == 0 then []
    else TableSizes(table, n - 1) + [Number(table[16 * (n - 1) + 4..16 * (n - 1) + 8])]
  }

  /** The sizes that a reader finds in `trun`, as many as its sample count says, if the box has room for them. */
  function ReadSizes(trun: Box): Option<seq<nat>> {
    if |trun.fields| < 12 then None
    else
      var n, table := Number(trun.fields[4..8]), trun.fields[12..];
      if |table| < 16 * n then None else Some(TableSizes(table, n))
  }

  function GivenSizes(samples: seq<Sample>): (r: seq<nat>)
    ensures |r| == |samples|
  {
    if samples == [] then [] else GivenSizes(samples[..|samples| - 1]) + [samples[|samples| - 1].size]
  }

  lemma {:induction false} EntrySize(before: seq<byte>, s: Sample)
    ensures var table := before + SampleEntry(s);
      Number(table[|before| + 4..|before| + 8]) == Wrap32(s.size)
  {
    var table := before + SampleEntry(s);
    assert table[|before| + 4..|before| + 8] == U32(s.size);
    U32Value(s.size);
  }

  lemma {:induction false} SizeInTable(samples: seq<Sample>, i: nat)
    requires i < |samples|
    ensures Number(SampleTable(samples)[16 * i + 4..16 * i + 8]) == Wrap32(samples[i].size)
    decreases |samples|
  {
    var n := |samples| - 1;
    var front := SampleTable(samples[..n]);
    if i < n {
      SizeInTable(samples[..n], i);
      InFront(front, SampleEntry(samples[n]), 16 * i + 4);
    } else {
      EntrySize(front, samples[n]);
    }
  }

  lemma {:induction false} InFront(front: seq<byte>, entry: seq<byte>, at: nat)
    requires at + 4 <= |front|
    ensures (front + entry)[at..at + 4] == front[at..at + 4]
  {
  }

  lemma {:induction false} GivenSizeAt(samples: seq<Sample>, i: nat)
    requires i < |samples|
    ensures GivenSizes(samples)[i] == samples[i].size
    decreases |samples|
  {
    if i < |samples| - 1 {
      GivenSizeAt(samples[..|samples| - 1], i);
    }
  }

  lemma {:induction false} TableSizeAt(table: seq<byte>, n: nat, i: nat)
    requires |table| >= 16 * n && i < n
    ensures TableSizes(table, n)[i] == Number(table[16 * i + 4..16 * i + 8])
    decreases n
  {
    if i < n - 1 {
      TableSizeAt(table, n - 1, i);
    }
  }

  /** The first `n` entries read: the sizes given, as far as 32 bits hold them. */
  lemma {:induction false} TableSizesRead(samples: seq<Sample>, n: nat)
    requires n <= |samples|
    ensures forall i :: 0 <= i < n ==> TableSizes(SampleTable(samples), n)[i] == Wrap32(samples[i].size)
  {
    var table := SampleTable(samples);
    forall i | 0 <= i < n
      ensures TableSizes(table, n)[i] == Wrap32(samples[i].size)
    {
      TableSizeAt(table, n, i);
      SizeInTable(samples, i);
    }
  }

  lemma {:induction false} TrunParts(samples: seq<Sample>)
    ensures var f := Trun(samples).fields;
      && |f| == 12 + 16 * |samples|
      && Number(f[4..8]) == Wrap32(|samples|) && f[12..] == SampleTable(samples)
  {
    var a, b, c, d := VersionAndFlags(0, 0xF01), U32(|samples|), U32(DataOffset(|samples|)), SampleTable(samples);
    U32Value(|samples|);
    CountAndTable(a, b, c, d);
  }

  lemma {:induction false} CountAndTable(a: seq<byte>, b: seq<byte>, c: seq<byte>, d: seq<byte>)
    requires |a| == |b| == |c| == 4
    ensures var f := a + (b + c + d); |f| == 12 + |d| && f[4..8] == b && f[12..] == d
  {
  }

  /** What a reader finds in `trun` are the samples' sizes exactly as long as their number and each of them fit 32
      bits. */
  lemma {:induction false} SizesReadExactly(samples: seq<Sample>)
    ensures ReadSizes(Trun(samples)) == Some(GivenSizes(samples))
       <==> |samples| < TWO_TO_32 && forall i :: 0 <= i < |samples| ==> samples[i].size < TWO_TO_32
  {
    TrunParts(samples);
    WrapAtMost(|samples|);
    var n := Wrap32(|samples|);
    var read, given := TableSizes(SampleTable(samples), n), GivenSizes(samples);
    assert ReadSizes(Trun(samples)) == Some(read);
    TableSizesRead(samples, n);
    forall i | 0 <= i < n
      ensures read[i] == given[i] <==> samples[i].size < TWO_TO_32
    {
      GivenSizeAt(samples, i);
    }
    if read == given {
      forall i | 0 <= i < |samples|
        ensures samples[i].size < TWO_TO_32
      {
        assert read[i] == given[i];
      }
    }
  }

  lemma {:induction false} WrapAtMost(n: nat)
    ensures Wrap32(n) <= n && (Wrap32(n) == n <==> n < TWO_TO_32)
  {
    if n >= TWO_TO_32 {
      assert Wrap32(n) < TWO_TO_32;
    }
  }

  // ----- What a player reads -----

  /** The place of the first box of a type. */
  function PlaceOf(boxes: seq<Box>, kind: nat): (k: nat)
    ensures k <= |boxes| && (k < |boxes| ==> boxes[k].kind == kind)
  {
    if boxes == [] || boxes[0].kind == kind then 0 else 1 + PlaceOf(boxes[1..], kind)
  }

  function First(boxes: seq<Box>, kind: nat): Option<Box> {
    var k := PlaceOf(boxes, kind);
    if k < |boxes| then Some(boxes[k]) else None
  }

  /** The run of samples in a fragment. */
  function TrunIn(moof: Box): Option<Box> {
    var traf := First(moof.children, TRAF);
    if traf.None? then None else First(traf.value.children, TRUN)
  }

  /** The samples of a file of one fragment, as a player gets at them: it parses the boxes, takes sample sizes and data
      offset from the fragment's `trun`, and cuts the samples out of the file from the start of `moof` plus the
      offset on, one after the other. */
  function PlayerSamples(file: seq<byte>): Option<seq<seq<byte>>> {
    match Parse(file)
    case None => None
    case Some(boxes) =>
      var k := PlaceOf(boxes, MOOF);
      var trun := if k < |boxes| then TrunIn(boxes[k]) else None;
      if trun.None? || ReadSizes(trun.value).None? then None
      else SampleBytes(file, |WriteAll(boxes[..k])| + ReadDataOffset(trun.value), ReadSizes(trun.value).value)
  }

  function Sum(sizes: seq<nat>): nat {
    if sizes == [] then 0 else sizes[0] + Sum(sizes[1..])
  }

  /** Consecutive ranges of the file, of these sizes, from position `at` on. */
  function SampleBytes(file: seq<byte>, at: int, sizes: seq<nat>): Option<seq<seq<byte>>>
    decreases |sizes|
  {
    if sizes == [] then Some([])
    else if at < 0 || at + sizes[0] > |file| then None
    else
      var rest := SampleBytes(file, at + sizes[0], sizes[1..]);
      if rest.None? then None else Some([file[at..at + sizes[0]]] + rest.value)
  }

  function Concat(pieces: seq<seq<byte>>): seq<byte> {
    if pieces == [] then [] else pieces[0] + Concat(pieces[1..])
  }

  /** The ranges exist exactly if the file is long enough, and then they tile it from `at` on. */
  lemma {:induction false} RangesTile(file: seq<byte>, at: nat, sizes: seq<nat>)
    requires at <= |file|
    ensures SampleBytes(file, at, sizes).Some? <==> at + Sum(sizes) <= |file|
    ensures SampleBytes(file, at, sizes).Some? ==>
      var pieces := SampleBytes(file, at, sizes).value;
      && |pieces| == |sizes|
      && (forall i :: 0 <= i < |pieces| ==> |pieces[i]| == sizes[i])
      && Concat(pieces) == file[at..at + Sum(sizes)]
    decreases |sizes|
  {
    if sizes != [] && at + sizes[0] <= |file| {
      var size := sizes[0];
      RangesTile(file, at + size, sizes[1..]);
      if SampleBytes(file, at, sizes).Some? {
        var pieces := SampleBytes(file, at, sizes).value;
        assert pieces[1..] == SampleBytes(file, at + size, sizes[1..]).value;
        assert file[at..at + Sum(sizes)] == file[at..at + size] + file[at + size..at + size + Sum(sizes[1..])];
      }
    }
  }

  lemma {:induction false} RangesAtEnd(file: seq<byte>, at: nat, sizes: seq<nat>, data: seq<byte>)
    requires |file| == at + |data| && file[at..] == data
    ensures var pieces := SampleBytes(file, at, sizes);
      && (pieces.Some? && Concat(pieces.value) == data <==> Sum(sizes) == |data|)
      && (pieces.Some? ==>
            && |pieces.value| == |sizes| && forall i :: 0 <= i < |sizes| ==> |pieces.value[i]| == sizes[i])
  {
    RangesTile(file, at, sizes);
    if Sum(sizes) == |data| {
      assert file[at..at + Sum(sizes)] == file[at..];
    }
  }

  lemma {:induction false} PlayerFindsTrun(p: MediaParams)
    ensures PlaceOf(MediaTree(p), MOOF) == 1 && TrunIn(Moof(p)) == Some(Trun(p.samples))
  {
    var boxes, inMoof, inTraf := MediaTree(p), Moof(p).children, Traf(p).children;
    assert PlaceOf(boxes[1..], MOOF) == 0;
    assert PlaceOf(inMoof[1..], TRAF) == 0;
    assert PlaceOf(inTraf[2..], TRUN) == 0;
    assert inTraf[1..][1..] == inTraf[2..];
    assert PlaceOf(inTraf[1..], TRUN) == 1;
  }

  /** From the written file, a player cuts out exactly the ranges of the given sizes at the start of the payload. */
  lemma {:induction false} PlayerReads(p: MediaParams)
    requires |p.mediaData| + 8 < TWO_TO_32 && 96 + 16 * |p.samples| < TWO_TO_31
    requires forall i :: 0 <= i < |p.samples| ==> p.samples[i].size < TWO_TO_32
    ensures var file := WriteAll(MediaTree(p));
      PlayerSamples(file) == SampleBytes(file, PayloadStart(p), GivenSizes(p.samples))
  {
    var file, trun := WriteAll(MediaTree(p)), Trun(p.samples);
    assert Parse(file) == Some(MediaTree(p)) by {
      MoofLength(p);
      LeafLength(MDAT, p.mediaData);
      MediaSegmentRoundTrip(p);
    }
    PlayerFindsTrun(p);
    SizesReadExactly(p.samples);
    DataOffsetExact(p);
    assert |WriteAll(MediaTree(p)[..1])| == MoofStart() by {
      OneBefore(Styp(), Moof(p), Mdat(p.mediaData));
    }
  }

  lemma {:induction false} OneBefore(a: Box, b: Box, c: Box)
    ensures WriteAll([a, b, c][..1]) == Write(a)
  {
    assert [a, b, c][..1] == [a];
    assert WriteAll([a][1..]) == [];
    assert Write(a) + [] == Write(a);
  }

  /** What a player cuts out of the file, put together, is the media data, each sample of the size it was given,
      exactly if the given sizes add up to the length of the data. */
  lemma {:induction false} SamplesTilePayload(p: MediaParams)
    requires |p.mediaData| + 8 < TWO_TO_32 && 96 + 16 * |p.samples| < TWO_TO_31
    requires forall i :: 0 <= i < |p.samples| ==> p.samples[i].size < TWO_TO_32
    ensures var samples := PlayerSamples(WriteAll(MediaTree(p)));
      && (samples.Some? && Concat(samples.value) == p.mediaData <==> Sum(GivenSizes(p.samples)) == |p.mediaData|)
      && (samples.Some? ==>
            && |samples.value| == |p.samples|
            && forall i :: 0 <= i < |p.samples| ==> |samples.value[i]| == p.samples[i].size)
  {
    var file, at, sizes := WriteAll(MediaTree(p)), PayloadStart(p), GivenSizes(p.samples);
    assert PlayerSamples(file) == SampleBytes(file, at, sizes) by {
      PlayerReads(p);
    }
    assert |file| == at + |p.mediaData| && file[at..] == p.mediaData by {
      PayloadPlace(p);
    }
    RangesAtEnd(file, at, sizes, p.mediaData);
    forall i | 0 <= i < |p.samples|
      ensures sizes[i] == p.samples[i].size
    {
      GivenSizeAt(p.samples, i);
    }
  }
}
