/** A reader of media segments, box by box at the places that sections 8.8 and 8.16 of ISO/IEC 14496-12 give the fields:
    what it finds is what the segment was generated from. */
module FragmentReader {
  import opened Bytes
  import opened BoxTree
  import opened Fmp4
  import opened MediaSegment

  const TWO_TO_64: int := 0x1_0000_0000_0000_0000

  /** The number of the fragment, the track it belongs to, where it starts, and its samples. */
  datatype Fragment = Fragment(sequence: nat, track: nat, decodeTime: int, samples: seq<Sample>)

  /** The 32-bit number behind version and flags, which have to be these. */
  function WordBehind(b: Box, head: seq<byte>): Option<nat> {
    if |b.fields| >= 8 && b.fields[..4] == head then Some(Number(b.fields[4..8])) else None
  }

  /** Section 8.8.12: 64 bits in version 1, 32 in version 0. */
  function DecodeTime(tfdt: Box): Option<nat> {
    if |tfdt.fields| >= 12 && tfdt.fields[0] == 1 then Some(Number(tfdt.fields[4..12]))
    else if |tfdt.fields| >= 8 && tfdt.fields[0] == 0 then Some(Number(tfdt.fields[4..8]))
    else None
  }

  /** Section 8.8.8.2: duration, size, flags and composition time offset, which is unsigned in version 0. */
  function EntryOf(e: seq<byte>): Sample
    requires |e| == 16
  {
    Sample(Number(e[..4]), Number(e[4..8]), Number(e[8..12]), Number(e[12..16]))
  }

  function TableSamples(table: seq<byte>, n: nat): (r: seq<Sample>)
    requires |table| >= 16 * n
    ensures |r| == n
  {
    if n == 0 then [] else TableSamples(table, n - 1) + [EntryOf(table[16 * (n - 1)..16 * (n - 1) + 16])]
  }

  /** The samples of a `trun` whose flags announce a data offset and all four fields of every sample. */
  function ReadSamples(trun: Box): Option<seq<Sample>> {
    if |trun.fields| < 12 || trun.fields[..4] != [0, 0, 0x0F, 0x01] then None
    else
      var n, table := Number(trun.fields[4..8]), trun.fields[12..];
      if |table| < 16 * n then None else Some(TableSamples(table, n))
  }

  /** The flags of `tfhd` say that it has no more fields, and that offsets count from the start of `moof`. */
  function ReadTraf(sequence: nat, traf: Box): Option<Fragment> {
    // Box types are the four characters of their names as a number.
    var tfhd, tfdt := First(traf.children, 0x74666864), First(traf.children, 0x74666474);
    var trun := First(traf.children, 0x7472756E);
    if tfhd.None? || tfdt.None? || trun.None? then None
    else
      var track, time := WordBehind(tfhd.value, [0, 2, 0, 0]), DecodeTime(tfdt.value);
      var samples := ReadSamples(trun.value);
      if track.None? || time.None? || samples.None? then None
      else Some(Fragment(sequence, track.value, time.value, samples.value))
  }

  function ReadMoof(moof: Box): Option<Fragment> {
    var mfhd, traf := First(moof.children, 0x6D666864), First(moof.children, 0x74726166);
    if mfhd.None? || traf.None? then None
    else
      var sequence := WordBehind(mfhd.value, [0, 0, 0, 0]);
      if sequence.None? then None else ReadTraf(sequence.value, traf.value)
  }

  function ReadFragment(file: seq<byte>): Option<Fragment> {
    match Parse(file)
    case None => None
    case Some(boxes) =>
      var moof := First(boxes, 0x6D6F6F66);
      if moof.None? then None else ReadMoof(moof.value)
  }

  // ----- Fields -----

  lemma {:induction false} FlagBytes()
    ensures VersionAndFlags(0, 0) == [0, 0, 0, 0] && VersionAndFlags(1, 0) == [1, 0, 0, 0]
    ensures VersionAndFlags(0, 0x02_0000) == [0, 2, 0, 0] && VersionAndFlags(0, 0xF01) == [0, 0, 0x0F, 0x01]
  {
    ThreeDigits(0, 0, 0);
    ThreeDigits(2, 0, 0);
    ThreeDigits(0, 0x0F, 0x01);
  }

  lemma {:induction false} ThreeDigits(a: byte, b: byte, c: byte)
    ensures U24(0x1_0000 * a + 0x100 * b + c) == [a, b, c]
  {
    var v := 0x1_0000 * a + 0x100 * b + c;
    assert v / 0x100 == 0x100 * a + b && v % 0x100 == c;
    assert (0x100 * a + b) / 0x100 == a && (0x100 * a + b) % 0x100 == b;
    assert a / 0x100 == 0 && a % 0x100 == a;
    assert Digits(a, 1) == Digits(0, 0) + [a];
    assert Digits(0x100 * a + b, 2) == Digits(a, 1) + [b];
  }

  lemma {:induction false} WordRead(kind: nat, version: byte, flags: nat, v: nat, more: seq<byte>)
    ensures WordBehind(FullLeaf(kind, version, flags, U32(v) + more), VersionAndFlags(version, flags))
         == Some(Wrap32(v))
  {
    var head, word := VersionAndFlags(version, flags), U32(v);
    U32Value(v);
    WordPlace(head, word, more);
  }

  lemma {:induction false} WordPlace(head: seq<byte>, word: seq<byte>, more: seq<byte>)
    requires |head| == |word| == 4
    ensures var f := head + (word + more); |f| >= 8 && f[..4] == head && f[4..8] == word
  {
  }

  /** What is left of a time in 64 bits. */
  function Wrap64(v: int): (r: nat)
    ensures r < TWO_TO_64 && (0 <= v < TWO_TO_64 <==> r == v)
  {
    v % 0x1_0000_0000_0000_0000
  }

  lemma {:induction false} U64Value(v: int)
    ensures Number(U64(v)) == Wrap64(v)
  {
    NumberOfDigits(v, 8);
    assert Pow256(8) == 0x1_0000_0000_0000_0000 by {
      Pow256Values();
      assert Pow256(5) == 0x100 * Pow256(4) && Pow256(6) == 0x100 * Pow256(5);
      assert Pow256(7) == 0x100 * Pow256(6) && Pow256(8) == 0x100 * Pow256(7);
    }
  }

  lemma {:induction false} TimeRead(time: int)
    ensures DecodeTime(Tfdt(time)) == Some(Wrap64(time))
  {
    var head, word := VersionAndFlags(1, 0), U64(time);
    U64Value(time);
    TimePlace(head, word);
  }

  lemma {:induction false} TimePlace(head: seq<byte>, word: seq<byte>)
    requires |head| == 4 && |word| == 8
    ensures var f := head + word; |f| == 12 && f[0] == head[0] && f[4..12] == word
  {
  }

  // ----- Samples -----

  function Wrapped(s: Sample): Sample {
    Sample(Wrap32(s.duration), Wrap32(s.size), Wrap32(s.flags), Wrap32(s.compositionOffset))
  }

  lemma {:induction false} EntryRead(s: Sample)
    ensures EntryOf(SampleEntry(s)) == Wrapped(s)
  {
    U32Value(s.duration);
    U32Value(s.size);
    U32Value(s.flags);
    U32Value(s.compositionOffset);
    FourPlaces(U32(s.duration), U32(s.size), U32(s.flags), U32(s.compositionOffset));
  }

  lemma {:induction false} FourPlaces(a: seq<byte>, b: seq<byte>, c: seq<byte>, d: seq<byte>)
    requires |a| == |b| == |c| == |d| == 4
    ensures var e := a + b + c + d; e[..4] == a && e[4..8] == b && e[8..12] == c && e[12..16] == d
  {
  }

  /** Entries of 16 bytes, one after the other. */
  function Flat(entries: seq<seq<byte>>): (r: seq<byte>)
    requires forall i :: 0 <= i < |entries| ==> |entries[i]| == 16
    ensures |r| == 16 * |entries|
  {
    if entries == [] then [] else Flat(entries[..|entries| - 1]) + entries[|entries| - 1]
  }

  function Entries(samples: seq<Sample>): (r: seq<seq<byte>>)
    ensures |r| == |samples| && forall i :: 0 <= i < |r| ==> |r[i]| == 16
  {
    if samples == [] then [] else Entries(samples[..|samples| - 1]) + [SampleEntry(samples[|samples| - 1])]
  }

  lemma {:induction false} FlatAt(entries: seq<seq<byte>>, i: nat)
    requires i < |entries| && forall j :: 0 <= j < |entries| ==> |entries[j]| == 16
    ensures Flat(entries)[16 * i..16 * i + 16] == entries[i]
    decreases |entries|
  {
    var n := |entries| - 1;
    var front, last := Flat(entries[..n]), entries[n];
    if i < n {
      FlatAt(entries[..n], i);
      InFrontOf(front, last, 16 * i);
    } else {
      AtEndOf(front, last);
    }
  }

  lemma {:induction false} InFrontOf(front: seq<byte>, entry: seq<byte>, at: nat)
    requires at + 16 <= |front|
    ensures (front + entry)[at..at + 16] == front[at..at + 16]
  {
  }

  lemma {:induction false} AtEndOf(front: seq<byte>, entry: seq<byte>)
    requires |entry| == 16
    ensures (front + entry)[|front|..|front| + 16] == entry
  {
  }

  lemma {:induction false} TableIsFlat(samples: seq<Sample>)
    ensures SampleTable(samples) == Flat(Entries(samples))
  {
    if samples != [] {
      var n := |samples| - 1;
      TableIsFlat(samples[..n]);
      FlatAppended(Entries(samples[..n]), SampleEntry(samples[n]));
    }
  }

  lemma {:induction false} FlatAppended(entries: seq<seq<byte>>, entry: seq<byte>)
    requires |entry| == 16 && forall i :: 0 <= i < |entries| ==> |entries[i]| == 16
    ensures Flat(entries + [entry]) == Flat(entries) + entry
  {
    assert (entries + [entry])[..|entries|] == entries;
  }

  lemma {:induction false} EntryAt(samples: seq<Sample>, i: nat)
    requires i < |samples|
    ensures Entries(samples)[i] == SampleEntry(samples[i])
    decreases |samples|
  {
    if i < |samples| - 1 {
      EntryAt(samples[..|samples| - 1], i);
    }
  }

  lemma {:induction false} TableSampleAt(table: seq<byte>, n: nat, i: nat)
    requires |table| >= 16 * n && i < n
    ensures TableSamples(table, n)[i] == EntryOf(table[16 * i..16 * i + 16])
    decreases n
  {
    if i < n - 1 {
      TableSampleAt(table, n - 1, i);
    }
  }

  lemma {:induction false} SampleRead(samples: seq<Sample>, table: seq<byte>, i: nat)
    requires i < |samples| && table == SampleTable(samples)
    ensures TableSamples(table, |samples|)[i] == Wrapped(samples[i])
  {
    TableIsFlat(samples);
    FlatAt(Entries(samples), i);
    EntryAt(samples, i);
    TableSampleAt(table, |samples|, i);
    EntryRead(samples[i]);
  }

  lemma {:induction false} SamplesRead(samples: seq<Sample>) returns (read: seq<Sample>)
    requires |samples| < TWO_TO_32
    ensures ReadSamples(Trun(samples)) == Some(read) && |read| == |samples|
    ensures forall i :: 0 <= i < |read| ==> read[i] == Wrapped(samples[i])
  {
    TrunParts(samples);
    TrunFlags(samples);
    var table := SampleTable(samples);
    read := TableSamples(table, |samples|);
    forall i | 0 <= i < |samples|
      ensures read[i] == Wrapped(samples[i])
    {
      SampleRead(samples, table, i);
    }
  }

  lemma {:induction false} TrunFlags(samples: seq<Sample>)
    ensures Trun(samples).fields[..4] == [0, 0, 0x0F, 0x01]
  {
    FlagBytes();
    var head, rest := VersionAndFlags(0, 0xF01), U32(|samples|) + U32(DataOffset(|samples|)) + SampleTable(samples);
    assert (head + rest)[..4] == head;
  }

  // ----- The whole fragment -----

  lemma {:induction false} BoxesFound(p: MediaParams)
    ensures First(MediaTree(p), MOOF) == Some(Moof(p))
    ensures First(Moof(p).children, MFHD) == Some(Mfhd(p.sequenceNumber))
    ensures First(Moof(p).children, TRAF) == Some(Traf(p))
    ensures First(Traf(p).children, TFHD) == Some(Tfhd(p.trackId))
    ensures First(Traf(p).children, TFDT) == Some(Tfdt(p.baseDecodeTime))
    ensures First(Traf(p).children, TRUN) == Some(Trun(p.samples))
  {
    FirstOfThree(Styp(), Moof(p), Mdat(p.mediaData));
    FirstOfTwo(Mfhd(p.sequenceNumber), Traf(p));
    FirstOfThree(Tfhd(p.trackId), Tfdt(p.baseDecodeTime), Trun(p.samples));
  }

  lemma {:induction false} FirstOfTwo(a: Box, b: Box)
    requires a.kind != b.kind
    ensures First([a, b], a.kind) == Some(a) && First([a, b], b.kind) == Some(b)
  {
    assert [a, b][1..] == [b];
    assert PlaceOf([b], b.kind) == 0;
  }

  lemma {:induction false} FirstOfThree(a: Box, b: Box, c: Box)
    requires a.kind != b.kind && a.kind != c.kind && b.kind != c.kind
    ensures First([a, b, c], a.kind) == Some(a) && First([a, b, c], b.kind) == Some(b)
    ensures First([a, b, c], c.kind) == Some(c)
  {
    assert [a, b, c][1..] == [b, c] && [b, c][1..] == [c];
    assert PlaceOf([c], c.kind) == 0 && PlaceOf([b, c], c.kind) == 1 && PlaceOf([b, c], b.kind) == 0;
  }

  lemma {:induction false} TrafRead(p: MediaParams, sequence: nat) returns (samples: seq<Sample>)
    requires |p.samples| < TWO_TO_32
    ensures ReadTraf(sequence, Traf(p))
         == Some(Fragment(sequence, Wrap32(p.trackId), Wrap64(p.baseDecodeTime), samples))
    ensures |samples| == |p.samples| && forall i :: 0 <= i < |samples| ==> samples[i] == Wrapped(p.samples[i])
  {
    BoxesFound(p);
    samples := SamplesRead(p.samples);
    TimeRead(p.baseDecodeTime);
    HeadsRead(p);
  }

  lemma {:induction false} MoofRead(p: MediaParams) returns (samples: seq<Sample>)
    requires |p.samples| < TWO_TO_32
    ensures ReadMoof(Moof(p))
         == Some(Fragment(Wrap32(p.sequenceNumber), Wrap32(p.trackId), Wrap64(p.baseDecodeTime), samples))
    ensures |samples| == |p.samples| && forall i :: 0 <= i < |samples| ==> samples[i] == Wrapped(p.samples[i])
  {
    samples := TrafRead(p, Wrap32(p.sequenceNumber));
    assert First(Moof(p).children, MFHD) == Some(Mfhd(p.sequenceNumber))
        && First(Moof(p).children, TRAF) == Some(Traf(p)) by {
      BoxesFound(p);
    }
    HeadsRead(p);
  }

  /** Whatever is given, this much of it is found. */
  lemma {:induction false} FragmentRead(p: MediaParams) returns (samples: seq<Sample>)
    requires |p.mediaData| + 8 < TWO_TO_32 && 88 + 16 * |p.samples| < TWO_TO_32
    ensures ReadFragment(WriteAll(MediaTree(p)))
         == Some(Fragment(Wrap32(p.sequenceNumber), Wrap32(p.trackId), Wrap64(p.baseDecodeTime), samples))
    ensures |samples| == |p.samples| && forall i :: 0 <= i < |samples| ==> samples[i] == Wrapped(p.samples[i])
  {
    var file := WriteAll(MediaTree(p));
    assert Parse(file) == Some(MediaTree(p)) by {
      MoofLength(p);
      LeafLength(MDAT, p.mediaData);
      MediaSegmentRoundTrip(p);
    }
    assert First(MediaTree(p), MOOF) == Some(Moof(p)) by {
      BoxesFound(p);
    }
    samples := MoofRead(p);
  }

  lemma {:induction false} HeadsRead(p: MediaParams)
    ensures WordBehind(Mfhd(p.sequenceNumber), [0, 0, 0, 0]) == Some(Wrap32(p.sequenceNumber))
    ensures WordBehind(Tfhd(p.trackId), [0, 2, 0, 0]) == Some(Wrap32(p.trackId))
  {
    FlagBytes();
    WordRead(MFHD, 0, 0, p.sequenceNumber, []);
    WordRead(TFHD, 0, 0x02_0000, p.trackId, []);
    assert U32(p.sequenceNumber) + [] == U32(p.sequenceNumber) && U32(p.trackId) + [] == U32(p.trackId);
  }

  predicate SampleFits(s: Sample) {
    && s.duration < TWO_TO_32 && s.size < TWO_TO_32 && s.flags < TWO_TO_32 && 0 <= s.compositionOffset < TWO_TO_32
  }

  /** A reader finds in a media segment the sequence number, the track, the decode time and all fields of every sample
      as they were given, exactly if each fits its width; composition time offsets have no sign there. */
  lemma {:induction false} FragmentReadsBack(p: MediaParams)
    requires |p.mediaData| + 8 < TWO_TO_32 && 88 + 16 * |p.samples| < TWO_TO_32
    ensures ReadFragment(WriteAll(MediaTree(p)))
         == Some(Fragment(p.sequenceNumber, p.trackId, p.baseDecodeTime, p.samples))
       <==> && p.sequenceNumber < TWO_TO_32 && p.trackId < TWO_TO_32 && 0 <= p.baseDecodeTime < TWO_TO_64
            && forall i :: 0 <= i < |p.samples| ==> SampleFits(p.samples[i])
  {
    var samples := FragmentRead(p);
    forall i | 0 <= i < |p.samples|
      ensures samples[i] == p.samples[i] <==> SampleFits(p.samples[i])
    {
      WrappedFits(p.samples[i]);
    }
    WrapFits(p.sequenceNumber);
    WrapFits(p.trackId);
    assert samples == p.samples <==> forall i :: 0 <= i < |p.samples| ==> SampleFits(p.samples[i]);
  }

  lemma {:induction false} WrappedFits(s: Sample)
    ensures Wrapped(s) == s <==> SampleFits(s)
  {
    WrapFits(s.duration);
    WrapFits(s.size);
    WrapFits(s.flags);
    WrapFits(s.compositionOffset);
  }

  lemma {:induction false} WrapFits(v: int)
    ensures Wrap32(v) == v <==> 0 <= v < TWO_TO_32
  {
  }
}
