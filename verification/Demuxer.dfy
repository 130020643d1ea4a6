/** The FLV demuxer's video path: the AVC decoder configuration record and the frames that follow it. */
module Demuxer {
  import opened Bytes
  import opened AnnexB
  import opened AvcConfig
  import BitReader
  import Sps
  import SpsUnits

  datatype IngestError = CorruptNalu | InvalidCodec | InvalidResolution(width: nat, height: nat)

  datatype VideoFrame = VideoFrame(
    width: nat, height: nat, pts: int, dts: int, keyframe: bool, data: seq<byte>)

  /** The demuxer's fields that video tags read and write. */
  datatype State = State(
    hasVideoSeqHeader: bool, sps: Option<Unit>, pps: Option<Unit>, width: nat, height: nat,
    firstPts: Option<int>)

  // ----- The AVC decoder configuration record -----

  /** Keeps `sps` and, when it is long enough to be parsed and a size comes out, the size. */
  function WithSps(st: State, sps: Unit): State {
    var st' := st.(sps := Some(sps));
    if |sps| > 4 && Sps.ParsedOf(sps).size.Some? then
      var (w, h) := Sps.ParsedOf(sps).size.value;
      st'.(width := w, height := h)
    else st'
  }

  function KeepAll(st: State, units: seq<Unit>): State {
    if units == [] then st else WithSps(KeepAll(st, units[..|units| - 1]), units[|units| - 1])
  }

  lemma {:induction false} KeepAllOne(st: State, u: Unit)
    ensures KeepAll(st, [u]) == WithSps(st, u)
  {
    assert [u][..0] == [];
  }

  lemma {:induction false} KeepOneMore(st: State, units: seq<Unit>, u: Unit)
    ensures KeepAll(st, units + [u]) == KeepAll(KeepAll(st, units), [u])
  {
    assert (units + [u])[..|units|] == units;
    KeepAllOne(KeepAll(st, units), u);
  }

  /** Up to `n` length-prefixed entries and what follows them; a truncated entry ends the list, behind its length
      field if it has one. */
  function Entries(d: seq<byte>, n: nat): (seq<Unit>, seq<byte>)
    decreases n
  {
    if n == 0 || |d| < 2 then ([], d)
    else
      var length := Number(d[..2]);
      if 2 + length > |d| then ([], d[2..])
      else
        var tail := Entries(d[2 + length..], n - 1);
        ([d[2..2 + length]] + tail.0, tail.1)
  }

  function LastOr(units: seq<Unit>, default: Option<Unit>): Option<Unit> {
    if units == [] then default else Some(units[|units| - 1])
  }

  predicate ValidResolution(st: State) {
    st.width != 0 && st.height != 0 && st.width <= 3840 && st.height <= 2160
  }

  function ConfigOf(st: State, data: seq<byte>): (State, Result<(), IngestError>) {
    if |data| < 7 then (st, Err(CorruptNalu))
    else
      var (spsUnits, rest) := Entries(data[6..], data[5] % 0x20);
      var st1 := KeepAll(st, spsUnits);
      var st2 := if rest == [] then st1 else st1.(pps := LastOr(Entries(rest[1..], rest[0]).0, st1.pps));
      (st2, if ValidResolution(st2) then Ok(()) else Err(InvalidResolution(st2.width, st2.height)))
  }

  // ----- Video tags -----

  /** The signed 24-bit composition time offset. */
  function CompositionTime(a: byte, b: byte, c: byte): int {
    AsI32(Wrap32(Number([if a >= 0x80 then 0xFF else 0, a, b, c])))
  }

  function Normalized(st: State, pts: int): (State, int) {
    match st.firstPts
    case Some(first) => (st, pts - first)
    case None => (st.(firstPts := Some(pts)), 0)
  }

  /** Keyframes carry the parameter sets in front. */
  function FrameData(st: State, keyframe: bool, nalus: seq<byte>): seq<byte> {
    if keyframe && st.sps.Some? && st.pps.Some? then
      START_CODE + st.sps.value + START_CODE + st.pps.value + nalus
    else nalus
  }

  function NaluFrame(st: State, data: seq<byte>, timestamp: nat): (State, Result<Option<VideoFrame>, IngestError>)
    requires |data| >= 5
  {
    match Split(data[5..])
    case Err(_) => (st, Err(CorruptNalu))
    case Ok(units) =>
      var keyframe := HasIdr(units) || data[0] / 0x10 == 1;
      var (st1, pts) := Normalized(st, (timestamp + CompositionTime(data[2], data[3], data[4])) * 90);
      var (st2, dts) := Normalized(st1, timestamp * 90);
      (st2, Ok(Some(VideoFrame(st.width, st.height, pts, dts, keyframe,
                               FrameData(st, keyframe, Stream(NonEmpty(units)))))))
  }

  function VideoOf(st: State, data: seq<byte>, timestamp: nat): (State, Result<Option<VideoFrame>, IngestError>) {
    if |data| < 5 then (st, Err(CorruptNalu))
    else if data[0] % 0x10 != 7 then (st, Err(InvalidCodec))
    else if data[1] == 0 then
      var (st1, r) := ConfigOf(st, data[5..]);
      if r.Err? then (st1, Err(r.error)) else (st1.(hasVideoSeqHeader := true), Ok(None))
    else if data[1] == 1 then
      if !st.hasVideoSeqHeader then (st, Ok(None)) else NaluFrame(st, data, timestamp)
    else (st, Ok(None))
  }

  /** `units` is what the entry list `all` has before `pos`, with up to `n` entries to come. */
  ghost predicate Behind(all: (seq<Unit>, seq<byte>), units: seq<Unit>, data: seq<byte>, pos: nat, n: nat)
    requires pos <= |data|
  {
    var tail := Entries(data[pos..], n);
    all == (units + tail.0, tail.1)
  }

  lemma {:induction false} EntriesStep(data: seq<byte>, pos: nat, n: nat)
    requires pos + 2 <= |data| && n > 0
    ensures var end := pos + 2 + Number(data[pos..pos + 2]);
      Entries(data[pos..], n)
      == if end > |data| then ([], data[pos + 2..])
         else ([data[pos + 2..end]] + Entries(data[end..], n - 1).0, Entries(data[end..], n - 1).1)
  {
    var end := pos + 2 + Number(data[pos..pos + 2]);
    SliceOfSuffix(data, pos, 0, 2);
    SliceOfSuffix(data, pos, 2, 2);
    if end <= |data| {
      SliceOfSuffix(data, pos, 2, end - pos);
    }
  }

  lemma {:induction false} NextEntry(all: (seq<Unit>, seq<byte>), units: seq<Unit>, data: seq<byte>, pos: nat, n: nat)
    requires pos + 2 <= |data| && n > 0 && Behind(all, units, data, pos, n)
    ensures var end := pos + 2 + Number(data[pos..pos + 2]);
      if end > |data| then all == (units, data[pos + 2..])
      else Behind(all, units + [data[pos + 2..end]], data, end, n - 1)
  {
    var end := pos + 2 + Number(data[pos..pos + 2]);
    EntriesStep(data, pos, n);
    if end <= |data| {
      var more := Entries(data[end..], n - 1).0;
      assert units + ([data[pos + 2..end]] + more) == units + [data[pos + 2..end]] + more;
    } else {
      assert units + [] == units;
    }
  }

  class FlvDemuxer {
    var hasVideoSeqHeader: bool
    var sps: Option<Unit>
    var pps: Option<Unit>
    var videoWidth: nat
    var videoHeight: nat
    var firstPts: Option<int>

    function View(): State
      reads this
    {
      State(hasVideoSeqHeader, sps, pps, videoWidth, videoHeight, firstPts)
    }

    constructor ()
      ensures View() == State(false, None, None, 0, 0, None)
    {
      hasVideoSeqHeader, sps, pps, videoWidth, videoHeight, firstPts := false, None, None, 0, 0, None;
    }

    method ParseSpsDimensions(unit: Unit)
      modifies this`videoWidth, this`videoHeight
      ensures Sps.ParsedOf(unit).size.Some? ==> (videoWidth, videoHeight) == Sps.ParsedOf(unit).size.value
      ensures Sps.ParsedOf(unit).size.None? ==> videoWidth == old(videoWidth) && videoHeight == old(videoHeight)
    {
      var p := Sps.ParseDimensions(unit);
      if p.size.Some? {
        videoWidth, videoHeight := p.size.value.0, p.size.value.1;
      }
    }

    method KeepSps(unit: Unit)
      modifies this`sps, this`videoWidth, this`videoHeight
      ensures View() == KeepAll(old(View()), [unit])
    {
      KeepAllOne(View(), unit);
      sps := Some(unit);
      if |unit| > 4 {
        ParseSpsDimensions(unit);
      }
    }

    method ReadSpsEntries(data: seq<byte>, start: nat, n: nat) returns (pos: nat)
      requires start <= |data|
      modifies this`sps, this`videoWidth, this`videoHeight
      ensures pos <= |data| && data[pos..] == Entries(data[start..], n).1
      ensures View() == KeepAll(old(View()), Entries(data[start..], n).0)
    {
      pos := start;
      ghost var all := Entries(data[start..], n);
      ghost var units: seq<Unit> := [];
      assert units + all.0 == all.0;
      for i := 0 to n
        invariant 0 <= pos <= |data|
        invariant Behind(all, units, data, pos, n - i)
        invariant View() == KeepAll(old(View()), units)
      {
        if pos + 2 > |data| {
          assert units + [] == units;
          return;
        }
        NextEntry(all, units, data, pos, n - i);
        var length := Number(data[pos..pos + 2]);
        pos := pos + 2;
        if pos + length > |data| {
          return;
        }
        var unit := data[pos..pos + length];
        KeepSps(unit);
        KeepOneMore(old(View()), units, unit);
        units := units + [unit];
        pos := pos + length;
      }
      assert units + [] == units;
    }

    method ReadPpsEntries(data: seq<byte>, start: nat, n: nat)
      requires start <= |data|
      modifies this`pps
      ensures pps == LastOr(Entries(data[start..], n).0, old(pps))
    {
      var pos := start;
      ghost var all := Entries(data[start..], n);
      ghost var units: seq<Unit> := [];
      assert units + all.0 == all.0;
      for i := 0 to n
        invariant 0 <= pos <= |data|
        invariant Behind(all, units, data, pos, n - i)
        invariant pps == LastOr(units, old(pps))
      {
        if pos + 2 > |data| {
          assert units + [] == units;
          return;
        }
        NextEntry(all, units, data, pos, n - i);
        var length := Number(data[pos..pos + 2]);
        pos := pos + 2;
        if pos + length > |data| {
          return;
        }
        pps := Some(data[pos..pos + length]);
        units := units + [data[pos..pos + length]];
        pos := pos + length;
      }
      assert units + [] == units;
    }

    method ParseAvcDecoderConfig(data: seq<byte>) returns (r: Result<(), IngestError>)
      modifies this`sps, this`pps, this`videoWidth, this`videoHeight
      ensures (View(), r) == ConfigOf(old(View()), data)
    {
      if |data| < 7 {
        return Err(CorruptNalu);
      }
      var pos := ReadSpsEntries(data, 6, data[5] % 0x20);
      if pos < |data| {
        ghost var rest := data[pos..];
        assert rest[1..] == data[pos + 1..];
        ReadPpsEntries(data, pos + 1, data[pos]);
      }
      if !ValidResolution(View()) {
        return Err(InvalidResolution(videoWidth, videoHeight));
      }
      return Ok(());
    }

    method NormalizePts(pts: int) returns (normalized: int)
      modifies this`firstPts
      ensures (View(), normalized) == Normalized(old(View()), pts)
    {
      if firstPts.Some? {
        return pts - firstPts.value;
      }
      firstPts := Some(pts);
      return 0;
    }

    method DemuxVideo(data: seq<byte>, timestampMs: nat) returns (r: Result<Option<VideoFrame>, IngestError>)
      modifies this
      ensures (View(), r) == VideoOf(old(View()), data, timestampMs)
    {
      if |data| < 5 {
        return Err(CorruptNalu);
      }
      if data[0] % 0x10 != 7 {
        return Err(InvalidCodec);
      }
      var frameType := data[0] / 0x10;
      var cts := CompositionTime(data[2], data[3], data[4]);
      if data[1] == 0 {
        var config := ParseAvcDecoderConfig(data[5..]);
        if config.Err? {
          return Err(config.error);
        }
        hasVideoSeqHeader := true;
        return Ok(None);
      } else if data[1] == 1 {
        if !hasVideoSeqHeader {
          return Ok(None);
        }
        var nalus := ExtractNalus(data[5..]);
        if nalus.Err? {
          return Err(CorruptNalu);
        }
        var isKeyframe := nalus.value.0 || frameType == 1;
        var frameData := FrameData(View(), isKeyframe, nalus.value.1);
        var pts := NormalizePts((timestampMs + cts) * 90);
        var dts := NormalizePts(timestampMs * 90);
        return Ok(Some(VideoFrame(videoWidth, videoHeight, pts, dts, isKeyframe, frameData)));
      } else {
        return Ok(None);
      }
    }
  }

  // ----- The record the muxer writes is read back -----

  /** The head of an entry: its length field and, as far as that reaches, its bytes. */
  lemma {:induction false} EntryParts(u: Unit, t: seq<byte>)
    ensures var d := U16(|u|) + (u + t); var n := |u| % 0x1_0000;
      && n <= |u| && (|u| < TWO_TO_16 ==> n == |u|)
      && Number(d[..2]) == n && d[2..2 + n] == u[..n] && d[2 + n..] == u[n..] + t
  {
    U16Value(|u|);
    var d := U16(|u|) + (u + t);
    assert d[..2] == U16(|u|);
  }

  /** A one-entry list holds its unit whole, or cut short when the length field cannot hold its length. */
  lemma {:induction false} EntryRead(u: Unit, t: seq<byte>)
    ensures var n := |u| % 0x1_0000;
      && Entries(U16(|u|) + (u + t), 1) == ([u[..n]], u[n..] + t)
      && (|u| < TWO_TO_16 ==> u[..n] == u && u[n..] + t == t)
      && (|u| >= TWO_TO_16 ==> |u[..n]| < |u|)
  {
    EntryParts(u, t);
    var d := U16(|u|) + (u + t);
    EntriesOne(d, |u| % 0x1_0000);
  }

  lemma {:induction false} EntriesOne(d: seq<byte>, n: nat)
    requires 2 + n <= |d| && Number(d[..2]) == n
    ensures Entries(d, 1) == ([d[2..2 + n]], d[2 + n..])
  {
    var u := d[2..2 + n];
    assert Entries(d[2 + n..], 0) == ([], d[2 + n..]);
    assert [u] + [] == [u];
  }

  lemma {:induction false} RecordParts(st: State, sps: Unit, pps: Unit)
    ensures var d := AvcRecord(sps, pps);
      && |d| >= 7 && d[5] % 0x20 == 1
      && d[6..] == U16(|sps|) + (sps + ([1] + (U16(|pps|) + pps)))
  {
  }

  /** The record written for an SPS and a PPS gives both back exactly when their lengths fit its 16-bit fields;
      the rest of the demuxer's state is then what that SPS makes it. */
  lemma {:induction false} AvcConfigRoundTrip(st: State, sps: Unit, pps: Unit)
    ensures var st' := ConfigOf(st, AvcRecord(sps, pps)).0;
      && (st'.sps == Some(sps) && st'.pps == Some(pps) <==> |sps| < TWO_TO_16 && |pps| < TWO_TO_16)
      && (|sps| < TWO_TO_16 && |pps| < TWO_TO_16 ==> st' == WithSps(st, sps).(pps := Some(pps)))
  {
    RecordParts(st, sps, pps);
    var t := [1] + (U16(|pps|) + pps);
    EntryRead(sps, t);
    var cut := sps[..|sps| % 0x1_0000];
    KeepAllOne(st, cut);
    if |sps| < TWO_TO_16 {
      assert t[1..] == U16(|pps|) + (pps + []) && t[0] == 1;
      EntryRead(pps, []);
    }
  }

  /** The two ends together: for an SPS unit as the standard prescribes it, without a scaling matrix, without an escape
      before the end of the cropping offsets, and with a cropping the demuxer supports, the written record is accepted
      exactly when the picture is at most 3840 by 2160, and it sets the parameter sets and the cropped size of the
      standard. */
  lemma {:induction false} AvcConfigCarriesSize(
    st: State, sps: Unit, pps: Unit, payload: seq<byte>, f: Sps.SpsFields, t: seq<BitReader.bit>)
    requires 4 < |sps| < TWO_TO_16 && |pps| < TWO_TO_16
    requires Sps.InRange(f) && Sps.Sized(f) && Sps.CropSupported(f)
    requires BitReader.Bits(payload) == Sps.SpsBits(f, t) && sps[1..] == SpsUnits.Escaped(payload, 0)
    requires SpsUnits.Unescaped(payload, 0, SpsUnits.FieldBytes(f))
    ensures var w, h := Sps.CroppedWidth(f), Sps.CroppedHeight(f);
      ConfigOf(st, AvcRecord(sps, pps))
      == (st.(sps := Some(sps), pps := Some(pps), width := w, height := h),
          if w <= 3840 && h <= 2160 then Ok(()) else Err(InvalidResolution(w, h)))
  {
    AvcConfigRoundTrip(st, sps, pps);
    SpsUnits.UnitDimensions(f, t, payload, sps);
  }

  // ----- Parameter sets survive from the configuration to the packager -----

  /** Scanning a keyframe made from stored parameter sets, with more of the stream behind it, finds those very
      sets, even when they end in zero bytes. */
  lemma {:induction false} ParameterSetsPreserved(st: State, nalus: seq<byte>, rest: seq<byte>)
    requires st.sps.Some? && st.pps.Some?
    requires st.sps.value != [] && NalType(st.sps.value) == NAL_TYPE_SPS && CodeFree(st.sps.value)
    requires st.pps.value != [] && NalType(st.pps.value) == NAL_TYPE_PPS && CodeFree(st.pps.value)
    requires Boundary(nalus) && (nalus == [] ==> Boundary(rest))
    ensures ParameterSets(Scan(FrameData(st, true, nalus) + rest)) == Some((st.sps.value, st.pps.value))
  {
    var units, tail := [st.sps.value, st.pps.value], nalus + rest;
    if nalus == [] {
      assert tail == rest;
    }
    TwoUnits(st.sps.value, st.pps.value);
    assert FrameData(st, true, nalus) + rest == Stream(units) + tail;
    ScanInvertsStream(units, tail);
    FirstTwo(st.sps.value, st.pps.value, Scan(tail));
  }

  lemma {:induction false} TwoUnits(a: Unit, b: Unit)
    ensures Stream([a, b]) == START_CODE + a + START_CODE + b
  {
    assert Stream([b]) == START_CODE + b;
    assert [a, b][1..] == [b];
  }

  lemma {:induction false} FirstTwo(sps: Unit, pps: Unit, more: seq<Unit>)
    requires sps != [] && NalType(sps) == NAL_TYPE_SPS && pps != [] && NalType(pps) == NAL_TYPE_PPS
    ensures ParameterSets([sps, pps] + more) == Some((sps, pps))
  {
    var units := [sps, pps] + more;
    assert units[1..][0] == pps;
    assert FirstOfType(units, NAL_TYPE_PPS) == FirstOfType(units[1..], NAL_TYPE_PPS);
  }

  /** From the tag to the scanner: when a NALU tag decodes to a keyframe, the parameter sets that the demuxer
      holds are what the packager finds at the head of the segment the frame starts. What follows matters only if the
      frame has nothing behind them. */
  lemma {:induction false} KeyframeCarriesParameterSets(st: State, data: seq<byte>, timestamp: nat, rest: seq<byte>)
    requires VideoOf(st, data, timestamp).1.Ok? && VideoOf(st, data, timestamp).1.value.Some?
    requires VideoOf(st, data, timestamp).1.value.value.keyframe
    requires st.sps.Some? && st.pps.Some?
    requires st.sps.value != [] && NalType(st.sps.value) == NAL_TYPE_SPS && CodeFree(st.sps.value)
    requires st.pps.value != [] && NalType(st.pps.value) == NAL_TYPE_PPS && CodeFree(st.pps.value)
    requires |VideoOf(st, data, timestamp).1.value.value.data| == 8 + |st.sps.value| + |st.pps.value| ==> Boundary(rest)
    ensures ParameterSets(Scan(VideoOf(st, data, timestamp).1.value.value.data + rest))
         == Some((st.sps.value, st.pps.value))
  {
    var units := NonEmpty(Split(data[5..]).value);
    StreamBoundary(units, []);
    assert Stream(units) + [] == Stream(units);
    ParameterSetsPreserved(st, Stream(units), rest);
  }

  // ----- What a tag gives -----

  /** The Annex B form of section B.1 of ITU-T H.264, with four-byte start codes; empty units have none. */
  function AnnexBForm(units: seq<Unit>): seq<byte> {
    if units == [] then []
    else (if units[0] == [] then [] else [0, 0, 0, 1] + units[0]) + AnnexBForm(units[1..])
  }

  lemma {:induction false} StreamIsForm(units: seq<Unit>)
    ensures Stream(NonEmpty(units)) == AnnexBForm(units)
  {
    if units != [] {
      StreamIsForm(units[1..]);
      if units[0] != [] {
        assert ([units[0]] + NonEmpty(units[1..]))[1..] == NonEmpty(units[1..]);
      }
    }
  }

  /** A slice of an IDR picture: nal_unit_type 5. */
  predicate IdrAt(units: seq<Unit>, i: nat) {
    i < |units| && units[i] != [] && units[i][0] % 0x20 == 5
  }

  lemma {:induction false} HasIdrMeans(units: seq<Unit>)
    ensures HasIdr(units) <==> exists i: nat :: IdrAt(units, i)
  {
    if units != [] {
      HasIdrMeans(units[1..]);
      if i: nat :| IdrAt(units[1..], i) {
        assert IdrAt(units, i + 1);
      }
      if i: nat :| IdrAt(units, i) {
        assert i > 0 ==> IdrAt(units[1..], i - 1);
      }
      assert units[0] != [] && units[0][0] % 0x20 == 5 ==> IdrAt(units, 0);
    }
  }

  /** A tag of NAL units: frame type and codec, packet type 1, the composition time, and the units behind their
      lengths. */
  function NaluTag(head: byte, cts: seq<byte>, units: seq<Unit>, tail: seq<byte>): seq<byte>
    requires |cts| == 3
  {
    [head, 1] + cts + (LengthPrefixed(units) + tail)
  }

  /** Whatever units a tag of an AVC stream carries, they come out as a frame: a keyframe exactly if one of them is an
      IDR slice or the tag's frame type is 1, of the size set last, its data the Annex B form of its units, behind SPS
      and PPS exactly if it is a keyframe and both are known. Apart from the origin of its times the demuxer stays as it
      is. */
  lemma {:induction false} NaluTagFrame(
    st: State, head: byte, cts: seq<byte>, units: seq<Unit>, tail: seq<byte>, timestamp: nat)
    requires |cts| == 3 && head % 0x10 == 7 && st.hasVideoSeqHeader && |tail| < 4
    requires forall i :: 0 <= i < |units| ==> |units[i]| < TWO_TO_32
    ensures var (st', r) := VideoOf(st, NaluTag(head, cts, units, tail), timestamp);
      && st' == st.(firstPts := st'.firstPts)
      && r.Ok? && r.value.Some?
      && (var frame := r.value.value;
          && (frame.keyframe <==> head / 0x10 == 1 || exists i: nat :: IdrAt(units, i))
          && frame.width == st.width && frame.height == st.height
          && frame.data == (if frame.keyframe && st.sps.Some? && st.pps.Some?
                            then [0, 0, 0, 1] + st.sps.value + [0, 0, 0, 1] + st.pps.value else []) + AnnexBForm(units))
  {
    var data := NaluTag(head, cts, units, tail);
    assert data[5..] == LengthPrefixed(units) + tail && data[0] == head && data[1] == 1;
    SplitInvertsPrefixing(units, tail);
    StreamIsForm(units);
    HasIdrMeans(units);
    assert VideoOf(st, data, timestamp) == NaluFrame(st, data, timestamp);
    assert [] + AnnexBForm(units) == AnnexBForm(units);
  }

  /** Data that is some units behind their lengths, with fewer than four bytes left over. */
  ghost predicate Prefixed(d: seq<byte>) {
    exists units: seq<Unit>, tail: seq<byte> ::
      && d == LengthPrefixed(units) + tail && |tail| < 4
      && forall i :: 0 <= i < |units| ==> |units[i]| < TWO_TO_32
  }

  /** All other tags leave the demuxer as it is, and give nothing: too short ones, other codecs and truncated units are
      errors, units before the configuration and packet types from 2 on are passed over. */
  lemma {:induction false} OtherTags(st: State, data: seq<byte>, timestamp: nat)
    ensures var (st', r) := VideoOf(st, data, timestamp);
      if |data| < 5 then st' == st && r == Err(CorruptNalu)
      else if data[0] % 0x10 != 7 then st' == st && r == Err(InvalidCodec)
      else if data[1] >= 2 || (data[1] == 1 && !st.hasVideoSeqHeader) then st' == st && r == Ok(None)
      else if data[1] == 1 then
        (r.Err? <==> !Prefixed(data[5..])) && (r.Err? ==> st' == st && r == Err(CorruptNalu))
      else
        && st'.firstPts == st.firstPts && !(r.Ok? && r.value.Some?)
        && st'.hasVideoSeqHeader == (st.hasVideoSeqHeader || r.Ok?)
  {
    if |data| >= 5 && data[0] % 0x10 == 7 {
      if data[1] == 1 {
        SplitExactly(data[5..]);
      } else if data[1] == 0 {
        ConfigKeepsOrigin(st, data[5..]);
        ConfigKeepsHeader(st, data[5..]);
      }
    }
  }

  lemma {:induction false} SplitExactly(d: seq<byte>)
    ensures Split(d).Ok? <==> Prefixed(d)
  {
    if Split(d).Ok? {
      var tail := SplitSound(d);
      assert forall i :: 0 <= i < |Split(d).value| ==> Split(d).value[i] in Split(d).value;
    }
    if Prefixed(d) {
      var units: seq<Unit>, tail: seq<byte> :| d == LengthPrefixed(units) + tail && |tail| < 4
        && forall i :: 0 <= i < |units| ==> |units[i]| < TWO_TO_32;
      SplitInvertsPrefixing(units, tail);
    }
  }

  lemma {:induction false} ConfigKeepsHeader(st: State, data: seq<byte>)
    ensures ConfigOf(st, data).0.hasVideoSeqHeader == st.hasVideoSeqHeader
  {
    if |data| >= 7 {
      KeepAllKeepsHeader(st, Entries(data[6..], data[5] % 0x20).0);
    }
  }

  lemma {:induction false} KeepAllKeepsHeader(st: State, units: seq<Unit>)
    ensures KeepAll(st, units).hasVideoSeqHeader == st.hasVideoSeqHeader
    decreases |units|
  {
    if units != [] {
      KeepAllKeepsHeader(st, units[..|units| - 1]);
    }
  }

  /** A configuration tag with a record as above: the size set last is then the cropped size of the standard. */
  lemma {:induction false} ConfigTag(
    st: State, head: byte, cts: seq<byte>, sps: Unit, pps: Unit, payload: seq<byte>, f: Sps.SpsFields,
    t: seq<BitReader.bit>, timestamp: nat)
    requires |cts| == 3 && head % 0x10 == 7
    requires 4 < |sps| < TWO_TO_16 && |pps| < TWO_TO_16
    requires Sps.InRange(f) && Sps.Sized(f) && Sps.CropSupported(f)
    requires BitReader.Bits(payload) == Sps.SpsBits(f, t) && sps[1..] == SpsUnits.Escaped(payload, 0)
    requires SpsUnits.Unescaped(payload, 0, SpsUnits.FieldBytes(f))
    ensures var w, h := Sps.CroppedWidth(f), Sps.CroppedHeight(f);
      var known := st.(sps := Some(sps), pps := Some(pps), width := w, height := h);
      VideoOf(st, [head, 0] + cts + AvcRecord(sps, pps), timestamp)
      == if w <= 3840 && h <= 2160 then (known.(hasVideoSeqHeader := true), Ok(None))
         else (known, Err(InvalidResolution(w, h)))
  {
    var data := [head, 0] + cts + AvcRecord(sps, pps);
    assert data[5..] == AvcRecord(sps, pps) && data[0] == head && data[1] == 0;
    AvcConfigCarriesSize(st, sps, pps, payload, f, t);
  }

  // ----- Times -----

  /** The composition time is the 24-bit two's complement number in its three bytes. */
  lemma {:induction false} CompositionTimeSigned(a: byte, b: byte, c: byte)
    ensures CompositionTime(a, b, c) == Number([a, b, c]) - (if a >= 0x80 then 0x100_0000 else 0)
  {
    var high: byte := if a >= 0x80 then 0xFF else 0;
    assert Number([a, b, c]) == a * 0x1_0000 + b * 0x100 + c by {
      ThreeBytes(a, b, c);
    }
    assert Number([high, a, b, c]) == high * 0x100_0000 + Number([a, b, c]) by {
      FourBytes(high, a, b, c);
    }
  }

  lemma {:induction false} ThreeBytes(a: byte, b: byte, c: byte)
    ensures Number([a, b, c]) == a * 0x1_0000 + b * 0x100 + c
  {
    assert [a, b, c][..2] == [a, b] && [a, b][..1] == [a] && [a][..0] == [];
    assert Number([a]) == a && Number([a, b]) == a * 0x100 + b;
  }

  lemma {:induction false} FourBytes(h: byte, a: byte, b: byte, c: byte)
    ensures Number([h, a, b, c]) == h * 0x100_0000 + Number([a, b, c])
  {
    assert [h, a, b, c][..3] == [h, a, b];
    ThreeBytes(h, a, b);
    ThreeBytes(a, b, c);
  }

  /** All frames of a stream are timed from one origin, the presentation time of the first: it is set by the first
      frame and never changes, every frame's times are its tag's times less the origin, and so presentation and
      decoding time of a frame differ by its composition time. */
  lemma {:induction false} FrameTimes(st: State, data: seq<byte>, timestamp: nat)
    requires var r := VideoOf(st, data, timestamp).1; r.Ok? && r.value.Some?
    ensures var (st', r) := VideoOf(st, data, timestamp);
      var frame, cts := r.value.value, CompositionTime(data[2], data[3], data[4]);
      && st'.firstPts.Some?
      && (if st.firstPts.Some? then st'.firstPts == st.firstPts else frame.pts == 0)
      && frame.pts == (timestamp + cts) * 90 - st'.firstPts.value
      && frame.dts == timestamp * 90 - st'.firstPts.value
  {
    var cts := CompositionTime(data[2], data[3], data[4]);
    assert VideoOf(st, data, timestamp) == NaluFrame(st, data, timestamp);
  }

  /** A tag: a video tag, or an audio tag that holds a frame, whose time goes through the same origin. */
  datatype Tag = VideoTag(data: seq<byte>, timestamp: nat) | AudioTag(timestamp: nat)

  /** The times of a frame, as its tag has them and as the demuxer gives them. */
  datatype Times = Times(presentation: int, decoding: int, pts: int, dts: int)

  function TimesOf(st: State, tag: Tag): (State, Option<Times>) {
    match tag
    case AudioTag(timestamp) =>
      var (st', pts) := Normalized(st, timestamp * 90);
      (st', Some(Times(timestamp * 90, timestamp * 90, pts, pts)))
    case VideoTag(data, timestamp) =>
      var (st', r) := VideoOf(st, data, timestamp);
      if r.Err? || r.value.None? then (st', None)
      else
        var cts := CompositionTime(data[2], data[3], data[4]);
        (st', Some(Times((timestamp + cts) * 90, timestamp * 90, r.value.value.pts, r.value.value.dts)))
  }

  /** The state after some tags, and the times of their frames. */
  function RunTimes(st: State, tags: seq<Tag>): (State, seq<Times>) {
    if tags == [] then (st, [])
    else
      var (before, frames) := RunTimes(st, tags[..|tags| - 1]);
      var (after, frame) := TimesOf(before, tags[|tags| - 1]);
      (after, if frame.Some? then frames + [frame.value] else frames)
  }

  lemma {:induction false} TagTimes(st: State, tag: Tag)
    ensures var (st', frame) := TimesOf(st, tag);
      && (st.firstPts.Some? || frame.None? ==> st'.firstPts == st.firstPts)
      && (frame.Some? ==>
            && st'.firstPts == (if st.firstPts.Some? then st.firstPts else Some(frame.value.presentation))
            && frame.value.pts == frame.value.presentation - st'.firstPts.value
            && frame.value.dts == frame.value.decoding - st'.firstPts.value)
  {
    match tag
    case AudioTag(_) =>
    case VideoTag(data, timestamp) =>
      var r := VideoOf(st, data, timestamp).1;
      if r.Ok? && r.value.Some? {
        FrameTimes(st, data, timestamp);
      } else {
        NoFrameNoOrigin(st, data, timestamp);
      }
  }

  lemma {:induction false} NoFrameNoOrigin(st: State, data: seq<byte>, timestamp: nat)
    requires var r := VideoOf(st, data, timestamp).1; !(r.Ok? && r.value.Some?)
    ensures VideoOf(st, data, timestamp).0.firstPts == st.firstPts
  {
    if |data| >= 5 && data[0] % 0x10 == 7 && data[1] == 0 {
      ConfigKeepsOrigin(st, data[5..]);
    }
  }

  lemma {:induction false} ConfigKeepsOrigin(st: State, data: seq<byte>)
    ensures ConfigOf(st, data).0.firstPts == st.firstPts
  {
    if |data| >= 7 {
      KeepAllKeepsOrigin(st, Entries(data[6..], data[5] % 0x20).0);
    }
  }

  lemma {:induction false} KeepAllKeepsOrigin(st: State, units: seq<Unit>)
    ensures KeepAll(st, units).firstPts == st.firstPts
    decreases |units|
  {
    if units != [] {
      KeepAllKeepsOrigin(st, units[..|units| - 1]);
    }
  }

  /** All frames of a stream, audio and video in whatever order, are timed from the presentation time of the first
      frame: differences of times, across tags and between audio and video, come out as they went in. */
  lemma {:induction false} OneOrigin(st: State, tags: seq<Tag>)
    requires st.firstPts == None
    ensures var (st', frames) := RunTimes(st, tags);
      && st'.firstPts == (if frames == [] then None else Some(frames[0].presentation))
      && forall i :: 0 <= i < |frames| ==>
           && frames[i].pts == frames[i].presentation - frames[0].presentation
           && frames[i].dts == frames[i].decoding - frames[0].presentation
  {
    if tags != [] {
      OneOrigin(st, tags[..|tags| - 1]);
      TagTimes(RunTimes(st, tags[..|tags| - 1]).0, tags[|tags| - 1]);
    }
  }
}
