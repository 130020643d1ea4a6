/** Annex B byte streams: NAL units behind start codes, as the demuxer writes them and the packager's scanner
    finds them again, and the length-prefixed units that FLV tags carry. */
module AnnexB {
  import opened Bytes

  const START_CODE: seq<byte> := [0, 0, 0, 1]

  const NAL_TYPE_IDR: int := 5
  const NAL_TYPE_SPS: int := 7
  const NAL_TYPE_PPS: int := 8

  type Unit = seq<byte>

  function NalType(u: Unit): int
    requires u != []
  {
    u[0] % 0x20
  }

  /** Each unit behind a four-byte start code. */
  function Stream(units: seq<Unit>): seq<byte> {
    if units == [] then [] else START_CODE + units[0] + Stream(units[1..])
  }

  // ----- The scanner -----

  /** The length of the start code at the head of `d`, or 0. */
  function CodeLength(d: seq<byte>): (n: nat)
    ensures n <= |d|
  {
    if START_CODE <= d then 4 else if [0, 0, 1] <= d then 3 else 0
  }

  /** How many bytes of `d` come before the next start code; fewer than four bytes are never searched. */
  function UnitLength(d: seq<byte>): (n: nat)
    ensures n <= |d|
    decreases |d|
  {
    if |d| <= 3 then |d| else if CodeLength(d) > 0 then 0 else 1 + UnitLength(d[1..])
  }

  /** The non-empty units the scanner finds in `d`. */
  function Scan(d: seq<byte>): seq<Unit>
    decreases |d|
  {
    if |d| <= 3 then []
    else
      var k := CodeLength(d);
      if k == 0 then Scan(d[1..])
      else
        var n := UnitLength(d[k..]);
        if n == 0 then Scan(d[k..]) else [d[k..k + n]] + Scan(d[k + n..])
  }

  function FirstOfType(units: seq<Unit>, nalType: int): Option<Unit> {
    if units == [] then None
    else if units[0] != [] && NalType(units[0]) == nalType then Some(units[0])
    else FirstOfType(units[1..], nalType)
  }

  function Or(found: Option<Unit>, units: seq<Unit>, nalType: int): Option<Unit> {
    if found.Some? then found else FirstOfType(units, nalType)
  }

  /** The first SPS and the first PPS, if the stream has both. */
  function ParameterSets(units: seq<Unit>): Option<(Unit, Unit)> {
    var sps, pps := FirstOfType(units, NAL_TYPE_SPS), FirstOfType(units, NAL_TYPE_PPS);
    if sps.Some? && pps.Some? then Some((sps.value, pps.value)) else None
  }

  method FindEnd(d: seq<byte>, start: nat) returns (end: nat)
    requires start <= |d|
    ensures end == start + UnitLength(d[start..])
  {
    end := start;
    while end + 3 < |d| && CodeLength(d[end..]) == 0
      invariant start <= end <= |d|
      invariant end + UnitLength(d[end..]) == start + UnitLength(d[start..])
    {
      assert d[end..][1..] == d[end + 1..];
      end := end + 1;
    }
    if end + 3 >= |d| {
      end := |d|;
    }
  }

  /** `extract_avc_parameter_sets`. */
  method ExtractAvcParameterSets(annexB: seq<byte>) returns (r: Option<(Unit, Unit)>)
    ensures r == ParameterSets(Scan(annexB))
  {
    var sps: Option<Unit>, pps: Option<Unit> := None, None;
    var i := 0;
    assert annexB[0..] == annexB;
    while i + 3 < |annexB|
      invariant 0 <= i <= |annexB|
      invariant Or(sps, Scan(annexB[i..]), NAL_TYPE_SPS) == FirstOfType(Scan(annexB), NAL_TYPE_SPS)
      invariant Or(pps, Scan(annexB[i..]), NAL_TYPE_PPS) == FirstOfType(Scan(annexB), NAL_TYPE_PPS)
      decreases |annexB| - i
    {
      var d := annexB[i..];
      var prefixLength := CodeLength(d);
      if prefixLength == 0 {
        assert d[1..] == annexB[i + 1..];
        i := i + 1;
        continue;
      }
      var start := i + prefixLength;
      assert d[prefixLength..] == annexB[start..];
      var end := FindEnd(annexB, start);
      if end <= start {
        i := i + prefixLength;
        continue;
      }
      var nalu := annexB[start..end];
      assert nalu == d[prefixLength..end - i] && d[end - i..] == annexB[end..];
      assert Scan(d) == [nalu] + Scan(annexB[end..]);
      if NalType(nalu) == NAL_TYPE_SPS && sps.None? {
        sps := Some(nalu);
      } else if NalType(nalu) == NAL_TYPE_PPS && pps.None? {
        pps := Some(nalu);
      }
      if sps.Some? && pps.Some? {
        break;
      }
      i := end;
    }
    return if sps.Some? && pps.Some? then Some((sps.value, pps.value)) else None;
  }

  // ----- The scanner finds what was written -----

  /** No start code begins inside `u`. */
  predicate CodeFree(u: Unit) {
    forall i :: 0 <= i < |u| - 2 ==> u[i] != 0 || u[i + 1] != 0 || u[i + 2] != 1
  }

  /** What may follow a unit: nothing, or a four-byte start code. */
  predicate Boundary(rest: seq<byte>) {
    rest == [] || START_CODE <= rest
  }

  /** A unit ends exactly where it was ended, even when its last bytes are zeros. */
  lemma {:induction false} UnitFound(u: Unit, rest: seq<byte>)
    requires CodeFree(u) && Boundary(rest)
    ensures UnitLength(u + rest) == |u|
    decreases |u|
  {
    var d := u + rest;
    if u == [] {
      assert d == rest;
    } else if |d| > 3 {
      NoCodeAtHead(u, rest);
      assert d[1..] == u[1..] + rest;
      UnitFound(u[1..], rest);
    }
  }

  lemma {:induction false} NoCodeAtHead(u: Unit, rest: seq<byte>)
    requires u != [] && CodeFree(u) && Boundary(rest)
    ensures CodeLength(u + rest) == 0
  {
    var d := u + rest;
    if |d| >= 3 && d[0] == 0 && d[1] == 0 {
      if |u| >= 3 {
        assert d[2] == u[2];
      } else {
        assert d[2] == rest[2 - |u|];
      }
      if |d| >= 4 && d[2] == 0 {
        if |u| >= 4 {
          assert u[1] == 0 && u[2] == 0 && d[3] == u[3];
        } else {
          assert d[3] == rest[3 - |u|];
        }
      }
    }
  }

  predicate AllUnits(units: seq<Unit>) {
    forall i :: 0 <= i < |units| ==> units[i] != [] && CodeFree(units[i])
  }

  lemma {:induction false} ScanStep(u: Unit, tail: seq<byte>)
    requires u != [] && CodeFree(u) && Boundary(tail)
    ensures Scan(START_CODE + (u + tail)) == [u] + Scan(tail)
  {
    var d := START_CODE + (u + tail);
    UnitFound(u, tail);
    assert CodeLength(d) == 4;
    assert d[4..] == u + tail;
    assert d[4..4 + |u|] == u && d[4 + |u|..] == tail;
  }

  lemma {:induction false} StreamHead(units: seq<Unit>, rest: seq<byte>)
    requires units != []
    ensures Stream(units) + rest == START_CODE + (units[0] + (Stream(units[1..]) + rest))
  {
  }

  /** Scanning undoes writing: the units come back one by one, and scanning goes on with what follows them. */
  lemma {:induction false} ScanInvertsStream(units: seq<Unit>, rest: seq<byte>)
    requires AllUnits(units) && Boundary(rest)
    ensures Scan(Stream(units) + rest) == units + Scan(rest)
    decreases |units|
  {
    if units == [] {
      assert Stream(units) + rest == rest;
    } else {
      StreamHead(units, rest);
      StreamBoundary(units[1..], rest);
      ScanStep(units[0], Stream(units[1..]) + rest);
      ScanInvertsStream(units[1..], rest);
      HeadAndTail(units, Scan(rest));
    }
  }

  lemma {:induction false} HeadAndTail<T>(s: seq<T>, t: seq<T>)
    requires s != []
    ensures s + t == [s[0]] + (s[1..] + t)
    ensures s == [s[0]] + s[1..]
  {
  }

  lemma {:induction false} StreamBoundary(units: seq<Unit>, rest: seq<byte>)
    requires Boundary(rest)
    ensures Boundary(Stream(units) + rest)
  {
    if units == [] {
      assert Stream(units) + rest == rest;
    } else {
      assert Stream(units) + rest == START_CODE + (units[0] + Stream(units[1..]) + rest);
    }
  }

  // ----- Length-prefixed units -----

  /** Each unit behind its length in four bytes. */
  function LengthPrefixed(units: seq<Unit>): seq<byte> {
    if units == [] then [] else U32(|units[0]|) + units[0] + LengthPrefixed(units[1..])
  }

  /** The units of length-prefixed data; up to three bytes may be left over, and an overlong length is an error. */
  function Split(d: seq<byte>): Result<seq<Unit>, ()>
    decreases |d|
  {
    if |d| < 4 then Ok([])
    else
      var n := Number(d[..4]);
      if 4 + n > |d| then Err(())
      else Prepend([d[4..4 + n]], Split(d[4 + n..]))
  }

  function Prepend(units: seq<Unit>, r: Result<seq<Unit>, ()>): Result<seq<Unit>, ()> {
    match r
    case Err(e) => Err(e)
    case Ok(us) => Ok(units + us)
  }

  function NonEmpty(units: seq<Unit>): seq<Unit> {
    if units == [] then []
    else if units[0] == [] then NonEmpty(units[1..])
    else [units[0]] + NonEmpty(units[1..])
  }

  predicate IsIdr(u: Unit) {
    u != [] && NalType(u) == NAL_TYPE_IDR
  }

  predicate HasIdr(units: seq<Unit>) {
    units != [] && (IsIdr(units[0]) || HasIdr(units[1..]))
  }

  /** `extract_nalus`: whether there is an IDR unit, and the non-empty units as an Annex B stream. */
  method ExtractNalus(data: seq<byte>) returns (r: Result<(bool, seq<byte>), ()>)
    ensures r.Ok? <==> Split(data).Ok?
    ensures r.Ok? ==> r.value == (HasIdr(Split(data).value), Stream(NonEmpty(Split(data).value)))
  {
    var pos := 0;
    var keyframe := false;
    var output := [];
    ghost var units: seq<Unit> := [];
    ghost var all := Split(data);
    ProgressStart(data);
    while pos + 4 <= |data|
      invariant 0 <= pos <= |data|
      invariant Progress(all, data, pos, units)
      invariant keyframe == HasIdr(units)
      invariant output == Stream(NonEmpty(units))
    {
      var naluLength := Number(data[pos..pos + 4]);
      Advance(all, data, pos, units);
      pos := pos + 4;
      if pos + naluLength > |data| {
        return Err(());
      }
      ghost var unit := data[pos..pos + naluLength];
      if naluLength > 0 {
        if data[pos] % 0x20 == NAL_TYPE_IDR {
          keyframe := true;
        }
        output := output + START_CODE + data[pos..pos + naluLength];
      }
      UnitAppended(units, unit);
      units := units + [unit];
      pos := pos + naluLength;
    }
    assert units + [] == units;
    return Ok((keyframe, output));
  }

  /** `units` is what the split `all` has before `pos`. */
  ghost predicate Progress(all: Result<seq<Unit>, ()>, data: seq<byte>, pos: nat, units: seq<Unit>)
    requires pos <= |data|
  {
    all == Prepend(units, Split(data[pos..]))
  }

  lemma {:induction false} ProgressStart(data: seq<byte>)
    ensures Progress(Split(data), data, 0, [])
  {
    assert data[0..] == data;
    if Split(data).Ok? {
      assert [] + Split(data).value == Split(data).value;
    }
  }

  /** One turn of the splitting loop. */
  lemma {:induction false} Advance(all: Result<seq<Unit>, ()>, data: seq<byte>, pos: nat, units: seq<Unit>)
    requires pos + 4 <= |data| && Progress(all, data, pos, units)
    ensures var end := pos + 4 + Number(data[pos..pos + 4]);
      if end > |data| then all.Err? else Progress(all, data, end, units + [data[pos + 4..end]])
  {
    var end := pos + 4 + Number(data[pos..pos + 4]);
    SplitOne(data, pos, end);
    if end <= |data| {
      PrependTwice(units, [data[pos + 4..end]], Split(data[end..]));
    }
  }

  lemma {:induction false} SplitOne(data: seq<byte>, pos: nat, end: nat)
    requires pos + 4 <= |data| && end == pos + 4 + Number(data[pos..pos + 4])
    ensures if end > |data| then Split(data[pos..]).Err?
            else Split(data[pos..]) == Prepend([data[pos + 4..end]], Split(data[end..]))
  {
    SliceOfSuffix(data, pos, 0, 4);
    if end <= |data| {
      SliceOfSuffix(data, pos, 4, end - pos);
    }
  }

  lemma {:induction false} PrependTwice(a: seq<Unit>, b: seq<Unit>, r: Result<seq<Unit>, ()>)
    ensures Prepend(a, Prepend(b, r)) == Prepend(a + b, r)
  {
    if r.Ok? {
      assert a + (b + r.value) == a + b + r.value;
    }
  }

  lemma {:induction false} UnitAppended(units: seq<Unit>, u: Unit)
    ensures Stream(NonEmpty(units + [u])) == Stream(NonEmpty(units)) + if u == [] then [] else START_CODE + u
    ensures HasIdr(units + [u]) <==> HasIdr(units) || IsIdr(u)
  {
    if units == [] {
      assert [u][1..] == [];
      assert units + [u] == [u];
    } else {
      assert (units + [u])[1..] == units[1..] + [u];
      UnitAppended(units[1..], u);
    }
  }

  /** Splitting undoes prefixing, whatever fewer than four bytes come last. */
  lemma {:induction false} SplitInvertsPrefixing(units: seq<Unit>, tail: seq<byte>)
    requires forall i :: 0 <= i < |units| ==> |units[i]| < TWO_TO_32
    requires |tail| < 4
    ensures Split(LengthPrefixed(units) + tail) == Ok(units)
  {
    if units == [] {
      assert LengthPrefixed(units) + tail == tail;
    } else {
      var u, rest := units[0], LengthPrefixed(units[1..]) + tail;
      PrefixedHead(units, tail);
      SplitStep(u, rest);
      SplitInvertsPrefixing(units[1..], tail);
      HeadAndTail(units, []);
    }
  }

  lemma {:induction false} PrefixedHead(units: seq<Unit>, tail: seq<byte>)
    requires units != []
    ensures LengthPrefixed(units) + tail == U32(|units[0]|) + (units[0] + (LengthPrefixed(units[1..]) + tail))
  {
  }

  lemma {:induction false} SplitStep(u: Unit, rest: seq<byte>)
    requires |u| < TWO_TO_32
    ensures Split(U32(|u|) + (u + rest)) == Prepend([u], Split(rest))
  {
    var d := U32(|u|) + (u + rest);
    U32Value(|u|);
    assert d[..4] == U32(|u|);
    assert d[4..4 + |u|] == u && d[4 + |u|..] == rest;
  }

  /** Only length-prefixed data splits, and it splits into its own units. */
  lemma {:induction false} SplitSound(d: seq<byte>) returns (tail: seq<byte>)
    requires Split(d).Ok?
    ensures |tail| < 4 && d == LengthPrefixed(Split(d).value) + tail
    ensures forall u :: u in Split(d).value ==> |u| < TWO_TO_32
    decreases |d|
  {
    if |d| < 4 {
      tail := d;
    } else {
      var n := Number(d[..4]);
      tail := SplitSound(d[4 + n..]);
      DigitsOfNumber(d[..4]);
      Pow256Values();
      assert d == U32(n) + d[4..4 + n] + d[4 + n..];
    }
  }
}
