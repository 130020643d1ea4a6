/** The AVC decoder configuration record of section 5.3.3.1 of ISO/IEC 14496-15, for one SPS and one PPS. */
module AvcConfig {
  import opened Bytes

  /** Byte `i` of `s`, if it has that many. */
  function ByteOr(s: seq<byte>, i: nat, default: byte): byte {
    if |s| > i then s[i] else default
  }

  /** Version, profile, compatibility, level, NALU length size, SPS count; then the entries. */
  function AvcRecord(sps: seq<byte>, pps: seq<byte>): seq<byte> {
    [1, ByteOr(sps, 1, 100), ByteOr(sps, 2, 0), ByteOr(sps, 3, 41), 0xFF, 0xE1] +
    (U16(|sps|) + (sps + ([1] + (U16(|pps|) + pps))))
  }

  // ----- Reading a record -----

  datatype Record = Record(
    profile: byte, compatibility: byte, level: byte, lengthSize: nat, sps: seq<seq<byte>>, pps: seq<seq<byte>>)

  /** `n` units behind their 16-bit lengths, and what follows them. */
  function ReadUnits(d: seq<byte>, n: nat): Option<(seq<seq<byte>>, seq<byte>)>
    decreases n
  {
    if n == 0 then Some(([], d))
    else if |d| < 2 || 2 + Number(d[..2]) > |d| then None
    else
      var end := 2 + Number(d[..2]);
      var rest := ReadUnits(d[end..], n - 1);
      if rest.None? then None else Some(([d[2..end]] + rest.value.0, rest.value.1))
  }

  function ReadRecord(d: seq<byte>): Option<Record> {
    if |d| < 6 || d[0] != 1 then None
    else
      var sps := ReadUnits(d[6..], d[5] % 0x20);
      if sps.None? || sps.value.1 == [] then None
      else
        var rest := sps.value.1;
        var pps := ReadUnits(rest[1..], rest[0]);
        if pps.None? then None else Some(Record(d[1], d[2], d[3], d[4] % 4 + 1, sps.value.0, pps.value.0))
  }

  lemma {:induction false} UnitParts(u: seq<byte>, t: seq<byte>)
    ensures var d, n := U16(|u|) + (u + t), |u| % 0x1_0000;
      && n <= |u| && (|u| < TWO_TO_16 ==> n == |u|)
      && Number(d[..2]) == n && 2 + n <= |d| && d[2..2 + n] == u[..n] && d[2 + n..] == u[n..] + t
  {
    U16Value(|u|);
    var d := U16(|u|) + (u + t);
    assert d[..2] == U16(|u|);
  }

  /** One unit is read whole, or cut short if its length field cannot hold its length. */
  lemma {:induction false} UnitRead(u: seq<byte>, t: seq<byte>)
    ensures var n := |u| % 0x1_0000;
      && ReadUnits(U16(|u|) + (u + t), 1) == Some(([u[..n]], u[n..] + t))
      && (|u| < TWO_TO_16 ==> u[..n] == u && u[n..] + t == t)
      && (|u| >= TWO_TO_16 ==> |u[..n]| < |u|)
  {
    UnitParts(u, t);
    OneUnit(U16(|u|) + (u + t), |u| % 0x1_0000);
  }

  lemma {:induction false} OneUnit(d: seq<byte>, n: nat)
    requires 2 + n <= |d| && Number(d[..2]) == n
    ensures ReadUnits(d, 1) == Some(([d[2..2 + n]], d[2 + n..]))
  {
    assert ReadUnits(d[2 + n..], 0) == Some(([], d[2 + n..]));
    assert [d[2..2 + n]] + [] == [d[2..2 + n]];
  }

  lemma {:induction false} RecordHead(sps: seq<byte>, pps: seq<byte>)
    ensures var d := AvcRecord(sps, pps);
      && |d| >= 6 && d[0] == 1 && d[4] % 4 + 1 == 4 && d[5] % 0x20 == 1
      && d[1] == ByteOr(sps, 1, 100) && d[2] == ByteOr(sps, 2, 0) && d[3] == ByteOr(sps, 3, 41)
      && d[6..] == U16(|sps|) + (sps + ([1] + (U16(|pps|) + pps)))
  {
  }

  /** The record gives back its SPS and PPS, and profile, compatibility and level from the SPS, with unit lengths of
      four bytes, exactly if the lengths of both fit 16 bits. */
  lemma {:induction false} RecordReadsBack(sps: seq<byte>, pps: seq<byte>)
    ensures ReadRecord(AvcRecord(sps, pps)) == Some(Record(
        if |sps| > 1 then sps[1] else 100, if |sps| > 2 then sps[2] else 0, if |sps| > 3 then sps[3] else 41,
        4, [sps], [pps]))
      <==> |sps| < TWO_TO_16 && |pps| < TWO_TO_16
  {
    var d, t := AvcRecord(sps, pps), [1] + (U16(|pps|) + pps);
    RecordHead(sps, pps);
    UnitRead(sps, t);
    if |sps| < TWO_TO_16 {
      assert t[1..] == U16(|pps|) + (pps + []) && t[0] == 1;
      UnitRead(pps, []);
    } else if ReadRecord(d).Some? {
      var first := ReadRecord(d).value.sps;
      assert first == [sps[..|sps| % 0x1_0000]];
      assert first[0] != sps;
    }
  }
}
