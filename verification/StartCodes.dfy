/** Annex B byte streams as they come from encoders: start codes of three bytes and of four, in any mixture. */
module StartCodes {
  import opened Bytes
  import opened AnnexB

  /** A unit behind a start code of three bytes or of four. */
  datatype Coded = Coded(short: bool, unit: Unit)

  function Code(short: bool): seq<byte> {
    if short then [0, 0, 1] else [0, 0, 0, 1]
  }

  function MixedStream(cs: seq<Coded>): seq<byte> {
    if cs == [] then [] else Code(cs[0].short) + (cs[0].unit + MixedStream(cs[1..]))
  }

  function UnitsOf(cs: seq<Coded>): seq<Unit> {
    if cs == [] then [] else [cs[0].unit] + UnitsOf(cs[1..])
  }

  /** The units have no start code inside, and none ends in a zero, as section 7.4.1 of ITU-T H.264 has it, where a
      three-byte code follows. */
  predicate Separable(cs: seq<Coded>) {
    cs != [] ==>
      && cs[0].unit != [] && CodeFree(cs[0].unit)
      && (|cs| > 1 && cs[1].short ==> cs[0].unit[|cs[0].unit| - 1] != 0)
      && Separable(cs[1..])
  }

  /** What may follow a unit that does not end in a zero: a three-byte code with a unit behind it, too. */
  predicate AnyBoundary(u: Unit, rest: seq<byte>) {
    Boundary(rest) || ([0, 0, 1] <= rest && |rest| > 3 && (u == [] || u[|u| - 1] != 0))
  }

  lemma {:induction false} UnitFoundMixed(u: Unit, rest: seq<byte>)
    requires CodeFree(u) && AnyBoundary(u, rest)
    ensures UnitLength(u + rest) == |u|
    decreases |u|
  {
    if Boundary(rest) {
      UnitFound(u, rest);
    } else if u == [] {
      assert u + rest == rest;
    } else {
      ShortCodeApart(u, rest);
      assert (u + rest)[1..] == u[1..] + rest;
      UnitFoundMixed(u[1..], rest);
    }
  }

  lemma {:induction false} ShortCodeApart(u: Unit, rest: seq<byte>)
    requires u != [] && CodeFree(u) && [0, 0, 1] <= rest && u[|u| - 1] != 0
    ensures CodeLength(u + rest) == 0
  {
    var d := u + rest;
    if d[0] == 0 && d[1] == 0 {
      assert |u| >= 3 && d[0] == u[0] && d[1] == u[1] && d[2] == u[2];
      if d[2] == 0 {
        assert |u| >= 4 && d[3] == u[3];
      }
    }
  }

  lemma {:induction false} MixedBoundary(cs: seq<Coded>, rest: seq<byte>, u: Unit)
    requires Separable(cs) && Boundary(rest) && (cs != [] && cs[0].short ==> u == [] || u[|u| - 1] != 0)
    ensures AnyBoundary(u, MixedStream(cs) + rest)
  {
    if cs == [] {
      assert MixedStream(cs) + rest == rest;
    } else {
      CodeBehind(cs[0].short, cs[0].unit + MixedStream(cs[1..]), rest, u);
    }
  }

  lemma {:induction false} CodeBehind(short: bool, tail: seq<byte>, rest: seq<byte>, u: Unit)
    requires tail != [] && (short ==> u == [] || u[|u| - 1] != 0)
    ensures AnyBoundary(u, Code(short) + tail + rest)
  {
    var d := Code(short) + tail + rest;
    if short {
      assert d[..3] == [0, 0, 1];
    } else {
      assert d[..4] == START_CODE;
    }
  }

  lemma {:induction false} CodeAtHead(short: bool, tail: seq<byte>)
    ensures CodeLength(Code(short) + tail) == |Code(short)|
  {
    var d := Code(short) + tail;
    if short {
      assert d[..3] == [0, 0, 1] && d[2] == 1;
    } else {
      assert d[..4] == START_CODE;
    }
  }

  lemma {:induction false} ScanStepMixed(code: seq<byte>, u: Unit, tail: seq<byte>)
    requires u != [] && |code| >= 3 && CodeLength(code + (u + tail)) == |code| && UnitLength(u + tail) == |u|
    ensures Scan(code + (u + tail)) == [u] + Scan(tail)
  {
    var d, n := code + (u + tail), |code|;
    assert d[n..] == u + tail;
    assert d[n..n + |u|] == u && d[n + |u|..] == tail;
  }

  /** Scanning a stream with start codes of either length, in any mixture, gives its units back. */
  lemma {:induction false} ScanInvertsMixed(cs: seq<Coded>, rest: seq<byte>)
    requires Separable(cs) && Boundary(rest)
    ensures Scan(MixedStream(cs) + rest) == UnitsOf(cs) + Scan(rest)
    decreases |cs|
  {
    if cs == [] {
      assert MixedStream(cs) + rest == rest && UnitsOf(cs) + Scan(rest) == Scan(rest);
    } else {
      var code, u, tail := Code(cs[0].short), cs[0].unit, MixedStream(cs[1..]) + rest;
      ScanInvertsMixed(cs[1..], rest);
      assert UnitLength(u + tail) == |u| by {
        MixedBoundary(cs[1..], rest, u);
        UnitFoundMixed(u, tail);
      }
      CodeAtHead(cs[0].short, u + tail);
      ScanStepMixed(code, u, tail);
      Rejoined(code, u, MixedStream(cs[1..]), rest, UnitsOf(cs[1..]), Scan(rest));
    }
  }

  lemma {:induction false} Rejoined(
    code: seq<byte>, u: Unit, more: seq<byte>, rest: seq<byte>, units: seq<Unit>, last: seq<Unit>)
    ensures code + (u + more) + rest == code + (u + (more + rest))
    ensures [u] + (units + last) == [u] + units + last
  {
  }

  /** Unit `i` is the first of its type. */
  predicate FirstIs(units: seq<Unit>, i: nat, nalType: int) {
    && i < |units| && units[i] != [] && units[i][0] % 0x20 == nalType
    && forall j :: 0 <= j < i ==> units[j] == [] || units[j][0] % 0x20 != nalType
  }

  lemma {:induction false} FirstOfTypeIs(units: seq<Unit>, nalType: int)
    ensures forall i: nat :: FirstIs(units, i, nalType) ==> FirstOfType(units, nalType) == Some(units[i])
    ensures FirstOfType(units, nalType).None? <==>
      forall i :: 0 <= i < |units| ==> units[i] == [] || units[i][0] % 0x20 != nalType
  {
    if units != [] {
      FirstOfTypeIs(units[1..], nalType);
      forall i: nat | FirstIs(units, i, nalType)
        ensures FirstOfType(units, nalType) == Some(units[i])
      {
        if i > 0 {
          assert units[0] == [] || units[0][0] % 0x20 != nalType;
          assert FirstIs(units[1..], i - 1, nalType) by {
            assert forall j :: 0 <= j < i - 1 ==> units[1..][j] == units[j + 1];
          }
        }
      }
      assert forall i :: 0 <= i < |units| - 1 ==> units[1..][i] == units[i + 1];
    }
  }
}
