/** AVC decoder configuration records with any number of entries, as section 5.3.3.1 of ISO/IEC 14496-15 allows them:
    which of the parameter sets the demuxer keeps. */
module Records {
  import opened Bytes
  import opened AnnexB
  import opened Demuxer
  import Sps

  /** The entries, each behind its 16-bit length. */
  function Listed(units: seq<Unit>): seq<byte> {
    if units == [] then [] else U16(|units[0]|) + (units[0] + Listed(units[1..]))
  }

  /** Version, profile, compatibility, level and length size in `head`, then SPS and PPS entries behind their counts. */
  function RecordWith(head: seq<byte>, spsUnits: seq<Unit>, ppsUnits: seq<Unit>, tail: seq<byte>): seq<byte>
    requires |spsUnits| < 0x20 && |ppsUnits| < 0x100
  {
    head + ([0xE0 + |spsUnits|] + (Listed(spsUnits) + ([|ppsUnits|] + (Listed(ppsUnits) + tail))))
  }

  predicate Short(units: seq<Unit>) {
    forall i :: 0 <= i < |units| ==> |units[i]| < 0x1_0000
  }

  lemma {:induction false} EntryParts(u: Unit, more: seq<byte>)
    requires |u| < 0x1_0000
    ensures var d := U16(|u|) + (u + more);
      Number(d[..2]) == |u| && |d| == 2 + |u| + |more| && d[2..2 + |u|] == u && d[2 + |u|..] == more
  {
    U16Value(|u|);
    var d := U16(|u|) + (u + more);
    assert d[..2] == U16(|u|);
  }

  lemma {:induction false} FirstEntry(d: seq<byte>, u: Unit, more: seq<byte>, n: nat, rest: (seq<Unit>, seq<byte>))
    requires n > 0 && |d| >= 2 && Number(d[..2]) == |u| && 2 + |u| <= |d| && d[2..2 + |u|] == u && d[2 + |u|..] == more
    requires Entries(more, n - 1) == rest
    ensures Entries(d, n) == ([u] + rest.0, rest.1)
  {
  }

  lemma {:induction false} EntryInFront(
    u: Unit, rest: seq<byte>, t: seq<byte>, n: nat, read: (seq<Unit>, seq<byte>))
    requires |u| < 0x1_0000 && n > 0 && Entries(rest + t, n - 1) == read
    ensures Entries(U16(|u|) + (u + rest) + t, n) == ([u] + read.0, read.1)
  {
    EntryParts(u, rest + t);
    Regrouped(U16(|u|), u, rest, t);
    FirstEntry(U16(|u|) + (u + (rest + t)), u, rest + t, n, read);
  }

  lemma {:induction false} EntriesRead(units: seq<Unit>, t: seq<byte>)
    requires Short(units)
    ensures Entries(Listed(units) + t, |units|) == (units, t)
  {
    if units == [] {
      assert Listed(units) + t == t;
    } else {
      EntriesRead(units[1..], t);
      EntryInFront(units[0], Listed(units[1..]), t, |units|, (units[1..], t));
      assert [units[0]] + units[1..] == units;
    }
  }

  lemma {:induction false} Regrouped(a: seq<byte>, b: seq<byte>, c: seq<byte>, d: seq<byte>)
    ensures a + (b + c) + d == a + (b + (c + d))
  {
  }

  // ----- Sizes -----

  type Size = (nat, nat)

  function SizeIn(st: State): Size {
    (st.width, st.height)
  }

  /** The size that each unit gives, if it is long enough and one comes out. */
  function Sizes(units: seq<Unit>): (r: seq<Option<Size>>)
    ensures |r| == |units|
  {
    if units == [] then []
    else
      var u := units[|units| - 1];
      Sizes(units[..|units| - 1]) + [if |u| > 4 then Sps.ParsedOf(u).size else None]
  }

  lemma {:induction false} SizesAt(units: seq<Unit>, i: nat)
    requires i < |units|
    ensures Sizes(units)[i] == if |units[i]| > 4 then Sps.ParsedOf(units[i]).size else None
  {
    if i < |units| - 1 {
      SizesAt(units[..|units| - 1], i);
    }
  }

  /** Size `k` is the last one given. */
  predicate LastGiven(given: seq<Option<Size>>, k: nat) {
    k < |given| && given[k].Some? && forall j :: k < j < |given| ==> given[j].None?
  }

  /** What is left of `before` by these sizes is the last one given. */
  ghost predicate SizeLeft(given: seq<Option<Size>>, before: Size, after: Size) {
    && (forall k: nat :: LastGiven(given, k) ==> given[k] == Some(after))
    && ((forall k :: 0 <= k < |given| ==> given[k].None?) ==> after == before)
  }

  lemma {:induction false} SizeNext(
    front: seq<Option<Size>>, size: Option<Size>, given: seq<Option<Size>>, before: Size, between: Size, after: Size)
    requires SizeLeft(front, before, between) && given == front + [size]
    requires after == if size.Some? then size.value else between
    ensures SizeLeft(given, before, after)
  {
    assert given[|front|] == size;
    forall k: nat | LastGiven(given, k)
      ensures given[k] == Some(after)
    {
      if k < |front| {
        assert forall j :: k < j < |front| ==> given[j] == front[j];
        assert given[k] == front[k] && LastGiven(front, k);
      }
    }
    if forall k :: 0 <= k < |given| ==> given[k].None? {
      assert forall k :: 0 <= k < |front| ==> given[k] == front[k];
    }
  }

  lemma {:induction false} OneKept(st: State, u: Unit)
    ensures var st', size := WithSps(st, u), if |u| > 4 then Sps.ParsedOf(u).size else None;
      && st'.sps == Some(u) && st' == st.(sps := st'.sps, width := st'.width, height := st'.height)
      && SizeIn(st') == if size.Some? then size.value else SizeIn(st)
  {
  }

  lemma {:induction false} LastKept(st: State, units: seq<Unit>)
    ensures var st' := KeepAll(st, units);
      && st'.sps == (if units == [] then st.sps else Some(units[|units| - 1]))
      && st' == st.(sps := st'.sps, width := st'.width, height := st'.height)
  {
    if units != [] {
      LastKept(st, units[..|units| - 1]);
      OneKept(KeepAll(st, units[..|units| - 1]), units[|units| - 1]);
    }
  }

  lemma {:induction false} SizeKept(st: State, units: seq<Unit>)
    ensures SizeLeft(Sizes(units), SizeIn(st), SizeIn(KeepAll(st, units)))
  {
    if units != [] {
      var front, u := units[..|units| - 1], units[|units| - 1];
      SizeKept(st, front);
      OneKept(KeepAll(st, front), u);
      SizeNext(Sizes(front), if |u| > 4 then Sps.ParsedOf(u).size else None, Sizes(units),
               SizeIn(st), SizeIn(KeepAll(st, front)), SizeIn(KeepAll(st, units)));
    }
  }

  /** Of the entries of a record the demuxer keeps the last SPS and the last PPS, and the size of the last SPS that
      gives one; the record is accepted exactly if the size then known is at least 1 by 1 and at most 3840 by 2160.
      Nothing else changes, whatever stands in front of the entries and behind them. */
  lemma {:induction false} LastEntriesKept(
    st: State, head: seq<byte>, spsUnits: seq<Unit>, ppsUnits: seq<Unit>, tail: seq<byte>)
    requires |head| == 5 && |spsUnits| < 0x20 && |ppsUnits| < 0x100 && Short(spsUnits) && Short(ppsUnits)
    ensures var (st', r) := ConfigOf(st, RecordWith(head, spsUnits, ppsUnits, tail));
      && st'.sps == (if spsUnits == [] then st.sps else Some(spsUnits[|spsUnits| - 1]))
      && st'.pps == (if ppsUnits == [] then st.pps else Some(ppsUnits[|ppsUnits| - 1]))
      && SizeLeft(Sizes(spsUnits), SizeIn(st), SizeIn(st'))
      && st'.hasVideoSeqHeader == st.hasVideoSeqHeader && st'.firstPts == st.firstPts
      && r == (if 1 <= st'.width <= 3840 && 1 <= st'.height <= 2160 then Ok(())
               else Err(InvalidResolution(st'.width, st'.height)))
  {
    var behind := [|ppsUnits|] + (Listed(ppsUnits) + tail);
    var d := RecordWith(head, spsUnits, ppsUnits, tail);
    assert |d| >= 7 && d[5] % 0x20 == |spsUnits| && d[6..] == Listed(spsUnits) + behind;
    EntriesRead(spsUnits, behind);
    assert behind[0] == |ppsUnits| && behind[1..] == Listed(ppsUnits) + tail;
    EntriesRead(ppsUnits, tail);
    LastKept(st, spsUnits);
    SizeKept(st, spsUnits);
    ConfigFrom(st, d, spsUnits, behind, ppsUnits);
  }

  lemma {:induction false} ConfigFrom(
    st: State, d: seq<byte>, spsUnits: seq<Unit>, behind: seq<byte>, ppsUnits: seq<Unit>)
    requires |d| >= 7 && Entries(d[6..], d[5] % 0x20) == (spsUnits, behind) && behind != []
    requires Entries(behind[1..], behind[0]).0 == ppsUnits
    ensures var st1 := KeepAll(st, spsUnits);
      var st2 := st1.(pps := if ppsUnits == [] then st1.pps else Some(ppsUnits[|ppsUnits| - 1]));
      ConfigOf(st, d) == (st2, if ValidResolution(st2) then Ok(()) else Err(InvalidResolution(st2.width, st2.height)))
  {
  }

  // ----- Truncated records -----

  lemma {:induction false} EntriesCut(units: seq<Unit>, missing: nat, part: seq<byte>, n: nat)
    requires Short(units) && |units| < n && |part| < missing < 0x1_0000
    ensures Entries(Listed(units) + (U16(missing) + part), n) == (units, part)
    decreases |units|
  {
    var last := U16(missing) + part;
    if units == [] {
      CutAtOnce(missing, part, n);
      assert Listed(units) + last == last;
    } else {
      EntriesCut(units[1..], missing, part, n - 1);
      EntryInFront(units[0], Listed(units[1..]), last, n, (units[1..], part));
      assert [units[0]] + units[1..] == units;
    }
  }

  lemma {:induction false} CutAtOnce(missing: nat, part: seq<byte>, n: nat)
    requires n > 0 && |part| < missing < 0x1_0000
    ensures Entries(U16(missing) + part, n) == ([], part)
  {
    U16Value(missing);
    var last := U16(missing) + part;
    assert last[..2] == U16(missing) && last[2..] == part;
    CutEntry(last, part, n);
  }

  lemma {:induction false} CutEntry(d: seq<byte>, part: seq<byte>, n: nat)
    requires n > 0 && |d| >= 2 && d[2..] == part && Number(d[..2]) > |part|
    ensures Entries(d, n) == ([], part)
  {
  }

  /** A record that ends within an SPS entry: the entries before it are kept, and what there is of it is taken for the
      PPS count and the PPS entries. */
  lemma {:induction false} CutRecord(
    st: State, head: seq<byte>, count: nat, spsUnits: seq<Unit>, missing: nat, ppsUnits: seq<Unit>, tail: seq<byte>)
    requires |head| == 5 && |spsUnits| < count < 0x20 && |ppsUnits| < 0x100 && Short(spsUnits) && Short(ppsUnits)
    requires |[|ppsUnits|] + (Listed(ppsUnits) + tail)| < missing < 0x1_0000
    ensures var part := [|ppsUnits|] + (Listed(ppsUnits) + tail);
      var st' := ConfigOf(st, head + ([0xE0 + count] + (Listed(spsUnits) + (U16(missing) + part)))).0;
      && st'.sps == (if spsUnits == [] then st.sps else Some(spsUnits[|spsUnits| - 1]))
      && st'.pps == (if ppsUnits == [] then st.pps else Some(ppsUnits[|ppsUnits| - 1]))
  {
    var part := [|ppsUnits|] + (Listed(ppsUnits) + tail);
    var entries := Listed(spsUnits) + (U16(missing) + part);
    var d := head + ([0xE0 + count] + entries);
    CutParts(head, count, entries, d);
    EntriesCut(spsUnits, missing, part, count);
    assert part[0] == |ppsUnits| && part[1..] == Listed(ppsUnits) + tail;
    EntriesRead(ppsUnits, tail);
    LastKept(st, spsUnits);
    ConfigFrom(st, d, spsUnits, part, ppsUnits);
  }

  lemma {:induction false} CutParts(head: seq<byte>, count: nat, entries: seq<byte>, d: seq<byte>)
    requires |head| == 5 && count < 0x20 && entries != [] && d == head + ([0xE0 + count] + entries)
    ensures |d| >= 7 && d[5] % 0x20 == count && d[6..] == entries
  {
  }
}
