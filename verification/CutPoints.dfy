/** Where the segmenter cuts, said of the packets by their indices. */
module CutPoints {
  import opened Bytes
  import opened Segmenter

  /** Packet `j` may end the segment that packet `from` starts. */
  predicate CutAt(ps: seq<Packet>, from: nat, j: nat, target: nat)
    requires from <= j < |ps|
  {
    ps[j].keyframe && !ps[j].isAudio && ps[j].pts >= ps[from].pts + target
  }

  predicate NoneCuts(ps: seq<Packet>, from: nat, to: nat, target: nat)
    requires from <= to <= |ps|
  {
    forall j :: from <= j < to ==> !CutAt(ps, from, j, target)
  }

  /** The video or the audio of these packets, one packet after the other. */
  function DataOf(ps: seq<Packet>, audio: bool): seq<byte> {
    if ps == [] then [] else (if ps[0].isAudio == audio then ps[0].data else []) + DataOf(ps[1..], audio)
  }

  lemma {:induction false} DataIsMedia(ps: seq<Packet>, audio: bool)
    ensures Media(ps, audio) == DataOf(ps, audio)
  {
    if ps != [] {
      DataIsMedia(ps[1..], audio);
      MediaConcat([ps[0]], ps[1..], audio);
      assert [ps[0]] + ps[1..] == ps;
      MediaOne(ps[0], audio);
    }
  }

  lemma {:induction false} MediaOne(p: Packet, audio: bool)
    ensures Media([p], audio) == if p.isAudio == audio then p.data else []
  {
    MediaAppended([], p, audio);
    assert [] + [p] == [p];
  }

  /** Group `i` is packets `b[i]` to `b[i + 1] - 1`, and ends at the first packet that may end it. */
  predicate IsGroup(ps: seq<Packet>, group: seq<Packet>, from: nat, to: nat, target: nat) {
    from < to <= |ps| && group == ps[from..to] && CutAt(ps, from, to - 1, target) && NoneCuts(ps, from, to - 1, target)
  }

  lemma {:induction false} CutMeans(ps: seq<Packet>, at: nat, tail: seq<Packet>, j: nat, target: nat)
    requires at <= |ps| && tail == ps[at..] && j < |tail|
    ensures Cuts(tail, j, target) <==> CutAt(ps, at, at + j, target)
  {
  }

  lemma {:induction false} FirstCutMeans(ps: seq<Packet>, at: nat, target: nat)
    requires at <= |ps|
    ensures var k := FirstCut(ps[at..], 0, target);
      if k.None? then NoneCuts(ps, at, |ps|, target)
      else CutAt(ps, at, at + k.value, target) && NoneCuts(ps, at, at + k.value, target)
  {
    var tail := ps[at..];
    var k := FirstCut(tail, 0, target);
    var end := if k.None? then |ps| else at + k.value;
    forall j | at <= j < end
      ensures !CutAt(ps, at, j, target)
    {
      CutMeans(ps, at, tail, j - at, target);
    }
    if k.Some? {
      CutMeans(ps, at, tail, k.value, target);
    }
  }

  /** The bounds of the groups of `ps[at..]`. */
  lemma {:induction false} GroupBounds(ps: seq<Packet>, at: nat, target: nat) returns (b: seq<nat>)
    requires at <= |ps|
    ensures |b| == |Groups(ps[at..], target)| + 1 && b[0] == at
    ensures forall i :: 0 <= i < |b| - 1 ==> IsGroup(ps, Groups(ps[at..], target)[i], b[i], b[i + 1], target)
    ensures var last := b[|b| - 1];
      last <= |ps| && Remainder(ps[at..], target) == ps[last..] && NoneCuts(ps, last, |ps|, target)
    decreases |ps| - at
  {
    var tail := ps[at..];
    var k := FirstCut(tail, 0, target);
    FirstCutMeans(ps, at, target);
    if k.None? {
      b := [at];
    } else {
      var next := at + k.value + 1;
      assert tail[k.value + 1..] == ps[next..] && tail[..k.value + 1] == ps[at..next];
      PartitionAt(tail, k.value, target);
      var more := GroupBounds(ps, next, target);
      b := [at] + more;
      BoundsBehind(ps, Groups(tail, target), Groups(ps[next..], target), at, more, b, target);
    }
  }

  lemma {:induction false} BoundsBehind(
    ps: seq<Packet>, groups: seq<Group>, rest: seq<Group>, at: nat, more: seq<nat>, b: seq<nat>, target: nat)
    requires groups != [] && groups == [groups[0]] + rest && |more| == |rest| + 1 && b == [at] + more
    requires IsGroup(ps, groups[0], at, more[0], target)
    requires forall i :: 0 <= i < |more| - 1 ==> IsGroup(ps, rest[i], more[i], more[i + 1], target)
    ensures forall i :: 0 <= i < |b| - 1 ==> IsGroup(ps, groups[i], b[i], b[i + 1], target)
  {
    forall i | 0 <= i < |b| - 1
      ensures IsGroup(ps, groups[i], b[i], b[i + 1], target)
    {
      if i > 0 {
        assert groups[i] == rest[i - 1] && b[i] == more[i - 1] && b[i + 1] == more[i];
      }
    }
  }

  /** The segment of packets `from` to `to - 1`. */
  predicate IsSegment(s: Segment, n: nat, ps: seq<Packet>, from: nat, to: nat) {
    && from < to <= |ps| && s.sequence == n
    && s.ptsStart == ps[from].pts && s.ptsStart + s.duration == ps[to - 1].pts
    && s.video == DataOf(ps[from..to], false)
    && (s.audio == if DataOf(ps[from..to], true) == [] then None else Some(DataOf(ps[from..to], true)))
  }

  lemma {:induction false} SegmentMeans(ps: seq<Packet>, from: nat, to: nat, n: nat, isLast: bool)
    requires from < to <= |ps|
    ensures IsSegment(SegmentOf(n, ps[from..to], isLast), n, ps, from, to)
  {
    DataIsMedia(ps[from..to], false);
    DataIsMedia(ps[from..to], true);
  }

  /** The segments are consecutive stretches of the packets from the first on, each with the data of its packets, their
      first time and the time from there to their last. A stretch ends with the first video keyframe that is at least
      the target past its start; behind the last such end, what is left is the final segment iff it has video. */
  lemma {:induction false} SegmentsExactly(ps: seq<Packet>, target: nat) returns (b: seq<nat>)
    ensures b != [] && b[0] == 0 && b[|b| - 1] <= |ps| && NoneCuts(ps, b[|b| - 1], |ps|, target)
    ensures var segments, n := Expected(ps, target), |b| - 1;
      && |segments| == (if DataOf(ps[b[n]..], false) == [] then n else n + 1)
      && (forall i :: 0 <= i < n ==>
            && IsSegment(segments[i], i, ps, b[i], b[i + 1]) && !segments[i].isLast
            && CutAt(ps, b[i], b[i + 1] - 1, target) && NoneCuts(ps, b[i], b[i + 1] - 1, target))
      && (|segments| > n ==> IsSegment(segments[n], n, ps, b[n], |ps|) && segments[n].isLast)
  {
    assert ps[0..] == ps;
    b := GroupBounds(ps, 0, target);
    var groups, n := Groups(ps, target), |b| - 1;
    forall i | 0 <= i < n
      ensures IsSegment(Expected(ps, target)[i], i, ps, b[i], b[i + 1])
    {
      SegmentMeans(ps, b[i], b[i + 1], i, false);
    }
    DataIsMedia(ps[b[n]..], false);
    if DataOf(ps[b[n]..], false) != [] {
      assert ps[b[n]..|ps|] == ps[b[n]..];
      SegmentMeans(ps, b[n], |ps|, n, true);
    }
  }
}
