/** The segmenter: encoded packets in, segments cut at keyframes out. Time is in ticks of 1/90000 second. */
module Segmenter {
  import opened Bytes

  datatype Packet = Packet(pts: int, keyframe: bool, data: seq<byte>, isAudio: bool)

  datatype Segment = Segment(
    sequence: nat, ptsStart: int, duration: int, video: seq<byte>, audio: Option<seq<byte>>, isLast: bool)

  /** What a packet adds to the video data, or to the audio data. */
  function Payload(p: Packet, audio: bool): seq<byte> {
    if p.isAudio == audio then p.data else []
  }

  function Media(ps: seq<Packet>, audio: bool): seq<byte> {
    if ps == [] then [] else Media(ps[..|ps| - 1], audio) + Payload(ps[|ps| - 1], audio)
  }

  function Video(ps: seq<Packet>): seq<byte> {
    Media(ps, false)
  }

  function Audio(ps: seq<Packet>): seq<byte> {
    Media(ps, true)
  }

  lemma {:induction false} MediaAppended(ps: seq<Packet>, p: Packet, audio: bool)
    ensures Media(ps + [p], audio) == Media(ps, audio) + Payload(p, audio)
  {
    assert (ps + [p])[..|ps|] == ps;
  }

  function NonEmpty(data: seq<byte>): Option<seq<byte>> {
    if data == [] then None else Some(data)
  }

  /** The segment that a group of packets makes. */
  function SegmentOf(sequence: nat, group: seq<Packet>, isLast: bool): Segment
    requires group != []
  {
    Segment(sequence, group[0].pts, group[|group| - 1].pts - group[0].pts, Video(group), NonEmpty(Audio(group)),
            isLast)
  }

  /** Packet `i` ends the segment that packet 0 starts: a video keyframe at least `target` past it. */
  predicate Cuts(ps: seq<Packet>, i: nat, target: nat)
    requires i < |ps|
  {
    !ps[i].isAudio && ps[i].keyframe && ps[i].pts - ps[0].pts >= target
  }

  // ----- The accumulator -----

  /** The fields of an accumulator. */
  datatype State = State(
    video: seq<byte>, audio: seq<byte>, startPts: Option<int>, keyframePts: Option<int>, lastPts: int,
    next: nat, hasAudio: bool)

  const INITIAL := State([], [], None, None, 0, 0, false)

  function ValueOr0(o: Option<int>): int {
    if o.None? then 0 else o.value
  }

  function Accumulated(st: State, p: Packet): State {
    var st1 := if st.startPts.Some? then st
               else st.(startPts := Some(p.pts),
                        keyframePts := if p.keyframe && !p.isAudio then Some(p.pts) else st.keyframePts);
    var st2 := st1.(lastPts := p.pts);
    if p.isAudio then st2.(hasAudio := true, audio := st2.audio + p.data) else st2.(video := st2.video + p.data)
  }

  function Emitted(st: State, isLast: bool): (State, Segment) {
    var start := ValueOr0(st.startPts);
    var withAudio := st.hasAudio && st.audio != [];
    (State([], if withAudio then [] else st.audio, None, None, st.lastPts, st.next + 1, st.hasAudio),
     Segment(st.next, start, st.lastPts - start, st.video, if withAudio then Some(st.audio) else None, isLast))
  }

  function Pushed(st: State, p: Packet, target: nat): (State, Option<Segment>) {
    var st' := Accumulated(st, p);
    if !p.isAudio && p.keyframe && p.pts - ValueOr0(st'.startPts) >= target then
      (Emitted(st', false).0, Some(Emitted(st', false).1))
    else (st', None)
  }

  function Flushed(st: State): Option<Segment> {
    if st.video == [] then None else Some(Emitted(st, true).1)
  }

  class SegmentAccumulator {
    const target: nat
    var videoBuffer: seq<byte>
    var audioBuffer: seq<byte>
    var segmentStartPts: Option<int>
    var segmentKeyframePts: Option<int>
    var lastPts: int
    var nextSequence: nat
    var hasAudio: bool

    function View(): State
      reads this
    {
      State(videoBuffer, audioBuffer, segmentStartPts, segmentKeyframePts, lastPts, nextSequence, hasAudio)
    }

    constructor (target: nat)
      ensures View() == INITIAL && this.target == target
    {
      this.target := target;
      videoBuffer, audioBuffer := [], [];
      segmentStartPts, segmentKeyframePts := None, None;
      lastPts, nextSequence, hasAudio := 0, 0, false;
    }

    /** Takes a packet; yields the segment it completes, if it completes one. */
    method Push(packet: Packet) returns (r: Option<Segment>)
      modifies this
      ensures (View(), r) == Pushed(old(View()), packet, target)
    {
      if segmentStartPts.None? {
        segmentStartPts := Some(packet.pts);
        if packet.keyframe && !packet.isAudio {
          segmentKeyframePts := Some(packet.pts);
        }
      }
      lastPts := packet.pts;
      if packet.isAudio {
        hasAudio := true;
        audioBuffer := audioBuffer + packet.data;
      } else {
        videoBuffer := videoBuffer + packet.data;
      }
      if !packet.isAudio && packet.keyframe {
        if packet.pts - ValueOr0(segmentStartPts) >= target {
          var segment := EmitSegment(false);
          return Some(segment);
        }
      }
      return None;
    }

    /** The rest, as the final segment; nothing when there is no video left. */
    method Flush() returns (r: Option<Segment>)
      modifies this
      ensures r == Flushed(old(View()))
    {
      if videoBuffer == [] {
        return None;
      }
      var segment := EmitSegment(true);
      return Some(segment);
    }

    method EmitSegment(isLast: bool) returns (segment: Segment)
      modifies this
      ensures (View(), segment) == Emitted(old(View()), isLast)
    {
      var startPts := ValueOr0(segmentStartPts);
      var duration := lastPts - startPts;
      var video := videoBuffer;
      videoBuffer := [];
      var audio := None;
      if hasAudio && audioBuffer != [] {
        audio := Some(audioBuffer);
        audioBuffer := [];
      }
      segment := Segment(nextSequence, startPts, duration, video, audio, isLast);
      nextSequence := nextSequence + 1;
      segmentStartPts, segmentKeyframePts := None, None;
    }
  }

  // ----- What the accumulator holds -----

  /** The state of an accumulator that took the packets `pending` since its last cut, its `next`-th. */
  ghost predicate Holds(st: State, pending: seq<Packet>, next: nat) {
    && st.video == Video(pending)
    && st.audio == Audio(pending)
    && (st.audio != [] ==> st.hasAudio)
    && st.startPts == (if pending == [] then None else Some(pending[0].pts))
    && (pending != [] ==> st.lastPts == pending[|pending| - 1].pts)
    && st.next == next
  }

  lemma {:induction false} HoldsAccumulated(st: State, pending: seq<Packet>, next: nat, p: Packet)
    requires Holds(st, pending, next)
    ensures Holds(Accumulated(st, p), pending + [p], next)
  {
    MediaAppended(pending, p, false);
    MediaAppended(pending, p, true);
    assert st.video + [] == st.video && st.audio + [] == st.audio;
  }

  /** A push makes the pending packets a segment exactly when the new one may be cut behind. */
  lemma {:induction false} HoldsPushed(st: State, pending: seq<Packet>, next: nat, p: Packet, target: nat)
    requires Holds(st, pending, next)
    ensures var group := pending + [p]; var (st', r) := Pushed(st, p, target);
      if Cuts(group, |group| - 1, target) then
        Holds(st', [], next + 1) && r == Some(SegmentOf(next, group, false))
      else Holds(st', group, next) && r == None
  {
    HoldsAccumulated(st, pending, next, p);
  }

  lemma {:induction false} HoldsFlushed(st: State, pending: seq<Packet>, next: nat)
    requires Holds(st, pending, next)
    ensures Flushed(st) == if Video(pending) == [] then None else Some(SegmentOf(next, pending, true))
  {
  }

  // ----- The greedy partition -----

  /** The first packet, from number `i` on, that ends the segment packet 0 starts. */
  function FirstCut(ps: seq<Packet>, i: nat, target: nat): (k: Option<nat>)
    requires i <= |ps|
    ensures k.Some? ==> i <= k.value < |ps| && Cuts(ps, k.value, target)
    ensures forall j :: i <= j < (if k.Some? then k.value else |ps|) ==> !Cuts(ps, j, target)
    decreases |ps| - i
  {
    if i == |ps| then None else if Cuts(ps, i, target) then Some(i) else FirstCut(ps, i + 1, target)
  }

  type Group = g: seq<Packet> | g != [] witness [Packet(0, false, [], false)]

  /** Cuts behind the first packet that may be cut behind, then partitions the rest the same way. */
  function Groups(ps: seq<Packet>, target: nat): seq<Group>
    decreases |ps|
  {
    var k := FirstCut(ps, 0, target);
    if k.None? then [] else [ps[..k.value + 1]] + Groups(ps[k.value + 1..], target)
  }

  /** What is left behind the last cut. */
  function Remainder(ps: seq<Packet>, target: nat): seq<Packet>
    decreases |ps|
  {
    var k := FirstCut(ps, 0, target);
    if k.None? then ps else Remainder(ps[k.value + 1..], target)
  }

  /** The groups as segments, numbered from zero. */
  function Numbered(groups: seq<Group>): (r: seq<Segment>)
    ensures |r| == |groups|
    ensures forall i :: 0 <= i < |r| ==> r[i] == SegmentOf(i, groups[i], false)
  {
    if groups == [] then []
    else Numbered(groups[..|groups| - 1]) + [SegmentOf(|groups| - 1, groups[|groups| - 1], false)]
  }

  /** The segments of the greedy partition; the remainder is the last one if it has video. */
  function Expected(ps: seq<Packet>, target: nat): seq<Segment> {
    var groups, rest := Groups(ps, target), Remainder(ps, target);
    Numbered(groups) + if Video(rest) == [] then [] else [SegmentOf(|groups|, rest, true)]
  }

  lemma {:induction false} FirstCutAppended(ps: seq<Packet>, p: Packet, i: nat, target: nat)
    requires i <= |ps|
    ensures FirstCut(ps + [p], i, target)
         == if FirstCut(ps, i, target).Some? then FirstCut(ps, i, target)
            else if Cuts(ps + [p], |ps|, target) then Some(|ps|) else None
    decreases |ps| - i
  {
    var ps' := ps + [p];
    if i == |ps| {
      assert FirstCut(ps', |ps'|, target) == None;
    } else {
      FirstCutAppended(ps, p, i + 1, target);
    }
  }

  lemma {:induction false} PartitionAt(ps: seq<Packet>, k: nat, target: nat)
    requires FirstCut(ps, 0, target) == Some(k)
    ensures Groups(ps, target) == [ps[..k + 1]] + Groups(ps[k + 1..], target)
    ensures Remainder(ps, target) == Remainder(ps[k + 1..], target)
  {
  }

  /** What becomes of a partition, its groups and its remainder, when packet `p` comes behind it. */
  function Grown(groups: seq<Group>, rest: seq<Packet>, p: Packet, target: nat): (seq<Group>, seq<Packet>) {
    var group := rest + [p];
    if Cuts(group, |group| - 1, target) then (groups + [group], []) else (groups, group)
  }

  /** One more packet joins the remainder, and completes it as a group if it may be cut behind. */
  lemma {:induction false} PartitionAppended(ps: seq<Packet>, p: Packet, target: nat)
    ensures (Groups(ps + [p], target), Remainder(ps + [p], target))
         == Grown(Groups(ps, target), Remainder(ps, target), p, target)
    decreases |ps|
  {
    var k := FirstCut(ps, 0, target);
    FirstCutAppended(ps, p, 0, target);
    if k.Some? {
      PartitionAppended(ps[k.value + 1..], p, target);
      PartitionExtended(ps, p, k.value, target);
      GrownBehind(ps[..k.value + 1], Groups(ps[k.value + 1..], target), Remainder(ps, target), p, target);
    } else {
      NoGroupYet(ps, target);
      FirstGroup(ps, p, target);
    }
  }

  lemma {:induction false} GrownBehind(head: Group, groups: seq<Group>, rest: seq<Packet>, p: Packet, target: nat)
    ensures var grown := Grown(groups, rest, p, target);
      Grown([head] + groups, rest, p, target) == ([head] + grown.0, grown.1)
  {
    HeadKept(head, groups, rest + [p]);
  }

  lemma {:induction false} FirstGroup(ps: seq<Packet>, p: Packet, target: nat)
    requires FirstCut(ps + [p], 0, target) == if Cuts(ps + [p], |ps|, target) then Some(|ps|) else None
    ensures (Groups(ps + [p], target), Remainder(ps + [p], target)) == Grown([], ps, p, target)
  {
    if Cuts(ps + [p], |ps|, target) {
      NewGroup(ps + [p], target);
      assert [] + [ps + [p]] == [ps + [p]];
    } else {
      NoGroupYet(ps + [p], target);
    }
  }

  lemma {:induction false} NoGroupYet(ps: seq<Packet>, target: nat)
    requires FirstCut(ps, 0, target) == None
    ensures Groups(ps, target) == [] && Remainder(ps, target) == ps
  {
  }

  lemma {:induction false} PartitionExtended(ps: seq<Packet>, p: Packet, k: nat, target: nat)
    requires FirstCut(ps, 0, target) == Some(k) && FirstCut(ps + [p], 0, target) == Some(k)
    ensures var head, tail := ps[..k + 1], ps[k + 1..];
      && Groups(ps, target) == [head] + Groups(tail, target) && Remainder(ps, target) == Remainder(tail, target)
      && Groups(ps + [p], target) == [head] + Groups(tail + [p], target)
      && Remainder(ps + [p], target) == Remainder(tail + [p], target)
  {
    PartitionAt(ps, k, target);
    PartitionAt(ps + [p], k, target);
    TailAppended(ps, p, k + 1);
  }

  lemma {:induction false} TailAppended(ps: seq<Packet>, p: Packet, n: nat)
    requires n <= |ps|
    ensures (ps + [p])[n..] == ps[n..] + [p] && (ps + [p])[..n] == ps[..n]
  {
  }

  lemma {:induction false} HeadKept(head: Group, groups: seq<Group>, group: Group)
    ensures [head] + (groups + [group]) == [head] + groups + [group]
  {
  }

  lemma {:induction false} NewGroup(ps: seq<Packet>, target: nat)
    requires ps != [] && FirstCut(ps, 0, target) == Some(|ps| - 1)
    ensures Groups(ps, target) == [ps] && Remainder(ps, target) == []
  {
    assert ps[..|ps|] == ps && ps[|ps|..] == [];
    assert Groups([], target) == [];
    assert [ps] + [] == [ps];
  }

  /** The live pipeline's use of one accumulator: push every packet, then flush. What comes out is exactly the
      greedy partition. */
  method SegmentAll(ps: seq<Packet>, target: nat) returns (segments: seq<Segment>)
    ensures segments == Expected(ps, target)
  {
    var acc := new SegmentAccumulator(target);
    segments := [];
    for i := 0 to |ps|
      invariant acc.target == target && fresh(acc)
      invariant Run(ps[..i], target) == (acc.View(), segments)
    {
      assert ps[..i + 1][..i] == ps[..i];
      var segment := acc.Push(ps[i]);
      if segment.Some? {
        segments := segments + [segment.value];
      }
    }
    assert ps[..|ps|] == ps;
    RunExpected(ps, target);
    var last := acc.Flush();
    if last.Some? {
      segments := segments + [last.value];
    }
  }

  function Step(before: (State, seq<Segment>), p: Packet, target: nat): (State, seq<Segment>) {
    var (st, r) := Pushed(before.0, p, target);
    (st, if r.None? then before.1 else before.1 + [r.value])
  }

  /** The accumulator and its output after the packets `ps`. */
  function Run(ps: seq<Packet>, target: nat): (State, seq<Segment>) {
    if ps == [] then (INITIAL, []) else Step(Run(ps[..|ps| - 1], target), ps[|ps| - 1], target)
  }

  ghost predicate Refines(ps: seq<Packet>, target: nat, run: (State, seq<Segment>)) {
    && Holds(run.0, Remainder(ps, target), |Groups(ps, target)|)
    && run.1 == Numbered(Groups(ps, target))
  }

  lemma {:induction false} RunRefines(ps: seq<Packet>, target: nat)
    ensures Refines(ps, target, Run(ps, target))
  {
    if ps == [] {
      NothingRefined(target);
    } else {
      RunRefines(ps[..|ps| - 1], target);
      LastStepRefines(ps, target);
    }
  }

  lemma {:induction false} NothingRefined(target: nat)
    ensures Refines([], target, Run([], target))
  {
  }

  lemma {:induction false} LastStepRefines(ps: seq<Packet>, target: nat)
    requires ps != [] && Refines(ps[..|ps| - 1], target, Run(ps[..|ps| - 1], target))
    ensures Refines(ps, target, Run(ps, target))
  {
    var ps', p := ps[..|ps| - 1], ps[|ps| - 1];
    assert ps == ps' + [p];
    StepRefines(ps', p, target, Run(ps', target));
  }

  lemma {:induction false} StepRefines(ps: seq<Packet>, p: Packet, target: nat, run: (State, seq<Segment>))
    requires Refines(ps, target, run)
    ensures Refines(ps + [p], target, Step(run, p, target))
  {
    PartitionAppended(ps, p, target);
    RunStep(run.0, Groups(ps, target), Remainder(ps, target), p, target);
  }

  lemma {:induction false} RunStep(st: State, groups: seq<Group>, rest: seq<Packet>, p: Packet, target: nat)
    requires Holds(st, rest, |groups|)
    ensures var group := rest + [p]; var cut := Cuts(group, |group| - 1, target);
      var (st', r) := Pushed(st, p, target); var groups' := if cut then groups + [group] else groups;
      && Holds(st', if cut then [] else group, |groups'|)
      && Numbered(groups') == if r.None? then Numbered(groups) else Numbered(groups) + [r.value]
  {
    HoldsPushed(st, rest, |groups|, p, target);
    NumberedAppended(groups, rest + [p]);
  }

  lemma {:induction false} RunExpected(ps: seq<Packet>, target: nat)
    ensures var (st, segments) := Run(ps, target);
      Expected(ps, target) == if Flushed(st).None? then segments else segments + [Flushed(st).value]
  {
    RunRefines(ps, target);
    HoldsFlushed(Run(ps, target).0, Remainder(ps, target), |Groups(ps, target)|);
    assert Numbered(Groups(ps, target)) + [] == Numbered(Groups(ps, target));
  }

  lemma {:induction false} NumberedAppended(groups: seq<Group>, group: Group)
    ensures Numbered(groups + [group]) == Numbered(groups) + [SegmentOf(|groups|, group, false)]
  {
    assert (groups + [group])[..|groups|] == groups;
  }

  // ----- What the partition promises -----

  /** Sequence numbers count from zero; the only segment marked last is the final one, and there is one exactly
      when video follows the last cut. */
  lemma {:induction false} NumberedAndTerminated(ps: seq<Packet>, target: nat)
    ensures var segments := Expected(ps, target);
      && (forall i :: 0 <= i < |segments| ==> segments[i].sequence == i)
      && (forall i :: 0 <= i < |segments| && segments[i].isLast ==> i == |segments| - 1)
      && (Video(Remainder(ps, target)) != [] <==> segments != [] && segments[|segments| - 1].isLast)
  {
  }

  function Join(groups: seq<Group>): seq<Packet> {
    if groups == [] then [] else groups[0] + Join(groups[1..])
  }

  lemma {:induction false} JoinHead(group: Group, groups: seq<Group>)
    ensures Join([group] + groups) == group + Join(groups)
  {
    assert ([group] + groups)[1..] == groups;
  }

  lemma {:induction false} PartitionJoins(ps: seq<Packet>, target: nat)
    ensures Join(Groups(ps, target)) + Remainder(ps, target) == ps
    decreases |ps|
  {
    var k := FirstCut(ps, 0, target);
    if k.None? {
      assert [] + ps == ps;
    } else {
      var head, tail := ps[..k.value + 1], ps[k.value + 1..];
      PartitionJoins(tail, target);
      JoinHead(head, Groups(tail, target));
      Rejoin(ps, head, tail, Join(Groups(tail, target)), Remainder(tail, target));
    }
  }

  lemma {:induction false} Rejoin(
    ps: seq<Packet>, head: seq<Packet>, tail: seq<Packet>, joined: seq<Packet>, rest: seq<Packet>)
    requires ps == head + tail && joined + rest == tail
    ensures head + joined + rest == ps
  {
  }

  lemma {:induction false} AppendAssoc<T>(a: seq<T>, b: seq<T>, c: seq<T>)
    ensures a + b + c == a + (b + c)
  {
  }

  lemma {:induction false} MediaConcat(a: seq<Packet>, b: seq<Packet>, audio: bool)
    ensures Media(a + b, audio) == Media(a, audio) + Media(b, audio)
    decreases |b|
  {
    if b == [] {
      assert a + b == a;
    } else {
      var b', p := b[..|b| - 1], b[|b| - 1];
      assert a + b == (a + b') + [p] && b == b' + [p];
      MediaConcat(a, b', audio);
      MediaAppended(a + b', p, audio);
      MediaAppended(b', p, audio);
      AppendAssoc(Media(a, audio), Media(b', audio), Payload(p, audio));
    }
  }

  function SegmentMedia(s: Segment, audio: bool): seq<byte> {
    if !audio then s.video else if s.audio.None? then [] else s.audio.value
  }

  /** All the video, or all the audio, of a list of segments. */
  function Contents(segments: seq<Segment>, audio: bool): seq<byte> {
    if segments == [] then []
    else Contents(segments[..|segments| - 1], audio) + SegmentMedia(segments[|segments| - 1], audio)
  }

  lemma {:induction false} ContentsAppended(segments: seq<Segment>, s: Segment, audio: bool)
    ensures Contents(segments + [s], audio) == Contents(segments, audio) + SegmentMedia(s, audio)
  {
    assert (segments + [s])[..|segments|] == segments;
  }

  lemma {:induction false} JoinAppended(groups: seq<Group>, group: Group)
    ensures Join(groups + [group]) == Join(groups) + group
  {
    if groups == [] {
      assert [group][1..] == [] && [] + [group] == [group];
    } else {
      assert (groups + [group])[1..] == groups[1..] + [group];
      JoinAppended(groups[1..], group);
    }
  }

  lemma {:induction false} NumberedMedia(groups: seq<Group>, audio: bool)
    ensures Contents(Numbered(groups), audio) == Media(Join(groups), audio)
  {
    if groups != [] {
      var groups', group := groups[..|groups| - 1], groups[|groups| - 1];
      assert groups == groups' + [group];
      NumberedMedia(groups', audio);
      JoinAppended(groups', group);
      MediaConcat(Join(groups'), group, audio);
      ContentsAppended(Numbered(groups'), SegmentOf(|groups'|, group, false), audio);
    }
  }

  /** No video is lost, and audio is lost only when the stream ends in audio alone behind the last cut. */
  lemma {:induction false} MediaConserved(ps: seq<Packet>, target: nat)
    ensures Contents(Expected(ps, target), false) == Video(ps)
    ensures var rest := Remainder(ps, target);
      Contents(Expected(ps, target), true) + (if Video(rest) == [] then Audio(rest) else []) == Audio(ps)
  {
    KindConserved(ps, target, false);
    KindConserved(ps, target, true);
    assert Contents(Expected(ps, target), true) + [] == Contents(Expected(ps, target), true);
    assert Contents(Expected(ps, target), false) + [] == Contents(Expected(ps, target), false);
  }

  lemma {:induction false} KindConserved(ps: seq<Packet>, target: nat, audio: bool)
    ensures var rest := Remainder(ps, target);
      Contents(Expected(ps, target), audio) + (if Video(rest) == [] then Media(rest, audio) else [])
      == Media(ps, audio)
  {
    var groups, rest := Groups(ps, target), Remainder(ps, target);
    assert Contents(Numbered(groups), audio) + Media(rest, audio) == Media(ps, audio) by {
      PartitionJoins(ps, target);
      MediaConcat(Join(groups), rest, audio);
      NumberedMedia(groups, audio);
    }
    if Video(rest) == [] {
      assert Numbered(groups) + [] == Numbered(groups);
    } else {
      LastSegmentMedia(Numbered(groups), |groups|, rest, audio);
    }
  }

  lemma {:induction false} LastSegmentMedia(segments: seq<Segment>, n: nat, rest: Group, audio: bool)
    ensures Contents(segments + [SegmentOf(n, rest, true)], audio) + []
         == Contents(segments, audio) + Media(rest, audio)
  {
    ContentsAppended(segments, SegmentOf(n, rest, true), audio);
  }

  // ----- Timing -----

  predicate Monotone(ps: seq<Packet>) {
    forall i, j :: 0 <= i <= j < |ps| ==> ps[i].pts <= ps[j].pts
  }

  /** What comes behind group `i`. */
  function Following(ps: seq<Packet>, target: nat, i: nat): seq<Packet> {
    if i + 1 < |Groups(ps, target)| then Groups(ps, target)[i + 1] else Remainder(ps, target)
  }

  predicate EndsBefore(group: Group, ps: seq<Packet>) {
    ps != [] ==> group[|group| - 1].pts <= ps[0].pts
  }

  /** With time stamps that never decrease, no group reaches past the start of what follows it. */
  lemma {:induction false} GroupsInOrder(ps: seq<Packet>, target: nat, i: nat)
    requires Monotone(ps) && i < |Groups(ps, target)|
    ensures EndsBefore(Groups(ps, target)[i], Following(ps, target, i))
    decreases i
  {
    var k := FirstCut(ps, 0, target).value;
    var tail := ps[k + 1..];
    TailMonotone(ps, k);
    GroupAt(ps, k, target, i);
    if i + 1 < |Groups(ps, target)| {
      GroupAt(ps, k, target, i + 1);
    }
    if i > 0 {
      GroupsInOrder(tail, target, i - 1);
      assert Following(ps, target, i) == Following(tail, target, i - 1);
    } else {
      FirstInOrder(ps, k, target);
    }
  }

  lemma {:induction false} FirstInOrder(ps: seq<Packet>, k: nat, target: nat)
    requires Monotone(ps) && FirstCut(ps, 0, target) == Some(k)
    ensures var tail := ps[k + 1..];
      EndsBefore(ps[..k + 1], if Groups(tail, target) == [] then Remainder(tail, target) else Groups(tail, target)[0])
  {
    var tail := ps[k + 1..];
    TailMonotone(ps, k);
    if tail != [] {
      FirstOfTail(tail, target);
    }
  }

  /** Whatever starts the partition of a list starts the list. */
  lemma {:induction false} FirstOfTail(ps: seq<Packet>, target: nat)
    requires ps != []
    ensures if Groups(ps, target) == [] then Remainder(ps, target) == ps else Groups(ps, target)[0][0] == ps[0]
  {
  }

  lemma {:induction false} SegmentsInOrder(ps: seq<Packet>, target: nat, i: nat)
    requires Monotone(ps) && i + 1 < |Expected(ps, target)|
    ensures var segments := Expected(ps, target);
      segments[i].ptsStart + segments[i].duration <= segments[i + 1].ptsStart
  {
    GroupsInOrder(ps, target, i);
  }

  predicate VideoKeyframe(p: Packet) {
    p.keyframe && !p.isAudio
  }

  /** Every video keyframe comes at most `gap` after the one before it, the first at most `gap` after `last`. */
  predicate KeyframesWithin(ps: seq<Packet>, last: int, gap: nat) {
    ps == []
    || if VideoKeyframe(ps[0]) then ps[0].pts - last <= gap && KeyframesWithin(ps[1..], ps[0].pts, gap)
       else KeyframesWithin(ps[1..], last, gap)
  }

  /** While no keyframe has been cut behind, the latest one is less than `target` past the start of the segment, so
      the one that is cut behind is less than `target + gap` past it. */
  lemma {:induction false} CutInTime(ps: seq<Packet>, i: nat, last: int, target: nat, gap: nat)
    requires i <= |ps| && ps != [] && last < ps[0].pts + target && KeyframesWithin(ps[i..], last, gap)
    ensures var k := FirstCut(ps, i, target);
      k.Some? ==> ps[k.value].pts < ps[0].pts + target + gap && KeyframesWithin(ps[k.value + 1..], ps[k.value].pts, gap)
    decreases |ps| - i
  {
    if i < |ps| {
      assert ps[i..][1..] == ps[i + 1..];
      if !Cuts(ps, i, target) {
        CutInTime(ps, i + 1, if VideoKeyframe(ps[i]) then ps[i].pts else last, target, gap);
      }
    }
  }

  predicate Lasts(group: Group, target: nat, gap: nat) {
    target <= group[|group| - 1].pts - group[0].pts < target + gap
  }

  lemma {:induction false} GroupDurations(ps: seq<Packet>, last: int, target: nat, gap: nat, i: nat)
    requires Monotone(ps) && target > 0 && i < |Groups(ps, target)|
    requires last <= ps[0].pts && KeyframesWithin(ps, last, gap)
    ensures Lasts(Groups(ps, target)[i], target, gap)
    decreases i
  {
    var k := FirstCut(ps, 0, target).value;
    FirstDuration(ps, last, target, gap);
    GroupAt(ps, k, target, i);
    if i > 0 {
      TailMonotone(ps, k);
      GroupDurations(ps[k + 1..], ps[k].pts, target, gap, i - 1);
    }
  }

  lemma {:induction false} GroupAt(ps: seq<Packet>, k: nat, target: nat, i: nat)
    requires FirstCut(ps, 0, target) == Some(k) && i < |Groups(ps, target)|
    ensures |Groups(ps[k + 1..], target)| == |Groups(ps, target)| - 1
    ensures Groups(ps, target)[i] == if i == 0 then ps[..k + 1] else Groups(ps[k + 1..], target)[i - 1]
    ensures Remainder(ps, target) == Remainder(ps[k + 1..], target)
  {
    PartitionAt(ps, k, target);
  }

  lemma {:induction false} FirstDuration(ps: seq<Packet>, last: int, target: nat, gap: nat)
    requires target > 0 && FirstCut(ps, 0, target).Some? && last <= ps[0].pts && KeyframesWithin(ps, last, gap)
    ensures var k := FirstCut(ps, 0, target).value;
      Lasts(ps[..k + 1], target, gap) && KeyframesWithin(ps[k + 1..], ps[k].pts, gap)
  {
    assert ps[0..] == ps;
    CutInTime(ps, 0, last, target, gap);
  }

  lemma {:induction false} TailMonotone(ps: seq<Packet>, k: nat)
    requires Monotone(ps) && k < |ps|
    ensures var tail := ps[k + 1..]; Monotone(tail) && (tail != [] ==> ps[k].pts <= tail[0].pts)
  {
  }

  /** When keyframes are at most `gap` apart, counting from the first packet, every segment but a final one lasts
      at least the target and less than the target plus `gap`. */
  lemma {:induction false} SegmentDurations(ps: seq<Packet>, target: nat, gap: nat, i: nat)
    requires Monotone(ps) && target > 0 && ps != [] && KeyframesWithin(ps, ps[0].pts, gap)
    requires i < |Expected(ps, target)| && !Expected(ps, target)[i].isLast
    ensures target <= Expected(ps, target)[i].duration < target + gap
  {
    GroupDurations(ps, ps[0].pts, target, gap, i);
  }
}
