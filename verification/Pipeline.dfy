/** From packets to the READY state: the segmenters of a stream's renditions, its packaging task and the event handler
    taken together. */
module Pipeline {
  import opened Bytes
  import opened StreamManager
  import opened Events
  import P = Packager
  import S = PackagerSafety
  import Segmenter

  function LiftOne(o: P.Output, id: StreamId): seq<Event> {
    match o
    case Produced(r, n) => [SegmentProduced(id, r, n)]
    case Complete(r) => [RenditionComplete(id, r)]
    case Sent(_, _) => []
  }

  /** The events that a packaging task's output contains, in order. */
  function Lift(log: seq<P.Output>, id: StreamId): seq<Event> {
    if log == [] then [] else LiftOne(log[0], id) + Lift(log[1..], id)
  }

  predicate FromPackager(e: Event) {
    e.SegmentProduced? || e.RenditionComplete?
  }

  /** The events among these that come from the packaging task. */
  function Packaged(events: seq<Event>): seq<Event> {
    if events == [] then []
    else
      var last := events[|events| - 1];
      Packaged(events[..|events| - 1]) + (if FromPackager(last) then [last] else [])
  }

  /** What arrivals report, one after the other. */
  function Reported(past: seq<P.Packed>, id: StreamId): seq<Event> {
    if past == [] then []
    else
      NextReported(Reported(past[..|past| - 1], id), past[|past| - 1], id)
  }

  function NextReported(events: seq<Event>, p: P.Packed, id: StreamId): seq<Event> {
    var report := events + [SegmentProduced(id, p.rendition, p.sequence)];
    if p.isLast then report + [RenditionComplete(id, p.rendition)] else report
  }

  // ----- The packaging task reports its arrivals -----

  lemma {:induction false} LiftAppend(a: seq<P.Output>, b: seq<P.Output>, id: StreamId)
    ensures Lift(a + b, id) == Lift(a, id) + Lift(b, id)
  {
    if a == [] {
      assert a + b == b;
    } else {
      var own := LiftOne(a[0], id);
      assert (a + b)[1..] == a[1..] + b;
      LiftAppend(a[1..], b, id);
      assert own + (Lift(a[1..], id) + Lift(b, id)) == own + Lift(a[1..], id) + Lift(b, id);
    }
  }

  lemma {:induction false} LiftWrites(log: seq<P.Output>, id: StreamId)
    requires forall i :: 0 <= i < |log| ==> log[i].Sent?
    ensures Lift(log, id) == []
  {
    if log != [] {
      LiftWrites(log[1..], id);
    }
  }

  lemma {:induction false} LiftTwo(a: P.Output, b: P.Output, id: StreamId)
    ensures Lift([a], id) == LiftOne(a, id)
    ensures Lift([a] + [b], id) == LiftOne(a, id) + LiftOne(b, id)
  {
    assert [a][1..] == [] && [b][1..] == [];
    assert Lift([a], id) == LiftOne(a, id) + [] && Lift([b], id) == LiftOne(b, id) + [];
    LiftAppend([a], [b], id);
  }

  lemma {:induction false} LiftClosing(p: P.Packed, id: StreamId)
    ensures Lift(P.Closing(p), id) == NextReported([], p, id)
  {
    LiftTwo(P.Produced(p.rendition, p.sequence), P.Complete(p.rendition), id);
    if !p.isLast {
      assert P.Closing(p) == [P.Produced(p.rendition, p.sequence)];
    }
  }

  lemma {:induction false} LiftParts(
    opening: seq<P.Output>, seg: P.Output, list: P.Output, closing: seq<P.Output>, id: StreamId)
    requires seg.Sent? && list.Sent? && forall i :: 0 <= i < |opening| ==> opening[i].Sent?
    ensures Lift(opening + ([seg, list] + closing), id) == Lift(closing, id)
  {
    LiftAppend(opening, [seg, list] + closing, id);
    LiftAppend([seg, list], closing, id);
    LiftWrites(opening, id);
    LiftWrites([seg, list], id);
  }

  lemma {:induction false} LiftBlock(
    cfg: P.Config, past: seq<P.Packed>, p: P.Packed, id: StreamId, block: seq<P.Output>)
    requires block == P.Block(cfg, past, p)
    ensures Lift(block, id) == NextReported([], p, id)
  {
    LiftClosing(p, id);
    LiftParts(P.Opening(cfg, past, p), P.SegmentWrite(cfg, p),
              P.PlaylistWrite(cfg, p, P.WindowAfter(cfg, past + [p], p.rendition)), P.Closing(p), id);
  }

  lemma {:induction false} LiftBlocks(cfg: P.Config, past: seq<P.Packed>, id: StreamId)
    ensures Lift(P.Blocks(cfg, past), id) == Reported(past, id)
  {
    if past != [] {
      var before, p := past[..|past| - 1], past[|past| - 1];
      LiftBlocks(cfg, before, id);
      LiftBlock(cfg, before, p, id, P.Block(cfg, before, p));
      NextLift(P.Blocks(cfg, before), P.Block(cfg, before, p), P.Blocks(cfg, past), Reported(before, id), p, id);
    }
  }

  lemma {:induction false} NextLift(
    b: seq<P.Output>, block: seq<P.Output>, all: seq<P.Output>, events: seq<Event>, p: P.Packed, id: StreamId)
    requires all == b + block && Lift(b, id) == events && Lift(block, id) == NextReported([], p, id)
    ensures Lift(all, id) == NextReported(events, p, id)
  {
    LiftAppend(b, block, id);
  }

  lemma {:induction false} LiftFull(cfg: P.Config, past: seq<P.Packed>, id: StreamId)
    ensures Lift(P.FullLog(cfg, past), id) == Reported(past, id)
  {
    var last := if past == [] then [] else [P.MasterWrite(cfg, P.Renditions(past))];
    LiftBlocks(cfg, past, id);
    LiftAppend(P.Blocks(cfg, past), last, id);
    LiftWrites(last, id);
  }

  // ----- Their reports are orderly -----

  lemma {:induction false} ReportedOrderly(past: seq<P.Packed>, id: StreamId, all: set<string>)
    requires forall i :: 0 <= i < |past| ==> past[i].rendition in all
    ensures Orderly(Reported(past, id), id, all)
  {
    if past != [] {
      var before, p := past[..|past| - 1], past[|past| - 1];
      ReportedOrderly(before, id, all);
      ClosingOrderly(Reported(before, id), id, all, p.rendition, p.sequence);
    }
  }

  lemma {:induction false} ClosingOrderly(events: seq<Event>, id: StreamId, all: set<string>, r: string, n: nat)
    requires Orderly(events, id, all) && r in all
    ensures Orderly(events + [SegmentProduced(id, r, n)], id, all)
    ensures Orderly(events + [SegmentProduced(id, r, n)] + [RenditionComplete(id, r)], id, all)
  {
    var report := events + [SegmentProduced(id, r, n)];
    assert report[..|events|] == events;
    assert r in Produced(report);
    assert (report + [RenditionComplete(id, r)])[..|report|] == report;
  }

  /** Some arrival of the rendition is marked as its last one. */
  predicate AnyLast(past: seq<P.Packed>, r: string) {
    past != [] &&
    (var p := past[|past| - 1]; AnyLast(past[..|past| - 1], r) || (p.rendition == r && p.isLast))
  }

  lemma {:induction false} ReportedCompleted(past: seq<P.Packed>, id: StreamId, r: string)
    ensures r in Completed(Reported(past, id)) <==> AnyLast(past, r)
  {
    if past != [] {
      var before, p := past[..|past| - 1], past[|past| - 1];
      ReportedCompleted(before, id, r);
      ClosingCompleted(Reported(before, id), id, p.rendition, p.sequence);
    }
  }

  lemma {:induction false} ClosingCompleted(events: seq<Event>, id: StreamId, r: string, n: nat)
    ensures var report := events + [SegmentProduced(id, r, n)];
      && Completed(report) == Completed(events)
      && Completed(report + [RenditionComplete(id, r)]) == Completed(events) + {r}
  {
    var report := events + [SegmentProduced(id, r, n)];
    assert report[..|events|] == events;
    assert (report + [RenditionComplete(id, r)])[..|report|] == report;
  }

  predicate HasLast(of: seq<P.Packed>) {
    exists j :: 0 <= j < |of| && of[j].isLast
  }

  lemma {:induction false} AnyLastOf(past: seq<P.Packed>, r: string)
    ensures AnyLast(past, r) <==> HasLast(P.Of(past, r))
  {
    if past != [] {
      var before, p := past[..|past| - 1], past[|past| - 1];
      AnyLastOf(before, r);
      LastOneOf(P.Of(before, r), p, p.rendition == r, P.Of(past, r));
    }
  }

  lemma {:induction false} LastOneOf(of: seq<P.Packed>, p: P.Packed, own: bool, all: seq<P.Packed>)
    requires all == of + (if own then [p] else [])
    ensures HasLast(all) <==> HasLast(of) || (own && p.isLast)
  {
    if j :| 0 <= j < |of| && of[j].isLast {
      assert all[j] == of[j];
    }
    if own && p.isLast {
      assert all[|of|] == p;
    }
  }

  // ----- Events of other kinds in between do not matter -----

  lemma {:induction false} SamePackaged(events: seq<Event>)
    ensures Completed(events) == Completed(Packaged(events)) && Produced(events) == Produced(Packaged(events))
  {
    if events != [] {
      var own, last := Packaged(events[..|events| - 1]), events[|events| - 1];
      SamePackaged(events[..|events| - 1]);
      if FromPackager(last) {
        assert (own + [last])[..|own|] == own;
      } else {
        assert own + [] == own;
      }
    }
  }

  lemma {:induction false} PackagedOrderly(events: seq<Event>, id: StreamId, all: set<string>)
    requires Orderly(Packaged(events), id, all)
    requires forall i :: 0 <= i < |events| ==>
      && events[i].id == id && !events[i].StreamError?
      && (events[i].ExpectRenditions? ==> events[i].count == |all|)
    ensures Orderly(events, id, all)
  {
    if events != [] {
      var before, last := events[..|events| - 1], events[|events| - 1];
      var own := Packaged(before);
      SamePackaged(before);
      if FromPackager(last) {
        assert (own + [last])[..|own|] == own;
      } else {
        assert own + [] == own;
      }
      PackagedOrderly(before, id, all);
    }
  }

  lemma {:induction false} OwnIds(events: seq<Event>, id: StreamId)
    ensures forall i :: 0 <= i < |ForStream(events, id)| ==> ForStream(events, id)[i].id == id
  {
    if events != [] {
      OwnIds(events[..|events| - 1], id);
    }
  }

  /** No event of the stream reports a failure, and every number asked for is that of its renditions. */
  predicate Undisturbed(own: seq<Event>, count: nat) {
    forall i :: 0 <= i < |own| ==> !own[i].StreamError? && (own[i].ExpectRenditions? ==> own[i].count == count)
  }

  /** A stream all of whose renditions are cut from packets, packaged and reported without a failure gets ready if and
      only if every rendition has video after its last cut, and the stream is in processing and the number of renditions
      known to the event handler before the last completion. It may be a stream just created: neither its start nor the
      number of renditions has to come first. */
  lemma {:induction false} ReadyFromPackets(
    m: Manager, events: seq<Event>, id: StreamId, cfg: P.Config, past: seq<P.Packed>,
    packets: map<string, seq<Segmenter.Packet>>, target: nat)
    requires id in m.streams && Fresh(m.streams[id])
    requires Undisturbed(ForStream(events, id), |packets.Keys|)
    requires Packaged(ForStream(events, id)) == Lift(P.FullLog(cfg, past), id)
    requires forall r :: r in packets ==> S.Carries(P.Of(past, r), Segmenter.Expected(packets[r], target))
    requires forall i :: 0 <= i < |past| ==> past[i].rendition in packets
    ensures id in Handled(m, events).streams
    ensures Handled(m, events).streams[id].state == Ready <==>
      && (forall r :: r in packets ==> Segmenter.Video(Segmenter.Remainder(packets[r], target)) != [])
      && InTime(ForStream(events, id), m.streams[id])
  {
    var own, all := ForStream(events, id), packets.Keys;
    LiftFull(cfg, past, id);
    ReportedOrderly(past, id, all);
    OwnIds(events, id);
    PackagedOrderly(own, id, all);
    SamePackaged(own);
    OnlyKnown(own, id, all);
    ReadyExactly(m, events, id, all);
    forall r | r in packets
      ensures r in Completed(own) <==> Segmenter.Video(Segmenter.Remainder(packets[r], target)) != []
    {
      CompletedWithVideo(past, id, r, packets[r], target);
    }
    SameSets(Completed(own), all, packets, target);
  }

  lemma {:induction false} SameSets(
    completed: set<string>, all: set<string>, packets: map<string, seq<Segmenter.Packet>>, target: nat)
    requires completed <= all && all == packets.Keys
    requires forall r :: r in packets ==>
      (r in completed <==> Segmenter.Video(Segmenter.Remainder(packets[r], target)) != [])
    ensures completed == all <==>
      forall r :: r in packets ==> Segmenter.Video(Segmenter.Remainder(packets[r], target)) != []
  {
  }

  lemma {:induction false} CompletedWithVideo(
    past: seq<P.Packed>, id: StreamId, r: string, packets: seq<Segmenter.Packet>, target: nat)
    requires S.Carries(P.Of(past, r), Segmenter.Expected(packets, target))
    ensures r in Completed(Reported(past, id)) <==> Segmenter.Video(Segmenter.Remainder(packets, target)) != []
  {
    ReportedCompleted(past, id, r);
    AnyLastOf(past, r);
    Segmenter.NumberedAndTerminated(packets, target);
    LastCarried(P.Of(past, r), Segmenter.Expected(packets, target));
  }

  lemma {:induction false} LastCarried(of: seq<P.Packed>, segments: seq<Segmenter.Segment>)
    requires S.Carries(of, segments)
    requires forall i :: 0 <= i < |segments| && segments[i].isLast ==> i == |segments| - 1
    ensures HasLast(of) <==> segments != [] && segments[|segments| - 1].isLast
  {
  }
}
