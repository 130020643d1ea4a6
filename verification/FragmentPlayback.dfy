/** From packets to the player's clock: what a player reads in the stored segments besides their video. */
module FragmentPlayback {
  import opened Bytes
  import opened Playlist
  import opened Packager
  import opened PackagerSafety
  import opened Playback
  import opened InitPlayback
  import BoxTree
  import Cleanup
  import FragmentReader
  import MediaSegment
  import Segmenter

  function FragmentStored(objects: map<string, Body>, key: string): Option<FragmentReader.Fragment> {
    if key !in objects || !objects[key].Media? then None
    else FragmentReader.ReadFragment(BoxTree.WriteAll(MediaSegment.MediaTree(objects[key].media)))
  }

  // ----- Which segments are stored -----

  function SegmentBody(of: seq<Packed>, n: nat): Option<Body> {
    if n < |of| then Some(Media(of[n].media)) else None
  }

  lemma {:induction false} BlockSegment(cfg: Config, past: seq<Packed>, p: Packed, r: string, n: nat)
    requires p.sequence == |Of(past, p.rendition)|
    ensures Only(Block(cfg, past, p), SegmentPath(cfg.stream, r, n), SegmentBody(Of(past + [p], r), n))
  {
    var path := SegmentPath(cfg.stream, r, n);
    PlaylistsApart(cfg.stream, r, n, p.rendition);
    SegmentAndInit(cfg.stream, r, n, p.rendition);
    OfGrows(past, p, r);
    if path == SegmentPath(cfg.stream, p.rendition, p.sequence) {
      Cleanup.SegmentPathsDiffer(cfg.stream, r, n, p.rendition, p.sequence);
    }
    OnlyInBlock(cfg, past, p, path, SegmentBody(Of(past + [p], r), n));
  }

  lemma {:induction false} BlocksSegment(cfg: Config, past: seq<Packed>, r: string, n: nat)
    requires InOrder(past)
    ensures Only(Blocks(cfg, past), SegmentPath(cfg.stream, r, n), SegmentBody(Of(past, r), n))
  {
    if past != [] {
      var before, p := past[..|past| - 1], past[|past| - 1];
      LastArrival(past, before, p);
      BlocksSegment(cfg, before, r, n);
      OfGrows(before, p, r);
      BlockSegment(cfg, before, p, r, n);
      OnlyGrows(Blocks(cfg, before), Block(cfg, before, p), SegmentPath(cfg.stream, r, n),
                SegmentBody(Of(before, r), n), SegmentBody(Of(past, r), n));
    }
  }

  lemma {:induction false} SegmentStored(cfg: Config, past: seq<Packed>, r: string, n: nat, log: seq<Output>)
    requires InOrder(past) && log <= FullLog(cfg, past) && SegmentPath(cfg.stream, r, n) in Objects(log)
    ensures n < |Of(past, r)| && Objects(log)[SegmentPath(cfg.stream, r, n)] == Media(Of(past, r)[n].media)
  {
    var path := SegmentPath(cfg.stream, r, n);
    BlocksSegment(cfg, past, r, n);
    PlaylistsApart(cfg.stream, r, n, r);
    OnlyInLog(cfg, past, log, path, SegmentBody(Of(past, r), n));
    var i := StoredSent(log, path);
  }

  // ----- What a player reads there -----

  /** Segment `n` as it is meant: one sample that is all of its video, at the segment's start and for its duration. */
  function Intended(s: Segmenter.Segment, n: nat): FragmentReader.Fragment {
    FragmentReader.Fragment(
      n, 1, s.ptsStart,
      [MediaSegment.Sample(if s.duration < 0 then 0 else s.duration, |s.video|,
                           if n == 0 then 0x0200_0000 else 0x0101_0000, 0)])
  }

  lemma {:induction false} SegmentRead(a: Arrival, n: nat)
    requires a.segment.sequence == n && |a.segment.video| + 8 < TWO_TO_32
    ensures var p := MediaParamsOf(a);
      FragmentReader.ReadFragment(BoxTree.WriteAll(MediaSegment.MediaTree(p))) == Some(Intended(a.segment, n))
      <==> n < TWO_TO_32 && 0 <= a.segment.ptsStart < FragmentReader.TWO_TO_64 && a.segment.duration < TWO_TO_32
  {
    var p := MediaParamsOf(a);
    var samples := FragmentReader.FragmentRead(p);
    SampleRead(a, n, samples);
    FragmentReader.WrapFits(n);
  }

  lemma {:induction false} SampleRead(a: Arrival, n: nat, samples: seq<MediaSegment.Sample>)
    requires a.segment.sequence == n && |a.segment.video| + 8 < TWO_TO_32
    requires |samples| == 1 && samples[0] == FragmentReader.Wrapped(MediaParamsOf(a).samples[0])
    ensures samples == Intended(a.segment, n).samples <==> a.segment.duration < TWO_TO_32
  {
    var s := MediaParamsOf(a).samples[0];
    FragmentReader.WrapFits(s.duration);
    FragmentReader.WrapFits(s.size);
    FragmentReader.WrapFits(s.flags);
    FragmentReader.WrapFits(0);
    assert samples == Intended(a.segment, n).samples <==> samples[0] == Intended(a.segment, n).samples[0];
  }

  /** At every point of every run, a player finds in a stored segment of a rendition its number, the track that the init
      segment announces, the time at which the segment starts and its one sample, which lasts as long as the segment and
      depends on others exactly if the segment is not the first; provided that number, time and duration fit. */
  lemma {:induction false} TimesReachPlayer(
    cfg: Config, arrivals: seq<Arrival>, packets: map<string, seq<Segmenter.Packet>>, target: nat, r: string,
    log: seq<Output>, n: nat)
    requires CutFrom(arrivals, packets, target) && r in packets && log <= FullLog(cfg, PackAll(arrivals))
    requires SegmentPath(cfg.stream, r, n) in Objects(log)
    ensures var segments := Segmenter.Expected(packets[r], target);
      && n < |segments|
      && (FragmentStored(Objects(log), SegmentPath(cfg.stream, r, n)) == Some(Intended(segments[n], n)) <==>
            && n < TWO_TO_32 && 0 <= segments[n].ptsStart < FragmentReader.TWO_TO_64
            && segments[n].duration < TWO_TO_32)
  {
    var past := PackAll(arrivals);
    CutInOrder(arrivals, packets, target);
    SegmentStored(cfg, past, r, n, log);
    OwnPacked(arrivals, r);
    PackAllLength(Own(arrivals, r));
    OwnAt(arrivals, r, n);
    Segmenter.NumberedAndTerminated(packets[r], target);
    SegmentRead(Own(arrivals, r)[n], n);
  }
}
