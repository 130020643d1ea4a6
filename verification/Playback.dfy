/** From packets to the player: what a player gets that follows a rendition's playlist, out of what the packaging task
    has sent so far. */
module Playback {
  import opened Bytes
  import opened Playlist
  import opened SegmentIndexes
  import opened Packager
  import opened PackagerSafety
  import BoxTree
  import Cleanup
  import MediaSegment
  import Segmenter

  // ----- Playing -----

  /** The stored objects, as the writes of a log leave them. */
  function Objects(log: seq<Output>): map<string, Body> {
    if log == [] then map[]
    else
      var before, o := Objects(log[..|log| - 1]), log[|log| - 1];
      if o.Sent? then before[o.path := o.body] else before
  }

  function MediaPlayed(p: MediaSegment.MediaParams): Option<seq<byte>> {
    var samples := MediaSegment.PlayerSamples(BoxTree.WriteAll(MediaSegment.MediaTree(p)));
    if samples.None? then None else Some(MediaSegment.Concat(samples.value))
  }

  /** The segments of these names, as far as they are stored. */
  function Fetched(objects: map<string, Body>, dir: string, names: seq<string>): Option<seq<MediaSegment.MediaParams>> {
    if names == [] then Some([])
    else
      var n := |names| - 1;
      var before, key := Fetched(objects, dir, names[..n]), Cleanup.FullKey(dir, names[n]);
      if before.None? || key !in objects || !objects[key].Media? then None
      else Some(before.value + [objects[key].media])
  }

  /** Their video, one after the other. */
  function AllPlayed(segments: seq<MediaSegment.MediaParams>): Option<seq<byte>> {
    if segments == [] then Some([])
    else
      var before, last := AllPlayed(segments[..|segments| - 1]), MediaPlayed(segments[|segments| - 1]);
      if before.None? || last.None? then None else Some(before.value + last.value)
  }

  /** The video that a player gets: it reads the text of the rendition's playlist, fetches the segments named there,
      parses them and cuts out their samples. */
  function RenditionPlayed(objects: map<string, Body>, stream: string, r: string): Option<seq<byte>> {
    var path := MediaPlaylistPath(stream, r);
    if path !in objects || !objects[path].Playlist? then None
    else
      var text := Cleanup.PublishedText(objects[path].list);
      var fetched := Fetched(objects, Cleanup.Parent(path), Cleanup.SegmentNames(Cleanup.Lines(text)));
      if fetched.None? then None else AllPlayed(fetched.value)
  }

  // ----- What is stored -----

  lemma {:induction false} ObjectsAppend(a: seq<Output>, b: seq<Output>)
    ensures Objects(a + b) == Objects(a) + Objects(b)
  {
    if b == [] {
      assert a + b == a;
    } else {
      var n := |b| - 1;
      assert (a + b)[..|a + b| - 1] == a + b[..n];
      ObjectsAppend(a, b[..n]);
    }
  }

  lemma {:induction false} ObjectsHave(log: seq<Output>, path: string)
    ensures path in Objects(log) <==> HasSent(log, path)
  {
    if log != [] {
      var before, o := log[..|log| - 1], log[|log| - 1];
      ObjectsHave(before, path);
      assert before + [o] == log;
      SentIn(before, [o], path);
      SentOne(o, path);
    }
  }

  /** The objects have the playlist of the rendition's first `k` arrivals, and the segments of those. */
  ghost predicate Holds(cfg: Config, objects: map<string, Body>, of: seq<Packed>, r: string, k: nat) {
    && k <= |of|
    && (var path := MediaPlaylistPath(cfg.stream, r);
        if k == 0 then path !in objects
        else path in objects && objects[path] == Playlist(ListAfter(cfg, of[..k])))
    && forall n :: 0 <= n < k ==>
         && SegmentPath(cfg.stream, r, n) in objects
         && objects[SegmentPath(cfg.stream, r, n)] == Media(of[n].media)
  }

  function ListAfter(cfg: Config, of: seq<Packed>): Cleanup.Published
    requires of != []
  {
    PublishedOf(cfg, Run(WindowOf(cfg), AllAdded(cfg, of)), of[|of| - 1].isLast)
  }

  lemma {:induction false} HoldsWithMore(
    cfg: Config, objects: map<string, Body>, of: seq<Packed>, more: seq<Packed>, r: string, k: nat)
    requires Holds(cfg, objects, of, r, k)
    ensures Holds(cfg, objects, of + more, r, k)
  {
    assert (of + more)[..k] == of[..k];
  }

  /** Writes of other paths change nothing for the rendition. */
  lemma {:induction false} HoldsStill(
    cfg: Config, objects: map<string, Body>, writes: map<string, Body>, of: seq<Packed>, r: string, k: nat)
    requires Holds(cfg, objects, of, r, k)
    requires MediaPlaylistPath(cfg.stream, r) !in writes
    requires forall n :: 0 <= n < k ==> SegmentPath(cfg.stream, r, n) !in writes
    ensures Holds(cfg, objects + writes, of, r, k)
  {
  }

  lemma {:induction false} HoldsNext(
    cfg: Config, objects: map<string, Body>, writes: map<string, Body>, of: seq<Packed>, p: Packed, r: string)
    requires Holds(cfg, objects, of, r, |of|)
    requires MediaPlaylistPath(cfg.stream, r) in writes
    requires writes[MediaPlaylistPath(cfg.stream, r)] == Playlist(ListAfter(cfg, of + [p]))
    requires SegmentPath(cfg.stream, r, |of|) in writes
    requires writes[SegmentPath(cfg.stream, r, |of|)] == Media(p.media)
    requires forall n :: 0 <= n < |of| ==> SegmentPath(cfg.stream, r, n) !in writes
    ensures Holds(cfg, objects + writes, of + [p], r, |of| + 1)
  {
    assert (of + [p])[..|of| + 1] == of + [p];
  }

  lemma {:induction false} PlaylistPathsDiffer(stream: string, r1: string, r2: string)
    ensures MediaPlaylistPath(stream, r1) == MediaPlaylistPath(stream, r2) ==> r1 == r2
    ensures MediaPlaylistPath(stream, r1) != MasterPlaylistPath(stream)
  {
    assert '/' !in "media.m3u8";
    Cleanup.ParentOf(stream + "/" + r1, "media.m3u8");
    Cleanup.ParentOf(stream + "/" + r2, "media.m3u8");
    assert (stream + "/" + r1)[|stream| + 1..] == r1 && (stream + "/" + r2)[|stream| + 1..] == r2;
    var a, b := MediaPlaylistPath(stream, r1), MasterPlaylistPath(stream);
    assert a[|a| - 6] == 'a' && b[|b| - 6] == 'r';
  }

  lemma {:induction false} PrefixSends(log: seq<Output>, j: nat, path: string)
    requires j <= |log| && HasSent(log[..j], path)
    ensures HasSent(log, path)
  {
    var i :| 0 <= i < j && log[..j][i].Sent? && log[..j][i].path == path;
    assert log[i] == log[..j][i];
  }

  /** What an arrival writes for a rendition: nothing under its earlier segments' paths, and under its playlist's only
      if the arrival is its own. */
  lemma {:induction false} BlockWrites(
    cfg: Config, past: seq<Packed>, p: Packed, r: string, n: nat, block: seq<Output>, j: nat)
    requires block == Block(cfg, past, p) && j <= |block| && (p.rendition == r ==> n != p.sequence)
    ensures SegmentPath(cfg.stream, r, n) !in Objects(block[..j])
    ensures p.rendition != r ==> MediaPlaylistPath(cfg.stream, r) !in Objects(block[..j])
  {
    var seg, list := SegmentPath(cfg.stream, r, n), MediaPlaylistPath(cfg.stream, r);
    ObjectsHave(block[..j], seg);
    ObjectsHave(block[..j], list);
    BlockSends(cfg, past, p, r, n);
    if HasSent(block[..j], seg) {
      PrefixSends(block, j, seg);
    }
    if p.rendition != r && HasSent(block[..j], list) {
      PrefixSends(block, j, list);
      BlockSendsPath(cfg, past, p, list);
      PlaylistPathsDiffer(cfg.stream, r, p.rendition);
      PlaylistsApart(cfg.stream, p.rendition, p.sequence, r);
    }
  }

  /** Before the playlist is written, no playlist is. */
  lemma {:induction false} NoPlaylistYet(
    cfg: Config, past: seq<Packed>, p: Packed, block: seq<Output>, j: nat, opening: seq<Output>)
    requires block == Block(cfg, past, p) && opening == Opening(cfg, past, p) && j <= |opening| + 1 && j <= |block|
    ensures MediaPlaylistPath(cfg.stream, p.rendition) !in Objects(block[..j])
  {
    var list, seg := MediaPlaylistPath(cfg.stream, p.rendition), SegmentWrite(cfg, p);
    ObjectsHave(block[..j], list);
    if HasSent(block[..j], list) {
      var first := opening + [seg];
      FirstPart(block, opening, seg, PlaylistWrite(cfg, p, WindowAfter(cfg, past + [p], p.rendition)), Closing(p), j);
      PrefixSends(first, j, list);
      SentIn(opening, [seg], list);
      SentOne(seg, list);
      OpeningSends(cfg, past, p, list);
      PlaylistPathsDiffer(cfg.stream, p.rendition, p.rendition);
      PlaylistsApart(cfg.stream, p.rendition, p.sequence, p.rendition);
    }
  }

  lemma {:induction false} FirstPart(
    block: seq<Output>, opening: seq<Output>, seg: Output, list: Output, closing: seq<Output>, j: nat)
    requires block == opening + ([seg, list] + closing) && j <= |opening| + 1
    ensures block[..j] == (opening + [seg])[..j]
  {
  }

  /** Once it is written, playlist and segment are there. */
  lemma {:induction false} PublishedBoth(
    block: seq<Output>, opening: seq<Output>, seg: Output, list: Output, closing: seq<Output>, j: nat)
    requires block == opening + ([seg, list] + closing) && |opening| + 2 <= j <= |block|
    requires seg.Sent? && list.Sent? && seg.path != list.path
    requires forall i :: 0 <= i < |closing| ==> !closing[i].Sent?
    ensures var writes := Objects(block[..j]);
      list.path in writes && writes[list.path] == list.body && seg.path in writes && writes[seg.path] == seg.body
  {
    var front := opening + [seg] + [list];
    var rest := closing[..j - |front|];
    assert block[..j] == front + rest;
    ObjectsAppend(front, rest);
    NoWrites(rest);
    assert front[..|front| - 1] == opening + [seg] && (opening + [seg])[..|opening|] == opening;
  }

  lemma {:induction false} NoWrites(log: seq<Output>)
    requires forall i :: 0 <= i < |log| ==> !log[i].Sent?
    ensures Objects(log) == map[]
  {
    if log != [] {
      NoWrites(log[..|log| - 1]);
    }
  }

  /** Within what an arrival puts out: the rendition stays where it was until its own playlist is written. */
  lemma {:induction false} BlockHolds(
    cfg: Config, past: seq<Packed>, p: Packed, r: string, objects: map<string, Body>, block: seq<Output>, j: nat)
    returns (k: nat)
    requires block == Block(cfg, past, p) && j <= |block| && p.sequence == |Of(past, p.rendition)|
    requires Holds(cfg, objects, Of(past, r), r, |Of(past, r)|)
    ensures Holds(cfg, objects + Objects(block[..j]), Of(past + [p], r), r, k)
    ensures j == |block| ==> k == |Of(past + [p], r)|
  {
    var of, writes := Of(past, r), Objects(block[..j]);
    var opening := Opening(cfg, past, p);
    k := |of|;
    OfGrows(past, p, r);
    forall n | 0 <= n < |of|
      ensures SegmentPath(cfg.stream, r, n) !in writes
    {
      BlockWrites(cfg, past, p, r, n, block, j);
    }
    if p.rendition == r && j >= |opening| + 2 {
      k := |of| + 1;
      var list := PlaylistWrite(cfg, p, WindowAfter(cfg, past + [p], r));
      PlaylistsApart(cfg.stream, r, p.sequence, r);
      PublishedBoth(block, opening, SegmentWrite(cfg, p), list, Closing(p), j);
      HoldsNext(cfg, objects, writes, of, p, r);
    } else {
      if p.rendition == r {
        NoPlaylistYet(cfg, past, p, block, j, opening);
      } else {
        BlockWrites(cfg, past, p, r, 0, block, j);
      }
      HoldsStill(cfg, objects, writes, of, r, |of|);
      HoldsWithMore(cfg, objects + writes, of, if p.rendition == r then [p] else [], r, |of|);
    }
  }

  /** At every point of the blocks. */
  lemma {:induction false} BlocksHold(cfg: Config, past: seq<Packed>, r: string, log: seq<Output>) returns (k: nat)
    requires InOrder(past) && log <= Blocks(cfg, past)
    ensures Holds(cfg, Objects(log), Of(past, r), r, k)
    ensures log == Blocks(cfg, past) ==> k == |Of(past, r)|
  {
    k := 0;
    if past != [] {
      var before, p := past[..|past| - 1], past[|past| - 1];
      var b, block := Blocks(cfg, before), Block(cfg, before, p);
      LastArrival(past, before, p);
      OfGrows(before, p, r);
      if |log| < |b| {
        k := BlocksHold(cfg, before, r, log);
        HoldsWithMore(cfg, Objects(log), Of(before, r), if p.rendition == r then [p] else [], r, k);
      } else {
        var j := |log| - |b|;
        k := BlocksHold(cfg, before, r, b);
        k := BlockHolds(cfg, before, p, r, Objects(b), block, j);
        Behind(b, block, log, j);
      }
    }
  }

  lemma {:induction false} Behind(b: seq<Output>, block: seq<Output>, log: seq<Output>, j: nat)
    requires log <= b + block && |log| == |b| + j
    ensures log == b + block[..j] && Objects(log) == Objects(b) + Objects(block[..j])
    ensures log == b + block ==> j == |block|
  {
    assert log == b + block[..j];
    ObjectsAppend(b, block[..j]);
  }

  /** At every point of a run. */
  lemma {:induction false} RunHolds(cfg: Config, past: seq<Packed>, r: string, log: seq<Output>) returns (k: nat)
    requires InOrder(past) && log <= FullLog(cfg, past)
    ensures Holds(cfg, Objects(log), Of(past, r), r, k)
    ensures log == FullLog(cfg, past) ==> k == |Of(past, r)|
  {
    var b := Blocks(cfg, past);
    if |log| <= |b| {
      assert log <= b;
      k := BlocksHold(cfg, past, r, log);
    } else {
      k := BlocksHold(cfg, past, r, b);
      BehindMaster(cfg, b, MasterWrite(cfg, Renditions(past)), log, Of(past, r), r, k);
    }
  }

  lemma {:induction false} BehindMaster(
    cfg: Config, b: seq<Output>, master: Output, log: seq<Output>, of: seq<Packed>, r: string, k: nat)
    requires log <= b + [master] && |log| > |b| && Holds(cfg, Objects(b), of, r, k)
    requires master.Sent? && master.path == MasterPlaylistPath(cfg.stream)
    ensures Holds(cfg, Objects(log), of, r, k)
  {
    assert log == b + [master] && log[..|log| - 1] == b;
    MasterApart(cfg.stream, r, k, master);
    MasterHolds(cfg, Objects(b), of, r, k, master);
  }

  lemma {:induction false} MasterHolds(
    cfg: Config, objects: map<string, Body>, of: seq<Packed>, r: string, k: nat, master: Output)
    requires Holds(cfg, objects, of, r, k) && master.Sent? && MediaPlaylistPath(cfg.stream, r) != master.path
    requires forall n :: 0 <= n < k ==> SegmentPath(cfg.stream, r, n) != master.path
    ensures Holds(cfg, objects[master.path := master.body], of, r, k)
  {
  }

  lemma {:induction false} MasterApart(stream: string, r: string, k: nat, master: Output)
    requires master.Sent? && master.path == MasterPlaylistPath(stream)
    ensures MediaPlaylistPath(stream, r) != master.path
    ensures forall n :: 0 <= n < k ==> SegmentPath(stream, r, n) != master.path
  {
    PlaylistPathsDiffer(stream, r, r);
    forall n | 0 <= n < k
      ensures SegmentPath(stream, r, n) != master.path
    {
      PlaylistsApart(stream, r, n, r);
    }
  }

  // ----- What is played -----

  lemma {:induction false} OneSize(samples: seq<MediaSegment.Sample>)
    requires |samples| == 1
    ensures MediaSegment.Sum(MediaSegment.GivenSizes(samples)) == samples[0].size
  {
    assert samples[..0] == [] && MediaSegment.GivenSizes(samples) == [] + [samples[0].size];
    assert MediaSegment.Sum([samples[0].size][1..]) == 0;
  }

  /** One packaged segment holds its video as the one sample. */
  lemma {:induction false} SegmentPlays(a: Arrival)
    requires |a.segment.video| + 8 < TWO_TO_32
    ensures MediaPlayed(MediaParamsOf(a)) == Some(a.segment.video)
  {
    var p := MediaParamsOf(a);
    OneSize(p.samples);
    MediaSegment.SamplesTilePayload(p);
  }

  lemma {:induction false} KeyOf(stream: string, r: string, n: nat)
    ensures Cleanup.FullKey(stream + "/" + r, SegmentFilename(n)) == SegmentPath(stream, r, n)
  {
    Cleanup.FilenameNames(n);
  }

  function MediaOf(of: seq<Packed>): (r: seq<MediaSegment.MediaParams>)
    ensures |r| == |of|
  {
    if of == [] then [] else MediaOf(of[..|of| - 1]) + [of[|of| - 1].media]
  }

  lemma {:induction false} MediaStep(of: seq<Packed>, from: nat, to: nat)
    requires from <= to < |of|
    ensures MediaOf(of[from..to + 1]) == MediaOf(of[from..to]) + [of[to].media]
  {
    var own := of[from..to + 1];
    assert own[..|own| - 1] == of[from..to];
  }

  /** The file names of `n` segments from `from` on. */
  function FileNames(from: nat, n: nat): (r: seq<string>)
    ensures |r| == n
  {
    if n == 0 then [] else FileNames(from, n - 1) + [SegmentFilename(from + n - 1)]
  }

  lemma {:induction false} FileNamesAt(from: nat, n: nat, i: nat)
    requires i < n
    ensures FileNames(from, n)[i] == SegmentFilename(from + i)
  {
    if i < n - 1 {
      FileNamesAt(from, n - 1, i);
    }
  }

  lemma {:induction false} FetchedStep(
    objects: map<string, Body>, dir: string, names: seq<string>, name: string, front: seq<MediaSegment.MediaParams>,
    key: string, last: MediaSegment.MediaParams)
    requires Fetched(objects, dir, names) == Some(front)
    requires Cleanup.FullKey(dir, name) == key && key in objects && objects[key] == Media(last)
    ensures Fetched(objects, dir, names + [name]) == Some(front + [last])
  {
    assert (names + [name])[..|names|] == names;
  }

  /** Segments `from` to `to - 1` are stored. */
  predicate Stored(objects: map<string, Body>, stream: string, r: string, of: seq<Packed>, from: nat, to: nat)
    requires from <= to <= |of|
  {
    from == to ||
    (var path := SegmentPath(stream, r, to - 1);
     Stored(objects, stream, r, of, from, to - 1) && path in objects && objects[path] == Media(of[to - 1].media))
  }

  /** Their names fetch them. */
  lemma {:induction false} FetchedAre(
    objects: map<string, Body>, stream: string, r: string, from: nat, n: nat, of: seq<Packed>)
    requires from + n <= |of| && Stored(objects, stream, r, of, from, from + n)
    ensures Fetched(objects, stream + "/" + r, FileNames(from, n)) == Some(MediaOf(of[from..from + n]))
    decreases n
  {
    if n == 0 {
      assert of[from..from] == [];
    } else {
      var last := from + n - 1;
      FetchedAre(objects, stream, r, from, n - 1, of);
      KeyOf(stream, r, last);
      MediaStep(of, from, last);
      FetchedStep(objects, stream + "/" + r, FileNames(from, n - 1), SegmentFilename(last), MediaOf(of[from..last]),
                  SegmentPath(stream, r, last), of[last].media);
    }
  }

  lemma {:induction false} HeldStored(
    cfg: Config, objects: map<string, Body>, of: seq<Packed>, r: string, k: nat, from: nat, end: nat)
    requires Holds(cfg, objects, of, r, k) && from <= end <= k
    ensures Stored(objects, cfg.stream, r, of, from, end)
    decreases end
  {
    if from < end {
      HeldStored(cfg, objects, of, r, k, from, end - 1);
    }
  }

  lemma {:induction false} PlayedStep(
    segments: seq<MediaSegment.MediaParams>, p: MediaSegment.MediaParams, front: seq<byte>, last: seq<byte>)
    requires AllPlayed(segments) == Some(front) && MediaPlayed(p) == Some(last)
    ensures AllPlayed(segments + [p]) == Some(front + last)
  {
    assert (segments + [p])[..|segments|] == segments;
  }

  /** They are these segments, in this order, each small enough for a 32-bit box. */
  predicate Brings(own: seq<Arrival>, segments: seq<Segmenter.Segment>) {
    && |own| == |segments|
    && forall i :: 0 <= i < |own| ==> own[i].segment == segments[i] && |segments[i].video| + 8 < TWO_TO_32
  }

  lemma {:induction false} PlayedNext(of: seq<Packed>, gone: nat, n: nat, a: Arrival, front: seq<byte>)
    requires gone <= n < |of| && of[n] == Pack(a) && |a.segment.video| + 8 < TWO_TO_32
    requires AllPlayed(MediaOf(of[gone..n])) == Some(front)
    ensures AllPlayed(MediaOf(of[gone..n + 1])) == Some(front + a.segment.video)
  {
    MediaStep(of, gone, n);
    SegmentPlays(a);
    PlayedStep(MediaOf(of[gone..n]), of[n].media, front, a.segment.video);
  }

  lemma {:induction false} ContentsStep(segments: seq<Segmenter.Segment>, from: nat, to: nat)
    requires from <= to < |segments|
    ensures Segmenter.Contents(segments[from..to + 1], false)
         == Segmenter.Contents(segments[from..to], false) + segments[to].video
  {
    assert segments[from..to + 1] == segments[from..to] + [segments[to]];
    Segmenter.ContentsAppended(segments[from..to], segments[to], false);
  }

  lemma {:induction false} WindowPlays(
    own: seq<Arrival>, of: seq<Packed>, segments: seq<Segmenter.Segment>, gone: nat, k: nat)
    requires of == PackAll(own) && Brings(own, segments) && gone <= k <= |segments|
    ensures |of| == |segments| && AllPlayed(MediaOf(of[gone..k])) == Some(Segmenter.Contents(segments[gone..k], false))
    decreases k
  {
    PackAllLength(own);
    if gone == k {
      assert of[gone..k] == [] && segments[gone..k] == [];
    } else {
      var n := k - 1;
      WindowPlays(own, of, segments, gone, n);
      PackAllAt(own, n);
      PlayedNext(of, gone, n, own[n], Segmenter.Contents(segments[gone..n], false));
      ContentsStep(segments, gone, n);
    }
  }

  lemma {:induction false} FilenamesAt(segments: seq<PlaylistSegment>, i: nat)
    requires i < |segments|
    ensures |Cleanup.Filenames(segments)| == |segments| && Cleanup.Filenames(segments)[i] == segments[i].filename
  {
    if |segments| > 1 {
      FilenamesAt(segments[1..], if i > 0 then i - 1 else 0);
    }
  }

  lemma {:induction false} FilenamesAre(segments: seq<PlaylistSegment>, gone: nat)
    requires forall i :: 0 <= i < |segments| ==> segments[i].filename == SegmentFilename(gone + i)
    ensures Cleanup.Filenames(segments) == FileNames(gone, |segments|)
  {
    var names := Cleanup.Filenames(segments);
    NoNames(segments);
    if segments != [] {
      FilenamesAt(segments, 0);
    }
    forall i | 0 <= i < |segments|
      ensures names[i] == FileNames(gone, |segments|)[i]
    {
      FilenamesAt(segments, i);
      FileNamesAt(gone, |segments|, i);
    }
  }

  /** The segments listed after these arrivals. */
  lemma {:induction false} ListedSegments(cfg: Config, of: seq<Packed>, p: Cleanup.Published)
    requires of != [] && Printed(of) && p == ListAfter(cfg, of)
    ensures Cleanup.AllPrintable(p.segments)
    ensures var gone := Gone(WindowOf(cfg), |of|); Cleanup.Filenames(p.segments) == FileNames(gone, |of| - gone)
  {
    var added := AllAdded(cfg, of);
    AllPrinted(cfg, of);
    Cleanup.LatestProtected(WindowOf(cfg), added, p.hlsVersion, p.isVod, p.isFinished, 0);
    WindowNames(WindowOf(cfg), added, p.segments);
  }

  lemma {:induction false} WindowNames(window: Option<nat>, added: seq<Added>, segments: seq<PlaylistSegment>)
    requires segments == PlaylistSegmentsOf(Run(window, added).entries)
    ensures var gone := Gone(window, |added|);
      gone <= |added| && Cleanup.Filenames(segments) == FileNames(gone, |added| - gone)
  {
    WindowIsLatest(window, added);
    PlaylistSegmentsCount(Run(window, added).entries);
    forall i | 0 <= i < |segments|
      ensures segments[i].filename == SegmentFilename(Gone(window, |added|) + i)
    {
      Cleanup.WindowSegmentAt(window, added, i);
    }
    FilenamesAre(segments, Gone(window, |added|));
  }

  /** The names that a player reads in the playlist after these arrivals. */
  lemma {:induction false} ListedNames(cfg: Config, of: seq<Packed>, p: Cleanup.Published)
    requires of != [] && Printed(of) && p == ListAfter(cfg, of)
    ensures var gone := Gone(WindowOf(cfg), |of|);
      Cleanup.SegmentNames(Cleanup.Lines(Cleanup.PublishedText(p))) == FileNames(gone, |of| - gone)
  {
    ListedSegments(cfg, of, p);
    Cleanup.ScanInvertsPlaylist(p.segments, p.hlsVersion, p.isVod, p.isFinished);
  }

  lemma {:induction false} NoNames(segments: seq<PlaylistSegment>)
    ensures Cleanup.Filenames(segments) == [] <==> segments == []
  {
  }

  lemma {:induction false} AllPrinted(cfg: Config, of: seq<Packed>)
    requires Printed(of)
    ensures |AllAdded(cfg, of)| == |of| && Cleanup.ShownAll(AllAdded(cfg, of))
  {
    if of != [] {
      AllPrinted(cfg, of[..|of| - 1]);
    }
  }

  /** Following the playlist of the first `k` arrivals fetches those that are in the window. */
  lemma {:induction false} HoldsPlays(
    cfg: Config, objects: map<string, Body>, of: seq<Packed>, r: string, k: nat, window: seq<Packed>)
    requires Holds(cfg, objects, of, r, k) && k > 0 && Printed(of)
    requires window == of[Gone(WindowOf(cfg), k)..k]
    ensures RenditionPlayed(objects, cfg.stream, r) == AllPlayed(MediaOf(window))
  {
    var first, gone := of[..k], Gone(WindowOf(cfg), k);
    ListedNames(cfg, first, ListAfter(cfg, first));
    HeldStored(cfg, objects, of, r, k, gone, k);
    FetchedAre(objects, cfg.stream, r, gone, k - gone, of);
    ListPlays(objects, cfg.stream, r, ListAfter(cfg, first), FileNames(gone, k - gone), MediaOf(window));
  }

  lemma {:induction false} ListPlays(
    objects: map<string, Body>, stream: string, r: string, list: Cleanup.Published, names: seq<string>,
    segments: seq<MediaSegment.MediaParams>)
    requires MediaPlaylistPath(stream, r) in objects && objects[MediaPlaylistPath(stream, r)] == Playlist(list)
    requires names == Cleanup.SegmentNames(Cleanup.Lines(Cleanup.PublishedText(list)))
    requires Fetched(objects, stream + "/" + r, names) == Some(segments)
    ensures RenditionPlayed(objects, stream, r) == AllPlayed(segments)
  {
    var path := MediaPlaylistPath(stream, r);
    assert Cleanup.Parent(path) == stream + "/" + r by {
      assert '/' !in "media.m3u8";
      Cleanup.ParentOf(stream + "/" + r, "media.m3u8");
    }
    assert path in objects && objects[path] == Playlist(list);
  }

  // ----- From packets to the player -----

  /** The arrivals of one rendition. */
  function Own(arrivals: seq<Arrival>, r: string): seq<Arrival> {
    if arrivals == [] then []
    else
      var last := arrivals[|arrivals| - 1];
      Own(arrivals[..|arrivals| - 1], r) + (if last.rendition == r then [last] else [])
  }

  lemma {:induction false} OwnPacked(arrivals: seq<Arrival>, r: string)
    ensures Of(PackAll(arrivals), r) == PackAll(Own(arrivals, r))
  {
    if arrivals != [] {
      var before, a := arrivals[..|arrivals| - 1], arrivals[|arrivals| - 1];
      OwnPacked(before, r);
      OfGrows(PackAll(before), Pack(a), r);
      var own := Own(before, r);
      if a.rendition == r {
        assert (own + [a])[..|own|] == own;
      } else {
        assert own + [] == own;
      }
    }
  }

  /** The arrivals are what the segmenters of all renditions cut from their packets, in any interleaving, with printed
      forms that have no line break. */
  ghost predicate CutFrom(arrivals: seq<Arrival>, packets: map<string, seq<Segmenter.Packet>>, target: nat) {
    && (forall i :: 0 <= i < |arrivals| ==>
          && arrivals[i].rendition in packets
          && Cleanup.SingleLine(arrivals[i].shown) && Cleanup.SingleLine(arrivals[i].date))
    && forall r :: r in packets ==> Brings(Own(arrivals, r), Segmenter.Expected(packets[r], target))
  }

  lemma {:induction false} OwnOnly(arrivals: seq<Arrival>, r: string)
    requires forall i :: 0 <= i < |arrivals| ==> arrivals[i].rendition != r
    ensures Own(arrivals, r) == []
  {
    if arrivals != [] {
      OwnOnly(arrivals[..|arrivals| - 1], r);
    }
  }

  lemma {:induction false} OwnAt(arrivals: seq<Arrival>, r: string, i: nat)
    requires i < |Own(arrivals, r)|
    ensures var packed := Of(PackAll(arrivals), r);
      |packed| == |Own(arrivals, r)| && packed[i] == Pack(Own(arrivals, r)[i])
  {
    OwnPacked(arrivals, r);
    PackAllAt(Own(arrivals, r), i);
  }

  lemma {:induction false} CutInOrder(
    arrivals: seq<Arrival>, packets: map<string, seq<Segmenter.Packet>>, target: nat)
    requires CutFrom(arrivals, packets, target)
    ensures InOrder(PackAll(arrivals)) && Printed(PackAll(arrivals))
  {
    var past := PackAll(arrivals);
    PackAllLength(arrivals);
    forall i | 0 <= i < |past|
      ensures Cleanup.SingleLine(past[i].shown) && Cleanup.SingleLine(past[i].date)
    {
      PackAllAt(arrivals, i);
    }
    forall r, i | 0 <= i < |Of(past, r)|
      ensures Of(past, r)[i].sequence == i
    {
      CutNumbered(arrivals, packets, target, r, i);
    }
    NumberedInOrder(past);
  }

  lemma {:induction false} CutNumbered(
    arrivals: seq<Arrival>, packets: map<string, seq<Segmenter.Packet>>, target: nat, r: string, i: nat)
    requires CutFrom(arrivals, packets, target) && i < |Of(PackAll(arrivals), r)|
    ensures Of(PackAll(arrivals), r)[i].sequence == i
  {
    OwnPacked(arrivals, r);
    PackAllLength(Own(arrivals, r));
    OwnAt(arrivals, r, i);
    if r !in packets {
      OwnOnly(arrivals, r);
    }
    Segmenter.NumberedAndTerminated(packets[r], target);
  }

  lemma {:induction false} OfPrinted(past: seq<Packed>, r: string)
    requires Printed(past)
    ensures Printed(Of(past, r))
  {
    if past != [] {
      OfPrinted(past[..|past| - 1], r);
    }
  }

  /** At every point of every run of the packaging task, wherever its channel closes, a player that follows the
      playlist of a rendition gets the video of its first `k` segments, less what has left the window, or nothing as
      long as there is no playlist. At the end of a run that nobody cut short, `k` is all of them. */
  lemma {:induction false} PlayedAtAnyTime(
    cfg: Config, arrivals: seq<Arrival>, packets: map<string, seq<Segmenter.Packet>>, target: nat, r: string,
    log: seq<Output>)
    returns (k: nat)
    requires CutFrom(arrivals, packets, target) && r in packets && log <= FullLog(cfg, PackAll(arrivals))
    ensures var segments := Segmenter.Expected(packets[r], target);
      && k <= |segments|
      && RenditionPlayed(Objects(log), cfg.stream, r) ==
           (if k == 0 then None else Some(Segmenter.Contents(segments[Gone(WindowOf(cfg), k)..k], false)))
      && (log == FullLog(cfg, PackAll(arrivals)) ==> k == |segments|)
  {
    var past, segments := PackAll(arrivals), Segmenter.Expected(packets[r], target);
    var of := Of(past, r);
    CutInOrder(arrivals, packets, target);
    OfPrinted(past, r);
    OwnPacked(arrivals, r);
    PackAllLength(Own(arrivals, r));
    k := RunHolds(cfg, past, r, log);
    if k > 0 {
      var gone := Gone(WindowOf(cfg), k);
      WindowPlays(Own(arrivals, r), of, segments, gone, k);
      HoldsPlays(cfg, Objects(log), of, r, k, of[gone..k]);
    }
  }

  /** Of an upload, every byte of video that was pushed into a rendition's segmenter reaches the player, in order and
      once, through cutting, packaging, the playlist and parsing, as soon as the task has put out everything. */
  lemma {:induction false} VideoReachesPlayer(
    cfg: Config, arrivals: seq<Arrival>, packets: map<string, seq<Segmenter.Packet>>, target: nat, r: string,
    room: nat)
    requires cfg.isVod && CutFrom(arrivals, packets, target) && r in packets
    requires Writes(FullLog(cfg, PackAll(arrivals))) <= room
    ensures RenditionPlayed(Objects(Cut(FullLog(cfg, PackAll(arrivals)), room)), cfg.stream, r) ==
      if Segmenter.Expected(packets[r], target) == [] then None else Some(Segmenter.Video(packets[r]))
  {
    var full, segments := FullLog(cfg, PackAll(arrivals)), Segmenter.Expected(packets[r], target);
    CutAll(full, room);
    var k := PlayedAtAnyTime(cfg, arrivals, packets, target, r, full);
    assert segments[0..|segments|] == segments;
    Segmenter.MediaConserved(packets[r], target);
  }
}
