/** From an arrival to the player: the init segment that a player finds through a rendition's playlist, and what it
    reads there. */
module InitPlayback {
  import opened Bytes
  import opened Playlist
  import opened Packager
  import opened PackagerSafety
  import opened Playback
  import AacConfig
  import AnnexB
  import AvcConfig
  import BoxTree
  import Cleanup
  import Fmp4
  import InitReader
  import PlaylistReader
  import StartCodes

  /** A quoted string without its quotes. */
  function Unquoted(s: string): Option<string> {
    if |s| < 2 || s[0] != '"' || s[|s| - 1] != '"' then None else Some(s[1..|s| - 1])
  }

  /** What a player learns of a rendition: it takes the name of the init segment from the text of the playlist, fetches
      that object from beside the playlist, and reads it. */
  function MoviePlayed(objects: map<string, Body>, stream: string, r: string): Option<InitReader.Movie> {
    var path := MediaPlaylistPath(stream, r);
    if path !in objects || !objects[path].Playlist? then None
    else
      var text := Cleanup.PublishedText(objects[path].list);
      var value := PlaylistReader.FirstValue(Cleanup.Lines(text), "#EXT-X-MAP:URI=");
      var name := if value.None? then None else Unquoted(value.value);
      if name.None? then None else MovieStored(objects, Cleanup.Parent(path) + "/" + name.value)
  }

  function MovieStored(objects: map<string, Body>, key: string): Option<InitReader.Movie> {
    if key !in objects || !objects[key].Init? then None
    else InitReader.ReadInit(BoxTree.WriteAll(Fmp4.InitTree(objects[key].init)))
  }

  // ----- Which init segment is stored -----

  /** Whatever is written under the path is this body, and without one nothing is. */
  ghost predicate Only(log: seq<Output>, path: string, body: Option<Body>) {
    forall i :: 0 <= i < |log| && log[i].Sent? && log[i].path == path ==> body == Some(log[i].body)
  }

  lemma {:induction false} OnlyBoth(a: seq<Output>, b: seq<Output>, path: string, body: Option<Body>)
    requires Only(a, path, body) && Only(b, path, body)
    ensures Only(a + b, path, body)
  {
  }

  lemma {:induction false} OnlyOne(o: Output, path: string, body: Option<Body>)
    requires o.Sent? && o.path == path ==> body == Some(o.body)
    ensures Only([o], path, body)
  {
  }

  lemma {:induction false} OnlyBefore(log: seq<Output>, full: seq<Output>, path: string, body: Option<Body>)
    requires log <= full && Only(full, path, body)
    ensures Only(log, path, body)
  {
  }

  lemma {:induction false} NothingSent(log: seq<Output>, path: string, body: Option<Body>)
    requires forall i :: 0 <= i < |log| ==> !log[i].Sent?
    ensures Only(log, path, body)
  {
  }

  /** An arrival puts out nothing else under the path if none of its four writes does. */
  lemma {:induction false} OnlyInBlock(cfg: Config, past: seq<Packed>, p: Packed, path: string, body: Option<Body>)
    requires path == InitSegmentPath(cfg.stream, p.rendition) && p.rendition !in Renditions(past) ==>
      body == Some(Init(p.init))
    requires path == SegmentPath(cfg.stream, p.rendition, p.sequence) ==> body == Some(Media(p.media))
    requires path != MasterPlaylistPath(cfg.stream) && path != MediaPlaylistPath(cfg.stream, p.rendition)
    ensures Only(Block(cfg, past, p), path, body)
  {
    var init, master := InitWrite(cfg, p), MasterWrite(cfg, Renditions(past) + [p.rendition]);
    var seg, list := SegmentWrite(cfg, p), PlaylistWrite(cfg, p, WindowAfter(cfg, past + [p], p.rendition));
    if p.rendition !in Renditions(past) {
      TwoOnly(init, master, path, body);
    }
    TwoOnly(seg, list, path, body);
    NothingSent(Closing(p), path, body);
    OnlyBoth([seg, list], Closing(p), path, body);
    OnlyBoth(Opening(cfg, past, p), Publication(cfg, past, p), path, body);
  }

  lemma {:induction false} TwoOnly(a: Output, b: Output, path: string, body: Option<Body>)
    requires a.Sent? && a.path == path ==> body == Some(a.body)
    requires b.Sent? && b.path == path ==> body == Some(b.body)
    ensures Only([a, b], path, body)
  {
    OnlyOne(a, path, body);
    OnlyOne(b, path, body);
    OnlyBoth([a], [b], path, body);
    assert [a] + [b] == [a, b];
  }

  /** The final master playlist is under another path. */
  lemma {:induction false} OnlyInLog(
    cfg: Config, past: seq<Packed>, log: seq<Output>, path: string, body: Option<Body>)
    requires log <= FullLog(cfg, past) && Only(Blocks(cfg, past), path, body) && path != MasterPlaylistPath(cfg.stream)
    ensures Only(log, path, body)
  {
    var b := Blocks(cfg, past);
    var last := if past == [] then [] else [MasterWrite(cfg, Renditions(past))];
    if past != [] {
      OnlyOne(last[0], path, body);
    }
    OnlyBoth(b, last, path, body);
    OnlyBefore(log, b + last, path, body);
  }

  function FirstInit(of: seq<Packed>): Option<Body> {
    if of == [] then None else Some(Init(of[0].init))
  }

  lemma {:induction false} BlockInit(cfg: Config, past: seq<Packed>, p: Packed, r: string)
    ensures Only(Block(cfg, past, p), InitSegmentPath(cfg.stream, r), FirstInit(Of(past + [p], r)))
  {
    var path := InitSegmentPath(cfg.stream, r);
    PlaylistsApart(cfg.stream, r, 0, p.rendition);
    SegmentAndInit(cfg.stream, p.rendition, p.sequence, r);
    OfGrows(past, p, r);
    if path == InitSegmentPath(cfg.stream, p.rendition) && p.rendition !in Renditions(past) {
      InitPathsDiffer(cfg.stream, r, p.rendition);
      OfNothing(past, r);
    }
    OnlyInBlock(cfg, past, p, path, FirstInit(Of(past + [p], r)));
  }

  lemma {:induction false} OnlyGrows(
    b: seq<Output>, block: seq<Output>, path: string, before: Option<Body>, after: Option<Body>)
    requires Only(b, path, before) && Only(block, path, after) && (before.Some? ==> after == before)
    ensures Only(b + block, path, after)
  {
    assert Only(b, path, after);
    OnlyBoth(b, block, path, after);
  }

  lemma {:induction false} BlocksInit(cfg: Config, past: seq<Packed>, r: string)
    ensures Only(Blocks(cfg, past), InitSegmentPath(cfg.stream, r), FirstInit(Of(past, r)))
  {
    if past != [] {
      var before, p := past[..|past| - 1], past[|past| - 1];
      LastArrival(past, before, p);
      BlocksInit(cfg, before, r);
      OfGrows(before, p, r);
      BlockInit(cfg, before, p, r);
      OnlyGrows(Blocks(cfg, before), Block(cfg, before, p), InitSegmentPath(cfg.stream, r),
                FirstInit(Of(before, r)), FirstInit(Of(past, r)));
    }
  }

  /** What is stored under a path was written there. */
  lemma {:induction false} StoredSent(log: seq<Output>, path: string) returns (i: nat)
    requires path in Objects(log)
    ensures i < |log| && log[i].Sent? && log[i].path == path && log[i].body == Objects(log)[path]
  {
    i := |log| - 1;
    if !(log[i].Sent? && log[i].path == path) {
      i := StoredSent(log[..i], path);
    }
  }

  lemma {:induction false} InitStored(cfg: Config, past: seq<Packed>, r: string, log: seq<Output>)
    requires log <= FullLog(cfg, past) && InitSegmentPath(cfg.stream, r) in Objects(log)
    ensures Of(past, r) != [] && Objects(log)[InitSegmentPath(cfg.stream, r)] == Init(Of(past, r)[0].init)
  {
    var path := InitSegmentPath(cfg.stream, r);
    BlocksInit(cfg, past, r);
    PlaylistsApart(cfg.stream, r, 0, r);
    OnlyInLog(cfg, past, log, path, FirstInit(Of(past, r)));
    var i := StoredSent(log, path);
  }

  lemma {:induction false} FullSafe(cfg: Config, past: seq<Packed>, full: seq<Output>)
    requires InOrder(past) && Printed(past) && full == FullLog(cfg, past)
    ensures Safe(cfg, full)
  {
    var room := Writes(full);
    assert Cut(full, room) == full by {
      CutAll(full, room);
    }
    RunSafe(cfg, past, room);
  }

  lemma {:induction false} SafeBefore(cfg: Config, full: seq<Output>, log: seq<Output>)
    requires Safe(cfg, full) && log <= full
    ensures Safe(cfg, log)
  {
    SafePrefix(cfg, full, |log|);
    assert full[..|log|] == log;
  }

  /** A rendition with a stored segment has its init segment stored. */
  lemma {:induction false} InitBeside(cfg: Config, log: seq<Output>, r: string, n: nat)
    requires Safe(cfg, log) && SegmentPath(cfg.stream, r, n) in Objects(log)
    requires Objects(log)[SegmentPath(cfg.stream, r, n)].Media?
    ensures InitSegmentPath(cfg.stream, r) in Objects(log)
  {
    var i := StoredSent(log, SegmentPath(cfg.stream, r, n));
    assert SafeAfter(cfg, log[..i], log[i]);
    var r1, n1 :| SegmentPath(cfg.stream, r, n) == SegmentPath(cfg.stream, r1, n1)
               && HasSent(log[..i], InitSegmentPath(cfg.stream, r1));
    Cleanup.SegmentPathsDiffer(cfg.stream, r, n, r1, n1);
    PrefixSends(log, i, InitSegmentPath(cfg.stream, r));
    ObjectsHave(log, InitSegmentPath(cfg.stream, r));
  }

  // ----- What the player finds -----

  lemma {:induction false} MovieFrom(objects: map<string, Body>, stream: string, r: string, list: Cleanup.Published)
    requires MediaPlaylistPath(stream, r) in objects && objects[MediaPlaylistPath(stream, r)] == Playlist(list)
    requires Cleanup.AllPrintable(list.segments)
    ensures MoviePlayed(objects, stream, r) == MovieStored(objects, InitSegmentPath(stream, r))
  {
    var path, value := MediaPlaylistPath(stream, r), "\"init.mp4\"";
    PlaylistReader.MapRead(list);
    assert Unquoted(value) == Some("init.mp4") by {
      assert value[1..|value| - 1] == "init.mp4";
    }
    assert Cleanup.Parent(path) == stream + "/" + r by {
      assert '/' !in "media.m3u8";
      Cleanup.ParentOf(stream + "/" + r, "media.m3u8");
    }
    assert stream + "/" + r + "/" + "init.mp4" == InitSegmentPath(stream, r);
  }

  lemma {:induction false} ListHeld(cfg: Config, of: seq<Packed>, k: nat, list: Cleanup.Published)
    requires Printed(of) && 0 < k <= |of| && list == ListAfter(cfg, of[..k])
    ensures Cleanup.AllPrintable(list.segments)
  {
    FirstPrinted(of, k);
    ListedSegments(cfg, of[..k], list);
  }

  lemma {:induction false} InitHeld(cfg: Config, past: seq<Packed>, r: string, log: seq<Output>, of: seq<Packed>)
    requires InOrder(past) && Printed(past) && log <= FullLog(cfg, past) && of == Of(past, r) && of != []
    requires SegmentPath(cfg.stream, r, 0) in Objects(log)
    requires Objects(log)[SegmentPath(cfg.stream, r, 0)] == Media(of[0].media)
    ensures InitSegmentPath(cfg.stream, r) in Objects(log)
    ensures Objects(log)[InitSegmentPath(cfg.stream, r)] == Init(of[0].init)
  {
    var full := FullLog(cfg, past);
    assert Safe(cfg, log) by {
      FullSafe(cfg, past, full);
      SafeBefore(cfg, full, log);
    }
    InitBeside(cfg, log, r, 0);
    InitStored(cfg, past, r, log);
  }

  lemma {:induction false} FirstPrinted(of: seq<Packed>, k: nat)
    requires Printed(of) && k <= |of|
    ensures Printed(of[..k])
  {
  }

  lemma {:induction false} FirstHeld(cfg: Config, past: seq<Packed>, r: string, log: seq<Output>, of: seq<Packed>)
    requires InOrder(past) && Printed(past) && log <= FullLog(cfg, past) && of == Of(past, r)
    ensures MediaPlaylistPath(cfg.stream, r) in Objects(log) ==>
      of != [] && MoviePlayed(Objects(log), cfg.stream, r)
                    == InitReader.ReadInit(BoxTree.WriteAll(Fmp4.InitTree(of[0].init)))
  {
    var k := RunHolds(cfg, past, r, log);
    if k > 0 {
      var list := ListAfter(cfg, of[..k]);
      assert Cleanup.AllPrintable(list.segments) by {
        OfPrinted(past, r);
        ListHeld(cfg, of, k, list);
      }
      FirstMovie(cfg, past, r, log, of, k, list);
    }
  }

  lemma {:induction false} FirstMovie(
    cfg: Config, past: seq<Packed>, r: string, log: seq<Output>, of: seq<Packed>, k: nat, list: Cleanup.Published)
    requires InOrder(past) && Printed(past) && log <= FullLog(cfg, past) && of == Of(past, r)
    requires Holds(cfg, Objects(log), of, r, k) && 0 < k && list == ListAfter(cfg, of[..k])
    requires Cleanup.AllPrintable(list.segments)
    ensures MoviePlayed(Objects(log), cfg.stream, r)
         == InitReader.ReadInit(BoxTree.WriteAll(Fmp4.InitTree(of[0].init)))
  {
    InitHeld(cfg, past, r, log, of);
    MovieFrom(Objects(log), cfg.stream, r, list);
  }

  /** At every point of every run, a player that follows a rendition's playlist reads the init segment generated for
      the rendition's first arrival, or finds no playlist. */
  lemma {:induction false} FirstArrivalPlayed(cfg: Config, arrivals: seq<Arrival>, r: string, log: seq<Output>)
    requires InOrder(PackAll(arrivals)) && Printed(PackAll(arrivals)) && log <= FullLog(cfg, PackAll(arrivals))
    ensures MediaPlaylistPath(cfg.stream, r) !in Objects(log) ==> MoviePlayed(Objects(log), cfg.stream, r).None?
    ensures MediaPlaylistPath(cfg.stream, r) in Objects(log) ==>
      && Own(arrivals, r) != []
      && MoviePlayed(Objects(log), cfg.stream, r)
           == InitReader.ReadInit(BoxTree.WriteAll(Fmp4.InitTree(InitParamsOf(Own(arrivals, r)[0]))))
  {
    var past := PackAll(arrivals);
    FirstHeld(cfg, past, r, log, Of(past, r));
    OwnPacked(arrivals, r);
    if Own(arrivals, r) != [] {
      OwnAt(arrivals, r, 0);
    }
  }

  // ----- What it reads -----

  /** What an arrival with these parameter sets is about, field by field: the video track with the arrival's picture
      size, in 90 kHz, for the decoder with profile, compatibility and level of the SPS; and if the arrival has audio, a
      second track. */
  function Announced(a: Arrival, sps: seq<byte>, pps: seq<byte>): InitReader.Movie {
    var hasAudio := a.segment.audio.Some?;
    var profile, compatibility := if |sps| > 1 then sps[1] else 100, if |sps| > 2 then sps[2] else 0;
    var record := AvcConfig.Record(profile, compatibility, if |sps| > 3 then sps[3] else 41, 4, [sps], [pps]);
    InitReader.Movie(
      90000,
      [InitReader.Video(1, a.width, a.height, 90000, a.width, a.height, record)] +
      (if hasAudio then [InitReader.Audio(2, 48000, 2, 48000, Some(AacConfig.SpecificConfig(a.sampleRate, a.channels)))]
       else []),
      if hasAudio then [1, 2] else [1])
  }

  /** The parameter sets are the first units of their types, or fixed ones if all of the video are these units and one
      type is missing. */
  ghost predicate Chosen(units: seq<AnnexB.Unit>, rest: seq<byte>, sps: seq<byte>, pps: seq<byte>) {
    || (exists i: nat, j: nat ::
          (StartCodes.FirstIs(units, i, 7) && StartCodes.FirstIs(units, j, 8) && sps == units[i] && pps == units[j]))
    || (rest == [] && (Lacks(units, 7) || Lacks(units, 8))
        && sps == [0x67, 0x42, 0x00, 0x1E] && pps == [0x68, 0xCE, 0x38, 0x80])
  }

  predicate Lacks(units: seq<AnnexB.Unit>, nalType: int) {
    forall i :: 0 <= i < |units| ==> units[i] == [] || units[i][0] % 0x20 != nalType
  }

  lemma {:induction false} FirstInFront(units: seq<AnnexB.Unit>, more: seq<AnnexB.Unit>, i: nat, nalType: int)
    requires StartCodes.FirstIs(units, i, nalType)
    ensures AnnexB.FirstOfType(units + more, nalType) == Some(units[i])
  {
    StartCodes.FirstOfTypeIs(units + more, nalType);
    assert StartCodes.FirstIs(units + more, i, nalType);
  }

  lemma {:induction false} ChosenFound(
    a: Arrival, units: seq<AnnexB.Unit>, rest: seq<byte>, sps: seq<byte>, pps: seq<byte>)
    requires AnnexB.Scan(a.segment.video) == units + AnnexB.Scan(rest) && Chosen(units, rest, sps, pps)
    ensures InitParamsOf(a).sps == sps && InitParamsOf(a).pps == pps
  {
    var more := AnnexB.Scan(rest);
    if i: nat, j: nat :| StartCodes.FirstIs(units, i, 7) && StartCodes.FirstIs(units, j, 8)
                         && sps == units[i] && pps == units[j] {
      FirstInFront(units, more, i, 7);
      FirstInFront(units, more, j, 8);
    } else {
      assert units + more == units;
      StartCodes.FirstOfTypeIs(units, 7);
      StartCodes.FirstOfTypeIs(units, 8);
    }
  }

  predicate Fits(a: Arrival, sps: seq<byte>, pps: seq<byte>) {
    a.width < 0x1_0000 && a.height < 0x1_0000 && |sps| < 0x1_0000 && |pps| < 0x1_0000
  }

  lemma {:induction false} AnnouncedRead(a: Arrival, sps: seq<byte>, pps: seq<byte>)
    requires InitParamsOf(a).sps == sps && InitParamsOf(a).pps == pps
    ensures var p := InitParamsOf(a);
      && (Fits(a, sps, pps) ==>
            InitReader.ReadInit(BoxTree.WriteAll(Fmp4.InitTree(p))) == Some(Announced(a, sps, pps)))
      && (|BoxTree.Write(Fmp4.Moov(p))| < TWO_TO_32 && !Fits(a, sps, pps) ==>
            InitReader.ReadInit(BoxTree.WriteAll(Fmp4.InitTree(p))) != Some(Announced(a, sps, pps)))
  {
    var p := InitParamsOf(a);
    InitReader.InitReadsBack(p);
    assert InitReader.MovieOf(p) == Announced(a, sps, pps);
  }

  /** At every point of every run, a player that finds a rendition's playlist reads what the rendition's first arrival
      is about: its picture size, the first SPS and the first PPS of its video, whatever start codes separate the units,
      and an audio track iff it has audio; exactly if sizes and lengths fit 16 bits. */
  lemma {:induction false} InitReachesPlayer(
    cfg: Config, arrivals: seq<Arrival>, r: string, log: seq<Output>, a: Arrival, cs: seq<StartCodes.Coded>,
    rest: seq<byte>, sps: seq<byte>, pps: seq<byte>)
    requires InOrder(PackAll(arrivals)) && Printed(PackAll(arrivals)) && log <= FullLog(cfg, PackAll(arrivals))
    requires MediaPlaylistPath(cfg.stream, r) in Objects(log)
    requires Own(arrivals, r) != [] ==> Own(arrivals, r)[0] == a
    requires a.segment.video == StartCodes.MixedStream(cs) + rest && StartCodes.Separable(cs) && AnnexB.Boundary(rest)
    requires Chosen(StartCodes.UnitsOf(cs), rest, sps, pps)
    ensures Fits(a, sps, pps) ==> MoviePlayed(Objects(log), cfg.stream, r) == Some(Announced(a, sps, pps))
    ensures |BoxTree.Write(Fmp4.Moov(InitParamsOf(a)))| < TWO_TO_32 && !Fits(a, sps, pps) ==>
      MoviePlayed(Objects(log), cfg.stream, r) != Some(Announced(a, sps, pps))
  {
    StartCodes.ScanInvertsMixed(cs, rest);
    ChosenFound(a, StartCodes.UnitsOf(cs), rest, sps, pps);
    AnnouncedRead(a, sps, pps);
    FirstArrivalPlayed(cfg, arrivals, r, log);
  }

  /** The audio track it reads about has the arrival's sampling rate and channels, exactly if the configuration can say
      them. */
  lemma {:induction false} AudioAnnounced(a: Arrival, sps: seq<byte>, pps: seq<byte>)
    requires a.segment.audio.Some?
    ensures var tracks := Announced(a, sps, pps).tracks;
      && |tracks| == 2 && tracks[1].Audio? && tracks[1].config.Some?
      && (AacConfig.ReadConfig(tracks[1].config.value) == Some(AacConfig.Config(2, a.sampleRate, a.channels)) <==>
            a.sampleRate in AacConfig.RATES && a.sampleRate != 7350 && (1 <= a.channels <= 6 || a.channels == 8))
  {
    AacConfig.ConfigReadsBack(a.sampleRate, a.channels);
  }
}
