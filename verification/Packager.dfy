/** The packaging task of a stream: segments of its renditions in, stored objects and events out
    (`src/package/runner.rs`). */
module Packager {
  import opened Bytes
  import opened Playlist
  import opened SegmentIndexes
  import AacConfig
  import AnnexB
  import BoxTree
  import Cleanup
  import Fmp4
  import MediaSegment
  import Segmenter

  /** `liveWindow` is ignored for a recorded upload, whose window is unlimited. */
  datatype Config = Config(stream: string, liveWindow: nat, hlsVersion: nat, isVod: bool)

  function WindowOf(cfg: Config): Option<nat> {
    if cfg.isVod then None else Some(cfg.liveWindow)
  }

  /** A segment as it arrives, with the printed forms of its duration and of the time of its arrival. */
  datatype Arrival = Arrival(
    rendition: string, segment: Segmenter.Segment, width: nat, height: nat, sampleRate: nat, channels: nat,
    shown: string, date: string)

  /** What the task makes of an arrival: what to build an init segment and a media segment from, and what to enter
      into the index. */
  datatype Packed = Packed(
    rendition: string, sequence: nat, isLast: bool, init: Fmp4.InitParams, media: MediaSegment.MediaParams,
    ticks: int, shown: string, date: string)

  /** The content of a stored object: what a segment or a media playlist is generated from, or the renditions that a
      master playlist lists. */
  datatype Body =
    | Init(init: Fmp4.InitParams)
    | Media(media: MediaSegment.MediaParams)
    | Playlist(list: Cleanup.Published)
    | Master(renditions: seq<string>)

  /** What goes over the storage channel. */
  datatype Payload = Bytes(data: seq<byte>) | Text(text: string)

  /** The payload is the content; the text of master playlists is left open. */
  predicate Encodes(payload: Payload, body: Body) {
    match body
    case Init(p) => payload == Bytes(BoxTree.WriteAll(Fmp4.InitTree(p)))
    case Media(p) => payload == Bytes(BoxTree.WriteAll(MediaSegment.MediaTree(p)))
    case Playlist(list) => payload == Text(Cleanup.PublishedText(list))
    case Master(_) => true
  }

  datatype Output =
    | Sent(path: string, body: Body)
    | Produced(rendition: string, sequence: nat)
    | Complete(rendition: string)

  // ----- Packing one arrival -----

  const FALLBACK_SPS: seq<byte> := [0x67, 0x42, 0x00, 0x1E]
  const FALLBACK_PPS: seq<byte> := [0x68, 0xCE, 0x38, 0x80]

  function InitParamsOf(a: Arrival): Fmp4.InitParams {
    var found := AnnexB.ParameterSets(AnnexB.Scan(a.segment.video));
    var (sps, pps) := if found.Some? then found.value else (FALLBACK_SPS, FALLBACK_PPS);
    var hasAudio := a.segment.audio.Some?;
    var config := if hasAudio then Some(AacConfig.SpecificConfig(a.sampleRate, a.channels)) else None;
    Fmp4.InitParams(a.width, a.height, 90000, 48000, sps, pps, config, hasAudio)
  }

  /** A cast of a number to 32 bits, saturating as casts of floating point numbers do. */
  function Saturated32(v: int): nat {
    if v < 0 then 0 else if v > 0xFFFF_FFFF then 0xFFFF_FFFF else v
  }

  function MediaParamsOf(a: Arrival): MediaSegment.MediaParams {
    var flags := if a.segment.sequence == 0 then 0x0200_0000 else 0x0101_0000;
    var sample := MediaSegment.Sample(Saturated32(a.segment.duration), Wrap32(|a.segment.video|), flags, 0);
    MediaSegment.MediaParams(a.segment.sequence, a.segment.ptsStart, [sample], a.segment.video, 1)
  }

  method FindInitParams(a: Arrival) returns (p: Fmp4.InitParams)
    ensures p == InitParamsOf(a)
  {
    var found := AnnexB.ExtractAvcParameterSets(a.segment.video);
    var sps, pps := FALLBACK_SPS, FALLBACK_PPS;
    if found.Some? {
      sps, pps := found.value.0, found.value.1;
    }
    var hasAudio := a.segment.audio.Some?;
    var config := if hasAudio then Some(AacConfig.SpecificConfig(a.sampleRate, a.channels)) else None;
    p := Fmp4.InitParams(a.width, a.height, 90000, 48000, sps, pps, config, hasAudio);
  }

  function Pack(a: Arrival): Packed {
    Packed(a.rendition, a.segment.sequence, a.segment.isLast, InitParamsOf(a), MediaParamsOf(a),
           a.segment.duration, a.shown, a.date)
  }

  function PackAll(arrivals: seq<Arrival>): seq<Packed> {
    if arrivals == [] then [] else PackAll(arrivals[..|arrivals| - 1]) + [Pack(arrivals[|arrivals| - 1])]
  }

  // ----- The full output, as a function of what has arrived -----

  /** The arrivals of one rendition. */
  function Of(past: seq<Packed>, r: string): seq<Packed> {
    if past == [] then []
    else
      var last := past[|past| - 1];
      Of(past[..|past| - 1], r) + (if last.rendition == r then [last] else [])
  }

  /** The renditions in the order of their first arrivals. */
  function Renditions(past: seq<Packed>): seq<string> {
    if past == [] then []
    else
      var before, r := Renditions(past[..|past| - 1]), past[|past| - 1].rendition;
      if r in before then before else before + [r]
  }

  function AddedOf(cfg: Config, p: Packed): Added {
    Added(p.ticks, p.shown, SegmentPath(cfg.stream, p.rendition, p.sequence), p.date)
  }

  function AllAdded(cfg: Config, ps: seq<Packed>): seq<Added> {
    if ps == [] then [] else AllAdded(cfg, ps[..|ps| - 1]) + [AddedOf(cfg, ps[|ps| - 1])]
  }

  function WindowAfter(cfg: Config, past: seq<Packed>, r: string): Window {
    Run(WindowOf(cfg), AllAdded(cfg, Of(past, r)))
  }

  function PublishedOf(cfg: Config, w: Window, isFinished: bool): Cleanup.Published {
    Cleanup.Published(PlaylistSegmentsOf(w.entries), cfg.hlsVersion, cfg.isVod, isFinished)
  }

  function MasterWrite(cfg: Config, renditions: seq<string>): Output {
    Sent(MasterPlaylistPath(cfg.stream), Master(renditions))
  }

  function InitWrite(cfg: Config, p: Packed): Output {
    Sent(InitSegmentPath(cfg.stream, p.rendition), Init(p.init))
  }

  function SegmentWrite(cfg: Config, p: Packed): Output {
    Sent(SegmentPath(cfg.stream, p.rendition, p.sequence), Media(p.media))
  }

  function PlaylistWrite(cfg: Config, p: Packed, w: Window): Output {
    Sent(MediaPlaylistPath(cfg.stream, p.rendition), Playlist(PublishedOf(cfg, w, p.isLast)))
  }

  /** The first arrival of a rendition publishes its init segment and a new master playlist. */
  function Opening(cfg: Config, past: seq<Packed>, p: Packed): seq<Output> {
    if p.rendition in Renditions(past) then []
    else [InitWrite(cfg, p), MasterWrite(cfg, Renditions(past) + [p.rendition])]
  }

  function Closing(p: Packed): seq<Output> {
    [Produced(p.rendition, p.sequence)] + (if p.isLast then [Complete(p.rendition)] else [])
  }

  function Publication(cfg: Config, past: seq<Packed>, p: Packed): seq<Output> {
    [SegmentWrite(cfg, p), PlaylistWrite(cfg, p, WindowAfter(cfg, past + [p], p.rendition))] + Closing(p)
  }

  function Block(cfg: Config, past: seq<Packed>, p: Packed): seq<Output> {
    Opening(cfg, past, p) + Publication(cfg, past, p)
  }

  function Blocks(cfg: Config, past: seq<Packed>): seq<Output> {
    if past == [] then []
    else Blocks(cfg, past[..|past| - 1]) + Block(cfg, past[..|past| - 1], past[|past| - 1])
  }

  /** Everything the task puts out if nobody closes its channel. */
  function FullLog(cfg: Config, past: seq<Packed>): seq<Output> {
    Blocks(cfg, past) + (if past == [] then [] else [MasterWrite(cfg, Renditions(past))])
  }

  /** A log up to the first write that a channel with room for `room` writes refuses. */
  function Cut(log: seq<Output>, room: nat): seq<Output> {
    if log == [] then []
    else if !log[0].Sent? then [log[0]] + Cut(log[1..], room)
    else if room == 0 then []
    else [log[0]] + Cut(log[1..], room - 1)
  }

  function Writes(log: seq<Output>): nat {
    if log == [] then 0 else (if log[0].Sent? then 1 else 0) + Writes(log[1..])
  }

  lemma {:induction false} WritesAppend(a: seq<Output>, b: seq<Output>)
    ensures Writes(a + b) == Writes(a) + Writes(b)
  {
    if a == [] {
      assert a + b == b;
    } else {
      WritesAppend(a[1..], b);
      assert (a + b)[1..] == a[1..] + b;
    }
  }

  /** A refused write cuts the log there. */
  lemma {:induction false} CutAt(log: seq<Output>, k: nat, room: nat)
    requires k <= |log| && Writes(log[..k]) == room && (k < |log| ==> log[k].Sent?)
    ensures Cut(log, room) == log[..k]
  {
    if k == 0 {
    } else {
      var room' := if log[0].Sent? then room - 1 else room;
      assert log[..k][1..] == log[1..][..k - 1];
      assert Writes(log[..k]) == (if log[0].Sent? then 1 else 0) + Writes(log[1..][..k - 1]);
      CutAt(log[1..], k - 1, room');
      assert log[..k] == [log[0]] + log[1..][..k - 1];
    }
  }

  lemma {:induction false} CutAll(log: seq<Output>, room: nat)
    requires Writes(log) <= room
    ensures Cut(log, room) == log
  {
    if log != [] {
      CutAll(log[1..], if log[0].Sent? then room - 1 else room);
    }
  }

  // ----- The task -----

  /** The task's local variables. */
  datatype Local = Local(indexes: map<string, Window>, infos: seq<string>, inits: set<string>, masterCount: nat)

  function IndexOr(indexes: map<string, Window>, r: string): Window {
    if r in indexes then indexes[r] else Window([], 0)
  }

  function LocalStep(cfg: Config, l: Local, p: Packed): Local {
    var w := AddedTo(IndexOr(l.indexes, p.rendition), WindowOf(cfg), AddedOf(cfg, p));
    var indexes := l.indexes[p.rendition := w];
    if p.rendition in l.inits then l.(indexes := indexes)
    else Local(indexes, l.infos + [p.rendition], l.inits + {p.rendition}, |l.infos| + 1)
  }

  function LocalAfter(cfg: Config, past: seq<Packed>): Local {
    if past == [] then Local(map[], [], {}, 0)
    else LocalStep(cfg, LocalAfter(cfg, past[..|past| - 1]), past[|past| - 1])
  }

  lemma {:induction false} OfNothing(past: seq<Packed>, r: string)
    requires r !in Renditions(past)
    ensures Of(past, r) == []
  {
    if past != [] {
      OfNothing(past[..|past| - 1], r);
    }
  }

  lemma {:induction false} OfGrows(past: seq<Packed>, p: Packed, r: string)
    ensures Of(past + [p], r) == Of(past, r) + (if p.rendition == r then [p] else [])
  {
    assert (past + [p])[..|past|] == past;
  }

  lemma {:induction false} WindowGrows(cfg: Config, past: seq<Packed>, p: Packed, r: string)
    ensures WindowAfter(cfg, past + [p], r) ==
      if p.rendition == r then AddedTo(WindowAfter(cfg, past, r), WindowOf(cfg), AddedOf(cfg, p))
      else WindowAfter(cfg, past, r)
  {
    OfGrows(past, p, r);
    var of := Of(past, r);
    if p.rendition == r {
      assert (of + [p])[..|of|] == of;
      var all := AllAdded(cfg, of);
      assert (all + [AddedOf(cfg, p)])[..|all|] == all;
    } else {
      assert of + [] == of;
    }
  }

  /** The local variables follow the history: one index, info and init mark for every rendition that has arrived. */
  lemma {:induction false} LocalsAre(cfg: Config, past: seq<Packed>, r: string)
    ensures var l := LocalAfter(cfg, past);
      && (r in l.inits <==> r in Renditions(past))
      && l.infos == Renditions(past) && l.masterCount == |l.infos|
      && IndexOr(l.indexes, r) == WindowAfter(cfg, past, r)
  {
    if past != [] {
      var before, p := past[..|past| - 1], past[|past| - 1];
      assert before + [p] == past;
      LocalsAre(cfg, before, r);
      LocalsAre(cfg, before, p.rendition);
      WindowGrows(cfg, before, p, r);
    }
  }

  /** The task is still running: it has put out a first part of `full`, and that many writes were accepted. */
  ghost predicate Running(full: seq<Output>, total: nat, room: nat, log: seq<Output>) {
    log <= full && room + Writes(log) == total
  }

  ghost predicate Refused(full: seq<Output>, total: nat, room: nat, log: seq<Output>) {
    room == 0 && log == Cut(full, total)
  }

  lemma {:induction false} RefusedHere(full: seq<Output>, total: nat, log: seq<Output>, o: Output)
    requires log + [o] <= full && o.Sent? && Writes(log) == total
    ensures log == Cut(full, total)
  {
    assert full[..|log|] == log && full[|log|] == o by {
      assert (log + [o])[|log|] == o && (log + [o])[..|log|] == log;
    }
    CutAt(full, |log|, total);
  }

  /** Sends a write unless the storage channel is closed. */
  method Send(room: nat, log: seq<Output>, o: Output, payload: Payload, ghost full: seq<Output>, ghost total: nat)
    returns (ok: bool, room': nat, log': seq<Output>)
    requires o.Sent? && Encodes(payload, o.body)
    requires (Running(full, total, room, log) && log + [o] <= full) || Refused(full, total, room, log)
    ensures ok == (room > 0)
    ensures ok ==> Running(full, total, room', log') && log' == log + [o]
    ensures !ok ==> Refused(full, total, room', log')
  {
    ok, room', log' := false, room, log;
    if room > 0 {
      ok, room', log' := true, room - 1, log + [o];
      WritesAppend(log, [o]);
    } else if Running(full, total, room, log) && log + [o] <= full {
      RefusedHere(full, total, log, o);
    }
  }

  lemma {:induction false} LastBlock(cfg: Config, past: seq<Packed>, p: Packed)
    ensures Blocks(cfg, past + [p]) == Blocks(cfg, past) + Block(cfg, past, p)
  {
    assert (past + [p])[..|past|] == past;
  }

  /** The outputs of an arrival come one after the other behind those of the arrivals before. */
  lemma {:induction false} BlockParts(
    cfg: Config, past: seq<Packed>, p: Packed, full: seq<Output>, front: seq<Output>, seg: Output, list: Output)
    requires Blocks(cfg, past + [p]) <= full
    requires front == Blocks(cfg, past) + Opening(cfg, past, p)
    requires seg == SegmentWrite(cfg, p) && list == PlaylistWrite(cfg, p, WindowAfter(cfg, past + [p], p.rendition))
    ensures front + [seg] <= full && front + [seg] + [list] <= full
    ensures front + [seg] + [list] + Closing(p) == Blocks(cfg, past + [p])
  {
    LastBlock(cfg, past, p);
    FourParts(Blocks(cfg, past), Opening(cfg, past, p), seg, list, Closing(p), Blocks(cfg, past + [p]), full);
  }

  lemma {:induction false} FourParts(
    a: seq<Output>, b: seq<Output>, s: Output, l: Output, c: seq<Output>, all: seq<Output>, full: seq<Output>)
    requires all == a + (b + ([s, l] + c)) && all <= full
    ensures a + b + [s] <= full && a + b + [s] + [l] <= full && a + b + [s] + [l] + c == all
  {
    assert a + b + [s] + [l] + c == all;
    var n := |a + b|;
    assert a + b + [s] == all[..n + 1] && a + b + [s] + [l] == all[..n + 2];
  }

  lemma {:induction false} OpeningParts(
    cfg: Config, past: seq<Packed>, p: Packed, full: seq<Output>, b: seq<Output>, init: Output, master: Output)
    requires Blocks(cfg, past + [p]) <= full && p.rendition !in Renditions(past) && b == Blocks(cfg, past)
    requires init == InitWrite(cfg, p) && master == MasterWrite(cfg, Renditions(past) + [p.rendition])
    ensures b + [init] <= full && b + [init] + [master] <= full
    ensures b + [init] + [master] == b + Opening(cfg, past, p)
  {
    LastBlock(cfg, past, p);
    TwoParts(b, init, master, Publication(cfg, past, p), Blocks(cfg, past + [p]), full);
  }

  lemma {:induction false} TwoParts(
    b: seq<Output>, i: Output, m: Output, c: seq<Output>, all: seq<Output>, full: seq<Output>)
    requires all == b + ([i, m] + c) && all <= full
    ensures b + [i] <= full && b + [i] + [m] <= full && b + [i] + [m] == b + [i, m]
  {
    assert b + [i] + [m] == b + [i, m];
    assert b + [i] == all[..|b| + 1] && b + [i] + [m] == all[..|b| + 2];
  }

  /** At the first arrival of a rendition, publishes its init segment and a new master playlist. A refused master
      playlist does not stop the task, but then the next write is refused as well. */
  method Open(cfg: Config, l: Local, r: string, p: Fmp4.InitParams, room: nat, log: seq<Output>,
              ghost init: Output, ghost master: Output, ghost full: seq<Output>, ghost total: nat)
    returns (l': Local, ok: bool, room': nat, log': seq<Output>)
    requires init == Sent(InitSegmentPath(cfg.stream, r), Init(p)) && |l.infos| == l.masterCount
    requires master == MasterWrite(cfg, l.infos + [r])
    requires Running(full, total, room, log) && log + [init] <= full && log + [init] + [master] <= full
    ensures ok ==> l' == Local(l.indexes, l.infos + [r], l.inits + {r}, |l.infos| + 1)
    ensures ok ==>
      || Refused(full, total, room', log')
      || (Running(full, total, room', log') && log' == log + [init] + [master])
    ensures !ok ==> Refused(full, total, room', log')
  {
    l' := l;
    var data := Fmp4.GenerateInitSegment(p);
    ok, room', log' := Send(room, log, Sent(InitSegmentPath(cfg.stream, r), Init(p)), Bytes(data), full, total);
    if ok {
      l' := l'.(inits := l.inits + {r}, infos := l.infos + [r]);
      if |l'.infos| > l'.masterCount {
        var published;
        published, room', log' := Send(room', log', MasterWrite(cfg, l'.infos), Text(""), full, total);
        l' := l'.(masterCount := |l'.infos|);
      }
    }
  }

  /** Publishes the media segment and then the playlist of the window that it joins. */
  method Publish(cfg: Config, l: Local, p: Packed, room: nat, log: seq<Output>,
                 ghost front: seq<Output>, ghost list: Output, ghost all: seq<Output>,
                 ghost full: seq<Output>, ghost total: nat)
    returns (l': Local, ok: bool, room': nat, log': seq<Output>)
    requires list == PlaylistWrite(cfg, p, AddedTo(IndexOr(l.indexes, p.rendition), WindowOf(cfg), AddedOf(cfg, p)))
    requires Refused(full, total, room, log) || (Running(full, total, room, log) && log == front)
    requires front + [SegmentWrite(cfg, p)] <= full && front + [SegmentWrite(cfg, p)] + [list] <= full
    requires front + [SegmentWrite(cfg, p)] + [list] + Closing(p) == all && all <= full
    ensures ok ==> l' == l.(indexes := l.indexes[p.rendition :=
      AddedTo(IndexOr(l.indexes, p.rendition), WindowOf(cfg), AddedOf(cfg, p))])
    ensures ok ==> Running(full, total, room', log') && log' == all
    ensures !ok ==> Refused(full, total, room', log')
  {
    l' := l;
    var data := MediaSegment.GenerateMediaSegment(p.media);
    ok, room', log' := Send(room, log, SegmentWrite(cfg, p), Bytes(data), full, total);
    if ok {
      var w := AddedTo(IndexOr(l.indexes, p.rendition), WindowOf(cfg), AddedOf(cfg, p));
      l' := l.(indexes := l.indexes[p.rendition := w]);
      ok, room', log' := PublishPlaylist(cfg, w, p, room', log', list, all, full, total);
    }
  }

  method PublishPlaylist(cfg: Config, w: Window, p: Packed, room: nat, log: seq<Output>,
                         ghost list: Output, ghost all: seq<Output>, ghost full: seq<Output>, ghost total: nat)
    returns (ok: bool, room': nat, log': seq<Output>)
    requires list == PlaylistWrite(cfg, p, w)
    requires Running(full, total, room, log) && log + [list] <= full
    requires log + [list] + Closing(p) == all && all <= full
    ensures ok ==> Running(full, total, room', log') && log' == all
    ensures !ok ==> Refused(full, total, room', log')
  {
    var text := GenerateMediaPlaylist(PlaylistSegmentsOf(w.entries), cfg.hlsVersion, cfg.isVod, p.isLast);
    ok, room', log' := Send(room, log, PlaylistWrite(cfg, p, w), Text(text), full, total);
    if ok {
      log' := Close(log', p);
    }
  }

  /** Reports the segment, and that the rendition is complete if it was the last one. */
  method Close(log: seq<Output>, p: Packed) returns (log': seq<Output>)
    ensures log' == log + Closing(p) && Writes(log') == Writes(log)
  {
    ClosingWrites(log, p);
    log' := log + [Produced(p.rendition, p.sequence)];
    if p.isLast {
      log' := log' + [Complete(p.rendition)];
    }
  }

  lemma {:induction false} ClosingWrites(log: seq<Output>, p: Packed)
    ensures Writes(log + Closing(p)) == Writes(log)
    ensures log + Closing(p) ==
      if p.isLast then log + [Produced(p.rendition, p.sequence)] + [Complete(p.rendition)]
      else log + [Produced(p.rendition, p.sequence)]
  {
    WritesAppend(log, Closing(p));
    assert Closing(p)[1..] == if p.isLast then [Complete(p.rendition)] else [];
    assert Writes(Closing(p)) == Writes(Closing(p)[1..]);
  }

  /** The parts of what an arrival puts out, each fitting behind the ones before. */
  lemma {:induction false} ArrivalParts(
    cfg: Config, past: seq<Packed>, p: Packed, l: Local, all: seq<Output>, full: seq<Output>, front: seq<Output>)
    returns (list: Output)
    requires all == Blocks(cfg, past + [p]) && all <= full && l == LocalAfter(cfg, past)
    requires front == Blocks(cfg, past) + Opening(cfg, past, p)
    ensures list == PlaylistWrite(cfg, p, AddedTo(IndexOr(l.indexes, p.rendition), WindowOf(cfg), AddedOf(cfg, p)))
    ensures var seg := SegmentWrite(cfg, p);
      front + [seg] <= full && front + [seg] + [list] <= full && front + [seg] + [list] + Closing(p) == all
  {
    LocalsAre(cfg, past, p.rendition);
    WindowGrows(cfg, past, p, p.rendition);
    list := PlaylistWrite(cfg, p, WindowAfter(cfg, past + [p], p.rendition));
    BlockParts(cfg, past, p, full, front, SegmentWrite(cfg, p), list);
  }

  /** Packages one segment: everything that its arrival puts out, or as much of it as the channel takes. */
  method PackageSegment(cfg: Config, l: Local, a: Arrival, room: nat, log: seq<Output>,
                        ghost past: seq<Packed>, ghost next: seq<Packed>, ghost full: seq<Output>, ghost total: nat)
    returns (l': Local, ok: bool, room': nat, log': seq<Output>)
    requires l == LocalAfter(cfg, past) && Running(full, total, room, log) && log == Blocks(cfg, past)
    requires next == past + [Pack(a)] && Blocks(cfg, next) <= full
    ensures ok ==> l' == LocalAfter(cfg, next) && Running(full, total, room', log') && log' == Blocks(cfg, next)
    ensures !ok ==> Refused(full, total, room', log')
  {
    var r := a.rendition;
    var p := Pack(a);
    ghost var all := Blocks(cfg, next);
    ghost var front := Blocks(cfg, past) + Opening(cfg, past, p);
    LocalsAre(cfg, past, r);
    ghost var list := ArrivalParts(cfg, past, p, l, all, full, front);
    l', ok, room', log' := l, true, room, log;
    if r !in l.inits {
      var init := FindInitParams(a);
      ghost var first, master := InitWrite(cfg, p), MasterWrite(cfg, l.infos + [r]);
      OpeningParts(cfg, past, p, full, log, first, master);
      l', ok, room', log' := Open(cfg, l, r, init, room, log, first, master, full, total);
      if !ok {
        return;
      }
    } else {
      assert log + [] == log;
    }
    l', ok, room', log' := Publish(cfg, l', p, room', log', front, list, all, full, total);
    assert (past + [p])[..|past|] == past;
  }

  lemma {:induction false} PackAllAt(arrivals: seq<Arrival>, i: nat)
    requires i < |arrivals|
    ensures |PackAll(arrivals)| == |arrivals| && PackAll(arrivals)[i] == Pack(arrivals[i])
  {
    if i < |arrivals| - 1 {
      PackAllAt(arrivals[..|arrivals| - 1], i);
    } else if |arrivals| > 1 {
      PackAllAt(arrivals[..|arrivals| - 1], 0);
    }
  }

  lemma {:induction false} BlocksPrefix(cfg: Config, all: seq<Packed>, i: nat)
    requires i <= |all|
    ensures Blocks(cfg, all[..i]) <= Blocks(cfg, all)
    decreases |all| - i
  {
    if i < |all| {
      assert all[..i + 1] == all[..i] + [all[i]];
      LastBlock(cfg, all[..i], all[i]);
      BlocksPrefix(cfg, all, i + 1);
    } else {
      assert all[..i] == all;
    }
  }

  lemma {:induction false} NextArrival(arrivals: seq<Arrival>, i: nat, all: seq<Packed>, past: seq<Packed>)
    requires i < |arrivals| && all == PackAll(arrivals) && i < |all| && past == all[..i]
    ensures all[..i + 1] == past + [Pack(arrivals[i])]
  {
    PackAllAt(arrivals, i);
  }

  lemma {:induction false} PackAllLength(arrivals: seq<Arrival>)
    ensures |PackAll(arrivals)| == |arrivals|
  {
    if arrivals != [] {
      PackAllAt(arrivals, 0);
    }
  }

  lemma {:induction false} FirstBlocks(cfg: Config, all: seq<Packed>, i: nat, full: seq<Output>, last: seq<Output>)
    requires i <= |all| && full == Blocks(cfg, all) + last
    ensures Blocks(cfg, all[..i]) <= full
  {
    BlocksPrefix(cfg, all, i);
    PrefixOfSum(Blocks(cfg, all[..i]), Blocks(cfg, all), last);
  }

  lemma {:induction false} PrefixOfSum(a: seq<Output>, b: seq<Output>, c: seq<Output>)
    requires a <= b
    ensures a <= b + c
  {
  }

  lemma {:induction false} FinalWrite(cfg: Config, all: seq<Packed>, l: Local, total: nat, room: nat, log: seq<Output>)
    requires l == LocalAfter(cfg, all) && log == Blocks(cfg, all) && room + Writes(log) == total
    ensures l.infos == Renditions(all) && (l.infos == [] <==> all == [])
    ensures all == [] ==> log == Cut(FullLog(cfg, all), total)
    ensures all != [] ==> FullLog(cfg, all) == log + [MasterWrite(cfg, l.infos)]
  {
    LocalsAre(cfg, all, "");
    if all == [] {
      CutAll(log, total);
      assert log + [] == log;
    }
  }

  lemma {:induction false} WholeLog(full: seq<Output>, total: nat, room: nat)
    requires Running(full, total, room, full)
    ensures full == Cut(full, total)
  {
    CutAll(full, total);
  }

  /** The loop over the arrivals. */
  method PackageAll(cfg: Config, arrivals: seq<Arrival>, room: nat,
                    ghost all: seq<Packed>, ghost full: seq<Output>, ghost last: seq<Output>)
    returns (l: Local, ok: bool, left: nat, log: seq<Output>)
    requires all == PackAll(arrivals) && full == Blocks(cfg, all) + last
    ensures ok ==> l == LocalAfter(cfg, all) && Running(full, room, left, log) && log == Blocks(cfg, all)
    ensures !ok ==> Refused(full, room, left, log)
  {
    l, ok, left, log := Local(map[], [], {}, 0), true, room, [];
    ghost var past: seq<Packed> := [];
    PackAllLength(arrivals);
    for i := 0 to |arrivals|
      invariant past == all[..i]
      invariant l == LocalAfter(cfg, past) && log == Blocks(cfg, past) && Running(full, room, left, log)
    {
      ghost var next := all[..i + 1];
      NextArrival(arrivals, i, all, past);
      FirstBlocks(cfg, all, i + 1, full, last);
      l, ok, left, log := PackageSegment(cfg, l, arrivals[i], left, log, past, next, full, room);
      if !ok {
        return;
      }
      past := next;
    }
    ok := true;
    assert past == all;
  }

  /** Runs the packaging task on the segments that arrive before it is cancelled or its input ends. The receiver of
      its writes accepts the first `room` of them and then closes the channel; events are reported regardless. */
  method RunPackager(cfg: Config, arrivals: seq<Arrival>, room: nat) returns (log: seq<Output>)
    ensures log == Cut(FullLog(cfg, PackAll(arrivals)), room)
  {
    ghost var all := PackAll(arrivals);
    ghost var full := FullLog(cfg, all);
    ghost var last := if all == [] then [] else [MasterWrite(cfg, Renditions(all))];
    var l, ok, left, packaged := PackageAll(cfg, arrivals, room, all, full, last);
    log := packaged;
    if ok {
      FinalWrite(cfg, all, l, room, left, log);
    }
    if l.infos != [] {
      var published;
      published, left, log := Send(left, log, MasterWrite(cfg, l.infos), Text(""), full, room);
      if published {
        WholeLog(full, room, left);
      }
    }
  }
}
