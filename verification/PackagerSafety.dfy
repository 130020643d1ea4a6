/** What the packaging task guarantees of every run: of its full output, and of every cut of it. */
module PackagerSafety {
  import opened Bytes
  import opened Playlist
  import opened SegmentIndexes
  import opened Packager
  import Cleanup
  import Segmenter

  // ----- What is required of the arrivals -----

  /** The segments of every rendition arrive numbered 0, 1, 2, …, whatever the interleaving of the renditions. */
  predicate InOrder(past: seq<Packed>) {
    past == [] ||
    (var n := |past| - 1;
     InOrder(past[..n]) && past[n].sequence == |Of(past[..n], past[n].rendition)|)
  }

  /** The printed durations and dates have no line break. */
  ghost predicate Printed(past: seq<Packed>) {
    forall i :: 0 <= i < |past| ==> Cleanup.SingleLine(past[i].shown) && Cleanup.SingleLine(past[i].date)
  }

  // ----- What holds of an output, given the outputs before it -----

  ghost predicate HasSent(log: seq<Output>, path: string) {
    exists i :: 0 <= i < |log| && log[i].Sent? && log[i].path == path
  }

  /** The last output reports a segment whose playlist, sent just before, has the end marker. */
  predicate AwaitsComplete(log: seq<Output>) {
    && |log| >= 2 && log[|log| - 1].Produced?
    && log[|log| - 2].Sent? && log[|log| - 2].body.Playlist?
    && Cleanup.Ended(Cleanup.PublishedText(log[|log| - 2].body.list))
  }

  ghost predicate SentAfter(cfg: Config, log: seq<Output>, path: string, body: Body) {
    match body
    case Init(_) => !HasSent(log, path)
    case Media(_) =>
      !HasSent(log, path) &&
      exists r, n :: path == SegmentPath(cfg.stream, r, n) && HasSent(log, InitSegmentPath(cfg.stream, r))
    case Playlist(list) =>
      forall key :: key in Cleanup.ReferencedBy(path, Cleanup.PublishedText(list)) ==> HasSent(log, key)
    case Master(renditions) =>
      forall i :: 0 <= i < |renditions| ==> HasSent(log, InitSegmentPath(cfg.stream, renditions[i]))
  }

  /** The rules of the output order:
      - no init segment and no media segment is ever written twice, and a media segment comes after the init segment
        of its rendition;
      - a playlist names only segments already written;
      - a master playlist lists only renditions whose init segment is written;
      - a segment is reported right after its playlist, which is right after the segment itself;
      - a rendition is reported complete right after a report whose playlist has the end marker, and always then. */
  ghost predicate SafeAfter(cfg: Config, log: seq<Output>, o: Output) {
    match o
    case Sent(path, body) => !AwaitsComplete(log) && SentAfter(cfg, log, path, body)
    case Produced(r, n) =>
      && |log| >= 2 && log[|log| - 1].Sent? && log[|log| - 1].path == MediaPlaylistPath(cfg.stream, r)
      && log[|log| - 1].body.Playlist?
      && log[|log| - 2].Sent? && log[|log| - 2].path == SegmentPath(cfg.stream, r, n)
    case Complete(r) => AwaitsComplete(log) && log[|log| - 1].rendition == r
  }

  ghost predicate Safe(cfg: Config, log: seq<Output>) {
    forall i :: 0 <= i < |log| ==> SafeAfter(cfg, log[..i], log[i])
  }

  lemma {:induction false} SafeStep(cfg: Config, log: seq<Output>, o: Output)
    requires Safe(cfg, log) && SafeAfter(cfg, log, o)
    ensures Safe(cfg, log + [o])
  {
    var log' := log + [o];
    forall i | 0 <= i < |log'|
      ensures SafeAfter(cfg, log'[..i], log'[i])
    {
      if i < |log| {
        assert log'[..i] == log[..i];
      } else {
        assert log'[..i] == log;
      }
    }
  }

  lemma {:induction false} SafePrefix(cfg: Config, log: seq<Output>, k: nat)
    requires Safe(cfg, log) && k <= |log|
    ensures Safe(cfg, log[..k])
  {
    forall i | 0 <= i < k
      ensures SafeAfter(cfg, log[..k][..i], log[..k][i])
    {
      assert log[..k][..i] == log[..i];
    }
  }

  // ----- Which objects are written -----

  lemma {:induction false} SentIn(a: seq<Output>, b: seq<Output>, path: string)
    ensures HasSent(a + b, path) <==> HasSent(a, path) || HasSent(b, path)
  {
    var c := a + b;
    if i :| 0 <= i < |a| && a[i].Sent? && a[i].path == path {
      assert c[i] == a[i];
    }
    if i :| 0 <= i < |b| && b[i].Sent? && b[i].path == path {
      assert c[|a| + i] == b[i];
    }
    if i :| 0 <= i < |c| && c[i].Sent? && c[i].path == path {
      if i < |a| {
        assert a[i] == c[i];
      } else {
        assert b[i - |a|] == c[i];
      }
    }
  }

  lemma {:induction false} SentOne(o: Output, path: string)
    ensures HasSent([o], path) <==> o.Sent? && o.path == path
  {
    if o.Sent? && o.path == path {
      assert [o][0].path == path;
    }
  }

  lemma {:induction false} SegmentAndInit(stream: string, r1: string, n: nat, r2: string)
    ensures SegmentPath(stream, r1, n) != InitSegmentPath(stream, r2)
  {
    var a, b := SegmentPath(stream, r1, n), InitSegmentPath(stream, r2);
    assert a[|a| - 1] == 's' && b[|b| - 1] == '4';
  }

  lemma {:induction false} PlaylistsApart(stream: string, r1: string, n: nat, r2: string)
    ensures SegmentPath(stream, r1, n) != MediaPlaylistPath(stream, r2)
    ensures SegmentPath(stream, r1, n) != MasterPlaylistPath(stream)
    ensures InitSegmentPath(stream, r1) != MediaPlaylistPath(stream, r2)
    ensures InitSegmentPath(stream, r1) != MasterPlaylistPath(stream)
  {
    var a, b := SegmentPath(stream, r1, n), InitSegmentPath(stream, r1);
    var c, d := MediaPlaylistPath(stream, r2), MasterPlaylistPath(stream);
    assert a[|a| - 1] == 's' && b[|b| - 1] == '4' && c[|c| - 1] == '8' && d[|d| - 1] == '8';
  }

  lemma {:induction false} InitPathsDiffer(stream: string, r1: string, r2: string)
    requires InitSegmentPath(stream, r1) == InitSegmentPath(stream, r2)
    ensures r1 == r2
  {
    assert '/' !in "init.mp4";
    Cleanup.ParentOf(stream + "/" + r1, "init.mp4");
    Cleanup.ParentOf(stream + "/" + r2, "init.mp4");
    assert (stream + "/" + r1)[|stream| + 1..] == r1 && (stream + "/" + r2)[|stream| + 1..] == r2;
  }

  lemma {:induction false} PublicationSends(cfg: Config, past: seq<Packed>, p: Packed, path: string)
    ensures HasSent(Publication(cfg, past, p), path) <==>
      path == SegmentPath(cfg.stream, p.rendition, p.sequence) || path == MediaPlaylistPath(cfg.stream, p.rendition)
  {
    var all := Publication(cfg, past, p);
    assert all[0] == SegmentWrite(cfg, p);
    assert all[1].Sent? && all[1].path == MediaPlaylistPath(cfg.stream, p.rendition);
  }

  lemma {:induction false} OpeningSends(cfg: Config, past: seq<Packed>, p: Packed, path: string)
    ensures HasSent(Opening(cfg, past, p), path) <==>
      p.rendition !in Renditions(past) &&
      (path == InitSegmentPath(cfg.stream, p.rendition) || path == MasterPlaylistPath(cfg.stream))
  {
    var all := Opening(cfg, past, p);
    if p.rendition !in Renditions(past) {
      assert all[0] == InitWrite(cfg, p) && all[1].Sent? && all[1].path == MasterPlaylistPath(cfg.stream);
    }
  }

  lemma {:induction false} BlockSends(cfg: Config, past: seq<Packed>, p: Packed, r: string, n: nat)
    ensures HasSent(Block(cfg, past, p), SegmentPath(cfg.stream, r, n)) <==> r == p.rendition && n == p.sequence
    ensures HasSent(Block(cfg, past, p), InitSegmentPath(cfg.stream, r)) <==>
      r == p.rendition && p.rendition !in Renditions(past)
  {
    var seg, init := SegmentPath(cfg.stream, r, n), InitSegmentPath(cfg.stream, r);
    BlockSendsPath(cfg, past, p, seg);
    BlockSendsPath(cfg, past, p, init);
    SegmentAndInit(cfg.stream, r, n, p.rendition);
    SegmentAndInit(cfg.stream, p.rendition, p.sequence, r);
    PlaylistsApart(cfg.stream, r, n, p.rendition);
    if seg == SegmentPath(cfg.stream, p.rendition, p.sequence) {
      Cleanup.SegmentPathsDiffer(cfg.stream, r, n, p.rendition, p.sequence);
    }
    if init == InitSegmentPath(cfg.stream, p.rendition) {
      InitPathsDiffer(cfg.stream, r, p.rendition);
    }
  }

  lemma {:induction false} BlockSendsPath(cfg: Config, past: seq<Packed>, p: Packed, path: string)
    ensures HasSent(Block(cfg, past, p), path) <==>
      || (p.rendition !in Renditions(past)
          && (path == InitSegmentPath(cfg.stream, p.rendition) || path == MasterPlaylistPath(cfg.stream)))
      || path == SegmentPath(cfg.stream, p.rendition, p.sequence)
      || path == MediaPlaylistPath(cfg.stream, p.rendition)
  {
    SentIn(Opening(cfg, past, p), Publication(cfg, past, p), path);
    OpeningSends(cfg, past, p, path);
    PublicationSends(cfg, past, p, path);
  }

  /** The media segments written are exactly those that have arrived, and the init segments those of the renditions
      that have arrived. */
  lemma {:induction false} SentExactly(cfg: Config, past: seq<Packed>, r: string, n: nat)
    requires InOrder(past)
    ensures HasSent(Blocks(cfg, past), SegmentPath(cfg.stream, r, n)) <==> n < |Of(past, r)|
    ensures HasSent(Blocks(cfg, past), InitSegmentPath(cfg.stream, r)) <==> r in Renditions(past)
  {
    if past != [] {
      var before, p := past[..|past| - 1], past[|past| - 1];
      SentExactly(cfg, before, r, n);
      BlockSends(cfg, before, p, r, n);
      NextSent(Blocks(cfg, before), Block(cfg, before, p), SegmentPath(cfg.stream, r, n),
               InitSegmentPath(cfg.stream, r), Blocks(cfg, past));
    }
  }

  lemma {:induction false} NextSent(b: seq<Output>, block: seq<Output>, path1: string, path2: string, all: seq<Output>)
    requires all == b + block
    ensures HasSent(all, path1) <==> HasSent(b, path1) || HasSent(block, path1)
    ensures HasSent(all, path2) <==> HasSent(b, path2) || HasSent(block, path2)
  {
    SentIn(b, block, path1);
    SentIn(b, block, path2);
  }

  // ----- The rules hold -----

  lemma {:induction false} AddedPrinted(cfg: Config, past: seq<Packed>, r: string)
    requires Printed(past)
    ensures |AllAdded(cfg, Of(past, r))| == |Of(past, r)|
    ensures var added := AllAdded(cfg, Of(past, r));
      forall i :: 0 <= i < |added| ==> Cleanup.SingleLine(added[i].shown) && Cleanup.SingleLine(added[i].date)
  {
    if past != [] {
      var before, p := past[..|past| - 1], past[|past| - 1];
      AddedPrinted(cfg, before, r);
      var of := Of(before, r);
      if p.rendition == r {
        assert (of + [p])[..|of|] == of;
      } else {
        assert of + [] == of;
      }
    }
  }

  /** The segments that a playlist of a rendition names are numbered below the count of its arrivals. */
  lemma {:induction false} ListedNumbers(cfg: Config, past: seq<Packed>, r: string, isLast: bool, key: string)
    returns (n: nat)
    requires Printed(past)
    requires key in Cleanup.ReferencedBy(MediaPlaylistPath(cfg.stream, r),
                                         Cleanup.PublishedText(PublishedOf(cfg, WindowAfter(cfg, past, r), isLast)))
    ensures key == SegmentPath(cfg.stream, r, n) && n < |Of(past, r)|
  {
    var list := PublishedOf(cfg, WindowAfter(cfg, past, r), isLast);
    var added := AllAdded(cfg, Of(past, r));
    AddedPrinted(cfg, past, r);
    Cleanup.LatestProtected(WindowOf(cfg), added, cfg.hlsVersion, cfg.isVod, isLast, 0);
    Cleanup.ReferencedIsWindow(cfg.stream, r, list.segments, cfg.hlsVersion, cfg.isVod, isLast, key);
    var i :| 0 <= i < |list.segments| && key == SegmentPath(cfg.stream, r, list.segments[i].sequence);
    n := list.segments[i].sequence;
    Cleanup.LatestProtected(WindowOf(cfg), added, cfg.hlsVersion, cfg.isVod, isLast, n);
    assert Cleanup.InWindow(list, n);
  }

  lemma {:induction false} EndedWhenLast(cfg: Config, past: seq<Packed>, r: string, isLast: bool)
    requires Printed(past)
    ensures Cleanup.Ended(Cleanup.PublishedText(PublishedOf(cfg, WindowAfter(cfg, past, r), isLast))) <==> isLast
  {
    var list := PublishedOf(cfg, WindowAfter(cfg, past, r), isLast);
    AddedPrinted(cfg, past, r);
    Cleanup.LatestProtected(WindowOf(cfg), AllAdded(cfg, Of(past, r)), cfg.hlsVersion, cfg.isVod, isLast, 0);
    Cleanup.EndedExactly(list);
  }

  /** What the first arrival of a rendition opens keeps the rules. */
  lemma {:induction false} OpeningSafe(cfg: Config, past: seq<Packed>, p: Packed, b: seq<Output>, front: seq<Output>)
    requires b == Blocks(cfg, past) && front == b + Opening(cfg, past, p)
    requires InOrder(past) && Safe(cfg, b) && !AwaitsComplete(b)
    ensures Safe(cfg, front) && !AwaitsComplete(front)
    ensures HasSent(front, InitSegmentPath(cfg.stream, p.rendition))
  {
    var init, master := InitWrite(cfg, p), MasterWrite(cfg, Renditions(past) + [p.rendition]);
    SentExactly(cfg, past, p.rendition, 0);
    MasterSafe(cfg, past, b, init, Renditions(past), p.rendition);
    TwoWritesSafe(cfg, b, init, master, p.rendition in Renditions(past), front);
  }

  lemma {:induction false} TwoWritesSafe(
    cfg: Config, b: seq<Output>, init: Output, master: Output, known: bool, front: seq<Output>)
    requires init.Sent? && init.body.Init? && (HasSent(b, init.path) <==> known) && master.Sent?
    requires Safe(cfg, b) && !AwaitsComplete(b) && SafeAfter(cfg, b + [init], master)
    requires front == b + (if known then [] else [init, master])
    ensures Safe(cfg, front) && !AwaitsComplete(front) && HasSent(front, init.path)
  {
    if known {
      assert front == b;
    } else {
      assert front == b + [init] + [master];
      SafeStep(cfg, b, init);
      SafeStep(cfg, b + [init], master);
      assert front[|b|] == init;
    }
  }

  lemma {:induction false} MasterSafe(
    cfg: Config, past: seq<Packed>, b: seq<Output>, init: Output, known: seq<string>, r: string)
    requires b == Blocks(cfg, past) && InOrder(past) && known == Renditions(past)
    requires init.Sent? && init.path == InitSegmentPath(cfg.stream, r)
    ensures SafeAfter(cfg, b + [init], MasterWrite(cfg, known + [r]))
  {
    var log := b + [init];
    assert !AwaitsComplete(log);
    forall i | 0 <= i < |known + [r]|
      ensures HasSent(log, InitSegmentPath(cfg.stream, (known + [r])[i]))
    {
      KnownSent(cfg, past, b, init, known, r, (known + [r])[i]);
    }
  }

  lemma {:induction false} KnownSent(
    cfg: Config, past: seq<Packed>, b: seq<Output>, init: Output, known: seq<string>, r: string, r1: string)
    requires b == Blocks(cfg, past) && InOrder(past) && known == Renditions(past) && (r1 in known || r1 == r)
    requires init.Sent? && init.path == InitSegmentPath(cfg.stream, r)
    ensures HasSent(b + [init], InitSegmentPath(cfg.stream, r1))
  {
    var path := InitSegmentPath(cfg.stream, r1);
    SentExactly(cfg, past, r1, 0);
    SentIn(b, [init], path);
    SentOne(init, path);
  }

  lemma {:induction false} SegmentSafe(cfg: Config, past: seq<Packed>, p: Packed, front: seq<Output>)
    requires front == Blocks(cfg, past) + Opening(cfg, past, p)
    requires InOrder(past) && p.sequence == |Of(past, p.rendition)|
    requires !AwaitsComplete(front) && HasSent(front, InitSegmentPath(cfg.stream, p.rendition))
    ensures SafeAfter(cfg, front, SegmentWrite(cfg, p))
  {
    var path := SegmentPath(cfg.stream, p.rendition, p.sequence);
    SentExactly(cfg, past, p.rendition, p.sequence);
    SentIn(Blocks(cfg, past), Opening(cfg, past, p), path);
    OpeningSends(cfg, past, p, path);
    SegmentAndInit(cfg.stream, p.rendition, p.sequence, p.rendition);
    PlaylistsApart(cfg.stream, p.rendition, p.sequence, p.rendition);
  }

  lemma {:induction false} PlaylistSafe(
    cfg: Config, past: seq<Packed>, p: Packed, front: seq<Output>, seg: Output, next: seq<Packed>)
    requires front == Blocks(cfg, past) + Opening(cfg, past, p) && seg == SegmentWrite(cfg, p) && next == past + [p]
    requires InOrder(past) && p.sequence == |Of(past, p.rendition)| && Printed(next)
    ensures SafeAfter(cfg, front + [seg], PlaylistWrite(cfg, p, WindowAfter(cfg, next, p.rendition)))
  {
    var r, log := p.rendition, front + [seg];
    var text := Cleanup.PublishedText(PublishedOf(cfg, WindowAfter(cfg, next, r), p.isLast));
    assert !AwaitsComplete(log);
    forall key | key in Cleanup.ReferencedBy(MediaPlaylistPath(cfg.stream, r), text)
      ensures HasSent(log, key)
    {
      var n := ListedNumbers(cfg, next, r, p.isLast, key);
      OfGrows(past, p, r);
      ListedSent(cfg, past, p, front, seg, n);
    }
  }

  lemma {:induction false} ListedSent(
    cfg: Config, past: seq<Packed>, p: Packed, front: seq<Output>, seg: Output, n: nat)
    requires front == Blocks(cfg, past) + Opening(cfg, past, p) && seg == SegmentWrite(cfg, p)
    requires InOrder(past) && p.sequence == |Of(past, p.rendition)| && n <= |Of(past, p.rendition)|
    ensures HasSent(front + [seg], SegmentPath(cfg.stream, p.rendition, n))
  {
    SentExactly(cfg, past, p.rendition, n);
    FrontSent(Blocks(cfg, past), Opening(cfg, past, p), seg, SegmentPath(cfg.stream, p.rendition, n), front);
  }

  lemma {:induction false} FrontSent(
    b: seq<Output>, opening: seq<Output>, seg: Output, path: string, front: seq<Output>)
    requires front == b + opening && (HasSent(b, path) || (seg.Sent? && seg.path == path))
    ensures HasSent(front + [seg], path)
  {
    SentIn(b, opening, path);
    SentIn(front, [seg], path);
    SentOne(seg, path);
  }

  /** A report and, if the playlist before it has the end marker, the completion. */
  lemma {:induction false} ClosingSafe(
    cfg: Config, p: Packed, log: seq<Output>, seg: Output, list: Output, all: seq<Output>)
    requires seg.Sent? && seg.path == SegmentPath(cfg.stream, p.rendition, p.sequence)
    requires list.Sent? && list.path == MediaPlaylistPath(cfg.stream, p.rendition) && list.body.Playlist?
    requires Cleanup.Ended(Cleanup.PublishedText(list.body.list)) <==> p.isLast
    requires Safe(cfg, log + [seg] + [list]) && all == log + [seg] + [list] + Closing(p)
    ensures Safe(cfg, all) && !AwaitsComplete(all)
  {
    var report := Produced(p.rendition, p.sequence);
    var log1 := log + [seg] + [list];
    SafeStep(cfg, log1, report);
    if p.isLast {
      SafeStep(cfg, log1 + [report], Complete(p.rendition));
      assert all == log1 + [report] + [Complete(p.rendition)];
    } else {
      assert all == log1 + [report];
    }
  }

  lemma {:induction false} BlockSafe(cfg: Config, past: seq<Packed>, p: Packed, next: seq<Packed>)
    requires next == past + [p] && InOrder(past) && p.sequence == |Of(past, p.rendition)| && Printed(next)
    requires Safe(cfg, Blocks(cfg, past)) && !AwaitsComplete(Blocks(cfg, past))
    ensures Safe(cfg, Blocks(cfg, next)) && !AwaitsComplete(Blocks(cfg, next))
  {
    var b, all := Blocks(cfg, past), Blocks(cfg, next);
    var front := b + Opening(cfg, past, p);
    var seg, list := SegmentWrite(cfg, p), PlaylistWrite(cfg, p, WindowAfter(cfg, next, p.rendition));
    BlockParts(cfg, past, p, all, front, seg, list);
    OpeningSafe(cfg, past, p, b, front);
    SegmentSafe(cfg, past, p, front);
    SafeStep(cfg, front, seg);
    PlaylistSafe(cfg, past, p, front, seg, next);
    SafeStep(cfg, front + [seg], list);
    EndedWhenLast(cfg, next, p.rendition, p.isLast);
    ClosingSafe(cfg, p, front, seg, list, all);
  }

  lemma {:induction false} BlocksSafe(cfg: Config, past: seq<Packed>)
    requires InOrder(past) && Printed(past)
    ensures Safe(cfg, Blocks(cfg, past)) && !AwaitsComplete(Blocks(cfg, past))
  {
    if past != [] {
      var before, p := past[..|past| - 1], past[|past| - 1];
      BlocksSafe(cfg, before);
      LastArrival(past, before, p);
      BlockSafe(cfg, before, p, past);
    }
  }

  lemma {:induction false} LastArrival(past: seq<Packed>, before: seq<Packed>, p: Packed)
    requires past != [] && before == past[..|past| - 1] && p == past[|past| - 1]
    ensures past == before + [p]
  {
  }

  lemma {:induction false} CutIsPrefix(log: seq<Output>, room: nat)
    ensures Cut(log, room) <= log
    ensures |Cut(log, room)| < |log| ==> log[|Cut(log, room)|].Sent?
    ensures Writes(Cut(log, room)) == if Writes(log) < room then Writes(log) else room
  {
    if log != [] && !(log[0].Sent? && room == 0) {
      var room' := if log[0].Sent? then room - 1 else room;
      CutIsPrefix(log[1..], room');
      var rest := Cut(log[1..], room');
      assert ([log[0]] + rest)[1..] == rest;
    }
  }

  /** Every run of the task keeps the rules of the output order, whenever its receiver closes the channel; and it
      never stops between the report of a finished playlist and the completion that is due. */
  lemma {:induction false} RunSafe(cfg: Config, past: seq<Packed>, room: nat)
    requires InOrder(past) && Printed(past)
    ensures var log := Cut(FullLog(cfg, past), room); Safe(cfg, log) && !AwaitsComplete(log)
  {
    var full, b := FullLog(cfg, past), Blocks(cfg, past);
    BlocksSafe(cfg, past);
    if past == [] {
      assert b + [] == b;
    } else {
      FinalMasterSafe(cfg, past, b);
      SafeStep(cfg, b, MasterWrite(cfg, Renditions(past)));
    }
    CutSafe(cfg, full, room);
  }

  lemma {:induction false} FinalMasterSafe(cfg: Config, past: seq<Packed>, b: seq<Output>)
    requires InOrder(past) && b == Blocks(cfg, past) && !AwaitsComplete(b)
    ensures SafeAfter(cfg, b, MasterWrite(cfg, Renditions(past)))
  {
    var renditions := Renditions(past);
    forall i | 0 <= i < |renditions|
      ensures HasSent(b, InitSegmentPath(cfg.stream, renditions[i]))
    {
      SentExactly(cfg, past, renditions[i], 0);
    }
  }

  lemma {:induction false} CutSafe(cfg: Config, full: seq<Output>, room: nat)
    requires Safe(cfg, full) && !AwaitsComplete(full)
    ensures Safe(cfg, Cut(full, room)) && !AwaitsComplete(Cut(full, room))
  {
    var k := |Cut(full, room)|;
    CutIsPrefix(full, room);
    assert full[..k] == Cut(full, room);
    SafePrefix(cfg, full, k);
    if k < |full| {
      assert SafeAfter(cfg, full[..k], full[k]);
    }
  }

  // ----- The events of one rendition -----

  predicate IsEventOf(o: Output, r: string) {
    (o.Produced? || o.Complete?) && o.rendition == r
  }

  function EventsOf(log: seq<Output>, r: string): seq<Output> {
    if log == [] then [] else (if IsEventOf(log[0], r) then [log[0]] else []) + EventsOf(log[1..], r)
  }

  /** The reports of segments 0 to `k - 1`. */
  function Reports(r: string, k: nat): seq<Output> {
    if k == 0 then [] else Reports(r, k - 1) + [Produced(r, k - 1)]
  }

  function CompleteIf(r: string, ended: bool): seq<Output> {
    if ended then [Complete(r)] else []
  }

  lemma {:induction false} EventsAppend(a: seq<Output>, b: seq<Output>, r: string)
    ensures EventsOf(a + b, r) == EventsOf(a, r) + EventsOf(b, r)
  {
    if a == [] {
      assert a + b == b;
    } else {
      var own := if IsEventOf(a[0], r) then [a[0]] else [];
      assert (a + b)[1..] == a[1..] + b;
      EventsAppend(a[1..], b, r);
      assert own + (EventsOf(a[1..], r) + EventsOf(b, r)) == own + EventsOf(a[1..], r) + EventsOf(b, r);
    }
  }

  lemma {:induction false} NoEvents(log: seq<Output>, r: string)
    requires forall i :: 0 <= i < |log| ==> log[i].Sent?
    ensures EventsOf(log, r) == []
  {
    if log != [] {
      NoEvents(log[1..], r);
    }
  }

  lemma {:induction false} ClosingEvents(p: Packed, r: string)
    ensures EventsOf(Closing(p), r) == if p.rendition == r then Closing(p) else []
  {
    var report, complete := Produced(p.rendition, p.sequence), Complete(p.rendition);
    if p.isLast {
      assert [report, complete][1..] == [complete] && [complete][1..] == [];
      assert EventsOf([complete], r) == if p.rendition == r then [complete] else [];
      assert [report] + [complete] == [report, complete];
    } else {
      assert Closing(p) == [report] && [report][1..] == [];
    }
  }

  lemma {:induction false} OnlyClosingEvents(
    opening: seq<Output>, seg: Output, list: Output, closing: seq<Output>, r: string)
    requires seg.Sent? && list.Sent? && forall i :: 0 <= i < |opening| ==> opening[i].Sent?
    ensures EventsOf(opening + ([seg, list] + closing), r) == EventsOf(closing, r)
  {
    EventsAppend(opening, [seg, list] + closing, r);
    EventsAppend([seg, list], closing, r);
    NoEvents(opening, r);
    NoEvents([seg, list], r);
  }

  lemma {:induction false} BlockEvents(cfg: Config, past: seq<Packed>, p: Packed, r: string, block: seq<Output>)
    requires block == Block(cfg, past, p)
    ensures EventsOf(block, r) == if p.rendition == r then Closing(p) else []
  {
    ClosingEvents(p, r);
    OnlyClosingEvents(Opening(cfg, past, p), SegmentWrite(cfg, p),
                      PlaylistWrite(cfg, p, WindowAfter(cfg, past + [p], p.rendition)), Closing(p), r);
  }

  /** The arrivals of a rendition are these segments, in this order. */
  predicate Carries(of: seq<Packed>, segments: seq<Segmenter.Segment>) {
    |of| == |segments| &&
    forall i :: 0 <= i < |of| ==> of[i].sequence == segments[i].sequence && of[i].isLast == segments[i].isLast
  }

  /** Segments numbered from 0 of which only the last one may be marked as the last. */
  predicate Terminated(of: seq<Packed>) {
    forall i :: 0 <= i < |of| ==> of[i].sequence == i && (of[i].isLast ==> i == |of| - 1)
  }

  predicate EndsLast(of: seq<Packed>) {
    of != [] && of[|of| - 1].isLast
  }

  lemma {:induction false} EventsExactly(cfg: Config, past: seq<Packed>, r: string)
    requires Terminated(Of(past, r))
    ensures EventsOf(Blocks(cfg, past), r) == Reports(r, |Of(past, r)|) + CompleteIf(r, EndsLast(Of(past, r)))
  {
    if past != [] {
      var before, p := past[..|past| - 1], past[|past| - 1];
      var of, b, block := Of(before, r), Blocks(cfg, before), Block(cfg, before, p);
      BlockEvents(cfg, before, p, r, block);
      if p.rendition == r {
        TerminatedBefore(of, p);
        EventsExactly(cfg, before, r);
        NextEvents(of, p, r, b, block, Blocks(cfg, past));
      } else {
        SameEvents(of, r, b, block, Blocks(cfg, past));
        EventsExactly(cfg, before, r);
      }
    }
  }

  lemma {:induction false} SameEvents(of: seq<Packed>, r: string, b: seq<Output>, block: seq<Output>, all: seq<Output>)
    requires all == b + block && EventsOf(block, r) == []
    ensures EventsOf(all, r) == EventsOf(b, r) && of + [] == of
  {
    EventsAppend(b, block, r);
  }

  lemma {:induction false} NextEvents(
    of: seq<Packed>, p: Packed, r: string, b: seq<Output>, block: seq<Output>, all: seq<Output>)
    requires all == b + block && p.sequence == |of| && p.rendition == r && !EndsLast(of)
    requires EventsOf(b, r) == Reports(r, |of|) + CompleteIf(r, EndsLast(of)) && EventsOf(block, r) == Closing(p)
    ensures EventsOf(all, r) == Reports(r, |of + [p]|) + CompleteIf(r, EndsLast(of + [p]))
  {
    EventsAppend(b, block, r);
    LastEvents(of, p, r);
  }

  lemma {:induction false} TerminatedBefore(of: seq<Packed>, p: Packed)
    requires Terminated(of + [p])
    ensures Terminated(of) && p.sequence == |of| && !EndsLast(of)
  {
    var all := of + [p];
    assert all[|of|] == p;
    forall i | 0 <= i < |of|
      ensures of[i].sequence == i && !of[i].isLast
    {
      assert all[i] == of[i];
    }
  }

  lemma {:induction false} LastEvents(of: seq<Packed>, p: Packed, r: string)
    requires p.sequence == |of| && p.rendition == r
    ensures Reports(r, |of|) + Closing(p) == Reports(r, |of| + 1) + CompleteIf(r, EndsLast(of + [p]))
  {
    assert Reports(r, |of|) + Closing(p) == Reports(r, |of|) + [Produced(r, |of|)] + CompleteIf(r, p.isLast);
  }

  /** From packets to events: if the arrivals of a rendition are the segments that its segmenter cuts from `packets`,
      then its events are the reports of segments 0, 1, 2, …, followed by its completion if and only if video was
      pushed after the last cut. */
  lemma {:induction false} CompletedExactly(
    cfg: Config, past: seq<Packed>, r: string, packets: seq<Segmenter.Packet>, target: nat)
    requires Carries(Of(past, r), Segmenter.Expected(packets, target))
    ensures EventsOf(FullLog(cfg, past), r) ==
      Reports(r, |Segmenter.Expected(packets, target)|)
      + CompleteIf(r, Segmenter.Video(Segmenter.Remainder(packets, target)) != [])
  {
    var of, segments := Of(past, r), Segmenter.Expected(packets, target);
    Segmenter.NumberedAndTerminated(packets, target);
    assert Terminated(of);
    EventsExactly(cfg, past, r);
    FinalEvents(cfg, past, r);
  }

  lemma {:induction false} FinalEvents(cfg: Config, past: seq<Packed>, r: string)
    ensures EventsOf(FullLog(cfg, past), r) == EventsOf(Blocks(cfg, past), r)
  {
    var last := if past == [] then [] else [MasterWrite(cfg, Renditions(past))];
    EventsAppend(Blocks(cfg, past), last, r);
    NoEvents(last, r);
  }

  /** Arrivals that number every rendition from 0 are in order. */
  lemma {:induction false} NumberedInOrder(past: seq<Packed>)
    requires forall r, i :: 0 <= i < |Of(past, r)| ==> Of(past, r)[i].sequence == i
    ensures InOrder(past)
  {
    if past != [] {
      var before, p := past[..|past| - 1], past[|past| - 1];
      LastArrival(past, before, p);
      forall r, i | 0 <= i < |Of(before, r)|
        ensures Of(before, r)[i].sequence == i
      {
        OfGrows(before, p, r);
        assert Of(past, r)[i] == Of(before, r)[i];
      }
      NumberedInOrder(before);
      OfGrows(before, p, p.rendition);
      assert Of(past, p.rendition)[|Of(before, p.rendition)|] == p;
    }
  }
}
