/** What a player reads in the stored playlist of a rendition at every point of a run of the packaging task. */
module PlaylistPlayback {
  import opened Bytes
  import opened Playlist
  import opened Packager
  import opened PackagerSafety
  import opened Playback
  import opened PlaylistReader
  import Cleanup
  import S = SegmentIndexes

  /** How many of `k` segments are no longer listed: none of an upload, otherwise all but the latest of the window. */
  function Left(cfg: Config, k: nat): nat {
    if cfg.isVod || k <= cfg.liveWindow then 0 else k - cfg.liveWindow
  }

  function ListedOf(a: Arrival, n: nat): PlaylistSegment {
    PlaylistSegment(n, a.segment.duration, a.shown, SegmentFilename(n), Some(a.date))
  }

  /** The list is that of the first `k` arrivals: those from `from` on, in order. */
  predicate Lists(segments: seq<PlaylistSegment>, own: seq<Arrival>, from: nat, k: nat) {
    && from <= k <= |own| && |segments| == k - from
    && forall i :: 0 <= i < |segments| ==> segments[i] == ListedOf(own[from + i], from + i)
  }

  // ----- What is listed -----

  lemma {:induction false} AllAddedAt(cfg: Config, ps: seq<Packed>, i: nat)
    requires i < |ps|
    ensures |AllAdded(cfg, ps)| == |ps| && AllAdded(cfg, ps)[i] == AddedOf(cfg, ps[i])
  {
    if |ps| > 1 {
      AllAddedAt(cfg, ps[..|ps| - 1], if i < |ps| - 1 then i else 0);
    }
  }

  lemma {:induction false} GoneIsLeft(cfg: Config, k: nat)
    ensures S.Gone(WindowOf(cfg), k) == Left(cfg, k)
  {
  }

  lemma {:induction false} ListedAt(
    cfg: Config, own: seq<Arrival>, k: nat, window: Option<nat>, ps: seq<Packed>, added: seq<S.Added>, i: nat)
    requires k <= |own| == |PackAll(own)| && ps == PackAll(own)[..k] && added == AllAdded(cfg, ps) && |added| == k
    requires window == WindowOf(cfg) && i < |S.Run(window, added).entries|
    ensures var segments := S.PlaylistSegmentsOf(S.Run(window, added).entries);
      Left(cfg, k) + i < k && i < |segments| && segments[i] == ListedOf(own[Left(cfg, k) + i], Left(cfg, k) + i)
  {
    var n := S.Gone(window, k) + i;
    Cleanup.WindowSegmentAt(window, added, i);
    assert n == Left(cfg, k) + i by {
      GoneIsLeft(cfg, k);
    }
    AddedIs(cfg, own, k, ps, n);
  }

  lemma {:induction false} AddedIs(cfg: Config, own: seq<Arrival>, k: nat, ps: seq<Packed>, n: nat)
    requires n < k <= |own| == |PackAll(own)| && ps == PackAll(own)[..k]
    ensures n < |AllAdded(cfg, ps)|
    ensures S.PlaylistSegmentOf(S.EntryOf(n, AllAdded(cfg, ps)[n])) == ListedOf(own[n], n)
  {
    AllAddedAt(cfg, ps, n);
    PackAllAt(own, n);
  }

  lemma {:induction false} AddedCount(cfg: Config, ps: seq<Packed>)
    ensures |AllAdded(cfg, ps)| == |ps|
  {
    if ps != [] {
      AllAddedAt(cfg, ps, 0);
    }
  }

  lemma {:induction false} ListIs(cfg: Config, own: seq<Arrival>, k: nat, list: Cleanup.Published)
    requires 0 < k <= |own| == |PackAll(own)| && list == ListAfter(cfg, PackAll(own)[..k])
    ensures Lists(list.segments, own, Left(cfg, k), k)
    ensures list.hlsVersion == cfg.hlsVersion && list.isVod == cfg.isVod
    ensures list.isFinished == own[k - 1].segment.isLast
  {
    var ps := PackAll(own)[..k];
    SegmentsAre(cfg, own, k, ps, AllAdded(cfg, ps));
    assert ps[k - 1] == Pack(own[k - 1]) by {
      PackAllAt(own, k - 1);
    }
  }

  lemma {:induction false} SegmentsAre(
    cfg: Config, own: seq<Arrival>, k: nat, ps: seq<Packed>, added: seq<S.Added>)
    requires k <= |own| == |PackAll(own)| && ps == PackAll(own)[..k] && added == AllAdded(cfg, ps)
    ensures Lists(S.PlaylistSegmentsOf(S.Run(WindowOf(cfg), added).entries), own, Left(cfg, k), k)
  {
    var entries := S.Run(WindowOf(cfg), added).entries;
    var segments := S.PlaylistSegmentsOf(entries);
    AddedCount(cfg, ps);
    S.WindowIsLatest(WindowOf(cfg), added);
    S.PlaylistSegmentsCount(entries);
    forall i | 0 <= i < |entries|
      ensures segments[i] == ListedOf(own[Left(cfg, k) + i], Left(cfg, k) + i)
    {
      ListedAt(cfg, own, k, WindowOf(cfg), ps, added, i);
    }
  }

  /** The stored playlist is that of the first `k` arrivals of the rendition. */
  lemma {:induction false} ListStored(cfg: Config, arrivals: seq<Arrival>, r: string, log: seq<Output>)
    returns (k: nat, list: Cleanup.Published)
    requires InOrder(PackAll(arrivals)) && Printed(PackAll(arrivals)) && log <= FullLog(cfg, PackAll(arrivals))
    requires MediaPlaylistPath(cfg.stream, r) in Objects(log)
    ensures Objects(log)[MediaPlaylistPath(cfg.stream, r)] == Playlist(list) && Cleanup.AllPrintable(list.segments)
    ensures 0 < k <= |Own(arrivals, r)| && Lists(list.segments, Own(arrivals, r), Left(cfg, k), k)
    ensures list.hlsVersion == cfg.hlsVersion && list.isVod == cfg.isVod
    ensures list.isFinished == Own(arrivals, r)[k - 1].segment.isLast
    ensures log == FullLog(cfg, PackAll(arrivals)) ==> k == |Own(arrivals, r)|
  {
    var past, own := PackAll(arrivals), Own(arrivals, r);
    var of := Of(past, r);
    k := RunHolds(cfg, past, r, log);
    OwnPacked(arrivals, r);
    PackAllLength(own);
    list := ListAfter(cfg, of[..k]);
    ListIs(cfg, own, k, list);
    ListPrintable(cfg, past, r, k, list);
  }

  lemma {:induction false} ListPrintable(cfg: Config, past: seq<Packed>, r: string, k: nat, list: Cleanup.Published)
    requires Printed(past) && 0 < k <= |Of(past, r)| && list == ListAfter(cfg, Of(past, r)[..k])
    ensures Cleanup.AllPrintable(list.segments)
  {
    OfPrinted(past, r);
    var of := Of(past, r)[..k];
    assert Printed(of);
    ListedSegments(cfg, of, list);
  }

  // ----- What is read -----

  lemma {:induction false} ItemsOfAt(segments: seq<PlaylistSegment>, i: nat)
    requires i < |segments|
    ensures |ItemsOf(segments)| == |segments|
    ensures ItemsOf(segments)[i] == Item(segments[i].date, Some(segments[i].shown), segments[i].filename)
  {
    if |segments| > 1 {
      ItemsOfAt(segments[1..], if i > 0 then i - 1 else 0);
    }
  }

  lemma {:induction false} ItemsCount(segments: seq<PlaylistSegment>)
    ensures |ItemsOf(segments)| == |segments|
  {
    if segments != [] {
      ItemsOfAt(segments, 0);
    }
  }

  lemma {:induction false} NoCommas(segments: seq<PlaylistSegment>, own: seq<Arrival>, from: nat, k: nat)
    requires Lists(segments, own, from, k) && forall i :: 0 <= i < |own| ==> ',' !in own[i].shown
    ensures forall i :: 0 <= i < |segments| ==> ',' !in segments[i].shown
  {
  }

  /** At every point of every run, a player that reads a stored playlist finds in it the rendition's first `k` segments
      less what has left the window, in order, each under its file name, with the printed duration and the date of its
      arrival; and the end marker exactly if the `k`-th is the last. */
  lemma {:induction false} ItemsReachPlayer(cfg: Config, arrivals: seq<Arrival>, r: string, log: seq<Output>)
    returns (k: nat, text: string)
    requires InOrder(PackAll(arrivals)) && Printed(PackAll(arrivals)) && log <= FullLog(cfg, PackAll(arrivals))
    requires MediaPlaylistPath(cfg.stream, r) in Objects(log)
    requires forall i :: 0 <= i < |Own(arrivals, r)| ==> ',' !in Own(arrivals, r)[i].shown
    ensures Encodes(Text(text), Objects(log)[MediaPlaylistPath(cfg.stream, r)])
    ensures 0 < k <= |Own(arrivals, r)|
    ensures var items, own, from := Items(Cleanup.Lines(text), None, None), Own(arrivals, r), Left(cfg, k);
      && |items| == k - from
      && forall i :: 0 <= i < |items| ==>
           items[i] == Item(Some(own[from + i].date), Some(own[from + i].shown), SegmentFilename(from + i))
    ensures Cleanup.Ended(text) <==> Own(arrivals, r)[k - 1].segment.isLast
    ensures log == FullLog(cfg, PackAll(arrivals)) ==> k == |Own(arrivals, r)|
  {
    var list;
    k, list := ListStored(cfg, arrivals, r, log);
    text := Cleanup.PublishedText(list);
    ListRead(list, Own(arrivals, r), Left(cfg, k), k);
  }

  lemma {:induction false} ListRead(list: Cleanup.Published, own: seq<Arrival>, from: nat, k: nat)
    requires Lists(list.segments, own, from, k) && Cleanup.AllPrintable(list.segments)
    requires forall i :: 0 <= i < |own| ==> ',' !in own[i].shown
    ensures var items := Items(Cleanup.Lines(Cleanup.PublishedText(list)), None, None);
      && |items| == k - from
      && forall i :: 0 <= i < |items| ==>
           items[i] == Item(Some(own[from + i].date), Some(own[from + i].shown), SegmentFilename(from + i))
    ensures Cleanup.Ended(Cleanup.PublishedText(list)) <==> list.isFinished
  {
    var segments := list.segments;
    assert Items(Cleanup.Lines(Cleanup.PublishedText(list)), None, None) == ItemsOf(segments) by {
      NoCommas(segments, own, from, k);
      ItemsReadBack(list);
    }
    Cleanup.EndedExactly(list);
    ItemsCount(segments);
    forall i | 0 <= i < |segments|
      ensures ItemsOf(segments)[i]
           == Item(Some(own[from + i].date), Some(own[from + i].shown), SegmentFilename(from + i))
    {
      ItemsOfAt(segments, i);
    }
  }

  lemma {:induction false} Durations(segments: seq<PlaylistSegment>, own: seq<Arrival>, from: nat, k: nat, bound: int)
    requires Lists(segments, own, from, k)
    ensures (forall i :: 0 <= i < |segments| ==> segments[i].ticks <= bound * 90000) <==>
      forall i :: from <= i < k ==> own[i].segment.duration <= bound * 90000
  {
    if forall i :: 0 <= i < |segments| ==> segments[i].ticks <= bound * 90000 {
      forall i | from <= i < k
        ensures own[i].segment.duration <= bound * 90000
      {
        assert segments[i - from].ticks <= bound * 90000;
      }
    }
  }

  /** And it finds the configured version and type, as target duration the least positive number of seconds that no
      listed segment exceeds, and as media sequence the number of segments that have left the window, or 0 if it lists
      none. */
  lemma {:induction false} HeaderReachesPlayer(
    cfg: Config, arrivals: seq<Arrival>, r: string, log: seq<Output>, bound: int)
    returns (k: nat, text: string)
    requires InOrder(PackAll(arrivals)) && Printed(PackAll(arrivals)) && log <= FullLog(cfg, PackAll(arrivals))
    requires MediaPlaylistPath(cfg.stream, r) in Objects(log)
    requires forall i :: 0 <= i < |Own(arrivals, r)| ==> Own(arrivals, r)[i].segment.duration <= 0xFFFF_FFFF * 90000
    ensures Encodes(Text(text), Objects(log)[MediaPlaylistPath(cfg.stream, r)])
    ensures 0 < k <= |Own(arrivals, r)|
    ensures var lines, own, from := Cleanup.Lines(text), Own(arrivals, r), Left(cfg, k);
      var version, target := FirstValue(lines, "#EXT-X-VERSION:"), FirstValue(lines, "#EXT-X-TARGETDURATION:");
      var first := FirstValue(lines, "#EXT-X-MEDIA-SEQUENCE:");
      && version.Some? && ValueOf(version.value) == cfg.hlsVersion
      && FirstValue(lines, "#EXT-X-PLAYLIST-TYPE:") == (if cfg.isVod then Some("VOD") else None)
      && first.Some? && ValueOf(first.value) == (if from < k then from else 0)
      && target.Some?
      && (bound >= ValueOf(target.value) <==>
            bound >= 1 && forall i :: from <= i < k ==> own[i].segment.duration <= bound * 90000)
    ensures log == FullLog(cfg, PackAll(arrivals)) ==> k == |Own(arrivals, r)|
  {
    var list;
    k, list := ListStored(cfg, arrivals, r, log);
    text := Cleanup.PublishedText(list);
    var own, from := Own(arrivals, r), Left(cfg, k);
    Durations(list.segments, own, from, k, 0xFFFF_FFFF);
    HeaderReadBack(list, bound);
    Durations(list.segments, own, from, k, bound);
  }
}
